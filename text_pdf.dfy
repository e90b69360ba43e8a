/** The command line and the high-level generation entry points: splitting the `-o NAME`
    option from the positional arguments, deriving the default output name, the checks
    made before generating, and the argument guards of the two generation calls. */
module TextPdf {
  import opened Wrappers
  import opened JavaStrings

  const OUTPUT_OPTION := "-o"
  const PDF_SUFFIX := ".pdf"
  const DOC_SUFFIX := ".doc"

  /** The arguments after the option loop: `-o` last, with no value; or the positional
      arguments in order and the output name of the last `-o`. */
  datatype ArgScan = DanglingOption | Scanned(positional: seq<string>, output: Option<string>)

  /** Scanned arguments `pos` and `out`, followed by the scan of the rest: the rest's
      positional arguments come after `pos`, its output name overrides `out`. */
  function Combine(pos: seq<string>, out: Option<string>, rest: ArgScan): ArgScan
  {
    match rest
    case DanglingOption => DanglingOption
    case Scanned(p, o) => Scanned(pos + p, if o.Some? then o else out)
  }

  /** The option loop over `args`, read from the front: `-o` takes the next argument as
      the output name, whatever it is; every other argument is positional. */
  function Scan(args: seq<string>): ArgScan
    decreases |args|
  {
    if args == [] then Scanned([], None)
    else if args[0] == OUTPUT_OPTION then
      if |args| == 1 then DanglingOption
      else Combine([], Some(args[1]), Scan(args[2..]))
    else Combine([args[0]], None, Scan(args[1..]))
  }

  lemma CombineAssoc(pos: seq<string>, out: Option<string>, pos': seq<string>, out': Option<string>, rest: ArgScan)
    ensures Combine(pos, out, Combine(pos', out', rest))
         == Combine(pos + pos', if out'.Some? then out' else out, rest)
  {
    if rest.Scanned? {
      assert pos + (pos' + rest.positional) == (pos + pos') + rest.positional;
    }
  }

  /** The option loop of the command line. */
  method SplitArguments(args: seq<string>) returns (scan: ArgScan)
    ensures scan == Scan(args)
  {
    var positional: seq<string> := [];
    var output: Option<string> := None;
    var i := 0;
    while i < |args|
      invariant 0 <= i <= |args|
      invariant Scan(args) == Combine(positional, output, Scan(args[i..]))
    {
      if args[i] == OUTPUT_OPTION {
        if i >= |args| - 1 {
          assert args[i..] == [OUTPUT_OPTION];
          return DanglingOption;
        }
        assert args[i..][2..] == args[i + 2..];
        CombineAssoc(positional, output, [], Some(args[i + 1]), Scan(args[i + 2..]));
        assert positional + [] == positional;
        output := Some(args[i + 1]);
        i := i + 2;
      } else {
        assert args[i..][1..] == args[i + 1..];
        CombineAssoc(positional, output, [args[i]], None, Scan(args[i + 1..]));
        positional := positional + [args[i]];
        i := i + 1;
      }
    }
    assert args[i..] == [];
    assert positional + [] == positional;
    return Scanned(positional, output);
  }

  /** Scanning stops at exactly the arguments the first part consumed: a first part
      that scans completely is followed by the scan of the rest. */
  lemma {:induction false} ScanAppend(a: seq<string>, b: seq<string>)
    requires Scan(a).Scanned?
    ensures Scan(a + b) == Combine(Scan(a).positional, Scan(a).output, Scan(b))
    decreases |a|
  {
    if a == [] {
      assert a + b == b;
      match Scan(b)
      case DanglingOption =>
      case Scanned(p, o) => assert [] + p == p;
    } else if a[0] == OUTPUT_OPTION {
      assert (a + b)[2..] == a[2..] + b;
      ScanAppend(a[2..], b);
      CombineAssoc([], Some(a[1]), Scan(a[2..]).positional, Scan(a[2..]).output, Scan(b));
    } else {
      assert (a + b)[1..] == a[1..] + b;
      ScanAppend(a[1..], b);
      CombineAssoc([a[0]], None, Scan(a[1..]).positional, Scan(a[1..]).output, Scan(b));
    }
  }

  /** Without the option, every argument is positional, in order. */
  lemma {:induction false} NoOptionKeepsAll(args: seq<string>)
    requires OUTPUT_OPTION !in args
    ensures Scan(args) == Scanned(args, None)
    decreases |args|
  {
    if args != [] {
      assert args[0] != OUTPUT_OPTION;
      assert OUTPUT_OPTION !in args[1..];
      NoOptionKeepsAll(args[1..]);
      assert [args[0]] + args[1..] == args;
    }
  }

  /** `-o` as the last argument, after arguments that scan completely, is an error. */
  lemma DanglingAtEnd(a: seq<string>)
    requires Scan(a).Scanned?
    ensures Scan(a + [OUTPUT_OPTION]) == DanglingOption
  {
    ScanAppend(a, [OUTPUT_OPTION]);
  }

  /** The last `-o` names the output, its value is not positional, and every other
      argument stays positional in order. */
  lemma LastOptionWins(a: seq<string>, name: string, b: seq<string>)
    requires Scan(a).Scanned? && OUTPUT_OPTION !in b
    ensures Scan(a + [OUTPUT_OPTION, name] + b) == Scanned(Scan(a).positional + b, Some(name))
  {
    var tail := [OUTPUT_OPTION, name] + b;
    assert a + [OUTPUT_OPTION, name] + b == a + tail;
    ScanAppend(a, tail);
    assert tail[2..] == b;
    NoOptionKeepsAll(b);
    assert [] + b == b;
  }

  /** The option itself is never positional. */
  lemma {:induction false} OptionNeverPositional(args: seq<string>)
    requires Scan(args).Scanned?
    ensures OUTPUT_OPTION !in Scan(args).positional
    decreases |args|
  {
    if args != [] {
      if args[0] == OUTPUT_OPTION {
        OptionNeverPositional(args[2..]);
        assert [] + Scan(args[2..]).positional == Scan(args[2..]).positional;
      } else {
        OptionNeverPositional(args[1..]);
      }
    }
  }

  /** What the command line does: an error it reports (and returns), or the generation
      of `pdfName` from the template and the data file, converting the template from a
      Word document first when `fromDoc`. */
  datatype CliOutcome =
    | MissingOptionValue
    | MissingArguments
    | TemplateNotFound(path: string)
    | DataNotFound(path: string)
    | OutputExists(path: string)
    | Generate(template: string, data: string, pdfName: string, fromDoc: bool)

  /** The outcome of the command line, `existing` being the files that exist. */
  function CommandOutcome(args: seq<string>, existing: set<string>): CliOutcome
  {
    match Scan(args)
    case DanglingOption => MissingOptionValue
    case Scanned(pos, out) =>
      if |pos| < 2 then MissingArguments
      else if pos[0] !in existing then TemplateNotFound(pos[0])
      else if pos[1] !in existing then DataNotFound(pos[1])
      else
        var pdfName := if out.Some? then out.value else pos[0] + PDF_SUFFIX;
        if pdfName in existing then OutputExists(pdfName)
        else Generate(pos[0], pos[1], pdfName, EndsWith(pos[0], DOC_SUFFIX))
  }

  /** The command line: the option loop, then the checks in the source's order. */
  method CommandLine(args: seq<string>, existing: set<string>) returns (outcome: CliOutcome)
    ensures outcome == CommandOutcome(args, existing)
  {
    var scan := SplitArguments(args);
    if scan.DanglingOption? {
      return MissingOptionValue;
    }
    var args2 := scan.positional;
    if |args2| < 2 {
      return MissingArguments;
    }
    if args2[0] !in existing {
      return TemplateNotFound(args2[0]);
    }
    if args2[1] !in existing {
      return DataNotFound(args2[1]);
    }
    var pdfName := scan.output;
    if pdfName.None? {
      pdfName := Some(args2[0] + PDF_SUFFIX);
    }
    if pdfName.value in existing {
      return OutputExists(pdfName.value);
    }
    return Generate(args2[0], args2[1], pdfName.value, EndsWith(args2[0], DOC_SUFFIX));
  }

  /** Generation happens only from two existing files into one that does not exist. */
  lemma GenerateOnlyWhenSafe(args: seq<string>, existing: set<string>)
    requires CommandOutcome(args, existing).Generate?
    ensures var g := CommandOutcome(args, existing);
            g.template in existing && g.data in existing && g.pdfName !in existing
            && Scan(args).Scanned? && |Scan(args).positional| >= 2
            && g.template == Scan(args).positional[0] && g.data == Scan(args).positional[1]
  {
  }

  /** Without `-o`, the first two arguments naming existing files generate
      `<template>.pdf` when that file does not exist yet; further arguments are ignored. */
  lemma DefaultOutputName(args: seq<string>, existing: set<string>)
    requires OUTPUT_OPTION !in args && |args| >= 2
    requires args[0] in existing && args[1] in existing && args[0] + PDF_SUFFIX !in existing
    ensures CommandOutcome(args, existing)
         == Generate(args[0], args[1], args[0] + PDF_SUFFIX, EndsWith(args[0], DOC_SUFFIX))
  {
    NoOptionKeepsAll(args);
  }

  /** A trailing `-o` is reported before anything is looked up. */
  lemma DanglingReported(a: seq<string>, existing: set<string>)
    requires Scan(a).Scanned?
    ensures CommandOutcome(a + [OUTPUT_OPTION], existing) == MissingOptionValue
  {
    DanglingAtEnd(a);
  }

  /** Where the parser reads a template or data from: a file, or the UTF-8 bytes of a
      string (the encoding is not modelled, the text stands for its bytes). */
  datatype InputSource = FileInput(path: string) | BytesInput(text: string)

  /** A generation request: the template, the data and the output file. */
  datatype GenRequest = GenRequest(template: InputSource, data: InputSource, pdfFile: string)

  const ILLEGAL_ARGUMENT := "IllegalArgumentException"

  /** gen over files: throws when any argument is null (None); otherwise reads the
      template and the data from their files. */
  function GenFromFiles(xmlFile: Option<string>, jsonFile: Option<string>, pdfFile: Option<string>)
    : (r: Result<GenRequest, string>)
    ensures r.Failure? <==> xmlFile.None? || jsonFile.None? || pdfFile.None?
    ensures r.Failure? ==> r.error == ILLEGAL_ARGUMENT
    ensures r.Success? ==>
              (r.value.template.FileInput? && r.value.template.path == xmlFile.value
               && r.value.data.FileInput? && r.value.data.path == jsonFile.value
               && r.value.pdfFile == pdfFile.value)
  {
    if xmlFile == None || jsonFile == None || pdfFile == None then Failure(ILLEGAL_ARGUMENT)
    else Success(GenRequest(FileInput(xmlFile.value), FileInput(jsonFile.value), pdfFile.value))
  }

  /** gen over strings: throws when any argument is null (None); otherwise reads the
      template and the data from the strings' bytes. */
  function GenFromStrings(xmlStr: Option<string>, jsonStr: Option<string>, pdfFile: Option<string>)
    : (r: Result<GenRequest, string>)
    ensures r.Failure? <==> xmlStr.None? || jsonStr.None? || pdfFile.None?
    ensures r.Failure? ==> r.error == ILLEGAL_ARGUMENT
    ensures r.Success? ==>
              (r.value.template.BytesInput? && r.value.template.text == xmlStr.value
               && r.value.data.BytesInput? && r.value.data.text == jsonStr.value
               && r.value.pdfFile == pdfFile.value)
  {
    if xmlStr.None? then Failure(ILLEGAL_ARGUMENT)
    else if jsonStr.None? then Failure(ILLEGAL_ARGUMENT)
    else if pdfFile.None? then Failure(ILLEGAL_ARGUMENT)
    else Success(GenRequest(BytesInput(xmlStr.value), BytesInput(jsonStr.value), pdfFile.value))
  }

  /** The command line hands its generation on to gen over files. */
  lemma CommandLineGenerates(args: seq<string>, existing: set<string>)
    requires CommandOutcome(args, existing).Generate?
    ensures var g := CommandOutcome(args, existing);
            GenFromFiles(Some(g.template), Some(g.data), Some(g.pdfName)).Success?
  {
  }
}
