/** The parts of java.lang.String that the modelled code relies on:
    equalsIgnoreCase, trim, split on one character and replace. */
module JavaStrings {

  /** Concatenation is associative (stated once, as the solver does not find it cheaply). */
  lemma ConcatAssoc(a: string, b: string, c: string)
    ensures (a + b) + c == a + (b + c)
  {
  }

  // ----- equalsIgnoreCase -----

  /** Lower-case mapping of one character; only ASCII letters are folded. */
  function LowerChar(c: char): char
  {
    if 'A' <= c <= 'Z' then (c as int + 32) as char else c
  }

  function ToLower(s: string): string
  {
    seq(|s|, i requires 0 <= i < |s| => LowerChar(s[i]))
  }

  /** String.equalsIgnoreCase: equal lengths and equal characters up to case. */
  predicate EqualsIgnoreCase(a: string, b: string)
  {
    ToLower(a) == ToLower(b)
  }

  // ----- trim -----

  /** String.trim removes every character whose code is at most that of a space. */
  predicate IsTrimmable(c: char)
  {
    c <= ' '
  }

  function TrimStart(s: string): (r: string)
    ensures |r| <= |s| && r == s[|s| - |r|..]
    ensures r == [] || !IsTrimmable(r[0])
    ensures forall i :: 0 <= i < |s| - |r| ==> IsTrimmable(s[i])
    decreases |s|
  {
    if s != [] && IsTrimmable(s[0]) then TrimStart(s[1..]) else s
  }

  function TrimEnd(s: string): (r: string)
    ensures |r| <= |s| && r == s[..|r|]
    ensures r == [] || !IsTrimmable(r[|r| - 1])
    ensures forall i :: |r| <= i < |s| ==> IsTrimmable(s[i])
    decreases |s|
  {
    if s != [] && IsTrimmable(s[|s| - 1]) then TrimEnd(s[..|s| - 1]) else s
  }

  /** String.trim: a slice of `s` that neither starts nor ends with a trimmable character. */
  function Trim(s: string): (r: string)
    ensures r == [] || (!IsTrimmable(r[0]) && !IsTrimmable(r[|r| - 1]))
  {
    TrimEnd(TrimStart(s))
  }

  /** Trimming yields the empty string exactly when every character is trimmable. */
  lemma TrimEmptyIff(s: string)
    ensures Trim(s) == [] <==> forall i :: 0 <= i < |s| ==> IsTrimmable(s[i])
  {
    var u := TrimStart(s);
    if Trim(s) == [] {
      // Trimming the end of `u` leaves nothing, yet `u` starts untrimmable if at all.
      assert u == [];
    }
  }

  /** A string with a non-trimmable first and last character is left as it is. */
  lemma TrimKeepsInner(s: string)
    requires s != [] && !IsTrimmable(s[0]) && !IsTrimmable(s[|s| - 1])
    ensures Trim(s) == s
  {
  }

  // ----- split -----

  /** All fields of `s` between occurrences of `sep`, empty fields included. */
  function SplitAll(s: string, sep: char): (r: seq<string>)
    ensures |r| >= 1
    decreases |s|
  {
    if s == [] then [""]
    else if s[0] == sep then [""] + SplitAll(s[1..], sep)
    else
      var rest := SplitAll(s[1..], sep);
      [[s[0]] + rest[0]] + rest[1..]
  }

  /** No field contains the separator. */
  lemma {:induction false} SplitAllFields(s: string, sep: char)
    ensures forall i :: 0 <= i < |SplitAll(s, sep)| ==> sep !in SplitAll(s, sep)[i]
    decreases |s|
  {
    if s != [] {
      SplitAllFields(s[1..], sep);
    }
  }

  /** The fields joined back with the separator between them. */
  function Join(fields: seq<string>, sep: char): string
    requires |fields| >= 1
    decreases |fields|
  {
    if |fields| == 1 then fields[0] else fields[0] + ([sep] + Join(fields[1..], sep))
  }

  /** The full split, empty trailing fields included, loses nothing: its fields rejoin to
      the original string. */
  lemma {:induction false} JoinSplitAll(s: string, sep: char)
    ensures Join(SplitAll(s, sep), sep) == s
    decreases |s|
  {
    if s != [] {
      var rest := SplitAll(s[1..], sep);
      JoinSplitAll(s[1..], sep);
      if s[0] == sep {
        var r := [""] + rest;
        assert r[1..] == rest;
        assert Join(r, sep) == "" + ([sep] + Join(rest, sep));
        assert s == [s[0]] + s[1..];
      } else {
        var r := [[s[0]] + rest[0]] + rest[1..];
        if |rest| == 1 {
          assert Join(r, sep) == [s[0]] + rest[0];
        } else {
          assert r[1..] == rest[1..];
          assert Join(rest, sep) == rest[0] + ([sep] + Join(rest[1..], sep));
          ConcatAssoc([s[0]], rest[0], [sep] + Join(rest[1..], sep));
        }
        assert s == [s[0]] + s[1..];
      }
    }
  }

  function DropTrailingEmpty(ts: seq<string>): (r: seq<string>)
    ensures r <= ts
    ensures r == [] || r[|r| - 1] != ""
    decreases |ts|
  {
    if ts != [] && ts[|ts| - 1] == "" then DropTrailingEmpty(ts[..|ts| - 1]) else ts
  }

  /** String.split with a one-character, non-regex separator: a string without the
      separator gives itself alone; otherwise trailing empty fields are dropped. */
  function Split(s: string, sep: char): seq<string>
  {
    if sep !in s then [s] else DropTrailingEmpty(SplitAll(s, sep))
  }

  /** What DropTrailingEmpty removes is empty fields only. */
  lemma {:induction false} DropTrailingEmptyRest(ts: seq<string>)
    ensures forall i :: |DropTrailingEmpty(ts)| <= i < |ts| ==> ts[i] == ""
    decreases |ts|
  {
    if ts != [] && ts[|ts| - 1] == "" {
      DropTrailingEmptyRest(ts[..|ts| - 1]);
    }
  }

  /** A string without the separator is a single field. */
  lemma {:induction false} SplitAllNoSep(s: string, sep: char)
    requires sep !in s
    ensures SplitAll(s, sep) == [s]
    decreases |s|
  {
    if s != [] {
      assert sep !in s[1..];
      SplitAllNoSep(s[1..], sep);
      assert [s[0]] + s[1..] == s;
    }
  }

  /** Java's split gives the leading fields of the full split; the fields it drops are
      all empty. */
  lemma SplitDropsTrailingEmpty(s: string, sep: char)
    ensures Split(s, sep) <= SplitAll(s, sep)
    ensures forall i :: |Split(s, sep)| <= i < |SplitAll(s, sep)| ==> SplitAll(s, sep)[i] == ""
  {
    if sep !in s {
      SplitAllNoSep(s, sep);
    } else {
      DropTrailingEmptyRest(SplitAll(s, sep));
    }
  }

  // ----- replace -----

  /** String.endsWith. */
  predicate EndsWith(s: string, p: string)
  {
    |p| <= |s| && s[|s| - |p|..] == p
  }

  lemma Back(a: string, p: string)
    ensures EndsWith(a + p, p)
  {
    assert (a + p)[|a + p| - |p|..] == p;
  }

  predicate StartsWith(s: string, p: string)
  {
    |p| <= |s| && s[..|p|] == p
  }

  /** `p` occurs somewhere in `s`. */
  predicate Contains(s: string, p: string)
    decreases |s|
  {
    |p| <= |s| && (StartsWith(s, p) || Contains(s[1..], p))
  }

  /** An occurrence at index `k` is an occurrence. */
  lemma {:induction false} ContainsAt(s: string, p: string, k: nat)
    requires k + |p| <= |s| && s[k..k + |p|] == p
    ensures Contains(s, p)
    decreases k
  {
    if k == 0 {
      assert s[..|p|] == p;
    } else {
      assert s[1..][k - 1..k - 1 + |p|] == s[k..k + |p|];
      ContainsAt(s[1..], p, k - 1);
    }
  }

  lemma ContainsMiddle(a: string, p: string, b: string)
    ensures Contains(a + (p + b), p)
  {
    var s := a + (p + b);
    assert s[|a|..|a| + |p|] == p;
    ContainsAt(s, p, |a|);
  }

  /** String.replace(target, replacement): every occurrence of `target`, scanned left
      to right without overlap, is replaced. */
  function ReplaceAll(s: string, target: string, replacement: string): string
    requires |target| > 0
    decreases |s|
  {
    if s == [] then []
    else if StartsWith(s, target) then replacement + ReplaceAll(s[|target|..], target, replacement)
    else [s[0]] + ReplaceAll(s[1..], target, replacement)
  }

  /** A string in which the target does not occur is returned unchanged. */
  lemma {:induction false} ReplaceAbsent(s: string, target: string, replacement: string)
    requires |target| > 0 && !Contains(s, target)
    ensures ReplaceAll(s, target, replacement) == s
    decreases |s|
  {
    if s != [] {
      ReplaceAbsent(s[1..], target, replacement);
    }
  }

  /** No occurrence can start inside a prefix that lacks the target's first character. */
  lemma {:induction false} ReplaceSkipsPrefix(x: string, y: string, target: string, replacement: string)
    requires |target| > 0 && target[0] !in x
    ensures ReplaceAll(x + y, target, replacement) == x + ReplaceAll(y, target, replacement)
    decreases |x|
  {
    if x != [] {
      var s := x + y;
      assert !StartsWith(s, target) by {
        assert x[0] in x;
        if |target| <= |s| {
          assert s[..|target|][0] == x[0];
        }
      }
      assert s[0] == x[0] && s[1..] == x[1..] + y;
      ReplaceSkipsPrefix(x[1..], y, target, replacement);
      calc {
        ReplaceAll(s, target, replacement);
        [s[0]] + ReplaceAll(s[1..], target, replacement);
        [x[0]] + (x[1..] + ReplaceAll(y, target, replacement));
        { assert x == [x[0]] + x[1..]; }
        x + ReplaceAll(y, target, replacement);
      }
    } else {
      assert x + y == y;
    }
  }

  /** An occurrence at the front is replaced and scanning resumes after it. */
  lemma ReplaceAtFront(y: string, target: string, replacement: string)
    requires |target| > 0
    ensures ReplaceAll(target + y, target, replacement) == replacement + ReplaceAll(y, target, replacement)
  {
    assert (target + y)[..|target|] == target;
    assert (target + y)[|target|..] == y;
  }

  /** A prefix free of the target, followed by a character the target lacks, is copied
      unchanged: no occurrence can start in it or straddle its end. */
  lemma {:induction false} ReplaceSkipsGuarded(x: string, y: string, target: string, replacement: string)
    requires |target| > 0 && !Contains(x, target)
    requires y == [] || y[0] !in target
    ensures ReplaceAll(x + y, target, replacement) == x + ReplaceAll(y, target, replacement)
    decreases |x|
  {
    if x != [] {
      var s := x + y;
      GuardedNotAtFront(x, y, target);
      assert s[0] == x[0] && s[1..] == x[1..] + y;
      ReplaceSkipsGuarded(x[1..], y, target, replacement);
      assert ReplaceAll(s, target, replacement) == [x[0]] + ReplaceAll(x[1..] + y, target, replacement);
      assert x == [x[0]] + x[1..];
      ConcatAssoc([x[0]], x[1..], ReplaceAll(y, target, replacement));
    } else {
      assert x + y == y;
    }
  }

  /** The target cannot start a guarded prefix. */
  lemma GuardedNotAtFront(x: string, y: string, target: string)
    requires x != [] && !Contains(x, target)
    requires y == [] || y[0] !in target
    ensures !StartsWith(x + y, target)
    ensures !Contains(x[1..], target)
  {
    var s := x + y;
    if |target| <= |x| {
      assert s[..|target|] == x[..|target|];
    } else if |target| <= |s| {
      assert s[..|target|][|x|] == y[0];
    }
  }

  /** Every character of an occurring pattern occurs in the string. */
  lemma {:induction false} ContainsChars(s: string, p: string, c: char)
    requires Contains(s, p) && c in p
    ensures c in s
    decreases |s|
  {
    if StartsWith(s, p) {
      var i :| 0 <= i < |p| && p[i] == c;
      assert s[i] == c;
    } else {
      ContainsChars(s[1..], p, c);
    }
  }

  /** A prefix lacking some character of the target, followed by a character the target
      lacks, is copied unchanged. */
  lemma ReplaceSkipsForeign(x: string, y: string, target: string, replacement: string, k: char)
    requires |target| > 0 && k in target && k !in x
    requires y == [] || y[0] !in target
    ensures ReplaceAll(x + y, target, replacement) == x + ReplaceAll(y, target, replacement)
  {
    if Contains(x, target) {
      ContainsChars(x, target, k);
    }
    ReplaceSkipsGuarded(x, y, target, replacement);
  }
}
