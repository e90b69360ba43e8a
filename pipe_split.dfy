/** The line-split rule the PDF sink hands to iText: a line may break after a pipe, a
    hyphen, a space or a control character. */
module PipeSplit {
  import opened Wrappers

  /** A Java char: an unsigned 16-bit code unit. */
  newtype Char16 = c: int | 0 <= c < 0x1_0000

  const PIPE: Char16 := 124
  const HYPHEN: Char16 := 45
  const SPACE: Char16 := 32

  /** A chunk of iText's layout, reduced to what the rule asks of it: the code points its
      font maps some characters to. */
  datatype PdfChunk = PdfChunk(equivalents: map<Char16, int>)

  /** A character's Unicode equivalent in the chunk's font; unmapped characters are their
      own equivalent. */
  function UnicodeEquivalent(chunk: PdfChunk, c: Char16): int
  {
    if c in chunk.equivalents then chunk.equivalents[c] else c as int
  }

  /** The cast of an int to char: its low 16 bits. */
  function ToChar16(x: int): (c: Char16)
    ensures 0 <= x < 0x1_0000 ==> c as int == x
  {
    (x % 0x1_0000) as Char16
  }

  /** The chunk the rule consults: the one at `current`, or the last one when there are
      fewer chunks than characters. */
  function ChunkIndex(current: nat, chunks: nat): (k: nat)
    requires chunks > 0
    ensures k < chunks
    ensures current < chunks ==> k == current
    ensures current >= chunks ==> k == chunks - 1
  {
    if current < chunks - 1 then current else chunks - 1
  }

  /** The character the rule classifies. */
  function SelectedChar(current: nat, cc: seq<Char16>, ck: Option<seq<PdfChunk>>): Char16
    requires current < |cc| && (ck.Some? ==> |ck.value| > 0)
  {
    if ck.None? then cc[current]
    else ToChar16(UnicodeEquivalent(ck.value[ChunkIndex(current, |ck.value|)], cc[current]))
  }

  /** The characters a line may break after. */
  predicate BreaksAfter(c: Char16)
  {
    c == PIPE || c <= SPACE || c == HYPHEN
  }

  /** isSplitCharacter; a null chunk array is None. The source indexes `cc` at
      `current` and, given chunks, the clamped index, so both must be in range. Without
      chunks the character itself decides; with them, its equivalent in the chunk at
      `current`, or in the last chunk past the end of the chunks. */
  function IsSplitCharacter(start: int, current: nat, end: int, cc: seq<Char16>,
                            ck: Option<seq<PdfChunk>>): (r: bool)
    requires current < |cc| && (ck.Some? ==> |ck.value| > 0)
    ensures ck.None? ==> (r <==> BreaksAfter(cc[current]))
    ensures ck.Some? && current < |ck.value| ==>
              (r <==> BreaksAfter(ToChar16(UnicodeEquivalent(ck.value[current], cc[current]))))
    ensures ck.Some? && current >= |ck.value| ==>
              (r <==> BreaksAfter(ToChar16(UnicodeEquivalent(ck.value[|ck.value| - 1], cc[current]))))
  {
    BreaksAfter(SelectedChar(current, cc, ck))
  }

  /** Only the current character and the chunks matter, not the bounds of the text. */
  lemma IgnoresBounds(start: int, end: int, start': int, end': int, current: nat,
                      cc: seq<Char16>, ck: Option<seq<PdfChunk>>)
    requires current < |cc| && (ck.Some? ==> |ck.value| > 0)
    ensures IsSplitCharacter(start, current, end, cc, ck) == IsSplitCharacter(start', current, end', cc, ck)
  {
  }

  /** A chunk that does not remap the current character decides as no chunks do. */
  lemma UnmappedLikeNoChunks(start: int, current: nat, end: int, cc: seq<Char16>, chunks: seq<PdfChunk>)
    requires current < |cc| && |chunks| > 0
    requires cc[current] !in chunks[ChunkIndex(current, |chunks|)].equivalents
    ensures IsSplitCharacter(start, current, end, cc, Some(chunks)) == IsSplitCharacter(start, current, end, cc, None)
  {
  }

  /** Letters and digits never allow a break. */
  lemma LettersAndDigitsDoNotBreak(c: Char16)
    requires 'a' as Char16 <= c <= 'z' as Char16 || 'A' as Char16 <= c <= 'Z' as Char16
          || '0' as Char16 <= c <= '9' as Char16
    ensures !BreaksAfter(c)
  {
  }

  /** An equivalent beyond 16 bits is truncated by the cast: 0x1007C is read as a pipe. */
  lemma WideEquivalentTruncates(cc: seq<Char16>, chunks: seq<PdfChunk>)
    requires |cc| == 1 && cc[0] == 'x' as Char16
    requires chunks == [PdfChunk(map['x' as Char16 := 0x1007C])]
    ensures IsSplitCharacter(0, 0, 1, cc, Some(chunks))
    ensures !IsSplitCharacter(0, 0, 1, cc, None)
  {
    assert SelectedChar(0, cc, Some(chunks)) == PIPE;
  }
}
