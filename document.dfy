/** The part of the editor's text-document interface the provider reads:
    line text, single-line ranges, `offsetAt` and the language identifier. */
module Document {

  /** A cursor position: zero-based line and character. */
  datatype Position = Position(line: nat, character: nat)

  /** A read-only snapshot of a buffer: its lines without their terminators,
      the length of the line terminator (1 for LF, 2 for CRLF) and the
      language identifier the editor assigned to it. */
  datatype Doc = Doc(lines: seq<string>, eolLength: nat, languageId: string)

  predicate ValidPosition(d: Doc, p: Position) {
    p.line < |d.lines|
  }

  function Min(a: nat, b: nat): nat { if a <= b then a else b }

  /** `getText(new Range(line, a, line, b))`: a range orders its two ends,
      and the document clamps both to the line. */
  function LineText(d: Doc, line: nat, a: nat, b: nat): (r: string)
    requires line < |d.lines|
    ensures var lo := Min(Min(a, b), |d.lines[line]|);
            var hi := Min(if a <= b then b else a, |d.lines[line]|);
            lo <= hi && r == d.lines[line][lo..hi]
  {
    var text := d.lines[line];
    var lo := if a <= b then a else b;
    var hi := if a <= b then b else a;
    text[Min(lo, |text|)..Min(hi, |text|)]
  }

  /** `getTextBeforePosition`: the current line up to the cursor. */
  function TextBefore(d: Doc, p: Position): (r: string)
    requires ValidPosition(d, p)
    ensures |r| == Min(p.character, |d.lines[p.line]|)
    ensures r == d.lines[p.line][..|r|]
  {
    var text := d.lines[p.line];
    text[..Min(p.character, |text|)]
  }

  /** The text before the cursor is the range from the start of the line to it. */
  lemma TextBeforeIsRange(d: Doc, p: Position)
    requires ValidPosition(d, p)
    ensures TextBefore(d, p) == LineText(d, p.line, 0, p.character)
  {
  }

  /** The number of characters, terminators included, of the lines above `line`. */
  function LinesBefore(d: Doc, line: nat): nat
    requires line <= |d.lines|
  {
    if line == 0 then 0 else LinesBefore(d, line - 1) + |d.lines[line - 1]| + d.eolLength
  }

  /** `offsetAt(new Position(line, character))`, the character clamped to the line. */
  function OffsetAt(d: Doc, line: nat, character: nat): nat
    requires line < |d.lines|
  {
    LinesBefore(d, line) + Min(character, |d.lines[line]|)
  }

  /** Offsets order positions: a later position inside the document has a
      larger offset, provided lines are terminated by at least one character. */
  lemma {:induction false} OffsetAtOrdered(d: Doc, l1: nat, c1: nat, l2: nat, c2: nat)
    requires 1 <= d.eolLength
    requires l1 < |d.lines| && l2 < |d.lines|
    requires c1 <= |d.lines[l1]| && c2 <= |d.lines[l2]|
    requires l1 < l2 || (l1 == l2 && c1 < c2)
    ensures OffsetAt(d, l1, c1) < OffsetAt(d, l2, c2)
  {
    if l1 < l2 {
      LinesBeforeGrows(d, l1 + 1, l2);
    }
  }

  lemma {:induction false} LinesBeforeGrows(d: Doc, a: nat, b: nat)
    requires a <= b <= |d.lines|
    ensures LinesBefore(d, a) <= LinesBefore(d, b)
    decreases b - a
  {
    if a < b {
      LinesBeforeGrows(d, a, b - 1);
    }
  }

  /** Offsets only depend on the lengths of the lines above and the terminator. */
  lemma {:induction false} OffsetAtDependsOnLengths(d1: Doc, d2: Doc, line: nat, character: nat)
    requires line < |d1.lines| && line < |d2.lines| && d1.eolLength == d2.eolLength
    requires forall k | 0 <= k <= line :: |d1.lines[k]| == |d2.lines[k]|
    ensures OffsetAt(d1, line, character) == OffsetAt(d2, line, character)
  {
    LinesBeforeSame(d1, d2, line);
  }

  lemma {:induction false} LinesBeforeSame(d1: Doc, d2: Doc, line: nat)
    requires line <= |d1.lines| && line <= |d2.lines| && d1.eolLength == d2.eolLength
    requires forall k | 0 <= k < line :: |d1.lines[k]| == |d2.lines[k]|
    ensures LinesBefore(d1, line) == LinesBefore(d2, line)
  {
    if line > 0 {
      LinesBeforeSame(d1, d2, line - 1);
    }
  }
}
