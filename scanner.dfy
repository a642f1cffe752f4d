/** What the provider reads off the document around the cursor: the tag the
    cursor is inside (`getPreTag`, `matchTag`), the attribute whose value is
    being typed (`getPreAttr`, `matchAttr`), an unfinished tag name
    (`isTagStart`) and the `<script>` marker of single-file components
    (`notInTemplate`). */
module Scanner {
  import opened Chars
  import opened Optional
  import opened Document
  import opened Patterns

  /** A tag found by `matchTag`: its name and the document offset of its `<`. */
  datatype TagObject = TagObject(text: string, offset: nat)

  /** What `matchTag` makes of one line. */
  datatype LineScan = Break | Found(tag: TagObject) | NoMatch

  // ---------------------------------------------------------------------
  // matchTag

  /** The right-most `tagReg` match starting below `k`. */
  function LastTagOpenBelow(s: string, k: nat): (r: Option<nat>)
    requires k <= |s|
    ensures r.Some? ==> r.value < k && TagOpenAt(s, r.value)
    ensures r.Some? ==> forall q | r.value < q < k :: !TagOpenAt(s, q)
    ensures r.None? ==> forall q: nat | q < k :: !TagOpenAt(s, q)
  {
    if k == 0 then None
    else if TagOpenAt(s, k - 1) then Some(k - 1)
    else LastTagOpenBelow(s, k - 1)
  }

  /** The right-most `tagReg` match of the text. */
  function LastTagOpen(s: string): (r: Option<nat>)
    ensures r.Some? ==> TagOpenAt(s, r.value) && forall q | r.value < q :: !TagOpenAt(s, q)
    ensures r.None? ==> forall q :: !TagOpenAt(s, q)
  {
    LastTagOpenBelow(s, |s|)
  }

  /** No match of `tagReg` starts strictly between `last` and `from`. */
  predicate NoTagOpenBetween(s: string, last: int, from: nat) {
    forall q: nat | last < q < from :: !TagOpenAt(s, q)
  }

  /** After a match, the search resumes at its end: nothing starts inside it. */
  lemma ScanPastMatch(s: string, m: nat)
    requires TagOpenAt(s, m)
    ensures NoTagOpenBetween(s, m, TagMatchEnd(s, m))
  {
    forall q: nat | m < q < TagMatchEnd(s, m) ensures !TagOpenAt(s, q) {
      NoTagOpenInsideMatch(s, m, q);
    }
  }

  /** A left-to-right run of `exec` that has run out stopped on the last
      match of the text, if any. */
  lemma ScanEndsOnLastOpen(s: string, last: int, from: nat)
    requires -1 <= last < from
    requires last >= 0 ==> TagOpenAt(s, last)
    requires NoTagOpenBetween(s, last, from) && ExecTag(s, from).None?
    ensures last >= 0 ==> LastTagOpen(s) == Some(last)
    ensures last < 0 ==> LastTagOpen(s).None?
  {
  }

  /** `matchTag(tagReg, txt, line)`; `current` says whether `line` is the
      cursor's line, the only one on which the last two break tests apply. */
  function MatchTagResult(d: Doc, line: nat, txt: string, current: bool): LineScan
    requires line < |d.lines|
  {
    if IsBreak(txt, current) then Break
    else match LastTagOpen(txt)
      case None => NoMatch
      case Some(p) => Found(TagObject(TagNameAt(txt, p), OffsetAt(d, line, p)))
  }

  /** On a line that does not break the scan, `matchTag` finds a tag exactly
      when the line holds a `<name<ws>`, and then the right-most one: its
      name and the offset of its `<`. */
  lemma MatchTagFound(d: Doc, line: nat, txt: string, current: bool, t: TagObject)
    requires line < |d.lines| && !IsBreak(txt, current)
    ensures MatchTagResult(d, line, txt, current) == Found(t) <==>
      exists p | 0 <= p < |txt| ::
        TagOpenAt(txt, p) && (forall q | p < q :: !TagOpenAt(txt, q))
        && t == TagObject(TagNameAt(txt, p), OffsetAt(d, line, p))
  {
    if MatchTagResult(d, line, txt, current) == Found(t) {
      var p := LastTagOpen(txt).value;
      assert TagOpenAt(txt, p);
    }
    if exists p | 0 <= p < |txt| ::
        TagOpenAt(txt, p) && (forall q | p < q :: !TagOpenAt(txt, q))
        && t == TagObject(TagNameAt(txt, p), OffsetAt(d, line, p)) {
      var p :| 0 <= p < |txt| &&
        TagOpenAt(txt, p) && (forall q | p < q :: !TagOpenAt(txt, q))
        && t == TagObject(TagNameAt(txt, p), OffsetAt(d, line, p));
      var r := LastTagOpen(txt);
      assert r.Some? by { assert TagOpenAt(txt, p); }
      assert r.value == p;
    }
  }

  /** Typing `<` ends the scan on the cursor's line. */
  lemma TrailingLtBreaks(d: Doc, line: nat, txt: string)
    requires line < |d.lines| && 0 < |txt| && txt[|txt| - 1] == '<'
    ensures MatchTagResult(d, line, txt, true) == Break
  {
    LastCharBreak(txt);
  }

  /** On a line without `>`, only the cursor's line ending in `<` breaks the scan. */
  lemma NoGtNoBreak(d: Doc, line: nat, txt: string, current: bool)
    requires line < |d.lines| && forall i | 0 <= i < |txt| :: txt[i] != '>'
    ensures MatchTagResult(d, line, txt, current).Break? <==> current && 0 < |txt| && txt[|txt| - 1] == '<'
  {
    BreakNeedsGt(txt, current);
  }

  // ---------------------------------------------------------------------
  // getPreTag

  /** The text `getPreTag` hands to `matchTag` for a line: the text before
      the cursor on the cursor's line, the whole line above it. */
  function ScanText(d: Doc, p: Position, line: nat): (r: string)
    requires ValidPosition(d, p) && line <= p.line
    ensures line < p.line ==> r == d.lines[line]
    ensures line == p.line ==> r == TextBefore(d, p)
  {
    if line == p.line then TextBefore(d, p) else d.lines[line]
  }

  function ScanLine(d: Doc, p: Position, line: nat): LineScan
    requires ValidPosition(d, p) && line <= p.line
  {
    MatchTagResult(d, line, ScanText(d, p, line), line == p.line)
  }

  /** The lowest line `getPreTag` looks at: ten lines in all, the cursor's included. */
  function WindowLow(p: Position): nat {
    if p.line >= 9 then p.line - 9 else 0
  }

  /** The scan from `line` up the document (towards line 0), as the `while`
      loop of `getPreTag` runs it. */
  function ScanFrom(d: Doc, p: Position, line: int): Option<TagObject>
    requires ValidPosition(d, p) && line <= p.line
    decreases line + 1
  {
    if !(p.line - line < 10 && line >= 0) then None
    else match ScanLine(d, p, line)
      case Break => None
      case Found(t) => Some(t)
      case NoMatch => ScanFrom(d, p, line - 1)
  }

  /** `getPreTag()` */
  function PreTag(d: Doc, p: Position): Option<TagObject>
    requires ValidPosition(d, p)
  {
    ScanFrom(d, p, p.line)
  }

  /** A line inside the window on which nothing is found passes the scan on. */
  lemma ScanFromNoMatch(d: Doc, p: Position, line: nat)
    requires ValidPosition(d, p) && line <= p.line && p.line - line < 10
    requires ScanLine(d, p, line) == NoMatch
    ensures ScanFrom(d, p, line) == ScanFrom(d, p, line - 1)
  {
  }

  /** One step of the scan, on a line inside the window. */
  lemma ScanFromHere(d: Doc, p: Position, line: nat)
    requires ValidPosition(d, p) && line <= p.line && p.line - line < 10
    ensures ScanLine(d, p, line).Break? ==> ScanFrom(d, p, line).None?
    ensures ScanLine(d, p, line).Found? ==> ScanFrom(d, p, line) == Some(ScanLine(d, p, line).tag)
    ensures ScanLine(d, p, line).NoMatch? ==> ScanFrom(d, p, line) == ScanFrom(d, p, line - 1)
  {
  }

  /** Every line between `l` and `line` (after `l`, up to and including
      `line`) found nothing and did not break the scan. */
  predicate NothingBetween(d: Doc, p: Position, l: nat, line: int)
    requires ValidPosition(d, p) && line <= p.line
  {
    forall m | l < m <= line :: ScanLine(d, p, m) == NoMatch
  }

  lemma NothingBetweenExtend(d: Doc, p: Position, l: nat, line: int)
    requires ValidPosition(d, p) && l < line <= p.line
    requires NothingBetween(d, p, l, line - 1) && ScanLine(d, p, line) == NoMatch
    ensures NothingBetween(d, p, l, line)
  {
  }

  lemma NothingBetweenShrink(d: Doc, p: Position, l: nat, line: int)
    requires ValidPosition(d, p) && l < line <= p.line
    requires NothingBetween(d, p, l, line)
    ensures NothingBetween(d, p, l, line - 1) && ScanLine(d, p, line) == NoMatch
  {
  }

  /** A tag the scan returns comes from a line of the window, and every line
      between it and the line the scan started from found nothing. */
  lemma {:induction false} ScanFromSound(d: Doc, p: Position, line: int, t: TagObject) returns (l: nat)
    requires ValidPosition(d, p) && line <= p.line
    requires ScanFrom(d, p, line) == Some(t)
    ensures WindowLow(p) <= l <= line && ScanLine(d, p, l) == Found(t)
    ensures NothingBetween(d, p, l, line)
    decreases line + 1
  {
    assert p.line - line < 10 && line >= 0;
    ScanFromHere(d, p, line);
    if ScanLine(d, p, line).Found? {
      l := line;
    } else {
      l := ScanFromSound(d, p, line - 1, t);
      NothingBetweenExtend(d, p, l, line);
    }
  }

  /** Lines that found nothing pass the scan on to the line below them. */
  lemma {:induction false} ScanFromSkip(d: Doc, p: Position, line: int, l: nat)
    requires ValidPosition(d, p) && WindowLow(p) <= l <= line <= p.line
    requires NothingBetween(d, p, l, line)
    ensures ScanFrom(d, p, line) == ScanFrom(d, p, l)
    decreases line - l
  {
    if l < line {
      NothingBetweenShrink(d, p, l, line);
      ScanFromNoMatch(d, p, line);
      ScanFromSkip(d, p, line - 1, l);
    }
  }

  /** `getPreTag` returns the tag of the first line, going up from the cursor
      within the ten-line window, on which `matchTag` finds one, provided
      every line before it found nothing and did not break the scan. */
  lemma PreTagLookback(d: Doc, p: Position, t: TagObject)
    requires ValidPosition(d, p)
    ensures PreTag(d, p) == Some(t) <==>
      exists l | WindowLow(p) <= l <= p.line ::
        ScanLine(d, p, l) == Found(t) && NothingBetween(d, p, l, p.line)
  {
    if PreTag(d, p) == Some(t) {
      var l := ScanFromSound(d, p, p.line, t);
    }
    if exists l | WindowLow(p) <= l <= p.line ::
        ScanLine(d, p, l) == Found(t) && NothingBetween(d, p, l, p.line) {
      var l :| WindowLow(p) <= l <= p.line &&
        ScanLine(d, p, l) == Found(t) && NothingBetween(d, p, l, p.line);
      ScanFromSkip(d, p, p.line, l);
      ScanFromHere(d, p, l);
    }
  }

  /** A line that breaks the scan, reached before any tag, leaves no tag. */
  lemma PreTagStopsAtBreak(d: Doc, p: Position, l: nat)
    requires ValidPosition(d, p) && WindowLow(p) <= l <= p.line
    requires ScanLine(d, p, l) == Break && NothingBetween(d, p, l, p.line)
    ensures PreTag(d, p).None?
  {
    ScanFromSkip(d, p, p.line, l);
    ScanFromHere(d, p, l);
  }

  /** `getPreTag` reads nothing of the lines outside its window but their
      lengths, which the offsets depend on. */
  lemma {:induction false} ScanFromWindow(d1: Doc, d2: Doc, p: Position, line: int)
    requires ValidPosition(d1, p) && ValidPosition(d2, p) && line <= p.line
    requires d1.eolLength == d2.eolLength
    requires forall l | WindowLow(p) <= l <= p.line :: d1.lines[l] == d2.lines[l]
    requires forall l | 0 <= l <= p.line :: |d1.lines[l]| == |d2.lines[l]|
    ensures ScanFrom(d1, p, line) == ScanFrom(d2, p, line)
    decreases line + 1
  {
    if p.line - line < 10 && line >= 0 {
      assert WindowLow(p) <= line;
      assert ScanText(d1, p, line) == ScanText(d2, p, line);
      forall q: nat ensures OffsetAt(d1, line, q) == OffsetAt(d2, line, q) {
        OffsetAtDependsOnLengths(d1, d2, line, q);
      }
      assert ScanLine(d1, p, line) == ScanLine(d2, p, line);
      ScanFromWindow(d1, d2, p, line - 1);
    }
  }

  lemma PreTagWindow(d1: Doc, d2: Doc, p: Position)
    requires ValidPosition(d1, p) && ValidPosition(d2, p)
    requires d1.eolLength == d2.eolLength
    requires forall l | WindowLow(p) <= l <= p.line :: d1.lines[l] == d2.lines[l]
    requires forall l | 0 <= l <= p.line :: |d1.lines[l]| == |d2.lines[l]|
    ensures PreTag(d1, p) == PreTag(d2, p)
  {
    ScanFromWindow(d1, d2, p, p.line);
  }

  // ---------------------------------------------------------------------
  // getPreAttr / matchAttr

  /** `matchAttr(attrReg, txt)`: nothing when the text holds a complete
      `"…"`, otherwise group 1 of the left-most match; an empty group is
      falsy and counts as nothing. */
  function MatchAttr(t: string): (r: Option<string>)
    ensures HasQuotedString(t) ==> r.None?
    ensures r.Some? ==> 0 < |r.value| && AttrNameShape(r.value)
  {
    if HasQuotedString(t) then None
    else match ExecAttr(t, 0)
      case None => None
      case Some(p) =>
        var (q, e) := AttrMatchAt(t, p).value;
        AttrMatchAtIsShape(t, p, q, e);
        if q == e then None else Some(t[q..e])
  }

  /** Where the pattern first matches, `matchAttr` yields its group 1, unless
      that group is empty or the text holds a complete `"…"`. */
  lemma MatchAttrLeftmost(t: string, p: nat, q: nat, e: nat)
    requires AttrShapeAt(t, p, q, e)
    requires forall p' | 0 <= p' < p :: AttrMatchAt(t, p').None?
    ensures MatchAttr(t) == if HasQuotedString(t) || q == e then None else Some(t[q..e])
  {
    AttrMatchAtIsShape(t, p, q, e);
    var r := ExecAttr(t, 0);
    assert r == Some(p);
  }

  /** Where the pattern matches nowhere, `matchAttr` yields nothing. */
  lemma MatchAttrNoMatch(t: string)
    requires forall p | 0 <= p <= |t| :: AttrMatchAt(t, p).None?
    ensures MatchAttr(t).None?
  {
  }

  /** The text `getPreAttr` hands to `matchAttr`: from just after the last
      space before the cursor, once an unclosed `"…` at the end is dropped,
      up to the cursor. */
  function PreAttrText(d: Doc, p: Position): string
    requires ValidPosition(d, p)
  {
    var txt := StripOpenValue(TextBefore(d, p));
    var start := LastIndexOf(txt, ' ', p.character) + 1;
    LineText(d, p.line, start, p.character)
  }

  /** `getPreAttr()` */
  function PreAttr(d: Doc, p: Position): Option<string>
    requires ValidPosition(d, p)
  {
    MatchAttr(PreAttrText(d, p))
  }

  /** The window of `getPreAttr` is a stretch of the cursor's line before the
      cursor, and no space lies inside it before the dropped value. */
  lemma PreAttrTextIsBeforeCursor(d: Doc, p: Position)
    requires ValidPosition(d, p)
    ensures var txt := StripOpenValue(TextBefore(d, p));
      var w := PreAttrText(d, p);
      var start := LastIndexOf(txt, ' ', p.character) + 1;
      start <= |TextBefore(d, p)| && w == TextBefore(d, p)[start..]
      && forall k | start <= k < |txt| :: txt[k] != ' '
  {
    var before := TextBefore(d, p);
    var txt := StripOpenValue(before);
    var start := LastIndexOf(txt, ' ', p.character) + 1;
    var line := d.lines[p.line];
    assert start <= |txt| <= |before| <= p.character;
    assert |before| <= |line| && before == line[..|before|];
    assert PreAttrText(d, p) == line[start..|before|];
    assert line[start..|before|] == before[start..];
  }

  // ---------------------------------------------------------------------
  // isTagStart / notInTemplate

  /** `isTagStart()` */
  predicate IsTagStart(d: Doc, p: Position)
    requires ValidPosition(d, p)
  {
    EndsInTagStart(TextBefore(d, p))
  }

  /** A `<` just typed: the scan finds no enclosing tag, and a tag name starts. */
  lemma TypedLtStartsTag(d: Doc, p: Position)
    requires ValidPosition(d, p)
    requires var t := TextBefore(d, p); 0 < |t| && t[|t| - 1] == '<'
    ensures PreTag(d, p).None? && IsTagStart(d, p)
  {
    var t := TextBefore(d, p);
    TrailingLtBreaks(d, p.line, t);
    assert ScanLine(d, p, p.line) == Break;
    PreTagStopsAtBreak(d, p, p.line);
    assert t[|t|..] == [];
  }

  /** `tagStartReg` holds exactly when the last `<` is followed by a tag-name run only. */
  lemma TagStartIsLastLt(s: string)
    ensures EndsInTagStart(s) <==>
      var k := LastIndexOf(s, '<', |s|); 0 <= k && AllWordOrHyphen(s[k + 1..])
  {
    var k := LastIndexOf(s, '<', |s|);
    if EndsInTagStart(s) {
      var i :| 0 <= i < |s| && s[i] == '<' && AllWordOrHyphen(s[i + 1..]);
      if i < k {
        assert s[i + 1..][k - i - 1] == '<';
      }
    }
  }

  /** `notInTemplate()`: a `<script…>` line among the lines from the cursor's
      up to, but not including, the first one. */
  predicate NotInTemplate(d: Doc, p: Position)
    requires ValidPosition(d, p)
  {
    exists l | 1 <= l <= p.line :: IsScriptLine(d.lines[l])
  }

  /** The first line is never looked at: a `<script>` there does not count. */
  lemma NotInTemplateSkipsFirstLine(d: Doc, p: Position, first: string)
    requires ValidPosition(d, p)
    ensures NotInTemplate(d, p) == NotInTemplate(d.(lines := d.lines[0 := first]), p)
  {
    var d' := d.(lines := d.lines[0 := first]);
    forall l | 1 <= l <= p.line ensures d.lines[l] == d'.lines[l] { }
  }
}
