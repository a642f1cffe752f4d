/** The regular expressions of the completion provider, each written as a
    predicate or function over the characters it inspects. A pattern used
    with `test` is stated as "some way of splitting the text matches the
    pattern's pieces", which is exactly what a backtracking engine decides.
    A pattern used with `exec` or `replace` is stated as the left-most match
    with its greedy capture, and a lemma ties it to the pattern's shape. */
module Patterns {
  import opened Chars
  import opened Optional

  // ---------------------------------------------------------------------
  // Runs of one character class

  /** End (exclusive) of the run of `[\w-]` characters that starts at `i`. */
  function WordHyphenEnd(s: string, i: nat): (e: nat)
    requires i <= |s|
    ensures i <= e <= |s| && (forall k | i <= k < e :: IsWordOrHyphen(s[k])) && (e < |s| ==> !IsWordOrHyphen(s[e]))
    decreases |s| - i
  {
    if i < |s| && IsWordOrHyphen(s[i]) then WordHyphenEnd(s, i + 1) else i
  }

  /** End (exclusive) of the run of white space that starts at `i`. */
  function SpaceEnd(s: string, i: nat): (e: nat)
    requires i <= |s|
    ensures i <= e <= |s| && (forall k | i <= k < e :: IsSpace(s[k])) && (e < |s| ==> !IsSpace(s[e]))
    decreases |s| - i
  {
    if i < |s| && IsSpace(s[i]) then SpaceEnd(s, i + 1) else i
  }

  /** A run is determined by where it stops. */
  lemma WordHyphenEndAt(s: string, i: nat, e: nat)
    requires i <= e < |s| && (forall k | i <= k < e :: IsWordOrHyphen(s[k])) && !IsWordOrHyphen(s[e])
    ensures WordHyphenEnd(s, i) == e
    decreases e - i
  {
    if i < e {
      WordHyphenEndAt(s, i + 1, e);
    }
  }

  lemma SpaceEndAt(s: string, i: nat, e: nat)
    requires i <= e < |s| && (forall k | i <= k < e :: IsSpace(s[k])) && !IsSpace(s[e])
    ensures SpaceEnd(s, i) == e
    decreases e - i
  {
    if i < e {
      SpaceEndAt(s, i + 1, e);
    }
  }

  // ---------------------------------------------------------------------
  // tagReg = /<([\w-]+)\s+/g

  /** `tagReg` matches at `p`: a `<`, a greedy non-empty run of `[\w-]`, then
      white space. Backtracking cannot help: a shorter run is followed by a
      `[\w-]` character, which is not white space. */
  predicate TagOpenAt(s: string, p: nat) {
    p < |s| && s[p] == '<' &&
    var e := WordHyphenEnd(s, p + 1);
    p + 1 < e < |s| && IsSpace(s[e])
  }

  /** Group 1 of a `tagReg` match at `p`. */
  function TagNameAt(s: string, p: nat): (name: string)
    requires TagOpenAt(s, p)
    ensures 0 < |name| && p + 1 + |name| < |s| && AllWordOrHyphen(name)
    ensures (forall k | 0 <= k < |name| :: name[k] == s[p + 1 + k]) && IsSpace(s[p + 1 + |name|])
  {
    s[p + 1..WordHyphenEnd(s, p + 1)]
  }

  /** Where a `tagReg` match at `p` ends (the new `lastIndex`): after all of the white space. */
  function TagMatchEnd(s: string, p: nat): (e: nat)
    requires TagOpenAt(s, p)
    ensures p + 2 < e <= |s|
  {
    SpaceEnd(s, WordHyphenEnd(s, p + 1))
  }

  /** No match can start inside another one: a match holds no `<` after its first character. */
  lemma NoTagOpenInsideMatch(s: string, p: nat, q: nat)
    requires TagOpenAt(s, p) && p < q < TagMatchEnd(s, p)
    ensures !TagOpenAt(s, q)
  {
    var e := WordHyphenEnd(s, p + 1);
    if q < e {
      assert IsWordOrHyphen(s[q]);
    } else {
      assert IsSpace(s[q]);
    }
  }

  /** `tagReg.exec(s)` with `lastIndex == from`: the left-most match at or after `from`. */
  function ExecTag(s: string, from: nat): (r: Option<nat>)
    ensures r.Some? ==> from <= r.value && TagOpenAt(s, r.value)
    ensures r.Some? ==> forall q | from <= q < r.value :: !TagOpenAt(s, q)
    ensures r.None? ==> forall q | from <= q :: !TagOpenAt(s, q)
    decreases |s| - from
  {
    if from >= |s| then None
    else if TagOpenAt(s, from) then Some(from)
    else ExecTag(s, from + 1)
  }

  // ---------------------------------------------------------------------
  // The three break tests of matchTag

  /** `\/?[-\w]+[^<>]*` matches `s[lo..hi]`: what stands between a tag's `<`
      and its `>`. */
  predicate TagInside(s: string, lo: nat, hi: nat)
    requires lo <= hi <= |s|
  {
    exists k, m | lo <= k <= lo + 1 && k < m <= hi :: TagInsideAt(s, lo, hi, k, m)
  }

  /** The optional `/` ends at `k` and the name runs from `k` up to `m`. */
  predicate TagInsideAt(s: string, lo: nat, hi: nat, k: nat, m: nat)
    requires lo <= k < m <= hi <= |s|
  {
    (k == lo + 1 ==> s[lo] == '/')
    && (forall q | k <= q < m :: IsWordOrHyphen(s[q]))
    && (forall q | m <= q < hi :: s[q] != '<' && s[q] != '>')
  }

  /** `[\s\w]*<?\s*[\w-]*` matches `s[lo..]`: what may follow the `>` up to the
      end of the text. */
  predicate TextAfterTag(s: string, lo: nat)
    requires lo <= |s|
  {
    exists a, b, c | lo <= a <= b <= c <= |s| && b <= a + 1 :: TextAfterTagAt(s, lo, a, b, c)
  }

  /** The three runs end at `a`, `b` and `c`; the `<` is the character at `a`
      when `b == a + 1`. */
  predicate TextAfterTagAt(s: string, lo: nat, a: nat, b: nat, c: nat)
    requires lo <= a <= b <= c <= |s| && b <= a + 1
  {
    (forall q | lo <= q < a :: IsSpace(s[q]) || IsWord(s[q]))
    && (b == a + 1 ==> s[a] == '<')
    && (forall q | b <= q < c :: IsSpace(s[q]))
    && (forall q | c <= q < |s| :: IsWordOrHyphen(s[q]))
  }

  /** `/<\/?[-\w]+[^<>]*>[\s\w]*<?\s*[\w-]*$/.test(s)`: the text ends after a
      complete opening or closing tag, with at most plain words and one
      unfinished `<name` after it. */
  predicate ClosedTagThenText(s: string) {
    exists i, j | 0 <= i < j < |s| :: ClosedTagAt(s, i, j)
  }

  /** The tag runs from the `<` at `i` to the `>` at `j`. */
  predicate ClosedTagAt(s: string, i: nat, j: nat)
    requires i < j < |s|
  {
    s[i] == '<' && s[j] == '>' && TagInside(s, i + 1, j) && TextAfterTag(s, j + 1)
  }

  /** `/^\s*[^<]+\s*>[^<\/>]*$/.test(s)`: some text without `<`, a `>`, and
      after it no `<`, `/` or `>`. */
  predicate TextThenGt(s: string) {
    exists a, b, c | 0 <= a < b <= c < |s| :: TextThenGtAt(s, a, b, c)
  }

  /** The text without `<` spans `a..b` and the `>` is at `c`. */
  predicate TextThenGtAt(s: string, a: nat, b: nat, c: nat)
    requires a < b <= c < |s|
  {
    (forall q | 0 <= q < a :: IsSpace(s[q]))
    && (forall q | a <= q < b :: s[q] != '<')
    && (forall q | b <= q < c :: IsSpace(s[q]))
    && s[c] == '>'
    && (forall q | c < q < |s| :: s[q] != '<' && s[q] != '/' && s[q] != '>')
  }

  /** `/[^<>]*<$/.test(u)` */
  predicate EndsWithLt(u: string) {
    exists i | 0 <= i < |u| :: LtLastFrom(u, i)
  }

  /** `[^<>]*<` matches `u[i..]`. */
  predicate LtLastFrom(u: string, i: nat)
    requires i < |u|
  {
    (forall q | i <= q < |u| - 1 :: u[q] != '<' && u[q] != '>') && u[|u| - 1] == '<'
  }

  /** `txt[txt.length - 1]` as `RegExp.prototype.test` sees it: the last
      character, or the string "undefined" when `txt` is empty. */
  function LastCharText(s: string): string {
    if |s| == 0 then "undefined" else [s[|s| - 1]]
  }

  /** The third break test fires exactly when the text ends in `<`. */
  lemma LastCharBreak(s: string)
    ensures EndsWithLt(LastCharText(s)) <==> (0 < |s| && s[|s| - 1] == '<')
  {
    var u := LastCharText(s);
    if 0 < |s| && s[|s| - 1] == '<' {
      assert LtLastFrom(u, 0);
    }
    if |s| == 0 {
      assert u[|u| - 1] == 'd';
    }
  }

  /** The break condition of matchTag; the last two tests apply to the cursor's line only. */
  predicate IsBreak(txt: string, current: bool) {
    ClosedTagThenText(txt) || (current && (TextThenGt(txt) || EndsWithLt(LastCharText(txt))))
  }

  /** Without a `>` the first two tests cannot fire. */
  lemma BreakNeedsGt(txt: string, current: bool)
    requires forall i | 0 <= i < |txt| :: txt[i] != '>'
    ensures IsBreak(txt, current) <==> current && 0 < |txt| && txt[|txt| - 1] == '<'
  {
    LastCharBreak(txt);
  }

  // ---------------------------------------------------------------------
  // attrReg = /(?:\(|\s*)((\w(-)?)*)=['"][^'"]*/

  /** `(\w(-)?)*`: word characters, each optionally followed by one hyphen. */
  predicate AttrNameShape(g: string) {
    AllWordOrHyphen(g) && forall i | 0 <= i < |g| && g[i] == '-' :: 0 < i && g[i - 1] != '-'
  }

  /** The pattern matches from `p` with group 1 spanning `s[q..e]`. The final
      `[^'"]*` can match the empty string, so it imposes nothing. */
  predicate AttrShapeAt(s: string, p: nat, q: nat, e: nat) {
    p <= q <= e && e + 1 < |s|
    && ((q == p + 1 && s[p] == '(') || AllSpace(s[p..q]))
    && AttrNameShape(s[q..e]) && s[e] == '=' && IsQuote(s[e + 1])
  }

  /** Group 1 starting at `q`: it must reach the `="` or `='`, so it is the whole `[\w-]` run. */
  function AttrGroupAt(s: string, q: nat): Option<nat>
    requires q <= |s|
  {
    var e := WordHyphenEnd(s, q);
    if e + 1 < |s| && s[e] == '=' && IsQuote(s[e + 1]) && HyphensSingle(s, q, e) then Some(e) else None
  }

  /** No hyphen of `s[q..e]` comes first or right after another one. */
  predicate HyphensSingle(s: string, q: nat, e: nat)
    requires q <= e <= |s|
  {
    forall k | q <= k < e && s[k] == '-' :: q < k && s[k - 1] != '-'
  }

  /** The name shape of a slice, read off the text itself. */
  lemma AttrNameShapeIn(s: string, q: nat, e: nat)
    requires q <= e <= |s|
    ensures AttrNameShape(s[q..e]) <==> (forall k | q <= k < e :: IsWordOrHyphen(s[k])) && HyphensSingle(s, q, e)
  {
    var g := s[q..e];
    assert forall k | 0 <= k < |g| :: g[k] == s[q + k];
    if AttrNameShape(g) {
      forall k | q <= k < e ensures IsWordOrHyphen(s[k]) {
        assert s[k] == g[k - q];
      }
      forall k | q <= k < e && s[k] == '-' ensures q < k && s[k - 1] != '-' {
        assert s[k] == g[k - q];
      }
    }
  }

  /** The match attempt at `p`: the `\(` alternative first, then `\s*`, greedy. */
  function AttrMatchAt(s: string, p: nat): Option<(nat, nat)>
    requires p <= |s|
  {
    if p < |s| && s[p] == '(' then
      match AttrGroupAt(s, p + 1)
      case Some(e) => Some((p + 1, e))
      case None => None
    else
      var q := SpaceEnd(s, p);
      match AttrGroupAt(s, q)
      case Some(e) => Some((q, e))
      case None => None
  }

  /** The attempt at `p` succeeds exactly when the pattern can match from
      `p`, and then with the only possible extent of group 1. */
  lemma AttrMatchAtIsShape(s: string, p: nat, q: nat, e: nat)
    requires p <= |s|
    ensures AttrMatchAt(s, p) == Some((q, e)) <==> AttrShapeAt(s, p, q, e)
  {
    if AttrShapeAt(s, p, q, e) {
      AttrShapeMatches(s, p, q, e);
    }
    if AttrMatchAt(s, p) == Some((q, e)) {
      AttrMatchHasShape(s, p);
    }
  }

  /** A match of the pattern from `p` is the one the attempt finds. */
  lemma AttrShapeMatches(s: string, p: nat, q: nat, e: nat)
    requires p <= |s| && AttrShapeAt(s, p, q, e)
    ensures AttrMatchAt(s, p) == Some((q, e))
  {
    var g := s[q..e];
    AttrNameShapeIn(s, q, e);
    WordHyphenEndAt(s, q, e);
    assert AttrGroupAt(s, q) == Some(e);
    if s[p] != '(' {
      var w := s[p..q];
      forall k | p <= k < q ensures IsSpace(s[k]) {
        assert s[k] == w[k - p];
      }
      if q < e {
        assert IsWordOrHyphen(g[0]);
      }
      SpaceEndAt(s, p, q);
    } else {
      assert q == p + 1;
    }
  }

  /** What the attempt at `p` finds is a match of the pattern. */
  lemma AttrMatchHasShape(s: string, p: nat)
    requires p <= |s| && AttrMatchAt(s, p).Some?
    ensures AttrShapeAt(s, p, AttrMatchAt(s, p).value.0, AttrMatchAt(s, p).value.1)
  {
    var (q, e) := AttrMatchAt(s, p).value;
    AttrNameShapeIn(s, q, e);
    if !(p < |s| && s[p] == '(') {
      assert forall k | 0 <= k < q - p :: s[p..q][k] == s[p + k];
    }
  }

  /** `attrReg.exec(s)` (the pattern has no `g` flag, so the search starts at 0
      on every call): the left-most start at which the pattern matches; the
      attempt there gives group 1. */
  function ExecAttr(s: string, from: nat): (r: Option<nat>)
    requires from <= |s|
    ensures r.Some? ==> from <= r.value <= |s| && AttrMatchAt(s, r.value).Some?
    ensures r.Some? ==> forall p | from <= p < r.value :: AttrMatchAt(s, p).None?
    ensures r.None? ==> forall p | from <= p <= |s| :: AttrMatchAt(s, p).None?
    decreases |s| - from
  {
    if AttrMatchAt(s, from).Some? then Some(from)
    else if from == |s| then None
    else ExecAttr(s, from + 1)
  }

  // ---------------------------------------------------------------------
  // /"[^"]*"/.test(s): a complete double-quoted string

  predicate HasQuotedString(s: string) {
    exists i, j | 0 <= i < j < |s| :: s[i] == '"' && s[j] == '"' && NoDoubleQuote(s[i + 1..j])
  }

  /** Any two double quotes make a complete quoted string: the first one and the next one after it. */
  lemma TwoQuotesMakeString(s: string, i: nat, j: nat)
    requires i < j < |s| && s[i] == '"' && s[j] == '"'
    ensures HasQuotedString(s)
    decreases j - i
  {
    if !NoDoubleQuote(s[i + 1..j]) {
      var k :| 0 <= k < |s[i + 1..j]| && s[i + 1..j][k] == '"';
      TwoQuotesMakeString(s, i, i + 1 + k);
    }
  }

  // ---------------------------------------------------------------------
  // getPreAttr: txt.replace(/"[^'"]*(\s*)[^'"]*$/, '')

  /** The pattern, literally, matches from `p` to the end of `t`. */
  predicate OpenValueShape(t: string, p: nat) {
    p < |t| && t[p] == '"' &&
    exists a, b | p + 1 <= a <= b <= |t| :: NoQuote(t[p + 1..a]) && AllSpace(t[a..b]) && NoQuote(t[b..])
  }

  /** White space holds no quote, so the pattern is a `"` with no quote after it. */
  predicate OpenValueAt(t: string, p: nat) {
    p < |t| && t[p] == '"' && NoQuote(t[p + 1..])
  }

  lemma OpenValueShapeIff(t: string, p: nat)
    ensures OpenValueShape(t, p) <==> OpenValueAt(t, p)
  {
    if OpenValueShape(t, p) {
      var a, b :| p + 1 <= a <= b <= |t| && NoQuote(t[p + 1..a]) && AllSpace(t[a..b]) && NoQuote(t[b..]);
      forall k | p + 1 <= k < |t| ensures !IsQuote(t[k]) {
        if k < a { assert t[k] == t[p + 1..a][k - p - 1]; }
        else if k < b { assert IsSpace(t[a..b][k - a]); }
        else { assert t[k] == t[b..][k - b]; }
      }
    }
    if OpenValueAt(t, p) {
      assert NoQuote(t[p + 1..|t|]) && AllSpace(t[|t|..|t|]) && NoQuote(t[|t|..]);
    }
  }

  /** At most one position starts an open value: it is the last quote of the text. */
  lemma OpenValueUnique(t: string, p: nat, p': nat)
    requires OpenValueAt(t, p) && OpenValueAt(t, p')
    ensures p == p'
  {
  }

  function FirstOpenValue(t: string, from: nat): (r: Option<nat>)
    ensures r.Some? ==> from <= r.value && OpenValueAt(t, r.value)
    ensures r.None? ==> forall p | from <= p :: !OpenValueAt(t, p)
    decreases |t| - from
  {
    if from >= |t| then None
    else if OpenValueAt(t, from) then Some(from)
    else FirstOpenValue(t, from + 1)
  }

  /** The replacement: drop a trailing `"` that has no quote after it, and everything after it. */
  function StripOpenValue(t: string): (r: string)
    ensures |r| <= |t| && r == t[..|r|]
    ensures |r| < |t| ==> OpenValueAt(t, |r|)
    ensures |r| == |t| ==> forall p | 0 <= p :: !OpenValueAt(t, p)
  {
    match FirstOpenValue(t, 0)
    case Some(p) => t[..p]
    case None => t
  }

  // ---------------------------------------------------------------------
  // getAttrSuggestion: preText.replace(/['"]([^'"]*)['"]$/, '').split(/\s|\(+/).pop()

  /** The pattern matches from `p`: a quote, no quote, and a quote that ends the text. */
  predicate QuotedTailAt(t: string, p: nat) {
    p + 1 < |t| && IsQuote(t[p]) && NoQuote(t[p + 1..|t| - 1]) && IsQuote(t[|t| - 1])
  }

  lemma QuotedTailUnique(t: string, p: nat, p': nat)
    requires QuotedTailAt(t, p) && QuotedTailAt(t, p')
    ensures p == p'
  {
  }

  function FirstQuotedTail(t: string, from: nat): (r: Option<nat>)
    ensures r.Some? ==> from <= r.value && QuotedTailAt(t, r.value)
    ensures r.None? ==> forall p | from <= p :: !QuotedTailAt(t, p)
    decreases |t| - from
  {
    if from >= |t| then None
    else if QuotedTailAt(t, from) then Some(from)
    else FirstQuotedTail(t, from + 1)
  }

  /** The replacement: drop a complete quoted value that ends the text. */
  function StripQuotedTail(t: string): (r: string)
    ensures |r| <= |t| && r == t[..|r|]
    ensures |r| < |t| ==> QuotedTailAt(t, |r|)
    ensures |r| == |t| ==> forall p | 0 <= p :: !QuotedTailAt(t, p)
  {
    match FirstQuotedTail(t, 0)
    case Some(p) => t[..p]
    case None => t
  }

  /** A separator character of `/\s|\(+/`. */
  predicate IsSeparator(c: char) {
    IsSpace(c) || c == '('
  }

  /** The last piece of `split(/\s|\(+/)`: what follows the last separator
      character. (A run of `(` is one separator; it still ends at its last `(`.) */
  function LastToken(t: string): (r: string)
    ensures |r| <= |t| && r == t[|t| - |r|..]
    ensures forall i | 0 <= i < |r| :: !IsSeparator(r[i])
    ensures |r| < |t| ==> IsSeparator(t[|t| - |r| - 1])
  {
    if |t| == 0 || IsSeparator(t[|t| - 1]) then []
    else LastToken(t[..|t| - 1]) + [t[|t| - 1]]
  }

  predicate IsBindingMark(c: char) {
    c == ':' || c == '@'
  }

  /** Index of the first `:` or `@` at or after `from`, or `|s|` when there is none. */
  function FirstBindingMark(s: string, from: nat): (k: nat)
    requires from <= |s|
    ensures from <= k <= |s| && (k < |s| ==> IsBindingMark(s[k]))
    ensures forall i | from <= i < k :: !IsBindingMark(s[i])
    decreases |s| - from
  {
    if from == |s| || IsBindingMark(s[from]) then from else FirstBindingMark(s, from + 1)
  }

  /** `replace(/[:@]/, '')`: the first `:` or `@`, wherever it stands, is removed. */
  function RemoveFirstBinding(s: string): (r: string)
    ensures (forall i | 0 <= i < |s| :: !IsBindingMark(s[i])) ==> r == s
    ensures (exists i | 0 <= i < |s| :: IsBindingMark(s[i])) ==>
      |r| == |s| - 1
      && exists k | 0 <= k < |s| ::
        IsBindingMark(s[k])
        && (forall i | 0 <= i < k :: !IsBindingMark(s[i]) && r[i] == s[i])
        && (forall i | k <= i < |r| :: r[i] == s[i + 1])
  {
    var k := FirstBindingMark(s, 0);
    if k < |s| then s[..k] + s[k + 1..] else s
  }

  /** `[@:a-zA-z\s]`; the range `A-z` runs from code 65 to 122, so it also
      holds the six characters ``[\]^_` `` between the two alphabets. */
  predicate InPrefixClass(c: char) {
    c == '@' || c == ':' || ('a' <= c <= 'z') || ('A' <= c <= 'z') || IsSpace(c)
  }

  /** `/[^@:a-zA-z\s]/.test(u)` */
  predicate HasCharOutsidePrefixClass(u: string) {
    exists i | 0 <= i < |u| :: !InPrefixClass(u[i])
  }

  /** `prefix[0]` as `test` sees it: the first character, or "undefined" when empty. */
  function FirstCharText(s: string): string {
    if |s| == 0 then "undefined" else [s[0]]
  }

  /** The guard rejects exactly a prefix whose first character is outside the class. */
  lemma PrefixGuard(s: string)
    ensures HasCharOutsidePrefixClass(FirstCharText(s)) <==> (0 < |s| && !InPrefixClass(s[0]))
  {
    if |s| == 0 {
      var u := FirstCharText(s);
      assert forall i | 0 <= i < |u| :: 'a' <= u[i] <= 'z';
    } else {
      assert FirstCharText(s)[0] == s[0];
    }
  }

  // ---------------------------------------------------------------------
  // tagStartReg = /<([\w-]*)$/ and the script marker /^\s*<script.*>\s*$/

  /** `tagStartReg.test(s)`: a `<` followed only by `[\w-]` up to the end. */
  predicate EndsInTagStart(s: string) {
    exists i | 0 <= i < |s| :: s[i] == '<' && AllWordOrHyphen(s[i + 1..])
  }

  /** `/^\s*<script.*>\s*$/.test(s)` */
  predicate IsScriptLine(s: string) {
    exists a, b | 0 <= a && a + 7 <= b < |s| ::
      AllSpace(s[..a]) && s[a..a + 7] == "<script" && NoLineTerminator(s[a + 7..b])
      && s[b] == '>' && AllSpace(s[b + 1..])
  }

  // ---------------------------------------------------------------------
  // getAttrValues: icon.replace(/^el-icon-/, '')

  const IconPrefix: string := "el-icon-"

  function StripIconPrefix(s: string): (r: string)
    ensures |s| >= |IconPrefix| && s[..|IconPrefix|] == IconPrefix ==> IconPrefix + r == s
    ensures !(|s| >= |IconPrefix| && s[..|IconPrefix|] == IconPrefix) ==> r == s
  {
    if |s| >= |IconPrefix| && s[..|IconPrefix|] == IconPrefix then s[|IconPrefix|..] else s
  }
}
