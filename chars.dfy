/** Character classes of JavaScript regular expressions and the few string
    primitives of JavaScript that the completion provider relies on. */
module Chars {

  /** `\w`: ASCII letters, digits and the underscore. */
  predicate IsWord(c: char) {
    ('a' <= c <= 'z') || ('A' <= c <= 'Z') || ('0' <= c <= '9') || c == '_'
  }

  /** `[\w-]` (also written `[-\w]`). */
  predicate IsWordOrHyphen(c: char) {
    IsWord(c) || c == '-'
  }

  /** `\s`: the white-space and line-terminator characters of ECMAScript. */
  predicate IsSpace(c: char) {
    c == '\t' || c == '\n' || c == '\U{000B}' || c == '\U{000C}' || c == '\r' || c == ' '
    || c == '\U{00A0}' || c == '\U{1680}' || ('\U{2000}' <= c <= '\U{200A}')
    || c == '\U{2028}' || c == '\U{2029}' || c == '\U{202F}' || c == '\U{205F}'
    || c == '\U{3000}' || c == '\U{FEFF}'
  }

  /** The characters that `.` does not match. */
  predicate IsLineTerminator(c: char) {
    c == '\n' || c == '\r' || c == '\U{2028}' || c == '\U{2029}'
  }

  predicate IsQuote(c: char) {
    c == '"' || c == '\''
  }

  predicate AllWordOrHyphen(s: string) { forall i | 0 <= i < |s| :: IsWordOrHyphen(s[i]) }
  predicate AllSpace(s: string) { forall i | 0 <= i < |s| :: IsSpace(s[i]) }
  /** `[^'"]*` */
  predicate NoQuote(s: string) { forall i | 0 <= i < |s| :: !IsQuote(s[i]) }
  /** `[^"]*` */
  predicate NoDoubleQuote(s: string) { forall i | 0 <= i < |s| :: s[i] != '"' }
  /** `.*` */
  predicate NoLineTerminator(s: string) { forall i | 0 <= i < |s| :: !IsLineTerminator(s[i]) }

  /** `String.prototype.lastIndexOf` for a one-character search string: the
      largest index not above `from` (and inside `s`) that holds `c`, or -1. */
  function LastIndexOf(s: string, c: char, from: int): (r: int)
    ensures -1 <= r < |s| && r <= if from < 0 then 0 else from
    ensures r >= 0 ==> s[r] == c
    ensures forall k | r < k < |s| && k <= from :: s[k] != c
    ensures from < 0 ==> r == (if 0 < |s| && s[0] == c then 0 else -1)
  {
    var start := if |s| == 0 then -1 else if from < 0 then 0 else if from < |s| then from else |s| - 1;
    LastIndexAtOrBelow(s, c, start)
  }

  function LastIndexAtOrBelow(s: string, c: char, k: int): (r: int)
    requires -1 <= k < |s|
    ensures -1 <= r <= k
    ensures r >= 0 ==> s[r] == c
    ensures forall j | r < j <= k :: s[j] != c
    decreases k + 1
  {
    if k < 0 then -1 else if s[k] == c then k else LastIndexAtOrBelow(s, c, k - 1)
  }

  /** `toLowerCase()` restricted to ASCII: upper-case letters map to lower case. */
  function ToLowerAscii(c: char): (r: char)
    ensures 'A' <= c <= 'Z' ==> r as int == c as int + 32
    ensures !('A' <= c <= 'Z') ==> r == c
  {
    if 'A' <= c <= 'Z' then (c as int + 32) as char else c
  }

  /** An independent statement of ASCII case-insensitive equality of two characters. */
  predicate SameLetterIgnoringCase(a: char, b: char) {
    a == b
    || ('A' <= a <= 'Z' && b as int == a as int + 32)
    || ('A' <= b <= 'Z' && a as int == b as int + 32)
  }

  lemma ToLowerAgreesWithCaseRelation(a: char, b: char)
    ensures ToLowerAscii(a) == ToLowerAscii(b) <==> SameLetterIgnoringCase(a, b)
  {
  }

  function DigitChar(d: nat): (r: char)
    requires d < 10
    ensures '0' <= r <= '9' && r as int - '0' as int == d
  {
    ('0' as int + d) as char
  }

  /** The number a string of decimal digits denotes, most significant first. */
  function DigitsValue(s: string): nat
    requires forall i | 0 <= i < |s| :: '0' <= s[i] <= '9'
  {
    if |s| == 0 then 0
    else DigitsValue(s[..|s| - 1]) * 10 + (s[|s| - 1] as int - '0' as int)
  }

  /** `String(n)` for a natural number: its decimal digits, most significant
      first, without leading zeros (`NatToStringValue`). */
  function NatToString(n: nat): (r: string)
    ensures 1 <= |r|
    ensures forall i | 0 <= i < |r| :: '0' <= r[i] <= '9'
    ensures n < 10 <==> |r| == 1
    ensures r[|r| - 1] == DigitChar(n % 10)
  {
    if n < 10 then [DigitChar(n)] else NatToString(n / 10) + [DigitChar(n % 10)]
  }

  /** The digits of `String(n)` denote `n`, and a positive `n` prints without
      a leading zero: no other string of digits meets `NatToString`'s form. */
  lemma {:induction false} NatToStringValue(n: nat)
    ensures DigitsValue(NatToString(n)) == n
    ensures 0 < n ==> NatToString(n)[0] != '0'
    decreases n
  {
    if 10 <= n {
      NatToStringValue(n / 10);
      var a := NatToString(n / 10);
      assert NatToString(n) == a + [DigitChar(n % 10)];
      assert (a + [DigitChar(n % 10)])[..|a|] == a;
    }
  }

  /** Three-digit numbers print as exactly their three digits. */
  lemma ThreeDigits(n: nat)
    requires 100 <= n < 1000
    ensures NatToString(n) == [DigitChar(n / 100), DigitChar(n / 10 % 10), DigitChar(n % 10)]
  {
    assert NatToString(n / 10) == NatToString(n / 100) + [DigitChar(n / 10 % 10)];
    assert NatToString(n / 100) == [DigitChar(n / 100)];
  }

  /** String order as JavaScript's `<` on strings: code-unit by code-unit. */
  predicate LexLess(a: string, b: string) {
    exists k | 0 <= k <= |a| && k <= |b| ::
      a[..k] == b[..k] && ((k == |a| && k < |b|) || (k < |a| && k < |b| && a[k] < b[k]))
  }
}

/** The conventional optional value. */
module Optional {
  datatype Option<+T> = None | Some(value: T)

  /** The values of a list of options, `None` as soon as one is missing. */
  function AllSome<T>(cs: seq<Option<T>>): Option<seq<T>> {
    if cs == [] then Some([])
    else match AllSome(cs[..|cs| - 1])
      case None => None
      case Some(front) =>
        match cs[|cs| - 1]
        case None => None
        case Some(x) => Some(front + [x])
  }

  /** One more option taken after the first `i`. */
  lemma AllSomeStep<T>(cs: seq<Option<T>>, i: nat)
    requires i < |cs| && AllSome(cs[..i]).Some?
    ensures AllSome(cs[..i + 1])
      == if cs[i].Some? then Some(AllSome(cs[..i]).value + [cs[i].value]) else None
  {
    assert cs[..i + 1][..i] == cs[..i];
  }

  /** Once a prefix has a missing option, so has the whole list. */
  lemma {:induction false} AllSomeNoneExtends<T>(cs: seq<Option<T>>, n: nat)
    requires n <= |cs| && AllSome(cs[..n]).None?
    ensures AllSome(cs).None?
    decreases |cs|
  {
    if n < |cs| {
      assert cs[..|cs| - 1][..n] == cs[..n];
      AllSomeNoneExtends(cs[..|cs| - 1], n);
    } else {
      assert cs[..n] == cs;
    }
  }

  /** The values are there exactly when every option holds one, and then
      the `i`-th value is the `i`-th option's. */
  lemma {:induction false} AllSomeEach<T>(cs: seq<Option<T>>)
    ensures AllSome(cs).Some? <==> forall i | 0 <= i < |cs| :: cs[i].Some?
    ensures AllSome(cs).Some? ==>
      |AllSome(cs).value| == |cs| && forall i | 0 <= i < |cs| :: Some(AllSome(cs).value[i]) == cs[i]
  {
    if cs != [] {
      var n := |cs| - 1;
      var init := cs[..n];
      AllSomeEach(init);
      forall i | 0 <= i < n ensures init[i] == cs[i] { }
      if AllSome(cs).Some? {
        var front := AllSome(init).value;
        var vs := front + [cs[n].value];
        assert AllSome(cs).value == vs;
        forall i | 0 <= i < |cs| ensures Some(vs[i]) == cs[i] {
          if i < n {
            assert vs[i] == front[i];
          }
        }
      } else if AllSome(init).Some? {
        assert cs[n].None?;
      } else {
        var i :| 0 <= i < n && init[i].None?;
        assert cs[i].None?;
      }
    }
  }
}
