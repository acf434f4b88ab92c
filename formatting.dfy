/**
 * The parts of Python's string handling the engine relies on: `str(int)`,
 * `str(date)` (ISO `YYYY-MM-DD`) and `str.split()` with no separator.
 */
module Formatting {
  import opened Calendar

  predicate IsDigit(c: char) {
    '0' <= c <= '9'
  }

  predicate AllDigits(s: string) {
    forall i :: 0 <= i < |s| ==> IsDigit(s[i])
  }

  function DigitChar(n: int): (c: char)
    requires 0 <= n < 10
    ensures IsDigit(c)
  {
    ['0', '1', '2', '3', '4', '5', '6', '7', '8', '9'][n]
  }

  function DigitValue(c: char): int
    requires IsDigit(c)
  {
    c as int - '0' as int
  }

  /** The number a string of decimal digits denotes. */
  function ParseNat(s: string): nat
    requires AllDigits(s)
  {
    if |s| == 0 then 0 else ParseNat(s[..|s| - 1]) * 10 + DigitValue(s[|s| - 1])
  }

  function Pow10(k: nat): (p: nat)
    ensures p >= 1
  {
    if k == 0 then 1 else 10 * Pow10(k - 1)
  }

  /** Python's `str(n)` for a non-negative integer: shortest decimal digits, read back as `n`. */
  function NatToString(n: nat): (r: string)
    ensures 1 <= |r| && AllDigits(r)
    ensures |r| > 1 ==> r[0] != '0'
    ensures ParseNat(r) == n
  {
    if n < 10 then [DigitChar(n)]
    else
      var prefix := NatToString(n / 10);
      assert (prefix + [DigitChar(n % 10)])[..|prefix|] == prefix;
      prefix + [DigitChar(n % 10)]
  }

  /** A number below 10^k takes at most k digits. */
  lemma {:induction false} NatToStringLength(n: nat, k: nat)
    ensures 1 <= k && n < Pow10(k) ==> |NatToString(n)| <= k
  {
    if n >= 10 && k >= 1 {
      NatToStringLength(n / 10, k - 1);
    }
  }

  /** Python's `str(i)`: a minus sign before the digits of `|i|` when `i` is negative. */
  function IntToString(i: int): (r: string)
    ensures 1 <= |r|
    ensures i < 0 ==> |r| >= 2 && r[0] == '-' && AllDigits(r[1..]) && ParseNat(r[1..]) == -i && r[1] != '0'
    ensures i >= 0 ==> AllDigits(r) && ParseNat(r) == i && (|r| > 1 ==> r[0] != '0')
  {
    if i < 0 then "-" + NatToString(-i) else NatToString(i)
  }

  /** Different integers print differently. */
  lemma IntToStringInjective(i: int, j: int)
    requires IntToString(i) == IntToString(j)
    ensures i == j
  {
  }

  function Zeros(k: nat): (r: string)
    ensures |r| == k && AllDigits(r)
    ensures forall i :: 0 <= i < k ==> r[i] == '0'
  {
    seq(k, _ => '0')
  }

  lemma {:induction false} ParseNatZeros(k: nat)
    ensures ParseNat(Zeros(k)) == 0
  {
    if k > 0 {
      assert Zeros(k)[..k - 1] == Zeros(k - 1);
      ParseNatZeros(k - 1);
    }
  }

  /** Leading zeros do not change the value of a digit string. */
  lemma {:induction false} ParseNatLeadingZeros(k: nat, s: string)
    requires AllDigits(s)
    ensures AllDigits(Zeros(k) + s)
    ensures ParseNat(Zeros(k) + s) == ParseNat(s)
    decreases |s|
  {
    var t := Zeros(k) + s;
    assert AllDigits(t) by {
      forall i | 0 <= i < |t| ensures IsDigit(t[i]) {
        if i >= k { assert t[i] == s[i - k]; }
      }
    }
    if |s| == 0 {
      assert t == Zeros(k);
      ParseNatZeros(k);
    } else {
      assert t[..|t| - 1] == Zeros(k) + s[..|s| - 1];
      ParseNatLeadingZeros(k, s[..|s| - 1]);
    }
  }

  /** `'%0{w}d' % n`: the digits of `n`, padded on the left with zeros to width `w`. */
  function ZeroPad(n: nat, w: nat): (r: string)
    ensures AllDigits(r) && ParseNat(r) == n
    ensures n < Pow10(w) && 1 <= w ==> |r| == w
  {
    var digits := NatToString(n);
    var pad := if |digits| < w then w - |digits| else 0;
    ParseNatLeadingZeros(pad, digits);
    NatToStringLength(n, w);
    Zeros(pad) + digits
  }

  /** Python's `str(d)` for a date: `YYYY-MM-DD`. */
  function DateToString(d: Date): (r: string)
    requires ValidDate(d)
    ensures |r| == 10 && r[4] == '-' && r[7] == '-'
    ensures AllDigits(r[..4]) && AllDigits(r[5..7]) && AllDigits(r[8..])
    ensures ParseNat(r[..4]) == d.year && ParseNat(r[5..7]) == d.month && ParseNat(r[8..]) == d.day
  {
    var y, m, dd := ZeroPad(d.year, 4), ZeroPad(d.month, 2), ZeroPad(d.day, 2);
    var r := y + "-" + m + "-" + dd;
    assert r[..4] == y && r[5..7] == m && r[8..] == dd;
    r
  }

  /** Two dates print the same only if they are the same date. */
  lemma DateToStringInjective(a: Date, b: Date)
    requires ValidDate(a) && ValidDate(b)
    requires DateToString(a) == DateToString(b)
    ensures a == b
  {
  }

  /** The characters Python's `str.isspace` accepts, and so the separators of `str.split()`. */
  predicate IsSpace(c: char) {
    var k := c as int;
    (0x09 <= k <= 0x0D) || (0x1C <= k <= 0x20) || k == 0x85 || k == 0xA0 || k == 0x1680
    || (0x2000 <= k <= 0x200A) || k == 0x2028 || k == 0x2029 || k == 0x202F || k == 0x205F || k == 0x3000
  }

  predicate NoSpace(s: string) {
    forall i :: 0 <= i < |s| ==> !IsSpace(s[i])
  }

  predicate AllSpace(s: string) {
    forall i :: 0 <= i < |s| ==> IsSpace(s[i])
  }

  /** The characters of `s` that are not whitespace, in order. */
  function RemoveSpaces(s: string): string {
    if |s| == 0 then [] else (if IsSpace(s[0]) then [] else [s[0]]) + RemoveSpaces(s[1..])
  }

  function Concat(ws: seq<string>): string {
    if |ws| == 0 then [] else ws[0] + Concat(ws[1..])
  }

  lemma {:induction false} RemoveSpacesAppend(a: string, b: string)
    ensures RemoveSpaces(a + b) == RemoveSpaces(a) + RemoveSpaces(b)
    decreases |a|
  {
    if |a| > 0 {
      assert (a + b)[1..] == a[1..] + b;
      RemoveSpacesAppend(a[1..], b);
    } else {
      assert a + b == b;
    }
  }

  lemma {:induction false} RemoveSpacesOfWord(w: string)
    requires NoSpace(w)
    ensures RemoveSpaces(w) == w
    decreases |w|
  {
    if |w| > 0 {
      RemoveSpacesOfWord(w[1..]);
    }
  }

  /** Length of the run of non-space characters that starts `s`. */
  function WordLength(s: string): (n: nat)
    requires |s| > 0 && !IsSpace(s[0])
    ensures 1 <= n <= |s| && NoSpace(s[..n])
    ensures n < |s| ==> IsSpace(s[n])
  {
    if |s| == 1 || IsSpace(s[1]) then 1
    else
      var n := 1 + WordLength(s[1..]);
      assert forall i :: 1 <= i < n ==> s[..n][i] == s[1..][..n - 1][i - 1];
      n
  }

  /**
   * Python's `s.split()`: the maximal runs of non-whitespace characters, in
   * order; there are none exactly when `s` is all whitespace.
   */
  function Words(s: string): (r: seq<string>)
    ensures forall k :: 0 <= k < |r| ==> |r[k]| > 0 && NoSpace(r[k])
    ensures |r| == 0 <==> AllSpace(s)
    decreases |s|
  {
    if |s| == 0 then []
    else if IsSpace(s[0]) then Words(s[1..])
    else
      var n := WordLength(s);
      [s[..n]] + Words(s[n..])
  }

  /** Joined together, the words give back every non-space character of `s`, in order. */
  lemma {:induction false} WordsJoin(s: string)
    ensures Concat(Words(s)) == RemoveSpaces(s)
    decreases |s|
  {
    if |s| > 0 && IsSpace(s[0]) {
      WordsJoin(s[1..]);
    } else if |s| > 0 {
      var n := WordLength(s);
      WordsJoin(s[n..]);
      assert s == s[..n] + s[n..];
      RemoveSpacesAppend(s[..n], s[n..]);
      RemoveSpacesOfWord(s[..n]);
      assert Words(s)[1..] == Words(s[n..]);
    }
  }

  /** The head run ends at the first whitespace character, so any such boundary is the word's length. */
  lemma WordLengthIsFirstSpace(s: string, m: nat)
    requires |s| > 0 && !IsSpace(s[0])
    requires 1 <= m <= |s| && NoSpace(s[..m]) && (m < |s| ==> IsSpace(s[m]))
    ensures WordLength(s) == m
  {
    var n := WordLength(s);
    assert forall k :: 0 <= k < m ==> s[..m][k] == s[k];
    assert forall k :: 0 <= k < n ==> s[..n][k] == s[k];
  }

  /** A non-empty string without whitespace is a single word. */
  lemma WordsOfWord(w: string)
    requires |w| > 0 && NoSpace(w)
    ensures Words(w) == [w]
  {
    assert w[..|w|] == w;
    WordLengthIsFirstSpace(w, |w|);
    assert w[|w|..] == [];
  }

  /** A leading whitespace character is skipped. */
  lemma WordsAfterSpace(s: string)
    requires |s| > 0 && IsSpace(s[0])
    ensures Words(s) == Words(s[1..])
  {
  }

  /** A leading word is split off whole. */
  lemma WordsAfterWord(s: string)
    requires |s| > 0 && !IsSpace(s[0])
    ensures Words(s) == [s[..WordLength(s)]] + Words(s[WordLength(s)..])
  {
  }

  /**
   * A whitespace character separates: the words of `a`, then the words of
   * `b`, with no word running across the separator.
   */
  lemma {:induction false} WordsSplitAtSpace(a: string, c: char, b: string)
    requires IsSpace(c)
    ensures Words(a + [c] + b) == Words(a) + Words(b)
    decreases |a|, 1
  {
    if |a| == 0 {
      var s := a + [c] + b;
      assert s == [c] + b && s[1..] == b;
      WordsAfterSpace(s);
    } else if IsSpace(a[0]) {
      var s := a + [c] + b;
      assert s[1..] == a[1..] + [c] + b;
      WordsAfterSpace(s);
      WordsAfterSpace(a);
      WordsSplitAtSpace(a[1..], c, b);
    } else {
      WordsSplitAfterWord(a, c, b);
    }
  }

  /** A head word that ends inside a prefix of `s`, or right before a space of `s`, is also `s`'s head word. */
  lemma HeadWordOfPrefix(s: string, a: string)
    requires 0 < |a| < |s| && s[..|a|] == a && IsSpace(s[|a|]) && !IsSpace(a[0])
    ensures WordLength(s) == WordLength(a)
  {
    var n := WordLength(a);
    assert s[..n] == a[..n];
    assert s[n] == if n < |a| then a[n] else s[|a|];
    WordLengthIsFirstSpace(s, n);
  }

  /** The head word of `a` is the head word of `a`, a space and `b`. */
  lemma HeadWordBeforeSpace(a: string, c: char, b: string)
    requires IsSpace(c) && |a| > 0 && !IsSpace(a[0])
    ensures WordLength(a + [c] + b) == WordLength(a)
  {
    var s := a + [c] + b;
    assert s[..|a|] == a && s[|a|] == c;
    HeadWordOfPrefix(s, a);
  }

  /** Cutting `a`, a character and `b` at a point of `a` cuts `a` there. */
  lemma SplitBeforeSpace(a: string, c: char, b: string, n: nat)
    requires n <= |a|
    ensures (a + [c] + b)[..n] == a[..n]
    ensures (a + [c] + b)[n..] == a[n..] + [c] + b
  {
  }

  /** The case of `WordsSplitAtSpace` where `a` starts with a word. */
  lemma {:induction false} WordsSplitAfterWord(a: string, c: char, b: string)
    requires IsSpace(c) && |a| > 0 && !IsSpace(a[0])
    ensures Words(a + [c] + b) == Words(a) + Words(b)
    decreases |a|, 0
  {
    var n := WordLength(a);
    var word, tail := a[..n], a[n..];
    HeadWordBeforeSpace(a, c, b);
    SplitBeforeSpace(a, c, b, n);
    WordsAfterWord(a + [c] + b);
    WordsAfterWord(a);
    WordsSplitAtSpace(tail, c, b);
    assert [word] + (Words(tail) + Words(b)) == ([word] + Words(tail)) + Words(b);
  }
}
