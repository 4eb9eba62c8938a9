/** ASCII text: stripping, digits and decimal numerals. */
module Text {

  predicate IsSpace(c: char) { c == ' ' || '\t' <= c <= '\r' || '\U{1c}' <= c <= '\U{1f}' }

  predicate IsDigit(c: char) { '0' <= c <= '9' }

  predicate AllDigits(s: string) { forall i :: 0 <= i < |s| ==> IsDigit(s[i]) }

  predicate Stripped(s: string) { s != "" ==> !IsSpace(s[0]) && !IsSpace(s[|s| - 1]) }

  /** `str.strip` */
  function Strip(s: string): (r: string)
    ensures Stripped(r) && |r| <= |s|
    ensures Stripped(s) ==> r == s
    decreases |s|
  {
    if s != "" && IsSpace(s[0]) then Strip(s[1..])
    else if s != "" && IsSpace(s[|s| - 1]) then Strip(s[..|s| - 1])
    else s
  }

  predicate SpacesAt(s: string, i: nat, j: nat)
    requires i <= j <= |s|
  {
    forall k :: i <= k < j ==> IsSpace(s[k])
  }

  /** The text r is s without the white space around it. */
  ghost predicate IsStripOf(r: string, s: string) {
    Stripped(r) &&
    exists i: nat, j: nat :: i <= j <= |s| && r == s[i..j] && SpacesAt(s, 0, i) && SpacesAt(s, j, |s|)
  }

  lemma {:induction false} StripSlice(s: string, i: nat, j: nat)
    requires i <= j <= |s| && SpacesAt(s, 0, i) && SpacesAt(s, j, |s|)
    ensures IsStripOf(Strip(s[i..j]), s)
    decreases j - i
  {
    var t := s[i..j];
    if t != "" && IsSpace(t[0]) {
      assert t[1..] == s[i + 1..j];
      StripSlice(s, i + 1, j);
    } else if t != "" && IsSpace(t[|t| - 1]) {
      assert t[..|t| - 1] == s[i..j - 1];
      StripSlice(s, i, j - 1);
    }
  }

  lemma StripIsStrip(s: string)
    ensures IsStripOf(Strip(s), s)
  {
    StripSlice(s, 0, |s|);
    assert s[0..|s|] == s;
  }

  /** There is one way to strip a text. */
  lemma StripIsUnique(r: string, s: string)
    requires IsStripOf(r, s)
    ensures r == Strip(s)
  {
    StripIsStrip(s);
    var i: nat, j: nat :| i <= j <= |s| && r == s[i..j] && SpacesAt(s, 0, i) && SpacesAt(s, j, |s|);
    var k: nat, l: nat :| k <= l <= |s| && Strip(s) == s[k..l] && SpacesAt(s, 0, k) && SpacesAt(s, l, |s|);
    Widest(s, i, j, k, l);
    Widest(s, k, l, i, j);
    hide Strip, SpacesAt;
  }

  lemma Widest(s: string, i: nat, j: nat, k: nat, l: nat)
    requires i <= j <= |s| && k <= l <= |s| && SpacesAt(s, 0, i) && SpacesAt(s, j, |s|) && Stripped(s[k..l])
    ensures k < l ==> i <= k && l <= j
  {
    if k < l {
      var t := s[k..l];
      assert t[0] == s[k] && t[|t| - 1] == s[l - 1];
    }
  }

  function DigitOf(n: nat): (c: char)
    requires n < 10
    ensures IsDigit(c) && Value(c) == n
  {
    '0' + n as char
  }

  function Value(c: char): (n: nat)
    requires IsDigit(c)
    ensures n < 10 && (n == 0 <==> c == '0')
  {
    (c - '0') as nat
  }

  /** The number a digit string denotes; the empty string denotes zero. */
  function Number(s: string): nat
    requires AllDigits(s)
    decreases |s|
  {
    if s == "" then 0 else 10 * Number(s[..|s| - 1]) + Value(s[|s| - 1])
  }

  /** A numeral without leading zeros. */
  predicate Canonical(s: string) { s != "" && AllDigits(s) && (s[0] == '0' ==> |s| == 1) }

  /** `str` of a natural number. */
  function Decimal(n: nat): (s: string)
    ensures Canonical(s)
    ensures n < 10 ==> |s| == 1
    ensures 10 <= n < 100 ==> |s| == 2
  {
    if n < 10 then [DigitOf(n)] else Decimal(n / 10) + [DigitOf(n % 10)]
  }

  lemma {:induction false} NumberOfDecimal(n: nat)
    ensures Number(Decimal(n)) == n
  {
    var s := Decimal(n);
    if n < 10 {
      assert s[..|s| - 1] == "";
    } else {
      NumberOfDecimal(n / 10);
      assert s[..|s| - 1] == Decimal(n / 10);
    }
  }

  lemma {:induction false} PositiveNumber(s: string)
    requires Canonical(s)
    ensures Number(s) == 0 <==> s == "0"
    ensures |s| > 1 ==> Number(s) >= 10
    decreases |s|
  {
    if |s| == 1 {
      assert s[..0] == "";
      assert s == [s[0]];
    } else {
      PositiveNumber(s[..|s| - 1]);
      if |s| == 2 { assert s[..1] == [s[0]] && s[..1][..0] == ""; }
    }
  }

  lemma {:induction false} DecimalOfNumber(s: string)
    requires Canonical(s)
    ensures Decimal(Number(s)) == s
    decreases |s|
  {
    var k := |s| - 1;
    if k == 0 {
      assert s[..0] == "";
      assert s == [s[0]];
    } else {
      PositiveNumber(s);
      DecimalOfNumber(s[..k]);
      var n := Number(s);
      assert n / 10 == Number(s[..k]) && n % 10 == Value(s[k]);
      assert s == s[..k] + [s[k]];
    }
  }

  /** How many digits a text starts with. */
  function DigitRun(s: string): (n: nat)
    ensures n <= |s| && AllDigits(s[..n]) && (n < |s| ==> !IsDigit(s[n]))
  {
    if s == "" || !IsDigit(s[0]) then 0
    else
      var n := 1 + DigitRun(s[1..]);
      assert s[..n] == [s[0]] + s[1..][..n - 1];
      n
  }

  predicate NoDigitFirst(s: string) { s != "" ==> !IsDigit(s[0]) }

  lemma {:induction false} RunOfDigits(a: string, rest: string)
    requires AllDigits(a) && NoDigitFirst(rest)
    ensures DigitRun(a + rest) == |a|
    decreases |a|
  {
    if a != "" {
      assert (a + rest)[1..] == a[1..] + rest;
      RunOfDigits(a[1..], rest);
    } else {
      assert a + rest == rest;
    }
  }
}
