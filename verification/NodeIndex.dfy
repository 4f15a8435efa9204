// The text form "name:index" in which edges are stored.
module NodeIndex {
  import opened Links

  const INT32_MIN: int := -0x8000_0000
  const INT32_MAX: int := 0x7FFF_FFFF
  const LONG_MIN: int := -0x8000_0000_0000_0000
  const LONG_MAX: int := 0x7FFF_FFFF_FFFF_FFFF

  datatype Parsed = NoIndex | Parsed(name: string, index: int)

  // ---------------------------------------------------------------- printing

  function Digit(d: nat): char
    requires d < 10
  {
    (d + 48) as char
  }

  function ToDigits(n: nat): string {
    if n < 10 then [Digit(n)] else ToDigits(n / 10) + [Digit(n % 10)]
  }

  // std::to_string
  function ToString(i: int): string {
    if i < 0 then "-" + ToDigits(-i) else ToDigits(i)
  }

  function NodeIndexText(name: string, i: int): string {
    name + ":" + ToString(i)
  }

  // ----------------------------------------------------------------- parsing

  predicate IsDigit(c: char) {
    (48 as char) <= c <= (57 as char)
  }

  function DigitValue(c: char): (d: nat)
    requires IsDigit(c)
    ensures d < 10 && c == Digit(d)
  {
    c as int - 48
  }

  predicate IsSpace(c: char) {
    c == ' ' || 9 <= c as int <= 13
  }

  function SkipSpace(s: string): string {
    if s != "" && IsSpace(s[0]) then SkipSpace(s[1..]) else s
  }

  // The value of the longest run of digits, behind acc.
  function DigitRun(s: string, acc: nat): nat {
    if s == "" || !IsDigit(s[0]) then acc else DigitRun(s[1..], 10 * acc + DigitValue(s[0]))
  }

  // strtol in base 10: white space, a sign, digits; out-of-range values
  // saturate.
  function StrTol(text: string): (r: int)
    ensures LONG_MIN <= r <= LONG_MAX
  {
    var s := SkipSpace(text);
    var v: int :=
      if s != "" && s[0] == '-' then 0 - DigitRun(s[1..], 0)
      else if s != "" && s[0] == '+' then DigitRun(s[1..], 0)
      else DigitRun(s, 0);
    if v > LONG_MAX then LONG_MAX else if v < LONG_MIN then LONG_MIN else v
  }

  // static_cast<int32_t>
  function ToInt32(i: int): (r: int)
    ensures INT32_MIN <= r <= INT32_MAX
    ensures INT32_MIN <= i <= INT32_MAX ==> r == i
  {
    (i - INT32_MIN) % 0x1_0000_0000 + INT32_MIN
  }

  // rfind(":"), or -1
  function LastColon(s: string): (r: int)
    ensures -1 <= r < |s|
    ensures r >= 0 ==> s[r] == ':'
    ensures forall k :: r < k < |s| ==> s[k] != ':'
  {
    if s == "" then -1 else if Last(s) == ':' then |s| - 1 else LastColon(Front(s))
  }

  function ParseNodeIndex(text: string): Parsed {
    var sep := LastColon(text);
    if sep < 0 then NoIndex else Parsed(text[..sep], ToInt32(StrTol(text[sep + 1..])))
  }

  // -------------------------------------------------------------- round trip

  lemma {:induction false} DigitsAreDigits(n: nat)
    ensures ToDigits(n) != "" && forall c :: c in ToDigits(n) ==> IsDigit(c)
  {
    if n >= 10 {
      DigitsAreDigits(n / 10);
    }
  }

  lemma {:induction false} DigitRunAppend(s: string, c: char, acc: nat)
    requires IsDigit(c) && forall x :: x in s ==> IsDigit(x)
    ensures DigitRun(s + [c], acc) == 10 * DigitRun(s, acc) + DigitValue(c)
  {
    if s == "" {
      assert [c][1..] == "";
      assert DigitRun([c], acc) == DigitRun("", 10 * acc + DigitValue(c));
    } else {
      assert (s + [c])[1..] == s[1..] + [c];
      DigitRunAppend(s[1..], c, 10 * acc + DigitValue(s[0]));
    }
  }

  lemma {:induction false} DigitsRoundTrip(n: nat)
    ensures DigitRun(ToDigits(n), 0) == n
  {
    if n < 10 {
      assert ToDigits(n)[1..] == "";
      assert DigitRun(ToDigits(n), 0) == DigitRun("", n);
    } else {
      DigitsAreDigits(n / 10);
      DigitsRoundTrip(n / 10);
      DigitRunAppend(ToDigits(n / 10), Digit(n % 10), 0);
    }
  }

  // Reading a printed number gives the number, saturated.
  lemma StrTolOfToString(i: int)
    requires LONG_MIN <= i <= LONG_MAX
    ensures StrTol(ToString(i)) == i && ':' !in ToString(i)
  {
    var n: nat := if i < 0 then -i else i;
    DigitsAreDigits(n);
    DigitsRoundTrip(n);
    var s := ToString(i);
    assert SkipSpace(s) == s;
    if i < 0 {
      assert s[1..] == ToDigits(n);
    } else {
      assert IsDigit(s[0]);
    }
  }

  // ParseNodeIndex undoes the printing for every name, colons included.
  lemma ParseOfText(name: string, i: int)
    requires INT32_MIN <= i <= INT32_MAX
    ensures ParseNodeIndex(NodeIndexText(name, i)) == Parsed(name, i)
  {
    StrTolOfToString(i);
    var text, tail := NodeIndexText(name, i), ToString(i);
    var sep := LastColon(text);
    assert text[|name|] == ':';
    assert forall k :: |name| < k < |text| ==> text[k] == tail[k - |name| - 1];
    assert sep == |name|;
    assert text[..sep] == name && text[sep + 1..] == tail;
  }

  // A text is refused exactly when it has no colon.
  lemma ParseFails(text: string)
    ensures ParseNodeIndex(text) == NoIndex <==> ':' !in text
  {
    var sep := LastColon(text);
    if ':' in text {
      var k :| 0 <= k < |text| && text[k] == ':';
      assert sep >= k;
    }
  }

  // Two printed edges are only equal when they are the same edge.
  lemma TextInjective(a: string, i: int, b: string, j: int)
    requires INT32_MIN <= i <= INT32_MAX && INT32_MIN <= j <= INT32_MAX
    requires NodeIndexText(a, i) == NodeIndexText(b, j)
    ensures a == b && i == j
  {
    ParseOfText(a, i);
    ParseOfText(b, j);
  }
}
