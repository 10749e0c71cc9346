/** Character- and line-level helpers of the model-file reader (src/model.cpp):
    whitespace, right trimming, field splitting and decimal integers. */
module Text {
  import opened Results

  /** `std::isspace` in the "C" locale: space, tab, newline, vertical tab, form feed, return. */
  predicate IsSpace(c: char) {
    c == ' ' || ('\t' <= c <= '\r')
  }

  /** The `NotSpace` functor (the non-Windows branch). */
  predicate NotSpace(c: char) {
    !IsSpace(c)
  }

  /** `findLast`: the greatest index in [begin, end) whose element satisfies `pred`,
      or `end` when there is none. Scans backwards like the template. */
  method FindLast<T>(s: seq<T>, begin: nat, end: nat, pred: T -> bool) returns (r: nat)
    requires begin <= end <= |s|
    ensures begin <= r <= end
    ensures r < end ==> pred(s[r]) && forall j :: r < j < end ==> !pred(s[j])
    ensures r == end ==> forall j :: begin <= j < end ==> !pred(s[j])
  {
    var i := end;
    while i > begin
      invariant begin <= i <= end
      invariant forall j :: i <= j < end ==> !pred(s[j])
    {
      i := i - 1;
      if pred(s[i]) {
        return i;
      }
    }
    return end;
  }

  /** The line with its trailing whitespace removed. */
  function RightTrim(s: string): (r: string)
    ensures r <= s
    ensures r == [] || NotSpace(r[|r| - 1])
    ensures forall j :: |r| <= j < |s| ==> IsSpace(s[j])
    ensures r == [] <==> forall j :: 0 <= j < |s| ==> IsSpace(s[j])
  {
    if |s| == 0 then []
    else if IsSpace(s[|s| - 1]) then RightTrim(s[..|s| - 1])
    else s
  }

  /** `r` is the longest prefix of `s` that is empty or ends in a non-space character. */
  ghost predicate IsRightTrimOf(r: string, s: string) {
    && r <= s
    && (r == [] || NotSpace(r[|r| - 1]))
    && forall j :: |r| <= j < |s| ==> IsSpace(s[j])
  }

  /** The right trim of a line is unique: `RightTrim` is the only prefix with that shape. */
  lemma RightTrimUnique(r: string, s: string)
    requires IsRightTrimOf(r, s)
    ensures r == RightTrim(s)
  {
  }

  /** Trimming twice is trimming once. */
  lemma RightTrimIdempotent(s: string)
    ensures RightTrim(RightTrim(s)) == RightTrim(s)
  {
    RightTrimUnique(RightTrim(s), RightTrim(s));
  }

  /** `rightTrim` as the source writes it: find the last non-space character with
      `findLast`, then clear the string or erase everything after that character. */
  method RightTrimLine(s: string) returns (r: string)
    ensures r == RightTrim(s)
  {
    var i := FindLast(s, 0, |s|, NotSpace);
    if i == |s| {
      r := [];
    } else {
      r := s[..i + 1];
    }
    RightTrimUnique(r, s);
  }

  /** Length of the leading run of non-space characters. */
  function TokenLength(s: string): (k: nat)
    ensures k <= |s|
    ensures forall i :: 0 <= i < k ==> NotSpace(s[i])
    ensures k < |s| ==> IsSpace(s[k])
  {
    if |s| == 0 || IsSpace(s[0]) then 0 else 1 + TokenLength(s[1..])
  }

  /** A single field: non-empty and free of whitespace. */
  predicate IsField(s: string) {
    s != [] && forall i :: 0 <= i < |s| ==> NotSpace(s[i])
  }

  /** The whitespace-separated fields of a line, as the config reader's splitter
      yields them: the maximal runs of non-space characters, in order. */
  function Fields(s: string): (r: seq<string>)
    ensures forall i :: 0 <= i < |r| ==> IsField(r[i])
    decreases |s|
  {
    if |s| == 0 then []
    else if IsSpace(s[0]) then Fields(s[1..])
    else
      var k := TokenLength(s);
      [s[..k]] + Fields(s[k..])
  }

  lemma {:induction false} TokenLengthOfField(w: string, rest: string)
    requires IsField(w)
    requires rest == [] || IsSpace(rest[0])
    ensures TokenLength(w + rest) == |w|
    decreases |w|
  {
    if |w| > 1 {
      assert (w + rest)[1..] == w[1..] + rest;
      TokenLengthOfField(w[1..], rest);
    } else {
      assert (w + rest)[1..] == rest;
    }
  }

  /** A `key value` line splits back into exactly its two fields. */
  lemma {:induction false} FieldsOfPair(key: string, value: string)
    requires IsField(key) && IsField(value)
    ensures Fields(key + " " + value) == [key, value]
  {
    var line := key + " " + value;
    assert line == key + (" " + value);
    TokenLengthOfField(key, " " + value);
    assert line[..|key|] == key;
    assert line[|key|..] == " " + value;
    assert (" " + value)[1..] == value;
    assert Fields(" " + value) == Fields(value);
    TokenLengthOfField(value, []);
    assert value + [] == value;
    assert value[..|value|] == value;
    assert Fields(value) == [value] + Fields(value[|value|..]);
    assert value[|value|..] == [];
    assert Fields(line) == [key] + Fields(" " + value);
  }

  // Decimal integers, as `operator<<` prints them and `lexical_cast<int>` parses them.

  predicate IsDigit(c: char) {
    '0' <= c <= '9'
  }

  predicate AllDigits(s: string) {
    forall i :: 0 <= i < |s| ==> IsDigit(s[i])
  }

  function DigitValue(c: char): nat
    requires IsDigit(c)
  {
    (c as int) - ('0' as int)
  }

  function DigitChar(d: nat): (c: char)
    requires d < 10
    ensures IsDigit(c) && DigitValue(c) == d
  {
    (('0' as int) + d) as char
  }

  /** Decimal digits of a natural number, most significant first, no leading zero. */
  function NatToDecimal(n: nat): (s: string)
    ensures |s| >= 1 && AllDigits(s)
    decreases n
  {
    if n < 10 then [DigitChar(n)] else NatToDecimal(n / 10) + [DigitChar(n % 10)]
  }

  /** The number a non-empty run of decimal digits denotes. */
  function DecimalValue(s: string): nat
    requires AllDigits(s)
    decreases |s|
  {
    if |s| == 0 then 0 else 10 * DecimalValue(s[..|s| - 1]) + DigitValue(s[|s| - 1])
  }

  lemma {:induction false} DecimalRoundTrip(n: nat)
    ensures DecimalValue(NatToDecimal(n)) == n
    decreases n
  {
    var s := NatToDecimal(n);
    if n >= 10 {
      DecimalRoundTrip(n / 10);
      assert s[..|s| - 1] == NatToDecimal(n / 10);
    }
  }

  /** `file << n` for a C++ `int`. */
  function IntToDecimal(n: int): (s: string)
    ensures IsField(s)
  {
    if n < 0 then "-" + NatToDecimal(-n) else NatToDecimal(n)
  }

  const IntMin: int := -0x8000_0000
  const IntMax: int := 0x7fff_ffff

  /** The values a 32-bit C++ `int` can hold. */
  predicate InIntRange(x: int) {
    IntMin <= x <= IntMax
  }

  /** `lexical_cast<int>`: an optional sign, at least one decimal digit and nothing else,
      denoting a value a 32-bit `int` can hold; anything else is a cast failure. */
  function ParseInt(s: string): (r: Option<int>)
    ensures r.Some? ==> InIntRange(r.value)
    ensures r.Some? ==> |s| >= 1 && (IsDigit(s[0]) || s[0] == '-' || s[0] == '+')
  {
    var signed := |s| > 0 && (s[0] == '-' || s[0] == '+');
    var digits := if signed then s[1..] else s;
    if |digits| == 0 || !AllDigits(digits) then None
    else
      var magnitude: int := DecimalValue(digits);
      var v: int := if signed && s[0] == '-' then -magnitude else magnitude;
      if InIntRange(v) then Some(v) else None
  }

  /** The cast reads the whole field: a trailing character that is not a digit makes it fail. */
  lemma ParseIntRejectsTrailing(s: string, c: char)
    requires !IsDigit(c)
    ensures ParseInt(s + [c]).None?
  {
    var t := s + [c];
    if t[0] == '-' || t[0] == '+' {
      if |t| > 1 {
        assert t[1..][|t| - 2] == c;
      }
    } else {
      assert t[|t| - 1] == c;
    }
  }

  /** Printing an `int` and casting the text back gives the same `int`. */
  lemma ParseIntRoundTrip(n: int)
    requires InIntRange(n)
    ensures ParseInt(IntToDecimal(n)) == Some(n)
  {
    if n < 0 {
      NegativeRoundTrip(n);
    } else {
      DecimalRoundTrip(n);
    }
  }

  lemma NegativeRoundTrip(n: int)
    requires IntMin <= n < 0
    ensures ParseInt(IntToDecimal(n)) == Some(n)
  {
    var d := NatToDecimal(-n);
    DecimalRoundTrip(-n);
    assert DecimalValue(d) == -n;
    ParseMinus(d);
  }

  /** A minus sign before a non-empty run of digits negates the value the digits denote. */
  lemma ParseMinus(d: string)
    requires |d| >= 1 && AllDigits(d) && InIntRange(0 - DecimalValue(d))
    ensures ParseInt("-" + d) == Some(0 - DecimalValue(d))
  {
    assert ("-" + d)[0] == '-' && ("-" + d)[1..] == d;
  }
}
