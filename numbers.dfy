/** Decimal numbers as the server reads and writes them: Rust's `usize` parser
    for the connect index, `usize` Display for the Content-Length value, and the
    UTF-8 byte length that `String::len` reports. */
module Numbers {
  import opened Wrappers

  /** The largest `usize` on the 64-bit targets the server is built for. */
  const UsizeMax: nat := 0xFFFF_FFFF_FFFF_FFFF

  predicate IsDigit(c: char)
  {
    '0' <= c <= '9'
  }

  predicate AllDigits(s: string)
  {
    forall i :: 0 <= i < |s| ==> IsDigit(s[i])
  }

  function DigitValue(c: char): (d: nat)
    requires IsDigit(c)
    ensures d < 10
  {
    c as int - '0' as int
  }

  function DigitChar(d: nat): (c: char)
    requires d < 10
    ensures IsDigit(c) && DigitValue(c) == d
  {
    ('0' as int + d) as char
  }

  /** The value of a string of decimal digits, most significant digit first. */
  function DigitsValue(ds: string): nat
    requires AllDigits(ds)
  {
    if ds == [] then 0 else DigitsValue(ds[..|ds| - 1]) * 10 + DigitValue(ds[|ds| - 1])
  }

  /** Rust's `<usize as FromStr>::from_str`: an optional `+`, then one or more
      decimal digits whose value fits in a `usize`. A lone sign, a `-`, any
      other character and an overflowing value are all rejected. */
  function ParseUsize(s: string): (r: Option<nat>)
    ensures r.Some? ==> r.value <= UsizeMax
    ensures r.Some? ==> |s| > 0 && s != "+"
    ensures r.Some? ==> AllDigits(if s[0] == '+' then s[1..] else s)
  {
    if s == [] then None
    else if |s| == 1 && (s[0] == '+' || s[0] == '-') then None
    else
      var ds := if s[0] == '+' then s[1..] else s;
      if AllDigits(ds) && DigitsValue(ds) <= UsizeMax then Some(DigitsValue(ds)) else None
  }

  /** The decimal text of `n` without leading zeros, as `usize` Display writes it. */
  function Decimal(n: nat): (s: string)
    ensures |s| > 0 && AllDigits(s)
    ensures s[0] == '0' ==> n == 0
  {
    if n < 10 then [DigitChar(n)] else Decimal(n / 10) + [DigitChar(n % 10)]
  }

  /** Reading back the decimal text of `n` gives `n`. */
  lemma {:induction false} DecimalValue(n: nat)
    ensures DigitsValue(Decimal(n)) == n
  {
    if n >= 10 {
      var s := Decimal(n);
      assert s[..|s| - 1] == Decimal(n / 10);
      DecimalValue(n / 10);
    }
  }

  /** The Content-Length the server writes is the length a `usize` parser reads back. */
  lemma DecimalRoundTrip(n: nat)
    requires n <= UsizeMax
    ensures ParseUsize(Decimal(n)) == Some(n)
    ensures ParseUsize("+" + Decimal(n)) == Some(n)
  {
    DecimalValue(n);
    assert ("+" + Decimal(n))[1..] == Decimal(n);
  }

  /** Leading zeros do not change the parsed value. */
  lemma {:induction false} LeadingZeroValue(ds: string)
    requires AllDigits(ds)
    ensures AllDigits("0" + ds) && DigitsValue("0" + ds) == DigitsValue(ds)
  {
    var z := "0" + ds;
    if ds != [] {
      assert z[..|z| - 1] == "0" + ds[..|ds| - 1];
      LeadingZeroValue(ds[..|ds| - 1]);
    }
  }

  /** What an accepted index text is read as: the value of its digits. */
  lemma ParseValue(s: string)
    requires ParseUsize(s).Some?
    ensures AllDigits(if s[0] == '+' then s[1..] else s)
    ensures ParseUsize(s).value == DigitsValue(if s[0] == '+' then s[1..] else s)
  {
  }

  /** Every non-empty digit string whose value fits in a `usize` is accepted, with
      or without a `+`, and read as its value. */
  lemma ParseAccepts(ds: string)
    requires ds != [] && AllDigits(ds) && DigitsValue(ds) <= UsizeMax
    ensures ParseUsize(ds) == Some(DigitsValue(ds))
    ensures ParseUsize("+" + ds) == Some(DigitsValue(ds))
  {
    assert ("+" + ds)[1..] == ds;
    assert ds[0] != '+' && ds[0] != '-' by {
      assert IsDigit(ds[0]);
    }
  }

  /** Any run of leading zeros leaves the value of a digit string as it was. */
  lemma {:induction false} ZerosValue(zeros: string, ds: string)
    requires forall i :: 0 <= i < |zeros| ==> zeros[i] == '0'
    requires AllDigits(ds)
    ensures AllDigits(zeros + ds) && DigitsValue(zeros + ds) == DigitsValue(ds)
  {
    if zeros != [] {
      ZerosValue(zeros[1..], ds);
      LeadingZeroValue(zeros[1..] + ds);
      assert zeros + ds == "0" + (zeros[1..] + ds);
    } else {
      assert zeros + ds == ds;
    }
  }

  /** The index text `0...0<n>`, with any number of leading zeros and with or
      without a `+`, is read as `n`: `"007"` is 7. */
  lemma ParseLeadingZeros(zeros: string, n: nat)
    requires forall i :: 0 <= i < |zeros| ==> zeros[i] == '0'
    requires n <= UsizeMax
    ensures ParseUsize(zeros + Decimal(n)) == Some(n)
    ensures ParseUsize("+" + zeros + Decimal(n)) == Some(n)
  {
    var ds := zeros + Decimal(n);
    DecimalValue(n);
    ZerosValue(zeros, Decimal(n));
    assert ds != [] && DigitsValue(ds) == n;
    ParseAccepts(ds);
    assert "+" + zeros + Decimal(n) == "+" + ds;
  }

  /** No digit string above `UsizeMax` parses: the biggest accepted index is `UsizeMax`. */
  lemma ParseRejectsOverflow(n: nat)
    requires n > UsizeMax
    ensures ParseUsize(Decimal(n)) == None
  {
    DecimalValue(n);
  }

  /** A `-` sign is never accepted, not even on zero. */
  lemma ParseRejectsMinus(s: string)
    ensures ParseUsize("-" + s) == None
  {
    assert ("-" + s)[0] == '-';
    if |s| > 0 {
      assert !IsDigit(("-" + s)[0]);
    }
  }

  /** The number of bytes that `c` takes in UTF-8. */
  function Utf8Width(c: char): (w: nat)
    ensures 1 <= w <= 4
    ensures w == 1 <==> c as int < 0x80
  {
    if c as int < 0x80 then 1
    else if c as int < 0x800 then 2
    else if c as int < 0x1_0000 then 3
    else 4
  }

  /** `String::len`: the number of bytes in the UTF-8 encoding of `s`. */
  function Utf8Length(s: string): (n: nat)
    ensures |s| <= n <= 4 * |s|
  {
    if s == [] then 0 else Utf8Width(s[0]) + Utf8Length(s[1..])
  }

  /** The byte length of a concatenation is the sum of the parts' byte lengths. */
  lemma {:induction false} Utf8LengthAppend(a: string, b: string)
    ensures Utf8Length(a + b) == Utf8Length(a) + Utf8Length(b)
  {
    if a == [] {
      assert a + b == b;
    } else {
      assert (a + b)[0] == a[0] && (a + b)[1..] == a[1..] + b;
      Utf8LengthAppend(a[1..], b);
    }
  }

  /** For ASCII text the byte length is the character count, and only then. */
  lemma {:induction false} Utf8LengthAscii(s: string)
    ensures Utf8Length(s) == |s| <==> forall i :: 0 <= i < |s| ==> s[i] as int < 0x80
  {
    if s != [] {
      Utf8LengthAscii(s[1..]);
      assert forall i :: 1 <= i < |s| ==> s[i] == s[1..][i - 1];
    }
  }
}
