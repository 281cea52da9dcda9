/**
 * Turning the captured `upstream_status` value into an integer status:
 * keep the text after the last comma, strip surrounding whitespace, map `-`
 * to 0, read an integer, and fall back to 0 when that fails.
 */
module StatusField {
  import opened Wrappers

  /** Python's `str.isspace`, listed by code point. */
  predicate IsSpace(c: char) {
    var n := c as int;
    (9 <= n <= 13) || (0x1C <= n <= 0x20) || n == 0x85 || n == 0xA0 || n == 0x1680 ||
    (0x2000 <= n <= 0x200A) || n == 0x2028 || n == 0x2029 || n == 0x202F ||
    n == 0x205F || n == 0x3000
  }

  predicate IsDigit(c: char) {
    '0' <= c <= '9'
  }

  predicate AllSpace(s: string) {
    forall i :: 0 <= i < |s| ==> IsSpace(s[i])
  }

  predicate AllDigits(s: string) {
    forall i :: 0 <= i < |s| ==> IsDigit(s[i])
  }

  /** `s.split(',')[-1]`: the text after the last comma, or all of `s` when it has none. */
  function AfterLastComma(s: string): string
    decreases |s|
  {
    if s == [] || s[|s| - 1] == ',' then []
    else AfterLastComma(s[..|s| - 1]) + [s[|s| - 1]]
  }

  /** The last part is a comma-free suffix, preceded by a comma when it is not all of `s`. */
  lemma {:induction false} AfterLastCommaIsLastPart(s: string)
    ensures var r := AfterLastComma(s);
      ',' !in r && |r| <= |s| && r == s[|s| - |r|..] && (|r| < |s| ==> s[|s| - |r| - 1] == ',')
    decreases |s|
  {
    if s != [] && s[|s| - 1] != ',' {
      var init := s[..|s| - 1];
      AfterLastCommaIsLastPart(init);
      var r0 := AfterLastComma(init);
      assert s[|s| - |r0| - 1..] == init[|init| - |r0|..] + [s[|s| - 1]];
    }
  }

  /** Drops leading whitespace. */
  function TrimStart(s: string): string
    decreases |s|
  {
    if s != [] && IsSpace(s[0]) then TrimStart(s[1..]) else s
  }

  /** Drops trailing whitespace. */
  function TrimEnd(s: string): string
    decreases |s|
  {
    if s != [] && IsSpace(s[|s| - 1]) then TrimEnd(s[..|s| - 1]) else s
  }

  /** What TrimStart drops is all whitespace, and what it keeps does not start with whitespace. */
  lemma {:induction false} TrimStartDropsLeadingSpace(s: string)
    ensures var r := TrimStart(s);
      |r| <= |s| && r == s[|s| - |r|..] && (r == [] || !IsSpace(r[0])) && AllSpace(s[..|s| - |r|])
    decreases |s|
  {
    if s != [] && IsSpace(s[0]) {
      TrimStartDropsLeadingSpace(s[1..]);
      var r := TrimStart(s[1..]);
      assert s[..|s| - |r|] == [s[0]] + s[1..][..|s| - 1 - |r|];
    }
  }

  /** What TrimEnd drops is all whitespace, and what it keeps does not end with whitespace. */
  lemma {:induction false} TrimEndDropsTrailingSpace(s: string)
    ensures var r := TrimEnd(s);
      |r| <= |s| && r == s[..|r|] && (r == [] || !IsSpace(r[|r| - 1])) && AllSpace(s[|r|..])
    decreases |s|
  {
    if s != [] && IsSpace(s[|s| - 1]) {
      TrimEndDropsTrailingSpace(s[..|s| - 1]);
      var r := TrimEnd(s[..|s| - 1]);
      assert s[|r|..] == s[..|s| - 1][|r|..] + [s[|s| - 1]];
    }
  }

  /** `s.strip()`. */
  function Strip(s: string): string {
    TrimEnd(TrimStart(s))
  }

  /** The decimal value of a non-empty run of ASCII digits, or None. */
  function ParseDigits(ds: string): (r: Option<nat>)
    ensures r.Some? <==> ds != [] && AllDigits(ds)
    decreases |ds|
  {
    if ds == [] || !IsDigit(ds[|ds| - 1]) then None
    else
      var d := (ds[|ds| - 1] as int) - ('0' as int);
      if |ds| == 1 then Some(d)
      else
        match ParseDigits(ds[..|ds| - 1])
        case None => None
        case Some(v) => Some(10 * v + d)
  }

  /** The integer syntax accepted here: an optional sign, then one or more ASCII digits. */
  predicate IsIntSyntax(s: string) {
    var body := if |s| > 0 && (s[0] == '+' || s[0] == '-') then s[1..] else s;
    |body| > 0 && AllDigits(body)
  }

  /** `int(s)`: Some(value), or None where Python raises ValueError. */
  function ParseInt(s: string): (r: Option<int>)
    ensures r.Some? <==> IsIntSyntax(s)
    ensures r.Some? && s[0] != '-' ==> r.value >= 0
  {
    if |s| > 0 && s[0] == '-' then
      match ParseDigits(s[1..])
      case None => None
      case Some(n) => Some(-(n as int))
    else if |s| > 0 && s[0] == '+' then
      match ParseDigits(s[1..])
      case None => None
      case Some(n) => Some(n)
    else
      match ParseDigits(s)
      case None => None
      case Some(n) => Some(n)
  }

  /**
   * The status of a captured `upstream_status` value. Total: whatever the
   * text, the result is an integer, and 0 stands for `-` and for garbage.
   */
  function ParseStatus(field: string): (status: int)
    ensures var t := Strip(AfterLastComma(field));
      (t == "-" || !IsIntSyntax(t)) ==> status == 0
    ensures var t := Strip(AfterLastComma(field));
      t != [] && t[0] != '-' ==> status >= 0
    ensures var t := Strip(AfterLastComma(field));
      t != "-" && IsIntSyntax(t) ==> status == ParseInt(t).value
  {
    var t := Strip(AfterLastComma(field));
    if t == "-" then 0
    else
      match ParseInt(t)
      case Some(n) => n
      case None => 0
  }

  // ---------------------------------------------------------------------
  // Decimal rendering, the inverse that the integer parser is checked against.

  function DigitChar(d: nat): (c: char)
    requires d < 10
    ensures IsDigit(c)
  {
    ('0' as int + d) as char
  }

  /** The decimal digits of `n`, most significant first, without leading zeros. */
  function Digits(n: nat): (r: string)
    ensures r != [] && AllDigits(r)
  {
    if n < 10 then [DigitChar(n)] else Digits(n / 10) + [DigitChar(n % 10)]
  }

  /** `str(n)` for an integer `n`. */
  function Decimal(n: int): (r: string)
    ensures r != [] && IsDigit(r[|r| - 1])
    ensures r[0] == '-' || IsDigit(r[0])
    ensures forall i :: 0 <= i < |r| ==> IsDigit(r[i]) || (i == 0 && r[i] == '-')
  {
    if n < 0 then "-" + Digits(-n) else Digits(n)
  }

  lemma {:induction false} DigitsRoundTrip(n: nat)
    ensures ParseDigits(Digits(n)) == Some(n)
  {
    if n >= 10 {
      var ds := Digits(n);
      DigitsRoundTrip(n / 10);
      assert ds[..|ds| - 1] == Digits(n / 10);
    }
  }

  /** Every integer survives rendering and parsing back. */
  lemma {:induction false} DecimalRoundTrip(n: int)
    ensures ParseInt(Decimal(n)) == Some(n)
  {
    if n < 0 {
      DigitsRoundTrip(-n);
      assert Decimal(n)[1..] == Digits(-n);
    } else {
      DigitsRoundTrip(n);
    }
  }

  // ---------------------------------------------------------------------
  // The value `int()` gives to non-canonical text: a `+`, leading zeros, `-0`.

  predicate AllZeros(s: string) {
    forall i :: 0 <= i < |s| ==> s[i] == '0'
  }

  lemma {:induction false} ZerosReadAsZero(zeros: string)
    requires zeros != [] && AllZeros(zeros)
    ensures ParseDigits(zeros) == Some(0)
    decreases |zeros|
  {
    if |zeros| > 1 {
      ZerosReadAsZero(zeros[..|zeros| - 1]);
    }
  }

  /** Leading zeros do not change the value of a run of digits. */
  lemma {:induction false} LeadingZerosIgnored(zeros: string, ds: string)
    requires AllZeros(zeros)
    requires ds != [] && AllDigits(ds)
    ensures ParseDigits(zeros + ds) == ParseDigits(ds)
    decreases |ds|
  {
    var s := zeros + ds;
    if zeros == [] {
      assert s == ds;
    } else if |ds| == 1 {
      assert s[..|s| - 1] == zeros;
      ZerosReadAsZero(zeros);
    } else {
      assert s[..|s| - 1] == zeros + ds[..|ds| - 1];
      LeadingZerosIgnored(zeros, ds[..|ds| - 1]);
    }
  }

  /** A sign followed by digits reads as the digits' value, negated after `-`. */
  lemma ParseIntSigned(sign: string, body: string, v: nat)
    requires sign == "" || sign == "+" || sign == "-"
    requires body != [] && IsDigit(body[0]) && ParseDigits(body) == Some(v)
    ensures ParseInt(sign + body) == Some(if sign == "-" then -(v as int) else v)
  {
    var s := sign + body;
    if sign == "" {
      assert s == body;
    } else {
      assert s[0] == sign[0] && s[1..] == body;
    }
  }

  /** Zeros in front of the rendering of `n` still read as `n`. */
  lemma ZerosThenDigits(zeros: string, n: nat)
    requires AllZeros(zeros)
    ensures var body := zeros + Digits(n);
      body != [] && IsDigit(body[0]) && ParseDigits(body) == Some(n)
  {
    var ds := Digits(n);
    var body := zeros + ds;
    LeadingZerosIgnored(zeros, ds);
    DigitsRoundTrip(n);
    if zeros == [] { assert body[0] == ds[0]; } else { assert body[0] == zeros[0]; }
  }

  /**
   * A sign (none, `+` or `-`), then any number of zeros, then the decimal
   * digits of `n`, reads as `n`, negated after `-`.
   */
  lemma ParseIntPadded(sign: string, zeros: string, n: nat)
    requires sign == "" || sign == "+" || sign == "-"
    requires AllZeros(zeros)
    ensures ParseInt(sign + zeros + Digits(n)) == Some(if sign == "-" then -(n as int) else n)
  {
    var body := zeros + Digits(n);
    ZerosThenDigits(zeros, n);
    assert sign + zeros + Digits(n) == sign + body;
    ParseIntSigned(sign, body, n);
  }

  /** Digits without a superfluous leading zero are the rendering of their own value. */
  lemma {:induction false} CanonicalDigits(ds: string)
    requires ds != [] && AllDigits(ds) && (|ds| == 1 || ds[0] != '0')
    ensures ParseDigits(ds).Some? && Digits(ParseDigits(ds).value) == ds
    decreases |ds|
  {
    var d := (ds[|ds| - 1] as int) - ('0' as int);
    if |ds| > 1 {
      var init := ds[..|ds| - 1];
      CanonicalDigits(init);
      var v := ParseDigits(init).value;
      assert (10 * v + d) / 10 == v && (10 * v + d) % 10 == d;
      assert ds == init + [ds[|ds| - 1]];
    }
  }

  /** The number of leading zeros of a run of digits, keeping at least its last digit. */
  function LeadingZeroCount(ds: string): (z: nat)
    requires ds != []
    ensures z < |ds| && AllZeros(ds[..z]) && (z == |ds| - 1 || ds[z] != '0')
    decreases |ds|
  {
    if |ds| > 1 && ds[0] == '0' then
      var rest := LeadingZeroCount(ds[1..]);
      assert ds[..1 + rest] == [ds[0]] + ds[1..][..rest];
      1 + rest
    else 0
  }

  /** A run of digits is zeros followed by the rendering of its value. */
  lemma DigitsArePadded(body: string) returns (zeros: string, n: nat)
    requires body != [] && AllDigits(body)
    ensures AllZeros(zeros) && body == zeros + Digits(n)
    ensures ParseDigits(body) == Some(n)
  {
    var z := LeadingZeroCount(body);
    zeros := body[..z];
    var rest := body[z..];
    assert AllDigits(rest) by {
      forall i | 0 <= i < |rest| ensures IsDigit(rest[i]) {
        assert rest[i] == body[z + i];
      }
    }
    CanonicalDigits(rest);
    n := ParseDigits(rest).value;
    assert body == zeros + rest;
    LeadingZerosIgnored(zeros, rest);
  }

  /**
   * Every text of the integer syntax is a sign, zeros and the rendering of a
   * natural number, and reads as ParseIntPadded says.
   */
  lemma IntSyntaxIsPadded(s: string) returns (sign: string, zeros: string, n: nat)
    requires IsIntSyntax(s)
    ensures (sign == "" || sign == "+" || sign == "-") && AllZeros(zeros)
    ensures s == sign + zeros + Digits(n)
    ensures ParseInt(s) == Some(if sign == "-" then -(n as int) else n)
  {
    sign := if s[0] == '+' || s[0] == '-' then [s[0]] else "";
    var body := s[|sign|..];
    assert s == sign + body;
    zeros, n := DigitsArePadded(body);
    assert IsDigit(body[0]);
    ParseIntSigned(sign, body, n);
    assert sign + zeros + Digits(n) == sign + body;
  }

  // ---------------------------------------------------------------------
  // How the three steps treat padded and comma-separated values.

  /** Text without a comma is its own last comma-separated part. */
  lemma {:induction false} AfterLastCommaOfPlain(field: string)
    requires ',' !in field
    ensures AfterLastComma(field) == field
    decreases |field|
  {
    if field != [] {
      AfterLastCommaOfPlain(field[..|field| - 1]);
      assert field == field[..|field| - 1] + [field[|field| - 1]];
    }
  }

  /** Whatever precedes the last comma is ignored. */
  lemma {:induction false} AfterLastCommaOfList(prefix: string, field: string)
    requires ',' !in field
    ensures AfterLastComma(prefix + "," + field) == field
    decreases |field|
  {
    var s := prefix + "," + field;
    if field == [] {
      assert s[|s| - 1] == ',';
    } else {
      var init := field[..|field| - 1];
      AfterLastCommaOfList(prefix, init);
      assert s[..|s| - 1] == prefix + "," + init;
      assert field == init + [field[|field| - 1]];
    }
  }

  lemma {:induction false} TrimStartSkipsSpace(lead: string, x: string)
    requires AllSpace(lead)
    requires x == [] || !IsSpace(x[0])
    ensures TrimStart(lead + x) == x
    decreases |lead|
  {
    if lead != [] {
      assert (lead + x)[1..] == lead[1..] + x;
      TrimStartSkipsSpace(lead[1..], x);
    } else {
      assert lead + x == x;
    }
  }

  lemma {:induction false} TrimEndSkipsSpace(x: string, trail: string)
    requires AllSpace(trail)
    requires x == [] || !IsSpace(x[|x| - 1])
    ensures TrimEnd(x + trail) == x
    decreases |trail|
  {
    if trail != [] {
      var init := trail[..|trail| - 1];
      assert (x + trail)[..|x + trail| - 1] == x + init;
      TrimEndSkipsSpace(x, init);
    } else {
      assert x + trail == x;
    }
  }

  /** Stripping removes exactly the whitespace around a core that starts and ends with non-space. */
  lemma StripPadded(lead: string, core: string, trail: string)
    requires AllSpace(lead) && AllSpace(trail)
    requires core != [] && !IsSpace(core[0]) && !IsSpace(core[|core| - 1])
    ensures Strip(lead + core + trail) == core
  {
    assert lead + core + trail == lead + (core + trail);
    TrimStartSkipsSpace(lead, core + trail);
    TrimEndSkipsSpace(core, trail);
  }

  /**
   * An upstream list whose last entry is a padded integer yields that
   * integer, however many entries precede it.
   */
  lemma ParseStatusOfList(prefix: string, lead: string, n: int, trail: string)
    requires AllSpace(lead) && AllSpace(trail)
    requires ',' !in lead && ',' !in trail
    ensures ParseStatus(prefix + "," + lead + Decimal(n) + trail) == n
  {
    var d := Decimal(n);
    var last := lead + d + trail;
    assert ',' !in last by {
      forall i | 0 <= i < |last| ensures last[i] != ',' {
        if i < |lead| { assert last[i] == lead[i]; }
        else if i < |lead| + |d| { assert last[i] == d[i - |lead|]; }
        else { assert last[i] == trail[i - |lead| - |d|]; }
      }
    }
    assert prefix + "," + lead + d + trail == prefix + "," + last;
    AfterLastCommaOfList(prefix, last);
    StripPadded(lead, d, trail);
    DecimalRoundTrip(n);
  }

  /** A single padded integer (no comma at all) yields that integer. */
  lemma ParseStatusOfSingle(lead: string, n: int, trail: string)
    requires AllSpace(lead) && AllSpace(trail)
    requires ',' !in lead && ',' !in trail
    ensures ParseStatus(lead + Decimal(n) + trail) == n
  {
    var d := Decimal(n);
    var s := lead + d + trail;
    assert ',' !in s by {
      forall i | 0 <= i < |s| ensures s[i] != ',' {
        if i < |lead| { assert s[i] == lead[i]; }
        else if i < |lead| + |d| { assert s[i] == d[i - |lead|]; }
        else { assert s[i] == trail[i - |lead| - |d|]; }
      }
    }
    AfterLastCommaOfPlain(s);
    StripPadded(lead, d, trail);
    DecimalRoundTrip(n);
  }

  /** A last entry of `-` (no upstream answered) reads as status 0. */
  lemma ParseStatusOfDash(prefix: string, lead: string, trail: string)
    requires AllSpace(lead) && AllSpace(trail)
    requires ',' !in lead && ',' !in trail
    ensures ParseStatus(prefix + "," + lead + "-" + trail) == 0
  {
    var last := lead + "-" + trail;
    assert ',' !in last by {
      forall i | 0 <= i < |last| ensures last[i] != ',' {
        if i < |lead| { assert last[i] == lead[i]; }
        else if i == |lead| { assert last[i] == '-'; }
        else { assert last[i] == trail[i - |lead| - 1]; }
      }
    }
    assert prefix + "," + lead + "-" + trail == prefix + "," + last;
    AfterLastCommaOfList(prefix, last);
    StripPadded(lead, "-", trail);
  }
}
