/** The string handling the split codec relies on: splitting a record on the
    field separator, joining fields back, and the JDK's decimal integer and
    decimal-fraction parsers and printers, with Java's 32-bit `int`. */
module Text {
  import opened Results

  /** The field separator of the split text record. */
  const Sep: char := ';'

  const IntMin: int := -0x8000_0000
  const IntMax: int := 0x7fff_ffff

  /** `x` fits in a Java `int`. */
  predicate InInt32(x: int) {
    IntMin <= x <= IntMax
  }

  /** The low 32 bits of `x` read as a two's-complement Java `int`
      (what `BigDecimal.intValue` returns for an integral value). */
  function Wrap32(x: int): (r: int)
    ensures InInt32(r)
    ensures (r - x) % 0x1_0000_0000 == 0
    ensures InInt32(x) ==> r == x
  {
    (x - IntMin) % 0x1_0000_0000 + IntMin
  }

  // ---------------------------------------------------------------------------
  // Fields and records

  /** Concatenates the fields with `;` between consecutive ones. */
  function Join(fields: seq<string>): string {
    if |fields| == 0 then ""
    else if |fields| == 1 then fields[0]
    else fields[0] + [Sep] + Join(fields[1..])
  }

  /** No field contains the separator. */
  predicate SepFree(fields: seq<string>) {
    forall i :: 0 <= i < |fields| ==> Sep !in fields[i]
  }

  /** Splits `s` at every `;`, keeping empty fields (including trailing ones;
      `String.split` of the JDK drops trailing empty fields, which this plain
      split does not). */
  function Tokenize(s: string): (tokens: seq<string>)
    ensures |tokens| >= 1
    ensures SepFree(tokens)
    ensures Join(tokens) == s
  {
    if s == [] then [""]
    else
      var rest := Tokenize(s[1..]);
      if s[0] == Sep then
        assert ([""] + rest)[1..] == rest;
        [""] + rest
      else
        var tokens := [[s[0]] + rest[0]] + rest[1..];
        assert tokens[1..] == rest[1..];
        assert |rest| > 1 ==> Join(rest) == rest[0] + [Sep] + Join(rest[1..]);
        assert s == [s[0]] + s[1..];
        tokens
  }

  /** A separator-free prefix sticks to the first field. */
  lemma {:induction false} TokenizePrefix(t: string, rest: string)
    requires Sep !in t
    ensures Tokenize(t + rest) == [t + Tokenize(rest)[0]] + Tokenize(rest)[1..]
  {
    if t == [] {
      var tokens := Tokenize(rest);
      assert t + rest == rest && t + tokens[0] == tokens[0];
      assert tokens == [tokens[0]] + tokens[1..];
    } else {
      assert (t + rest)[0] == t[0];
      assert (t + rest)[1..] == t[1..] + rest;
      TokenizePrefix(t[1..], rest);
      assert [t[0]] + (t[1..] + Tokenize(rest)[0]) == t + Tokenize(rest)[0];
    }
  }

  /** Splitting undoes joining, for fields free of the separator. */
  lemma {:induction false} TokenizeJoin(fields: seq<string>)
    requires |fields| >= 1 && SepFree(fields)
    ensures Tokenize(Join(fields)) == fields
  {
    if |fields| == 1 {
      TokenizePrefix(fields[0], "");
      assert fields[0] + "" == fields[0];
    } else {
      var rest := Join(fields[1..]);
      assert Join(fields) == fields[0] + ([Sep] + rest);
      TokenizePrefix(fields[0], [Sep] + rest);
      assert ([Sep] + rest)[1..] == rest;
      TokenizeJoin(fields[1..]);
      assert fields[0] + "" == fields[0];
      assert fields == [fields[0]] + fields[1..];
    }
  }

  // ---------------------------------------------------------------------------
  // Decimal digits

  predicate IsDigit(c: char) {
    '0' <= c <= '9'
  }

  predicate AllDigits(s: string) {
    forall i :: 0 <= i < |s| ==> IsDigit(s[i])
  }

  /** The number a string of decimal digits denotes (most significant first). */
  function DigitsValue(s: string): nat
    requires AllDigits(s)
  {
    if s == [] then 0
    else DigitsValue(s[..|s| - 1]) * 10 + (s[|s| - 1] as int - '0' as int)
  }

  function DigitChar(d: nat): (c: char)
    requires d < 10
    ensures IsDigit(c) && c as int - '0' as int == d
  {
    ('0' as int + d) as char
  }

  /** The shortest decimal numeral of `n`, as `String.valueOf` prints it:
      no leading zero unless the numeral is `0` itself. */
  function FormatNat(n: nat): (s: string)
    ensures |s| >= 1 && AllDigits(s)
    ensures DigitsValue(s) == n
    ensures |s| == 1 || s[0] != '0'
  {
    if n < 10 then [DigitChar(n)]
    else
      var t := FormatNat(n / 10);
      var s := t + [DigitChar(n % 10)];
      assert s[..|s| - 1] == t;
      assert |t| == 1 ==> t[0] != '0' by {
        if |t| == 1 {
          assert t[..0] == [];
          assert DigitsValue(t) == t[0] as int - '0' as int;
        }
      }
      s
  }

  /** `String.valueOf(int)`: a minus sign exactly for negative numbers, then
      the shortest numeral of the magnitude. */
  function FormatInt(n: int): (s: string)
    ensures Sep !in s
    ensures |s| >= 1 && (s[0] == '-' <==> n < 0)
    ensures n >= 0 ==> AllDigits(s) && DigitsValue(s) == n && (|s| == 1 || s[0] != '0')
    ensures n < 0 ==> |s| >= 2 && AllDigits(s[1..]) && DigitsValue(s[1..]) == -n && s[1] != '0'
  {
    if n < 0 then
      var s := "-" + FormatNat(-n);
      assert s[1..] == FormatNat(-n);
      s
    else FormatNat(n)
  }

  /** An optional `-` or `+` followed by one or more decimal digits. */
  predicate IsNumeral(s: string) {
    || (|s| >= 1 && AllDigits(s))
    || (|s| >= 2 && (s[0] == '-' || s[0] == '+') && AllDigits(s[1..]))
  }

  /** The integer a numeral denotes. */
  function NumeralValue(s: string): int
    requires IsNumeral(s)
  {
    if s[0] == '-' then -(DigitsValue(s[1..]) as int)
    else if s[0] == '+' then DigitsValue(s[1..])
    else DigitsValue(s)
  }

  /** `Integer.parseInt`: succeeds exactly on a numeral whose value lies in
      the `int` range, and returns that value; anything else is a
      NumberFormatException. */
  function ParseInt32(s: string): (r: Result<int>)
    ensures r.Ok? <==> IsNumeral(s) && InInt32(NumeralValue(s))
    ensures r.Ok? ==> r.value == NumeralValue(s)
    ensures r.Err? ==> r.error == NumberFormat(s)
  {
    if s == [] then Err(NumberFormat(s))
    else
      var digits := if s[0] == '-' || s[0] == '+' then s[1..] else s;
      if digits == [] || !AllDigits(digits) then Err(NumberFormat(s))
      else
        var v: int := if s[0] == '-' then -(DigitsValue(digits) as int) else DigitsValue(digits);
        if InInt32(v) then Ok(v) else Err(NumberFormat(s))
  }

  /** Printing an `int` and parsing it back gives the same `int`. */
  lemma ParseFormatInt(n: int)
    requires InInt32(n)
    ensures ParseInt32(FormatInt(n)) == Ok(n)
  {
    var s := FormatInt(n);
    if n < 0 {
      assert s[0] == '-' && s[1..] == FormatNat(-n);
    } else {
      assert s == FormatNat(n);
      assert IsDigit(s[0]);
    }
  }

  // ---------------------------------------------------------------------------
  // Decimal fractions, as `new BigDecimal(String)` reads them

  /** The decimal `unscaled / 10^scale`. */
  datatype Decimal = Decimal(unscaled: int, scale: nat)

  /** The index of the first `c` in `s`, or `|s|` when there is none. */
  function IndexOf(s: string, c: char): (i: nat)
    ensures i <= |s|
    ensures i < |s| ==> s[i] == c
    ensures forall j :: 0 <= j < i ==> s[j] != c
  {
    if s == [] then 0
    else if s[0] == c then 0
    else 1 + IndexOf(s[1..], c)
  }

  /** An optional sign, integer digits, and an optional `.` followed by
      fraction digits, with at least one digit in all; anything else is a
      NumberFormatException. */
  function ParseDecimal(s: string): (r: Result<Decimal>)
    ensures r.Err? ==> r.error == NumberFormat(s)
    ensures r.Ok? ==> exists i :: 0 <= i < |s| && IsDigit(s[i])
  {
    var body := if |s| > 0 && (s[0] == '-' || s[0] == '+') then s[1..] else s;
    var dot := IndexOf(body, '.');
    var whole := body[..dot];
    var fraction := if dot < |body| then body[dot + 1..] else "";
    if |whole| + |fraction| == 0 || !AllDigits(whole) || !AllDigits(fraction) then
      Err(NumberFormat(s))
    else
      var magnitude := DigitsValue(whole + fraction);
      var unscaled: int := if |s| > 0 && s[0] == '-' then -(magnitude as int) else magnitude;
      assert |whole| > 0 ==> body[0] == whole[0];
      assert |whole| == 0 ==> body[dot + 1] == fraction[0];
      assert body == s || body == s[1..];
      Ok(Decimal(unscaled, |fraction|))
  }

  /** A plain integer numeral reads as a decimal with scale zero. */
  lemma ParseDecimalOfInt(n: int)
    ensures ParseDecimal(FormatInt(n)) == Ok(Decimal(n, 0))
  {
    var s := FormatInt(n);
    var body := if n < 0 then FormatNat(-n) else FormatNat(n);
    assert n < 0 ==> s[0] == '-' && s[1..] == body;
    assert n >= 0 ==> s == body && s[0] != '-' && s[0] != '+';
    NoDotInDigits(body);
    assert body[..|body|] + "" == body;
  }

  /** A string of digits has no `.`. */
  lemma NoDotInDigits(s: string)
    requires AllDigits(s)
    ensures IndexOf(s, '.') == |s|
  {
  }
}
