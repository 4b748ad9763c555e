/** The `;`-separated text form of a split: `toCsv` writes it and `parseSplit`
    reads it back, in the canonical format
      valueNum;valueDenom;valueCode;quantityNum;quantityDenom;quantityCode;transactionUID;accountUID;TYPE[;memo]
    or, below eight fields, the legacy format
      amount;currencyCode;accountUID;transactionUID;TYPE[;memo]
    Both the writer and the reader are modelled twice: as written in the
    source (`ToCsvAsWritten`, `ParseSplitAsWritten`) and as the format above
    intends (`ToCsv`, `ParseSplit`). */
module SplitCodec {
  import opened Results
  import opened Text
  import opened Monies
  import opened TransactionTypes
  import opened Splits

  // ---------------------------------------------------------------------------
  // Writing

  /** The numerator field of an amount: its minor units as a Java `int`, the
      low 32 bits of `multiply(denominator).intValue()`. */
  function NumeratorField(m: Money): (field: string)
    ensures Sep !in field
    ensures IsNumeral(field) && NumeralValue(field) == Wrap32(m.amount)
  {
    ParseFormatInt(Wrap32(m.amount));
    FormatInt(Wrap32(m.amount))
  }

  /** The denominator field of an amount: `10^fractionDigits`. */
  function DenominatorField(m: Money): (field: string)
    ensures Sep !in field
    ensures IsNumeral(field) && NumeralValue(field) == Denominator(m.currency)
  {
    ParseFormatInt(Denominator(m.currency));
    FormatInt(Denominator(m.currency))
  }

  /** The memo field, present only when there is a memo. */
  function MemoFields(s: SplitData): (fields: seq<string>)
    ensures |fields| == if s.memo.Some? then 1 else 0
  {
    if s.memo.Some? then [s.memo.value] else []
  }

  /** The six fields of a value and a quantity: numerator, denominator and
      currency code of each. */
  function AmountFields(value: Money, quantity: Money): (fields: seq<string>)
    ensures |fields| == 6
  {
    [NumeratorField(value), DenominatorField(value), value.currency.code,
     NumeratorField(quantity), DenominatorField(quantity), quantity.currency.code]
  }

  /** The fields of a split's record, in canonical order. */
  function CsvFields(s: SplitData, quantity: Money): (fields: seq<string>)
    ensures |fields| == if s.memo.Some? then 10 else 9
  {
    AmountFields(s.value, quantity) + [s.transactionUID, s.accountUID, s.splitType.Name()] + MemoFields(s)
  }

  /** `toCsv` as intended: the canonical fields joined by `;`, the memo last
      and only when there is one. A split whose quantity was never set (one
      made by the copy constructor) has no record: `toCsv` dereferences it. */
  function ToCsv(s: SplitData): (r: Result<string>)
    ensures r.Err? <==> s.quantity.None?
    ensures r.Err? ==> r.error == NullQuantity
    ensures r.Ok? ==> r.value == Join(CsvFields(s, s.quantity.value))
  {
    if s.quantity.None? then Err(NullQuantity)
    else Ok(Join(CsvFields(s, s.quantity.value)))
  }

  /** `toCsv` as written: no separator between the value's currency code and
      the quantity's numerator. (The concatenation is grouped from the right,
      as the joined fields are; string concatenation is associative.) */
  function ToCsvAsWritten(s: SplitData): (r: Result<string>)
    ensures r.Err? <==> s.quantity.None?
  {
    if s.quantity.None? then Err(NullQuantity)
    else
      var q := s.quantity.value;
      var sep := [Sep];
      var line := NumeratorField(s.value) + sep + (DenominatorField(s.value) + sep + (s.value.currency.code
                    + NumeratorField(q) + sep + (DenominatorField(q) + sep + (q.currency.code
                    + sep + (s.transactionUID + sep + (s.accountUID + sep + s.splitType.Name()))))));
      Ok(if s.memo.Some? then line + sep + s.memo.value else line)
  }

  /** What the source writes is the canonical fields with fields 2 and 3 run
      together. */
  lemma AsWrittenIsMerged(s: SplitData)
    requires s.quantity.Some?
    ensures ToCsvAsWritten(s) == Ok(Join(MergedFields(s, s.quantity.value)))
  {
    var q := s.quantity.value;
    var head := MergedHead(s, q);
    JoinEight(head);
    if s.memo.Some? {
      JoinSnoc(head, s.memo.value);
      assert MergedFields(s, q) == head + [s.memo.value];
    } else {
      assert MergedFields(s, q) == head;
    }
  }

  /** The fields the source actually writes: fields 2 and 3 run together. */
  function MergedFields(s: SplitData, quantity: Money): (fields: seq<string>)
    ensures |fields| == if s.memo.Some? then 9 else 8
  {
    MergedHead(s, quantity) + MemoFields(s)
  }

  function MergedHead(s: SplitData, quantity: Money): (fields: seq<string>)
    ensures |fields| == 8
  {
    [NumeratorField(s.value), DenominatorField(s.value), s.value.currency.code + NumeratorField(quantity),
     DenominatorField(quantity), quantity.currency.code,
     s.transactionUID, s.accountUID, s.splitType.Name()]
  }

  lemma JoinEight(f: seq<string>)
    requires |f| == 8
    ensures Join(f) == f[0] + [Sep] + (f[1] + [Sep] + (f[2] + [Sep] + (f[3] + [Sep] + (f[4]
                         + [Sep] + (f[5] + [Sep] + (f[6] + [Sep] + f[7]))))))
  {
    assert f[7..] == [f[7]];
    JoinStep(f, 6);
    JoinStep(f, 5);
    JoinStep(f, 4);
    JoinStep(f, 3);
    JoinStep(f, 2);
    JoinStep(f, 1);
    JoinStep(f, 0);
    assert f[0..] == f;
  }

  lemma JoinStep(f: seq<string>, i: nat)
    requires i + 1 < |f|
    ensures Join(f[i..]) == f[i] + [Sep] + Join(f[i + 1..])
  {
    assert f[i..][1..] == f[i + 1..];
  }

  /** Joining one more field appends a separator and the field. */
  lemma {:induction false} JoinSnoc(f: seq<string>, x: string)
    requires |f| >= 1
    ensures Join(f + [x]) == Join(f) + [Sep] + x
  {
    if |f| > 1 {
      assert (f + [x])[1..] == f[1..] + [x];
      JoinSnoc(f[1..], x);
    }
  }

  // ---------------------------------------------------------------------------
  // Reading

  /** `tokens[i]`, or the index error the array access throws. */
  function Token(tokens: seq<string>, i: nat): (r: Result<string>)
    ensures r.Ok? <==> i < |tokens|
    ensures r.Ok? ==> r.value == tokens[i]
    ensures r.Err? ==> r.error == IndexOutOfBounds(i)
  {
    if i < |tokens| then Ok(tokens[i]) else Err(IndexOutOfBounds(i))
  }

  /** `new Money(num, denom, code)`. */
  function MoneyOf(num: int, denom: int, code: string, currencies: CurrencyTable): (r: Result<Money>)
    ensures r.Ok? <==> code in currencies && denom != 0
    ensures r.Ok? ==> r.value.currency == Currency(code, currencies[code])
    ensures code in currencies ==> r == FromFraction(num, denom, Currency(code, currencies[code]))
  {
    var currency :- GetCurrency(currencies, code);
    FromFraction(num, denom, currency)
  }

  /** The legacy branch, below eight tokens: amount and currency from tokens
      0 and 1, account from token 2, transaction from token 3, side from
      token 4, and the memo from token 5 only when there are exactly six. */
  function ParseLegacy(tokens: seq<string>, currencies: CurrencyTable, uid: string): (r: Result<SplitData>)
    ensures r.Ok? <==>
              && |tokens| >= 5
              && FromDecimalString(tokens[0], tokens[1], currencies).Ok?
              && ValueOf(tokens[4]).Ok?
    ensures r.Ok? ==>
              var s := r.value;
              && s.value == FromDecimalString(tokens[0], tokens[1], currencies).value
              && s.quantity == Some(s.value)
              && s.accountUID == tokens[2] && s.transactionUID == tokens[3]
              && s.splitType.Name() == tokens[4]
              && s.memo == (if |tokens| == 6 then Some(tokens[5]) else None)
              && s.uid == uid
  {
    var amountText :- Token(tokens, 0);
    var code :- Token(tokens, 1);
    var amount :- FromDecimalString(amountText, code, currencies);
    var account :- Token(tokens, 2);
    var split := NewSplit(amount, account, uid);
    var transaction :- Token(tokens, 3);
    var split := split.(transactionUID := transaction);
    var typeName :- Token(tokens, 4);
    var splitType :- ValueOf(typeName);
    var split := split.(splitType := splitType);
    if |tokens| == 6 then Ok(split.(memo := Some(tokens[5]))) else Ok(split)
  }

  /** Tokens 0 to 5 read as the value and the quantity, in the source's
      order: the four integers first, then the two amounts. */
  function ParseAmounts(tokens: seq<string>, currencies: CurrencyTable): (r: Result<(Money, Money)>)
    requires |tokens| >= 6
    ensures r.Ok? <==>
              && ParseInt32(tokens[0]).Ok? && ParseInt32(tokens[1]).Ok?
              && ParseInt32(tokens[3]).Ok? && ParseInt32(tokens[4]).Ok?
              && MoneyOf(ParseInt32(tokens[0]).value, ParseInt32(tokens[1]).value, tokens[2], currencies).Ok?
              && MoneyOf(ParseInt32(tokens[3]).value, ParseInt32(tokens[4]).value, tokens[5], currencies).Ok?
    ensures r.Ok? ==>
              && Ok(r.value.0) == MoneyOf(ParseInt32(tokens[0]).value, ParseInt32(tokens[1]).value,
                                          tokens[2], currencies)
              && Ok(r.value.1) == MoneyOf(ParseInt32(tokens[3]).value, ParseInt32(tokens[4]).value,
                                          tokens[5], currencies)
  {
    var valueNum :- ParseInt32(tokens[0]);
    var valueDenom :- ParseInt32(tokens[1]);
    var valueCode := tokens[2];
    var quantityNum :- ParseInt32(tokens[3]);
    var quantityDenom :- ParseInt32(tokens[4]);
    var quantityCode := tokens[5];
    var value :- MoneyOf(valueNum, valueDenom, valueCode, currencies);
    var quantity :- MoneyOf(quantityNum, quantityDenom, quantityCode, currencies);
    Ok((value, quantity))
  }

  /** The canonical branch, from eight tokens on: value from tokens 0-2,
      quantity from tokens 3-5 (set explicitly, so independent of the value),
      transaction from token 6, account from token 7, side from token 8, and
      the memo from token 9 when the token count equals `memoCount`. */
  function ParseCanonical(tokens: seq<string>, currencies: CurrencyTable, uid: string, memoCount: nat)
    : (r: Result<SplitData>)
    requires |tokens| >= 8
    ensures r.Ok? <==>
              && ParseAmounts(tokens, currencies).Ok?
              && |tokens| > 8 && ValueOf(tokens[8]).Ok?
              && (|tokens| == memoCount ==> |tokens| > 9)
    ensures r.Err? && ParseAmounts(tokens, currencies).Ok? && |tokens| == 8 ==> r.error == IndexOutOfBounds(8)
    ensures memoCount == |tokens| == 9 && ParseAmounts(tokens, currencies).Ok? && ValueOf(tokens[8]).Ok? ==>
              r == Err(IndexOutOfBounds(9))
    ensures r.Ok? ==>
              var s := r.value;
              && s.quantity.Some?
              && ParseAmounts(tokens, currencies) == Ok((s.value, s.quantity.value))
              && s.transactionUID == tokens[6] && s.accountUID == tokens[7]
              && s.splitType.Name() == tokens[8]
              && s.memo == (if |tokens| == memoCount then Some(tokens[9]) else None)
              && s.uid == uid
  {
    var amounts :- ParseAmounts(tokens, currencies);
    var split := NewSplit(amounts.0, tokens[7], uid).(quantity := Some(amounts.1), transactionUID := tokens[6]);
    var typeName :- Token(tokens, 8);
    var splitType :- ValueOf(typeName);
    var split := split.(splitType := splitType);
    if |tokens| == memoCount then
      var memo :- Token(tokens, 9);
      Ok(split.(memo := Some(memo)))
    else Ok(split)
  }

  /** `parseSplit` as written: the memo is read from `tokens[9]` when there
      are nine tokens. `uid` is the identity the new split is given. */
  function ParseSplitAsWritten(text: string, currencies: CurrencyTable, uid: string): (r: Result<SplitData>)
    ensures |Tokenize(text)| < 8 ==> r == ParseLegacy(Tokenize(text), currencies, uid)
    ensures |Tokenize(text)| >= 8 ==> r == ParseCanonical(Tokenize(text), currencies, uid, 9)
    ensures |Tokenize(text)| == 9 ==> r.Err?
    ensures |Tokenize(text)| >= 8 && r.Ok? ==> r.value.memo.None?
  {
    var tokens := Tokenize(text);
    if |tokens| < 8 then ParseLegacy(tokens, currencies, uid)
    else ParseCanonical(tokens, currencies, uid, 9)
  }

  /** `parseSplit` as intended: the memo is `tokens[9]` when there are ten
      tokens. */
  function ParseSplit(text: string, currencies: CurrencyTable, uid: string): (r: Result<SplitData>)
    ensures |Tokenize(text)| < 8 ==> r == ParseLegacy(Tokenize(text), currencies, uid)
    ensures |Tokenize(text)| >= 8 ==> r == ParseCanonical(Tokenize(text), currencies, uid, 10)
    ensures |Tokenize(text)| == 8 ==> r.Err?
    ensures |Tokenize(text)| >= 8 && r.Ok? ==>
              r.value.memo == if |Tokenize(text)| == 10 then Some(Tokenize(text)[9]) else None
  {
    var tokens := Tokenize(text);
    if |tokens| < 8 then ParseLegacy(tokens, currencies, uid)
    else ParseCanonical(tokens, currencies, uid, 10)
  }

  // ---------------------------------------------------------------------------
  // Round trips

  /** `currency` is what the runtime knows under its code. */
  predicate Known(currencies: CurrencyTable, currency: Currency) {
    currency.code in currencies && currencies[currency.code] == currency.fractionDigits
  }

  /** A split whose record reads back: its quantity is set, both amounts fit
      in a Java `int`, both currencies are known, none of the text fields
      contains the separator, and a memo is not empty (an empty memo would be
      a trailing empty field, which `String.split` drops). */
  predicate Writable(s: SplitData, currencies: CurrencyTable) {
    && s.quantity.Some?
    && InInt32(s.value.amount) && InInt32(s.quantity.value.amount)
    && Known(currencies, s.value.currency) && Known(currencies, s.quantity.value.currency)
    && SepFree([s.value.currency.code, s.quantity.value.currency.code, s.transactionUID, s.accountUID])
    && (s.memo.Some? ==> Sep !in s.memo.value)
    && s.memo != Some("")
  }

  lemma CsvFieldsSepFree(s: SplitData, q: Money)
    requires SepFree([s.value.currency.code, q.currency.code, s.transactionUID, s.accountUID])
    requires s.memo.Some? ==> Sep !in s.memo.value
    ensures SepFree(CsvFields(s, q)) && SepFree(MergedFields(s, q))
  {
    var text := [s.value.currency.code, q.currency.code, s.transactionUID, s.accountUID];
    assert Sep !in text[0] && Sep !in text[1] && Sep !in text[2] && Sep !in text[3];
    var tail := [s.transactionUID, s.accountUID, s.splitType.Name()] + MemoFields(s);
    assert SepFree(tail);
    CanonicalSepFree(s, q, tail);
    MergedSepFree(s, q);
  }

  lemma CanonicalSepFree(s: SplitData, q: Money, tail: seq<string>)
    requires Sep !in s.value.currency.code && Sep !in q.currency.code
    requires tail == [s.transactionUID, s.accountUID, s.splitType.Name()] + MemoFields(s)
    requires SepFree(tail)
    ensures SepFree(CsvFields(s, q))
  {
    AmountFieldsSepFree(s.value, q);
    SepFreeAppend(AmountFields(s.value, q), tail);
    assert CsvFields(s, q) == AmountFields(s.value, q) + tail;
  }

  lemma MergedSepFree(s: SplitData, q: Money)
    requires SepFree([s.value.currency.code, q.currency.code, s.transactionUID, s.accountUID])
    requires s.memo.Some? ==> Sep !in s.memo.value
    ensures SepFree(MergedFields(s, q))
  {
    var text := [s.value.currency.code, q.currency.code, s.transactionUID, s.accountUID];
    assert Sep !in text[0] && Sep !in text[1] && Sep !in text[2] && Sep !in text[3];
    NoSepConcat(text[0], NumeratorField(q));
    var head := MergedHead(s, q);
    assert SepFree(head);
    SepFreeAppend(head, MemoFields(s));
  }

  lemma AmountFieldsSepFree(v: Money, q: Money)
    requires Sep !in v.currency.code && Sep !in q.currency.code
    ensures SepFree(AmountFields(v, q))
  {
  }

  lemma SepFreeAppend(a: seq<string>, b: seq<string>)
    requires SepFree(a) && SepFree(b)
    ensures SepFree(a + b)
  {
    forall i | 0 <= i < |a + b|
      ensures Sep !in (a + b)[i]
    {
      if i >= |a| {
        assert (a + b)[i] == b[i - |a|];
      }
    }
  }

  lemma NoSepConcat(x: string, y: string)
    requires Sep !in x && Sep !in y
    ensures Sep !in x + y
  {
  }

  /** The doc comment's promise, for the intended writer and reader: parsing
      a written split gives back the split, under the identity the parser
      assigns. */
  lemma RoundTrip(s: SplitData, currencies: CurrencyTable, uid: string)
    requires Writable(s, currencies)
    ensures ParseSplit(ToCsv(s).value, currencies, uid) == Ok(s.(uid := uid))
  {
    var q := s.quantity.value;
    var f := CsvFields(s, q);
    CsvFieldsSepFree(s, q);
    TokenizeJoin(f);
    ReadBackCanonical(s, currencies, uid, 10);
  }

  /** The canonical parser applied to the canonical fields of a writable split. */
  lemma ReadBackCanonical(s: SplitData, currencies: CurrencyTable, uid: string, memoCount: nat)
    requires Writable(s, currencies)
    requires memoCount == 9 || memoCount == 10
    ensures ParseCanonical(CsvFields(s, s.quantity.value), currencies, uid, memoCount)
              == if s.memo.Some? && memoCount == 10 then Ok(s.(uid := uid))
                 else if s.memo.Some? then Ok(s.(uid := uid, memo := None))
                 else if memoCount == 9 then Err(IndexOutOfBounds(9))
                 else Ok(s.(uid := uid))
  {
    var q := s.quantity.value;
    var rest := [s.transactionUID, s.accountUID, s.splitType.Name()] + MemoFields(s);
    var f := CsvFields(s, q);
    assert f == AmountFields(s.value, q) + rest;
    ParseAmountsOf(s.value, q, rest, currencies);
    ValueOfName(s.splitType);
    assert f[6] == s.transactionUID && f[7] == s.accountUID && f[8] == s.splitType.Name();
    assert s.memo.Some? ==> f[9] == s.memo.value;
  }

  /** The amount fields of two known `int`-sized amounts, followed by any
      tokens, parse to those amounts. */
  lemma ParseAmountsOf(v: Money, q: Money, rest: seq<string>, currencies: CurrencyTable)
    requires InInt32(v.amount) && InInt32(q.amount)
    requires Known(currencies, v.currency) && Known(currencies, q.currency)
    ensures ParseAmounts(AmountFields(v, q) + rest, currencies) == Ok((v, q))
  {
    var tokens := AmountFields(v, q) + rest;
    assert tokens[0] == NumeratorField(v) && tokens[1] == DenominatorField(v) && tokens[2] == v.currency.code;
    assert tokens[3] == NumeratorField(q) && tokens[4] == DenominatorField(q) && tokens[5] == q.currency.code;
    assert MoneyOf(v.amount, Denominator(v.currency), v.currency.code, currencies) == Ok(v);
    assert MoneyOf(q.amount, Denominator(q.currency), q.currency.code, currencies) == Ok(q);
  }

  /** Source as written, missing separator: the intended reader rejects what
      the source's writer produces, because the quantity's currency code lands
      where the quantity's denominator belongs. */
  lemma MissingSeparatorBreaksRoundTrip(s: SplitData, currencies: CurrencyTable, uid: string)
    requires Writable(s, currencies)
    requires ParseInt32(s.quantity.value.currency.code).Err?
    ensures ParseSplit(ToCsvAsWritten(s).value, currencies, uid)
              == Err(NumberFormat(s.quantity.value.currency.code))
  {
    var q := s.quantity.value;
    var m := MergedFields(s, q);
    AsWrittenIsMerged(s);
    CsvFieldsSepFree(s, q);
    TokenizeJoin(m);
    MergedAmountsFail(s, q, currencies);
  }

  /** In the merged fields the quantity's currency code is token 4, the
      quantity's denominator, and the numbers before it parse. */
  lemma MergedAmountsFail(s: SplitData, q: Money, currencies: CurrencyTable)
    requires ParseInt32(q.currency.code).Err?
    ensures ParseAmounts(MergedFields(s, q), currencies) == Err(NumberFormat(q.currency.code))
  {
    var m := MergedFields(s, q);
    assert m[0] == NumeratorField(s.value) && m[1] == DenominatorField(s.value);
    assert m[3] == DenominatorField(q) && m[4] == q.currency.code;
  }

  /** Source as written, memo index: a ten-field record loses its memo and a
      nine-field record fails on `tokens[9]`. */
  lemma MemoIndexBreaksRoundTrip(s: SplitData, currencies: CurrencyTable, uid: string)
    requires Writable(s, currencies)
    ensures ParseSplitAsWritten(ToCsv(s).value, currencies, uid)
              == if s.memo.Some? then Ok(s.(uid := uid, memo := None)) else Err(IndexOutOfBounds(9))
  {
    var q := s.quantity.value;
    var f := CsvFields(s, q);
    CsvFieldsSepFree(s, q);
    TokenizeJoin(f);
    ReadBackCanonical(s, currencies, uid, 9);
  }

  /** Source as written, both defects together: no split with separator-free
      text fields survives `parseSplit(toCsv())`. */
  lemma AsWrittenRoundTripFails(s: SplitData, currencies: CurrencyTable, uid: string)
    requires s.quantity.Some?
    requires SepFree([s.value.currency.code, s.quantity.value.currency.code, s.transactionUID, s.accountUID])
    requires s.memo.Some? ==> Sep !in s.memo.value
    ensures ParseSplitAsWritten(ToCsvAsWritten(s).value, currencies, uid).Err?
  {
    var q := s.quantity.value;
    var m := MergedFields(s, q);
    AsWrittenIsMerged(s);
    CsvFieldsSepFree(s, q);
    TokenizeJoin(m);
  }
}

/** Concrete records: the legacy record of the format's documentation and the
    two defects of the source on a one-dollar split. */
module SplitCodecExamples {
  import opened Results
  import opened Text
  import opened Monies
  import opened TransactionTypes
  import opened Splits
  import opened SplitCodec

  const Usd: Currency := Currency("USD", 2)
  const Dollars: CurrencyTable := map["USD" := 2]

  /** A one-dollar credit to account `accA` in transaction `tx1`. */
  const OneDollar: SplitData := NewSplit(Money(100, Usd), "accA", "u1").(transactionUID := "tx1")

  /** `String.valueOf(100)`. */
  lemma FormatHundred()
    ensures FormatInt(100) == "100"
  {
    assert FormatNat(10) == "10" by {
      assert FormatNat(1) == "1";
    }
  }

  /** A legacy record with five fields, in the order the format's
      documentation gives (transaction `tx1`, then account `accA`): the code
      reads token 2 as the account and token 3 as the transaction, and the
      quantity defaults to the value. */
  lemma LegacyExample(uid: string)
    ensures ParseSplit(Join(LegacyRecord), Dollars, uid)
              == Ok(SplitData(uid, Money(1000, Usd), Some(Money(1000, Usd)), "accA", "tx1", CREDIT, None))
  {
    LegacyTokens();
    TenDollars();
    ValueOfName(CREDIT);
  }

  const LegacyRecord: seq<string> := ["10.00", "USD", "tx1", "accA", "CREDIT"]

  lemma LegacyTokens()
    ensures Tokenize(Join(LegacyRecord)) == LegacyRecord
  {
    var fields := LegacyRecord;
    assert SepFree(fields) by {
      assert Sep !in fields[0] && Sep !in fields[1] && Sep !in fields[2];
      assert Sep !in fields[3] && Sep !in fields[4];
    }
    TokenizeJoin(fields);
  }

  /** `new Money("10.00", "USD")` is a thousand cents. */
  lemma TenDollars()
    ensures FromDecimalString("10.00", "USD", Dollars) == Ok(Money(1000, Usd))
  {
    TenDecimal();
    assert Pow10(2) == 100;
    ExactQuotient(1000, 100);
  }

  /** `new BigDecimal("10.00")` is 1000 at scale 2. */
  lemma TenDecimal()
    ensures ParseDecimal("10.00") == Ok(Decimal(1000, 2))
  {
    assert IndexOf("10.00", '.') == 2;
    assert "10.00"[..2] + "10.00"[3..] == "1000";
    assert AllDigits("10") && AllDigits("00");
    assert DigitsValue("1000") == 1000 by {
      assert "1000"[..3] == "100" && "100"[..2] == "10" && "10"[..1] == "1";
    }
  }

  /** The source writes the quantity's numerator straight after `USD`, and
      the intended reader then fails on `USD` as the quantity's denominator. */
  lemma MissingSeparatorExample()
    ensures ToCsvAsWritten(OneDollar)
              == Ok(Join(["100", "100", "USD100", "100", "USD", "tx1", "accA", "CREDIT"]))
    ensures ParseSplit(ToCsvAsWritten(OneDollar).value, Dollars, "u2") == Err(NumberFormat("USD"))
  {
    FormatHundred();
    assert Pow10(2) == 100;
    AsWrittenIsMerged(OneDollar);
    assert "USD" + "100" == "USD100";
    assert MergedFields(OneDollar, Money(100, Usd))
             == ["100", "100", "USD100", "100", "USD", "tx1", "accA", "CREDIT"];
    assert Writable(OneDollar, Dollars);
    assert ParseInt32("USD").Err?;
    MissingSeparatorBreaksRoundTrip(OneDollar, Dollars, "u2");
  }

  /** A canonical record without memo has nine fields, and the source then
      reads `tokens[9]`; the intended reader gives the split back. */
  lemma MemoIndexExample()
    ensures ToCsv(OneDollar) == Ok(Join(["100", "100", "USD", "100", "100", "USD", "tx1", "accA", "CREDIT"]))
    ensures ParseSplitAsWritten(ToCsv(OneDollar).value, Dollars, "u2") == Err(IndexOutOfBounds(9))
    ensures ParseSplit(ToCsv(OneDollar).value, Dollars, "u2") == Ok(OneDollar.(uid := "u2"))
  {
    FormatHundred();
    assert Pow10(2) == 100;
    assert CsvFields(OneDollar, Money(100, Usd)) == ["100", "100", "USD", "100", "100", "USD", "tx1", "accA", "CREDIT"];
    assert Writable(OneDollar, Dollars);
    RoundTrip(OneDollar, Dollars, "u2");
    MemoIndexBreaksRoundTrip(OneDollar, Dollars, "u2");
  }
}
