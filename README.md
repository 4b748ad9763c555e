# GnuCash Android splits and prices, in Dafny

This project models two model classes of GnuCash for Android:

- **Split**: one leg of a double-entry transaction. A split has a value in the transaction's currency and a quantity in the account's currency. It also has a side (CREDIT or DEBIT), the transaction and account it belongs to, and an optional memo. The model covers its constructors, its setters, `createPair`, `clone` and `isPairOf`. It also covers its `;`-separated text form: `toCsv` writes it and `parseSplit` reads it back, in both the canonical nine- or ten-field format and the legacy five- or six-field format.
- **Price**: a mutable record that holds the price of one commodity in another.

Modules:

- `Results`: the exceptions the core can throw, as an `Error` datatype, with `Option` and `Result`.
- `Text`: the string functions the codec relies on.
  - splitting on `;` (`Tokenize`) and joining (`Join`);
  - `Integer.parseInt` (`ParseInt32`) and `String.valueOf(int)` (`FormatInt`);
  - `new BigDecimal(String)` for plain decimals (`ParseDecimal`);
  - the low-32-bit truncation of `intValue()` (`Wrap32`).
- `Monies`: the abstraction of `Money` and `Currency` that the split uses.
  - An amount is a whole number of minor units of a currency.
  - The denominator is `10^fractionDigits`.
  - The two constructors the parser calls round to the minor unit, ties to even.
- `TransactionTypes`: `CREDIT`/`DEBIT`, with `invert`, `name` and `valueOf`.
- `Splits`: the split fields as a value (`SplitData`) and the `Split` class.
  - Each method of the class is proved against a function on `SplitData`.
  - Each setter states the whole new state.
- `SplitCodec`: the text form, modelled twice.
  - As written in the source: `ToCsvAsWritten` and `ParseSplitAsWritten`.
  - As the documented format intends: `ToCsv` and `ParseSplit`.
  - The intended pair is proved to round-trip. The written pair is proved to fail (see Findings).
- `SplitCodecExamples`: concrete records for the legacy format and for both defects.
- `Prices`: the `Price` class.

Where the documentation and the code disagree, the model follows the code:

- The legacy branch of `parseSplit` reads token 2 as the account and token 3 as the transaction. The Javadoc of the legacy format lists them the other way round.
- The class comment says the split amount is always stored in the database as the absolute value alongside its side (Split.java:9). That promise is about the database, not the object: `new Split(value, accountUID)` keeps the sign in the object's field, and only the copy constructor and `createPair` take the absolute value.
- The Javadoc of `clone` promises an exact copy (Split.java:204). The code rebuilds the split through `new Split(value, accountUID)`, so the clone's quantity is the value; `Splits.SplitData.Clone` proves the clone is exact only when the quantity already equalled the value.
- The Javadoc of the copy constructor promises the same fields (Split.java:62). The code takes the absolute value and leaves the quantity unset; `Splits.SplitData.Copy` states both.

Inputs that the Java code takes from its environment are parameters:

- The identity a new split or price receives (`generateUID`).
- The current time (`System.currentTimeMillis`).
- The currencies the runtime knows, as a map from code to fraction digits.

## Model

| member | source | states |
|---|---|---|
| Splits.NewSplit | app/src/main/java/org/gnucash/android/model/Split.java:52-59 | a new split holds the value, its quantity defaults to the value, it is DEBIT exactly when the value is negative, the transaction is "" and there is no memo |
| Splits.Split.constructor | app/src/main/java/org/gnucash/android/model/Split.java:52-59 | the constructed object's fields are exactly `NewSplit(value, accountUID, uid)` |
| Splits.SplitData.Copy | app/src/main/java/org/gnucash/android/model/Split.java:66-78 | the copy has the new or the source identity as `generateUID` says, the absolute value and an unset quantity, and every other field of the source |
| Splits.Split.Copy | app/src/main/java/org/gnucash/android/model/Split.java:66-78 | the copy constructor leaves the new object in the state `SplitData.Copy` describes |
| Splits.Split.SetValue | app/src/main/java/org/gnucash/android/model/Split.java:96-101 | stores the value; the quantity becomes the value only when it was unset; nothing else changes |
| Splits.Split.SetQuantity | app/src/main/java/org/gnucash/android/model/Split.java:118-120 | stores the quantity and changes nothing else |
| Splits.Split.SetTransactionUID | app/src/main/java/org/gnucash/android/model/Split.java:134-136 | stores the transaction UID and changes nothing else |
| Splits.Split.SetAccountUID | app/src/main/java/org/gnucash/android/model/Split.java:150-152 | stores the account UID and changes nothing else |
| Splits.Split.SetType | app/src/main/java/org/gnucash/android/model/Split.java:166-168 | stores the side and changes nothing else |
| Splits.Split.SetMemo | app/src/main/java/org/gnucash/android/model/Split.java:182-184 | stores the memo and changes nothing else |
| Splits.Split.SetUID | app/src/main/java/org/gnucash/android/model/Split.java:210 | stores the identity and changes nothing else |
| Splits.SplitData.Pair | app/src/main/java/org/gnucash/android/model/Split.java:194-201 | the pair is a pair of the split in both directions; it has the absolute value as value and quantity, the other side, the same memo and transaction, and the given account |
| Splits.Split.CreatePair | app/src/main/java/org/gnucash/android/model/Split.java:194-201 | returns a fresh split in the state `SplitData.Pair` describes, which `isPairOf` accepts in both directions |
| Splits.SplitData.Clone | app/src/main/java/org/gnucash/android/model/Split.java:207-215 | the clone equals the source except that its quantity is the value; it is an exact copy exactly when the quantity already was the value |
| Splits.Split.Clone | app/src/main/java/org/gnucash/android/model/Split.java:207-215 | returns a fresh split in the state `SplitData.Clone` describes |
| Splits.SplitData.IsPairOf | app/src/main/java/org/gnucash/android/model/Split.java:223-226 | two splits pair exactly when they have the same currency, equal or opposite amounts, and different sides |
| Splits.Split.IsPairOf | app/src/main/java/org/gnucash/android/model/Split.java:223-226 | `isPairOf` on objects holds exactly when it holds on their fields taken the other way round |
| Splits.IsPairOfSymmetric | app/src/main/java/org/gnucash/android/model/Split.java:223-226 | `a.isPairOf(b)` holds exactly when `b.isPairOf(a)` holds |
| Splits.IsPairOfIrreflexive | app/src/main/java/org/gnucash/android/model/Split.java:223-226 | no split is its own pair |
| Splits.CopiesKeepPairs | app/src/main/java/org/gnucash/android/model/Split.java:223-226 | a copy and a clone pair with exactly the splits the original pairs with |
| TransactionTypes.TransactionType.Invert | app/src/main/java/org/gnucash/android/model/Split.java:225 | the inverted side differs from the side |
| TransactionTypes.InvertInvolutive | app/src/main/java/org/gnucash/android/model/Split.java:225 | inverting twice gives the side back, and `t.invert() == u` exactly when `u.invert() == t` |
| TransactionTypes.TransactionType.Name | app/src/main/java/org/gnucash/android/model/Split.java:250 | the name is "CREDIT" or "DEBIT" |
| TransactionTypes.ValueOf | app/src/main/java/org/gnucash/android/model/Split.java:272 | succeeds exactly on "CREDIT" and "DEBIT", returning the constant of that name; any other string is an error naming it |
| TransactionTypes.ValueOfName | app/src/main/java/org/gnucash/android/model/Split.java:272 | `valueOf(t.name())` is `t` for every side |
| Monies.Money.IsNegative | app/src/main/java/org/gnucash/android/model/Split.java:58 | an amount is negative exactly when taking its absolute value changes it |
| Monies.Money.Absolute | app/src/main/java/org/gnucash/android/model/Split.java:224 | the absolute value keeps the currency, has no negative amount, and has the amount or its negation |
| Monies.AbsoluteEqual | app/src/main/java/org/gnucash/android/model/Split.java:224 | the absolute value is never negative and is idempotent; two absolute values are equal exactly when the currencies agree and the amounts are equal or opposite |
| Monies.Denominator | app/src/main/java/org/gnucash/android/model/Split.java:243 | `(int) Math.pow(10, digits)` is at least 1 and fits in an `int` |
| Monies.GetCurrency | app/src/main/java/org/gnucash/android/model/Split.java:269 | succeeds exactly for a known code, with that code's fraction digits; an unknown code is an error naming it |
| Monies.RoundHalfEven | app/src/main/java/org/gnucash/android/model/Split.java:285-286 | the result is within half a unit of `n / d`, is exact when `d` divides `n`, and is even on a tie |
| Monies.FromFraction | app/src/main/java/org/gnucash/android/model/Split.java:285-286 | fails exactly on a zero denominator; keeps the currency; a fraction over the currency's own denominator is read exactly |
| Monies.FromFractionRounds | app/src/main/java/org/gnucash/android/model/Split.java:285-286 | the amount built is within half a minor unit of `num / denom`, and a tie lands on an even number of minor units |
| Monies.FromDecimalString | app/src/main/java/org/gnucash/android/model/Split.java:269 | a result carries the requested, known currency; an amount that is not a decimal is a number-format error naming the text |
| Text.Wrap32 | app/src/main/java/org/gnucash/android/model/Split.java:244 | the result fits in an `int`, agrees with the input modulo 2^32, and is the input itself when that fits |
| Text.FormatNat | app/src/main/java/org/gnucash/android/model/Split.java:243 | the numeral is non-empty, all digits, denotes `n`, and has no leading zero unless it is `0` |
| Text.FormatInt | app/src/main/java/org/gnucash/android/model/Split.java:244 | `String.valueOf` starts with `-` exactly for a negative number, followed by the shortest digits of the magnitude, and never holds the separator |
| Text.ParseInt32 | app/src/main/java/org/gnucash/android/model/Split.java:278-282 | succeeds exactly on an optional `-` or `+` followed by one or more digits whose value fits in an `int`, and returns that value; a failure is a number-format error naming the text |
| Text.ParseFormatInt | app/src/main/java/org/gnucash/android/model/Split.java:278-282 | `Integer.parseInt(String.valueOf(n))` is `n` for every `int` |
| Text.Tokenize | app/src/main/java/org/gnucash/android/model/Split.java:267 | splitting gives at least one token, no token holds the separator, and joining the tokens gives back the string |
| Text.TokenizeJoin | app/src/main/java/org/gnucash/android/model/Split.java:267 | splitting a join of separator-free fields gives back the fields |
| Text.IndexOf | app/src/main/java/org/gnucash/android/model/Split.java:269 | the index is the first occurrence of the character, or the length when there is none |
| Text.ParseDecimal | app/src/main/java/org/gnucash/android/model/Split.java:269 | a failure is a number-format error naming the text; a success means the text holds a digit |
| Text.ParseDecimalOfInt | app/src/main/java/org/gnucash/android/model/Split.java:269 | an integer numeral reads as that integer at scale zero |
| SplitCodec.NumeratorField | app/src/main/java/org/gnucash/android/model/Split.java:244 | the numerator field is a numeral, without the separator, whose value is the amount's low 32 bits |
| SplitCodec.DenominatorField | app/src/main/java/org/gnucash/android/model/Split.java:243 | the denominator field is a numeral, without the separator, whose value is the currency's denominator |
| SplitCodec.MemoFields | app/src/main/java/org/gnucash/android/model/Split.java:251-253 | there is one memo field exactly when there is a memo |
| SplitCodec.CsvFields | app/src/main/java/org/gnucash/android/model/Split.java:248-253 | a record has ten fields with a memo and nine without |
| SplitCodec.ToCsv | app/src/main/java/org/gnucash/android/model/Split.java:239-255 | fails exactly when the quantity is unset; otherwise it is the canonical fields joined by `;` |
| SplitCodec.ToCsvAsWritten | app/src/main/java/org/gnucash/android/model/Split.java:248-250 | fails exactly when the quantity is unset |
| SplitCodec.AsWrittenIsMerged | app/src/main/java/org/gnucash/android/model/Split.java:248-250 | what the source writes is the canonical fields with the value's currency code and the quantity's numerator run together |
| SplitCodec.MergedFields | app/src/main/java/org/gnucash/android/model/Split.java:248-253 | the written record has nine fields with a memo and eight without |
| SplitCodec.Token | app/src/main/java/org/gnucash/android/model/Split.java:269-271 | `tokens[i]` exists exactly when `i` is in range; otherwise it is an index error naming `i` |
| SplitCodec.MoneyOf | app/src/main/java/org/gnucash/android/model/Split.java:285-286 | succeeds exactly when the code is known and the denominator is not zero; for a known code the result is `FromFraction` of the numerator and denominator in that code's currency, so the amount is the half-even rounding `FromFractionRounds` states |
| SplitCodec.ParseLegacy | app/src/main/java/org/gnucash/android/model/Split.java:268-276 | succeeds exactly when there are at least five tokens, the amount parses in a known currency, and token 4 names a side; the quantity is the value, the account is token 2, the transaction is token 3, and the memo is token 5 exactly when there are six tokens |
| SplitCodec.ParseAmounts | app/src/main/java/org/gnucash/android/model/Split.java:278-286 | succeeds exactly when tokens 0, 1, 3 and 4 parse as `int`s and both amounts can be built; the amounts are built from those numbers and codes |
| SplitCodec.ParseCanonical | app/src/main/java/org/gnucash/android/model/Split.java:277-296 | succeeds exactly when tokens 0-5 give two amounts, token 8 exists and names a side, and token 9 exists whenever the token count is the memo count; eight tokens fail on index 8, and nine tokens with memo count 9 fail on index 9; the value and the quantity are from tokens 0-5, the transaction is token 6, the account token 7, and the side token 8; the memo is token 9 exactly when the token count is the memo count |
| SplitCodec.ParseSplitAsWritten | app/src/main/java/org/gnucash/android/model/Split.java:266-297 | below eight tokens it is the legacy parse, from eight on the canonical parse with memo count 9; nine tokens always fail; a canonical record never yields a memo |
| SplitCodec.ParseSplit | app/src/main/java/org/gnucash/android/model/Split.java:266-297 | below eight tokens it is the legacy parse, from eight on the canonical parse with memo count 10; eight tokens fail; the memo is token 9 exactly when there are ten tokens |
| SplitCodec.RoundTrip | app/src/main/java/org/gnucash/android/model/Split.java:233-236 | parsing what `toCsv` writes gives back the split, under the parser's new identity, for every split whose quantity is set, whose amounts fit in an `int`, whose currencies are known, whose text fields hold no `;`, and whose memo, if any, is not empty |
| SplitCodec.CsvFieldsSepFree | app/src/main/java/org/gnucash/android/model/Split.java:248-253 | when the text fields hold no `;`, neither the canonical fields nor the written ones do |
| SplitCodec.ReadBackCanonical | app/src/main/java/org/gnucash/android/model/Split.java:277-296 | the canonical parser reads a writable split's fields back; with memo count 9 it drops a memo, and a record without a memo fails on index 9 |
| SplitCodec.ParseAmountsOf | app/src/main/java/org/gnucash/android/model/Split.java:278-286 | the six amount fields of two known `int`-sized amounts, followed by any tokens, parse back to those amounts |
| SplitCodec.AmountFields | app/src/main/java/org/gnucash/android/model/Split.java:243-249 | an amount pair is written as six fields |
| SplitCodec.MissingSeparatorBreaksRoundTrip | app/src/main/java/org/gnucash/android/model/Split.java:248-249 | reading what the source writes fails with a number-format error on the quantity's currency code |
| SplitCodec.MergedAmountsFail | app/src/main/java/org/gnucash/android/model/Split.java:281-282 | in the written fields the quantity's currency code sits where `Integer.parseInt` expects the quantity's denominator, and the numbers before it parse |
| SplitCodec.MemoIndexBreaksRoundTrip | app/src/main/java/org/gnucash/android/model/Split.java:292-293 | the source's parser drops the memo of a ten-field record and fails on index 9 for a nine-field record |
| SplitCodec.AsWrittenRoundTripFails | app/src/main/java/org/gnucash/android/model/Split.java:248-293 | for every split with `;`-free text fields, the source's parser fails on what the source's writer produces |
| SplitCodecExamples.LegacyExample | app/src/main/java/org/gnucash/android/model/Split.java:268-276 | `10.00;USD;tx1;accA;CREDIT` reads as a credit of 1000 cents, with account `tx1`, transaction `accA` and quantity equal to the value |
| SplitCodecExamples.LegacyTokens | app/src/main/java/org/gnucash/android/model/Split.java:267 | the legacy record splits into its five fields |
| SplitCodecExamples.TenDollars | app/src/main/java/org/gnucash/android/model/Split.java:269 | `new Money("10.00", "USD")` is 1000 cents |
| SplitCodecExamples.TenDecimal | app/src/main/java/org/gnucash/android/model/Split.java:269 | `10.00` reads as 1000 at scale 2 |
| SplitCodecExamples.FormatHundred | app/src/main/java/org/gnucash/android/model/Split.java:243 | `String.valueOf(100)` is `100` |
| SplitCodecExamples.MissingSeparatorExample | app/src/main/java/org/gnucash/android/model/Split.java:248-249 | the source writes a one-dollar split as `100;100;USD100;100;USD;tx1;accA;CREDIT`, and the intended reader rejects it on `USD` |
| SplitCodecExamples.MemoIndexExample | app/src/main/java/org/gnucash/android/model/Split.java:292-293 | the one-dollar split is written as nine fields; the source's parser fails on index 9, and the intended parser gives the split back |
| Prices.Price.constructor | app/src/main/java/org/gnucash/android/model/Price.java:23-25 | only the date is set, to the current time; the commodity, currency, source and type are unset and the numbers are zero |
| Prices.Price.WithCommodities | app/src/main/java/org/gnucash/android/model/Price.java:32-36 | stores the two commodity UIDs and the current time; the source and type are unset and the numbers are zero |
| Prices.Price.SetCommodityUID | app/src/main/java/org/gnucash/android/model/Price.java:42-44 | stores the commodity UID and changes nothing else |
| Prices.Price.SetCurrencyUID | app/src/main/java/org/gnucash/android/model/Price.java:50-52 | stores the currency UID and changes nothing else |
| Prices.Price.SetDate | app/src/main/java/org/gnucash/android/model/Price.java:58-60 | stores the date and changes nothing else |
| Prices.Price.SetSource | app/src/main/java/org/gnucash/android/model/Price.java:66-68 | stores the source and changes nothing else |
| Prices.Price.SetType | app/src/main/java/org/gnucash/android/model/Price.java:74-76 | stores the type and changes nothing else |
| Prices.Price.SetValueNum | app/src/main/java/org/gnucash/android/model/Price.java:82-84 | stores the numerator and changes nothing else |
| Prices.Price.SetValueDenom | app/src/main/java/org/gnucash/android/model/Price.java:90-92 | stores the denominator, zero included, and changes nothing else |

`Prices.SOURCE_USER` is the constant `"user:xfer-dialog"` (app/src/main/java/org/gnucash/android/model/Price.java:21).

## Left out

- Money and Currency are not part of this model. `Money` is an integral number of minor units with a currency; its `multiply`, `toString` and `BigDecimal` scale are not modelled. These are assumptions about classes that are not shown:
  - the two constructors the parser calls round to the currency's minor unit, ties to even;
  - two amounts are equal when their minor units and currencies are equal;
  - `new Money(num, denom, code)` with a zero denominator throws `ArithmeticException` (`Results.DivisionByZero`, `Monies.FromFraction`, `SplitCodec.MoneyOf`);
  - a negative denominator is read by flipping the signs of both numerator and denominator (`Monies.FromFraction`);
  - `new Money(amount, code)` parses the amount before it looks up the currency, so a bad amount with an unknown code is a number-format error (`Monies.FromDecimalString`);
  - `new Money(num, denom, code)` looks up the currency before it divides (`SplitCodec.MoneyOf`).
- Currencies whose default fraction digits are negative or above nine are not modelled. Nine keeps `(int) Math.pow(10, d)` exact. A negative count (`Currency` uses -1 for pseudo-currencies) is not modelled.
- `String.split` drops trailing empty tokens; `Text.Tokenize` keeps them. A record whose last fields are empty therefore has more tokens here than in the JDK. SplitCodec.RoundTrip therefore excludes an empty memo: it is written as a trailing `;`, which the JDK would drop, losing the memo.
- `Text.ParseDecimal` reads only plain decimals. It does not read the exponent notation (`1E3`) or the non-ASCII digits that `new BigDecimal(String)` accepts.
- `Text.ParseInt32` reads only ASCII digits. It does not read the non-ASCII digits `Integer.parseInt` accepts.
- Null arguments are left out. String setters, `setQuantity`, and the constructors' money and split arguments take values; a null `Money` or `String` would throw or be stored as `null`. The split's memo and quantity and the price's string fields are `Option`s, because the class itself leaves them unset.
- `BaseModel` is not part of this model. The identity it generates and `setUID` are a plain string field and an explicit parameter.
- Splits.Split.Clone: `clone()` first calls `super.clone()` and declares `CloneNotSupportedException` (Split.java:207-208). `Split` does not declare `Cloneable` and `BaseModel` is not shown, so whether that call returns depends on code outside this model; the model assumes it returns and discards its result.
- `Timestamp` is a whole number of milliseconds; `System.currentTimeMillis` is a parameter.
- `toString` of the split is left out; it is only a display string.
- The getters of both classes are not separate members: the class fields are read directly.
- Only the round trip `parseSplit(toCsv(s))` is proved. The reverse `toCsv(parseSplit(text))` does not give back `text` for non-normalised numerals such as `+5` or `007`, and is left out.
- Monies.FromDecimalString: states only the currency of a result and the number-format error; the rounded value itself is stated through `Monies.FromFraction` and checked on the example in `SplitCodecExamples.TenDollars`.
- SplitCodec.ToCsvAsWritten: its own contract states only when it fails; what it writes is stated by `SplitCodec.AsWrittenIsMerged`.
- Text.ParseDecimal: its own contract states only the error and that a digit is present; the value it reads is stated by `Text.ParseDecimalOfInt` and `SplitCodecExamples.TenDecimal`.

## Findings

| source | as written | input that shows it | evidently intended | confidence | as-written member | corrected member |
|---|---|---|---|---|---|---|
| app/src/main/java/org/gnucash/android/model/Split.java:248-249 | `toCsv` writes no `;` between the value's currency code and the quantity's numerator | a one-dollar split in USD is written `100;100;USD100;100;USD;tx1;accA;CREDIT`, which `parseSplit` rejects on `USD` | a `;` between the two fields, as the format in the Javadoc shows, so that `parseSplit(toCsv(s))` gives `s` back | not executed | SplitCodec.ToCsvAsWritten, SplitCodec.MissingSeparatorBreaksRoundTrip | SplitCodec.ToCsv, SplitCodec.RoundTrip |
| app/src/main/java/org/gnucash/android/model/Split.java:292-293 | `parseSplit` reads the memo from `tokens[9]` when there are nine tokens | a record without a memo has nine tokens and throws `ArrayIndexOutOfBoundsException`; a record with a memo has ten and loses it | read `tokens[9]` when there are ten tokens | not executed | SplitCodec.ParseSplitAsWritten, SplitCodec.MemoIndexBreaksRoundTrip | SplitCodec.ParseSplit, SplitCodec.RoundTrip |
