/** The price of one commodity in another: a mutable record of the two
    commodities' identities, a date, where the price came from, its kind, and
    the price itself as a fraction of two Java `int`s. */
module Prices {
  import opened Results
  import Text

  /** A Java `int`. */
  type Int32 = x: int | Text.InInt32(x)

  /** The source recorded for a price the user entered in the transfer dialog. */
  const SOURCE_USER: string := "user:xfer-dialog"

  /** The fields of a price at one moment; `None` is a string field that was
      never set (a Java `null`). The date is a timestamp in milliseconds. */
  datatype PriceData = PriceData(
    commodityUID: Option<string>,
    currencyUID: Option<string>,
    date: int,
    source: Option<string>,
    priceType: Option<string>,
    valueNum: Int32,
    valueDenom: Int32)

  /** A price object. Getters are the fields themselves; each setter stores
      its argument in its own field and changes nothing else. The denominator
      is stored as given: zero is not rejected. */
  class Price {
    var commodityUID: Option<string>
    var currencyUID: Option<string>
    var date: int
    var source: Option<string>
    var priceType: Option<string>
    var valueNum: Int32
    var valueDenom: Int32

    function Data(): PriceData
      reads this
    {
      PriceData(commodityUID, currencyUID, date, source, priceType, valueNum, valueDenom)
    }

    /** `new Price()`; `now` is the current time in milliseconds. Only the date
        is set; the numbers keep Java's default of zero. */
    constructor (now: int)
      ensures Data() == PriceData(None, None, now, None, None, 0, 0)
    {
      commodityUID := None;
      currencyUID := None;
      date := now;
      source := None;
      priceType := None;
      valueNum := 0;
      valueDenom := 0;
    }

    /** `new Price(commodityUID, currencyUID)`; `now` is the current time in
        milliseconds. */
    constructor WithCommodities(commodityUID: string, currencyUID: string, now: int)
      ensures Data() == PriceData(Some(commodityUID), Some(currencyUID), now, None, None, 0, 0)
    {
      this.commodityUID := Some(commodityUID);
      this.currencyUID := Some(currencyUID);
      date := now;
      source := None;
      priceType := None;
      valueNum := 0;
      valueDenom := 0;
    }

    method SetCommodityUID(commodityUID: Option<string>)
      modifies this
      ensures Data() == old(Data()).(commodityUID := commodityUID)
    {
      this.commodityUID := commodityUID;
    }

    method SetCurrencyUID(currencyUID: Option<string>)
      modifies this
      ensures Data() == old(Data()).(currencyUID := currencyUID)
    {
      this.currencyUID := currencyUID;
    }

    method SetDate(date: int)
      modifies this
      ensures Data() == old(Data()).(date := date)
    {
      this.date := date;
    }

    method SetSource(source: Option<string>)
      modifies this
      ensures Data() == old(Data()).(source := source)
    {
      this.source := source;
    }

    method SetType(priceType: Option<string>)
      modifies this
      ensures Data() == old(Data()).(priceType := priceType)
    {
      this.priceType := priceType;
    }

    method SetValueNum(valueNum: Int32)
      modifies this
      ensures Data() == old(Data()).(valueNum := valueNum)
    {
      this.valueNum := valueNum;
    }

    method SetValueDenom(valueDenom: Int32)
      modifies this
      ensures Data() == old(Data()).(valueDenom := valueDenom)
    {
      this.valueDenom := valueDenom;
    }
  }
}
