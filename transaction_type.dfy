/** The side of a split: CREDIT or DEBIT. */
module TransactionTypes {
  import opened Results

  datatype TransactionType = CREDIT | DEBIT {

    /** The opposite side. */
    function Invert(): (r: TransactionType)
      ensures r != this
    {
      match this
      case CREDIT => DEBIT
      case DEBIT => CREDIT
    }

    /** `name()`: the constant's identifier. */
    function Name(): (s: string)
      ensures s == "CREDIT" || s == "DEBIT"
    {
      match this
      case CREDIT => "CREDIT"
      case DEBIT => "DEBIT"
    }
  }

  /** `TransactionType.valueOf(name)`: the constant with exactly this name;
      any other string is an IllegalArgumentException. */
  function ValueOf(name: string): (r: Result<TransactionType>)
    ensures r.Ok? <==> name == "CREDIT" || name == "DEBIT"
    ensures r.Ok? ==> r.value.Name() == name
    ensures r.Err? ==> r.error == UnknownSplitType(name)
  {
    if name == "CREDIT" then Ok(CREDIT)
    else if name == "DEBIT" then Ok(DEBIT)
    else Err(UnknownSplitType(name))
  }

  /** Inverting twice gives back the side, and inverting is one-to-one. */
  lemma InvertInvolutive(t: TransactionType, u: TransactionType)
    ensures t.Invert().Invert() == t
    ensures t.Invert() == u <==> u.Invert() == t
  {
  }

  /** `valueOf` reads back every `name()`. */
  lemma ValueOfName(t: TransactionType)
    ensures ValueOf(t.Name()) == Ok(t)
  {
  }
}
