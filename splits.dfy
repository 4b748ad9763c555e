/** One leg of a double-entry transaction: its value in the transaction's
    currency, its quantity in the account's currency, its side, and the
    transaction and account it belongs to. */
module Splits {
  import opened Results
  import opened Monies
  import opened TransactionTypes

  /** The fields of a split at one moment. A quantity of `None` is a quantity
      that was never set (a Java `null`); so is a memo of `None`. */
  datatype SplitData = SplitData(
    uid: string,
    value: Money,
    quantity: Option<Money>,
    transactionUID: string,
    accountUID: string,
    splitType: TransactionType,
    memo: Option<string>)
  {
    /** Two splits pair up when they move the same absolute amount on
        opposite sides. */
    predicate IsPairOf(other: SplitData)
      ensures IsPairOf(other) <==>
                && value.currency == other.value.currency
                && (value.amount == other.value.amount || value.amount == -other.value.amount)
                && splitType != other.splitType
    {
      AbsoluteEqual(value, other.value);
      value.Absolute() == other.value.Absolute() && splitType.Invert() == other.splitType
    }

    /** `createPair`: the other leg of a simple transfer, booked to `accountUID`. */
    function Pair(accountUID: string, pairUID: string): (r: SplitData)
      ensures r.IsPairOf(this) && IsPairOf(r)
      ensures r.value == value.Absolute() && r.quantity == Some(value.Absolute())
      ensures r.splitType != splitType
      ensures r.memo == memo && r.transactionUID == transactionUID
      ensures r.accountUID == accountUID && r.uid == pairUID
    {
      NewSplit(value.Absolute(), accountUID, pairUID)
        .(splitType := splitType.Invert(), memo := memo, transactionUID := transactionUID)
    }

    /** The copy constructor: every field but the identity and the quantity is
        copied, the value without its sign; the quantity is left unset. */
    function Copy(generateUID: bool, newUID: string): (r: SplitData)
      ensures r.uid == if generateUID then newUID else uid
      ensures r.value == value.Absolute() && r.quantity.None?
      ensures r.(uid := uid, value := value, quantity := quantity) == this
    {
      SplitData(if generateUID then newUID else uid, value.Absolute(), None,
                transactionUID, accountUID, splitType, memo)
    }

    /** `clone`: rebuilt through the value-and-account constructor, so the
        quantity becomes the value and the source's quantity is lost. */
    function Clone(): (r: SplitData)
      ensures r == this.(quantity := Some(value))
      ensures r == this <==> quantity == Some(value)
    {
      NewSplit(value, accountUID, uid)
        .(splitType := splitType, memo := memo, transactionUID := transactionUID)
    }
  }

  /** The state `new Split(value, accountUID)` leaves: the quantity defaults
      to the value, the side follows the sign of the value, the transaction is
      the empty string and there is no memo. */
  function NewSplit(value: Money, accountUID: string, uid: string): (r: SplitData)
    ensures r.value == value && r.quantity == Some(value)
    ensures r.splitType == DEBIT <==> value.IsNegative()
    ensures r.transactionUID == "" && r.memo == None
    ensures r.accountUID == accountUID && r.uid == uid
  {
    SplitData(uid, value, Some(value), "", accountUID,
              if value.IsNegative() then DEBIT else CREDIT, None)
  }

  /** Pairing is symmetric. */
  lemma IsPairOfSymmetric(a: SplitData, b: SplitData)
    ensures a.IsPairOf(b) <==> b.IsPairOf(a)
  {
    InvertInvolutive(a.splitType, b.splitType);
  }

  /** No split is its own pair. */
  lemma IsPairOfIrreflexive(a: SplitData)
    ensures !a.IsPairOf(a)
  {
  }

  /** Copying and cloning keep a split's pairs: the absolute value and the
      side, which are all `isPairOf` looks at, survive both. */
  lemma CopiesKeepPairs(s: SplitData, other: SplitData, generateUID: bool, newUID: string)
    ensures s.Copy(generateUID, newUID).IsPairOf(other) <==> s.IsPairOf(other)
    ensures other.IsPairOf(s.Copy(generateUID, newUID)) <==> other.IsPairOf(s)
    ensures s.Clone().IsPairOf(other) <==> s.IsPairOf(other)
  {
    AbsoluteEqual(s.value, other.value);
  }

  /** A split object. Getters are the fields themselves; each setter changes
      its own field and nothing else, except that `SetValue` also fills the
      quantity while it is unset. */
  class Split {
    var uid: string
    var value: Money
    var quantity: Option<Money>
    var transactionUID: string
    var accountUID: string
    var splitType: TransactionType
    var memo: Option<string>

    function Data(): SplitData
      reads this
    {
      SplitData(uid, value, quantity, transactionUID, accountUID, splitType, memo)
    }

    /** `new Split(value, accountUID)`; `uid` is the identity the new object
        is given. */
    constructor (value: Money, accountUID: string, uid: string)
      ensures Data() == NewSplit(value, accountUID, uid)
    {
      this.uid := uid;
      quantity := None;
      transactionUID := "";
      splitType := CREDIT;
      memo := None;
      new;
      SetValue(value);
      SetAccountUID(accountUID);
      splitType := if value.IsNegative() then DEBIT else CREDIT;
    }

    /** `new Split(source, generateUID)`; `newUID` is the identity generated
        when `generateUID` holds. */
    constructor Copy(source: Split, generateUID: bool, newUID: string)
      ensures Data() == old(source.Data()).Copy(generateUID, newUID)
    {
      memo := source.memo;
      accountUID := source.accountUID;
      splitType := source.splitType;
      transactionUID := source.transactionUID;
      value := source.value.Absolute();
      quantity := None;
      uid := if generateUID then newUID else source.uid;
    }

    method SetUID(uid: string)
      modifies this
      ensures Data() == old(Data()).(uid := uid)
    {
      this.uid := uid;
    }

    /** Stores the value; the quantity takes the same amount only if it was
        never set. */
    method SetValue(amount: Money)
      modifies this
      ensures Data() == old(Data()).(value := amount,
                                     quantity := if old(quantity).None? then Some(amount) else old(quantity))
    {
      value := amount;
      if quantity.None? {
        quantity := Some(amount);
      }
    }

    method SetQuantity(amount: Money)
      modifies this
      ensures Data() == old(Data()).(quantity := Some(amount))
    {
      quantity := Some(amount);
    }

    method SetTransactionUID(transactionUID: string)
      modifies this
      ensures Data() == old(Data()).(transactionUID := transactionUID)
    {
      this.transactionUID := transactionUID;
    }

    method SetAccountUID(accountUID: string)
      modifies this
      ensures Data() == old(Data()).(accountUID := accountUID)
    {
      this.accountUID := accountUID;
    }

    method SetType(splitType: TransactionType)
      modifies this
      ensures Data() == old(Data()).(splitType := splitType)
    {
      this.splitType := splitType;
    }

    method SetMemo(memo: Option<string>)
      modifies this
      ensures Data() == old(Data()).(memo := memo)
    {
      this.memo := memo;
    }

    /** `createPair(accountUID)`; `pairUID` is the new split's identity. The
        receiver is not modified. */
    method CreatePair(accountUID: string, pairUID: string) returns (pair: Split)
      ensures fresh(pair)
      ensures pair.Data() == Data().Pair(accountUID, pairUID)
      ensures pair.IsPairOf(this) && IsPairOf(pair)
    {
      pair := new Split(value.Absolute(), accountUID, pairUID);
      pair.SetType(splitType.Invert());
      pair.SetMemo(memo);
      pair.SetTransactionUID(transactionUID);
    }

    /** `clone()`; `scratchUID` is the identity the intermediate constructor
        call assigns before it is overwritten with this split's own. */
    method Clone(scratchUID: string) returns (split: Split)
      ensures fresh(split)
      ensures split.Data() == Data().Clone()
    {
      split := new Split(value, accountUID, scratchUID);
      split.SetUID(uid);
      split.SetType(splitType);
      split.SetMemo(memo);
      split.SetTransactionUID(transactionUID);
    }

    /** `isPairOf`, which holds in one direction exactly when it holds in
        the other. */
    predicate IsPairOf(other: Split)
      reads this, other
      ensures IsPairOf(other) <==> other.Data().IsPairOf(Data())
    {
      IsPairOfSymmetric(Data(), other.Data());
      Data().IsPairOf(other.Data())
    }
  }
}
