/**
 * The find query builder: flags accumulated into a set, a read preference, and the
 * limit / batch size / skip numbers, of which limit and batch size decide the
 * numberToReturn sent to the server.
 */
module Queries {
  import opened Wrappers

  /** The OP_QUERY flags a query can carry. */
  datatype QueryFlag = Tailable | SlaveOk | OplogReplay | NoCursorTimeout | AwaitData | Exhaust | Partial

  const AllFlags: set<QueryFlag> := {Tailable, SlaveOk, OplogReplay, NoCursorTimeout, AwaitData, Exhaust, Partial}

  datatype ReadPreference = Primary | PrimaryPreferred | Secondary | SecondaryPreferred | Nearest

  datatype QueryOptions = QueryOptions(flags: set<QueryFlag>)

  /** A null argument, named by the parameter it was passed for. */
  datatype QueryError = IllegalArgument(parameter: string)

  /**
   * numberToReturn: a negative limit is sent as it is (one batch, then close); with
   * no limit the batch size is sent; with no batch size the limit is sent; otherwise
   * the batch size is sent when its magnitude is below the limit, and the limit
   * when it is not.
   */
  function NumberToReturn(limit: int, batchSize: int): (r: int)
    ensures r == limit || r == batchSize
    ensures limit < 0 ==> r == limit
    ensures limit == 0 ==> r == batchSize
    ensures batchSize == 0 ==> r == limit
  {
    if limit < 0 then limit
    else if limit == 0 then batchSize
    else if batchSize == 0 then limit
    else if limit < Abs(batchSize) then limit
    else batchSize
  }

  function Abs(x: int): nat {
    if x < 0 then -x else x
  }

  /**
   * With a positive limit the server is never asked for more than the limit, nor
   * for more than a non-zero batch size, and never for nothing.
   */
  lemma PositiveLimitBoundsReturn(limit: int, batchSize: int)
    requires limit > 0
    ensures 0 < Abs(NumberToReturn(limit, batchSize)) <= limit
    ensures batchSize != 0 ==> Abs(NumberToReturn(limit, batchSize)) <= Abs(batchSize)
    ensures NumberToReturn(limit, batchSize) == limit || NumberToReturn(limit, batchSize) == batchSize
  {
  }

  /**
   * The value sent is negative (a single batch) exactly when the limit is
   * negative, or the batch size is negative and is the value chosen.
   */
  lemma SingleBatchWhenNegative(limit: int, batchSize: int)
    ensures NumberToReturn(limit, batchSize) < 0
        <==> limit < 0 || (batchSize < 0 && (limit == 0 || Abs(batchSize) <= limit))
  {
  }

  /** addFlags on options: a null set is refused; otherwise the flags are joined. */
  function AddFlagsTo(o: QueryOptions, flags: Option<set<QueryFlag>>): (r: Result<QueryOptions, QueryError>)
    ensures flags.None? <==> r.Failure?
    ensures r.Success? ==> o.flags <= r.value.flags && flags.value <= r.value.flags
    ensures r.Success? ==> forall f :: f in r.value.flags ==> f in o.flags || f in flags.value
  {
    match flags
    case None => Failure(IllegalArgument("flags"))
    case Some(fs) => Success(QueryOptions(o.flags + fs))
  }

  /** Adding flags in two calls is adding their union in one, in either order. */
  lemma {:induction false} AddFlagsAccumulates(o: QueryOptions, a: set<QueryFlag>, b: set<QueryFlag>)
    ensures AddFlagsTo(AddFlagsTo(o, Some(a)).value, Some(b)) == AddFlagsTo(o, Some(a + b))
    ensures AddFlagsTo(AddFlagsTo(o, Some(a)).value, Some(b)) == AddFlagsTo(AddFlagsTo(o, Some(b)).value, Some(a))
  {
    assert o.flags + a + b == o.flags + (a + b) == o.flags + b + a;
  }

  class Find {
    var options: QueryOptions
    var readPreference: Option<ReadPreference>
    var batchSize: int
    var limit: int
    var skip: int

    /** A fresh query: no flags, no read preference, and every number zero. */
    constructor ()
      ensures options == QueryOptions({}) && readPreference == None
      ensures batchSize == 0 && limit == 0 && skip == 0
    {
      options := QueryOptions({});
      readPreference := None;
      batchSize, limit, skip := 0, 0, 0;
    }

    /** The copy constructor: every setting of `from` is taken over. */
    constructor Copy(from: Find)
      ensures options == from.options && readPreference == from.readPreference
      ensures batchSize == from.batchSize && limit == from.limit && skip == from.skip
    {
      options := from.options;
      readPreference := from.readPreference;
      batchSize, limit, skip := from.batchSize, from.limit, from.skip;
    }

    method Limit(n: int) returns (self: Find)
      modifies this`limit
      ensures self == this && limit == n
    {
      limit := n;
      self := this;
    }

    method BatchSize(n: int) returns (self: Find)
      modifies this`batchSize
      ensures self == this && batchSize == n
    {
      batchSize := n;
      self := this;
    }

    method Skip(n: int) returns (self: Find)
      modifies this`skip
      ensures self == this && skip == n
    {
      skip := n;
      self := this;
    }

    method SetReadPreference(p: ReadPreference) returns (self: Find)
      modifies this`readPreference
      ensures self == this && readPreference == Some(p)
    {
      readPreference := Some(p);
      self := this;
    }

    /** addFlags: joins the flags into the options, or refuses null and changes nothing. */
    method AddFlags(flags: Option<set<QueryFlag>>) returns (r: Result<Find, QueryError>)
      modifies this`options
      ensures flags.None? ==> r == Failure(IllegalArgument("flags")) && options == old(options)
      ensures flags.Some? ==> r == Success(this) && Success(options) == AddFlagsTo(old(options), flags)
    {
      var added := AddFlagsTo(options, flags);
      if added.Failure? {
        return Failure(added.error);
      }
      options := added.value;
      return Success(this);
    }

    /** options: replaces the options, or refuses null and changes nothing. */
    method SetOptions(o: Option<QueryOptions>) returns (r: Result<Find, QueryError>)
      modifies this`options
      ensures o.None? ==> r == Failure(IllegalArgument("options")) && options == old(options)
      ensures o.Some? ==> r == Success(this) && options == o.value
    {
      if o.None? {
        return Failure(IllegalArgument("options"));
      }
      options := o.value;
      return Success(this);
    }

    function GetNumberToReturn(): (n: int)
      reads this
      ensures limit > 0 ==> 0 < Abs(n) <= limit
      ensures limit < 0 ==> n == limit
      ensures limit == 0 ==> n == batchSize
      ensures limit > 0 && batchSize == 0 ==> n == limit
    {
      if limit > 0 then
        PositiveLimitBoundsReturn(limit, batchSize);
        NumberToReturn(limit, batchSize)
      else
        NumberToReturn(limit, batchSize)
    }
  }

  /** The numberToReturn cases: defaults, limit or batch size alone, and both. */
  method NumberToReturnCases() returns (sent: seq<int>)
    ensures sent == [0, -10, 10, 10, 10, 10, 7, -7]
  {
    var q := new Find();
    var unset := q.GetNumberToReturn();
    q := new Find();
    q := q.Limit(-10);
    var limitNegative := q.GetNumberToReturn();
    q := new Find();
    q := q.BatchSize(10);
    var batchOnly := q.GetNumberToReturn();
    q := new Find();
    q := q.Limit(10);
    var limitOnly := q.GetNumberToReturn();
    q := new Find();
    q := q.Limit(10);
    q := q.BatchSize(15);
    var limitBelowBatch := q.GetNumberToReturn();
    q := new Find();
    q := q.Limit(10);
    q := q.BatchSize(-15);
    var limitBelowNegativeBatch := q.GetNumberToReturn();
    q := new Find();
    q := q.Limit(10);
    q := q.BatchSize(7);
    var batchBelowLimit := q.GetNumberToReturn();
    q := new Find();
    q := q.Limit(10);
    q := q.BatchSize(-7);
    var negativeBatchBelowLimit := q.GetNumberToReturn();
    sent := [unset, limitNegative, batchOnly, limitOnly,
             limitBelowBatch, limitBelowNegativeBatch, batchBelowLimit, negativeBatchBelowLimit];
  }

  /** Flags start empty and accumulate; null options and null flags are refused. */
  method FlagCases() returns (q: Find, refusedOptions: Result<Find, QueryError>, refusedFlags: Result<Find, QueryError>)
    ensures q.options.flags == {Tailable, SlaveOk}
    ensures refusedOptions.Failure? && refusedFlags.Failure?
  {
    q := new Find();
    assert q.options.flags == {};
    var r := q.AddFlags(Some({Tailable}));
    assert q.options.flags == {Tailable};
    r := q.AddFlags(Some({SlaveOk}));
    refusedOptions := q.SetOptions(None);
    refusedFlags := q.AddFlags(None);
  }

  /** The copy carries over every flag, the read preference and the three numbers. */
  method CopyCases() returns (copy: Find)
    ensures copy.options.flags == AllFlags && copy.readPreference == Some(Primary)
    ensures copy.batchSize == 2 && copy.limit == 5 && copy.skip == 1
  {
    var q := new Find();
    var r := q.AddFlags(Some(AllFlags));
    q := q.SetReadPreference(Primary);
    q := q.BatchSize(2);
    q := q.Limit(5);
    q := q.Skip(1);
    copy := new Find.Copy(q);
  }
}
