/**
 * Sequences of dependent sends, described as values: which requests go out, in order, and
 * which error comes back, as a function of the replies the server gives. The bootstrap code
 * ("create the table unless it exists") is the first of them; the settings code builds on it.
 */
module Exchanges {
  import opened Wrappers
  import opened Wire

  /** The requests a call sends, in order, and the error it returns. */
  datatype Exchange = Exchange(sent: seq<Request>, err: Option<DbError>)

  /** One exchange followed by another: both request lists, the second's error. */
  function Then(a: Exchange, b: Exchange): Exchange
  {
    Exchange(a.sent + b.sent, b.err)
  }

  /** The replies left after n sends. */
  function Consumed(replies: seq<Reply>, n: nat): (r: seq<Reply>)
    ensures n <= |replies| ==> r == replies[n..]
    ensures n > |replies| ==> r == []
    decreases n
  {
    if n == 0 then replies else Consumed(RestReplies(replies), n - 1)
  }

  lemma {:induction false} ConsumedTwice(replies: seq<Reply>, a: nat, b: nat)
    ensures Consumed(Consumed(replies, a), b) == Consumed(replies, a + b)
    decreases a
  {
    if a > 0 {
      ConsumedTwice(RestReplies(replies), a - 1, b);
    }
  }

  /** `hres.Result[1][0] != "0"`: whether the count in the second row says the table exists;
      reading a row or cell that is not there panics. */
  function CountSaysExists(rows: seq<seq<string>>): (r: Result<bool, DbError>)
    ensures r.Failure? ==> r.error.Panic?
  {
    if |rows| < 2 || rows[1] == [] then Failure(Panic("index out of range")) else Success(rows[1][0] != "0")
  }

  /** The outcome of a `CREATE TABLE` send whose body is decoded into the `HasuraSQLRes` that
      already holds `prior`, the count's result: a result type other than `CommandOk` is a
      failed creation, and a body without a result type leaves the earlier one in place. */
  function CreateOutcome(reply: Reply, prior: (string, seq<seq<string>>)): (e: Option<DbError>)
    ensures e.None? <==> IsCommandOk(reply) || (reply.Http? && reply.status == StatusOK && LacksSqlFields(reply.body) && prior.0 == CommandOK)
    ensures reply.Http? && reply.status == StatusOK && reply.body.SqlRes? && reply.body.resultType != CommandOK ==>
      e == Some(CreateFailed(reply.body.resultType))
    ensures reply.Http? && reply.status == StatusOK && LacksSqlFields(reply.body) && prior.0 != CommandOK ==>
      e == Some(CreateFailed(prior.0))
    ensures reply.Http? && reply.status != StatusOK ==> e == Some(NewHasuraError(reply.status, reply.body))
    ensures reply.NoResponse? ==> e == Some(TransportFailure(reply.reason))
  {
    match reply
    case NoResponse(m) => Some(TransportFailure(m))
    case Http(s, b) =>
      if s != StatusOK then Some(NewHasuraError(s, b))
      else match DecodeSqlResInto(prior, b)
        case None => Some(DecodeFailure)
        case Some((t, _)) => if t != CommandOK then Some(CreateFailed(t)) else None
  }

  /** A `run_sql` reply of type `TuplesOk` whose second row starts with the given cell. */
  predicate CountReads(reply: Reply, zero: bool)
  {
    && reply.Http? && reply.status == StatusOK && reply.body.SqlRes? && reply.body.resultType == TuplesOK
    && |reply.body.result| >= 2 && reply.body.result[1] != []
    && (reply.body.result[1][0] == "0" <==> zero)
  }

  /** Count the table, and create it when the count is "0". */
  function EnsureTableExchange(countSql: Statement, createSql: Statement, replies: seq<Reply>): (x: Exchange)
    ensures 1 <= |x.sent| <= 2 && x.sent[0] == Query(Sql(countSql))
    ensures |x.sent| == 2 ==> x.sent[1] == Query(Sql(createSql))
  {
    var count := Query(Sql(countSql));
    match SqlOutcome(NextReply(replies), TuplesOK)
    case Failure(e) => Exchange([count], Some(e))
    case Success(rows) =>
      match CountSaysExists(rows)
      case Failure(e) => Exchange([count], Some(e))
      case Success(exists_) =>
        if exists_ then Exchange([count], None)
        else Exchange([count, Query(Sql(createSql))], CreateOutcome(NextReply(RestReplies(replies)), (TuplesOK, rows)))
  }

  /** Whether the exchange created the table and reported success. */
  predicate Created(x: Exchange)
  {
    |x.sent| == 2 && x.err.None?
  }

  /** Performs `EnsureTableExchange` on the transport; `created` says whether the table was
      created and the creation succeeded. */
  method EnsureTable(transport: Transport, countSql: Statement, createSql: Statement) returns (err: Option<DbError>, created: bool)
    modifies transport
    ensures var x := EnsureTableExchange(countSql, createSql, old(transport.replies));
      && transport.sent == old(transport.sent) + x.sent
      && transport.replies == Consumed(old(transport.replies), |x.sent|)
      && err == x.err
      && (created <==> Created(x))
  {
    var reply := transport.Send(Query(Sql(countSql)));
    var q := SqlOutcome(reply, TuplesOK);
    if q.Failure? {
      return Some(q.error), false;
    }
    var c := CountSaysExists(q.value);
    if c.Failure? {
      return Some(c.error), false;
    }
    if c.value {
      return None, false;
    }
    var reply2 := transport.Send(Query(Sql(createSql)));
    err := CreateOutcome(reply2, (TuplesOK, q.value));
    created := err.None?;
  }

  // ---------------------------------------------------------------------------------------
  // Properties

  /** The table is created exactly when the count reads "0". */
  lemma CreatesOnlyWhenCountIsZero(countSql: Statement, createSql: Statement, replies: seq<Reply>)
    ensures |EnsureTableExchange(countSql, createSql, replies).sent| == 2 <==> CountReads(NextReply(replies), true)
  {
  }

  /** A table that exists is left alone, with no error. */
  lemma ExistingTableIsKept(countSql: Statement, createSql: Statement, replies: seq<Reply>)
    requires CountReads(NextReply(replies), false)
    ensures EnsureTableExchange(countSql, createSql, replies) == Exchange([Query(Sql(countSql))], None)
  {
  }

  /** The exchange succeeds exactly when the table exists, or when it did not and the creation
      came back `CommandOk`. */
  lemma EnsureTableSucceedsIff(countSql: Statement, createSql: Statement, replies: seq<Reply>)
    ensures EnsureTableExchange(countSql, createSql, replies).err.None? <==>
      CountReads(NextReply(replies), false) ||
      (CountReads(NextReply(replies), true) && IsCommandOk(NextReply(RestReplies(replies))))
  {
  }

  /** The creation reply is decoded into the count's result: a 200 reply that is JSON but not a
      `run_sql` result leaves the count's `TuplesOk` in place, and the creation is reported as
      failed with that type. */
  lemma CreateReplyWithoutResultTypeReportsCountType(countSql: Statement, createSql: Statement, replies: seq<Reply>)
    requires CountReads(NextReply(replies), true)
    requires NextReply(RestReplies(replies)).Http? && NextReply(RestReplies(replies)).status == StatusOK
    requires LacksSqlFields(NextReply(RestReplies(replies)).body)
    ensures EnsureTableExchange(countSql, createSql, replies).err == Some(CreateFailed(TuplesOK))
  {
  }
}
