/**
 * What the driver sends and receives. The HTTP layer is an oracle: a `Transport`
 * records every request in order and answers with the next scripted reply, a reply
 * being either a transport failure (no response) or a status code and a decoded body.
 */
module Wire {
  import opened Wrappers
  import opened JsonValue
  import opened Decimal

  const DefaultMigrationsTable: string := "schema_migrations"
  const DefaultSettingsTable: string := "migration_settings"
  const DefaultSchema: string := "hdb_catalog"
  const TuplesOK: string := "TuplesOk"
  const CommandOK: string := "CommandOk"
  const StatusOK: int := 200
  /** `database.NilVersion`: the version reported when nothing is applied. */
  const NilVersion: int := -1
  const GetCatalogState: string := "get_catalog_state"
  const SetCatalogState: string := "set_catalog_state"

  /** The SQL of a `run_sql`: the text of a migration or seed file as it is, or one of the
      bookkeeping statements the driver writes itself, kept by its parameters; `Render` gives
      the text sent for it. */
  datatype Statement =
    | Verbatim(text: string)
    | SelectVersionsSql(table: string)
    | InsertVersionSql(table: string, version: int)
    | SetVersionSql(table: string, version: int, dirty: bool)
    | DeleteVersionSql(table: string, version: int)
    | CountTableSql(table: string)
    | CreateVersionTableSql(table: string)
    | CreateSettingsTableSql(table: string)
    | InsertSettingSql(table: string, name: string, value: string)
    | SelectSettingSql(table: string, name: string)
    | UpsertSettingSql(table: string, name: string, value: string)

  /** One operation of a bulk: a `run_sql` (with the optional `check_metadata_consistency`
      flag), or a metadata entry decoded from a YAML migration, passed through as it is. */
  datatype Op = RunSql(sql: Statement, checkMetadataConsistency: Option<bool>) | Entry(value: Json)

  /** `Migration` of the catalog state's `schema_migrations` list. */
  datatype Migration = Migration(name: string, dirty: bool, version: int)

  /** The `state` argument of a `set_catalog_state` call. */
  datatype CliStatePayload =
    | CliState(schemaMigrations: seq<Migration>, migrationMode: bool)  // the marshalled `CLIState`
    | MigrationsMarker                                                 // `{"schema_migrations": true}`
    | FetchedStateWithKeys(cliKeys: set<string>)                       // a fetched catalog state, `cli_state` keys amended

  datatype MetadataArgs = NoArgs | SetCli(state: CliStatePayload)

  datatype Request =
    | Query(op: Op)                                  // one `run_sql` on the query endpoint
    | Bulk(bulkType: string, ops: seq<Op>)           // `{type: "bulk", args: [...]}` on the query endpoint
    | Metadata(action: string, args: MetadataArgs)   // a catalog-state call on `v1/metadata`

  /** A response body as decoded: a `run_sql` result, a server error object, a catalog state
      (the keys of its `cli_state` object, if it has one), or text that is not JSON. */
  datatype Body =
    | SqlRes(resultType: string, result: seq<seq<string>>)
    | ErrBody(path: string, message: string, code: string)
    | CatalogBody(cliState: Option<set<string>>)
    | Garbage

  datatype Reply = NoResponse(reason: string) | Http(status: int, body: Body)

  datatype DbError =
    | ErrLocked
    | TransportFailure(reason: string)
    | ReadFailure
    | HasuraError(path: string, message: string, code: string, migrationFile: Option<string>)
    | ServerError(status: int)
    | DecodeFailure
    | InvalidResultType(resultType: string)
    | CreateFailed(resultType: string)
    | InvalidSetting(name: string)
    | CannotSetSetting(name: string, value: string)
    | ParseFailure(text: string)
    | Panic(reason: string)

  /** Whether a JSON body has neither `result_type` nor `result`, so that decoding it into a
      `HasuraSQLRes` leaves both fields as they were. */
  predicate LacksSqlFields(b: Body)
  {
    b.ErrBody? || b.CatalogBody?
  }

  /** `json.Unmarshal` of a body into a `HasuraSQLRes` that already holds `prior`: any JSON
      object decodes, and the fields the body lacks keep their earlier values. */
  function DecodeSqlResInto(prior: (string, seq<seq<string>>), b: Body): (r: Option<(string, seq<seq<string>>)>)
    ensures r.None? <==> b.Garbage?
    ensures b.SqlRes? ==> r == Some((b.resultType, b.result))
    ensures LacksSqlFields(b) ==> r == Some(prior)
  {
    match b
    case SqlRes(t, rows) => Some((t, rows))
    case ErrBody(_, _, _) => Some(prior)
    case CatalogBody(_) => Some(prior)
    case Garbage => None
  }

  /** `json.Unmarshal` of a body into a freshly declared `HasuraSQLRes`: any JSON object
      decodes, and the fields it lacks stay empty. */
  function DecodeSqlRes(b: Body): (r: Option<(string, seq<seq<string>>)>)
    ensures r.None? <==> b.Garbage?
    ensures b.SqlRes? ==> r == Some((b.resultType, b.result))
    ensures LacksSqlFields(b) ==> r == Some(("", []))
  {
    DecodeSqlResInto(("", []), b)
  }

  /** `NewHasuraError`: the server's error object when the body is one, else an opaque error. */
  function NewHasuraError(status: int, b: Body): (e: DbError)
    ensures b.ErrBody? <==> e.HasuraError?
    ensures e.HasuraError? ==> e.path == b.path && e.migrationFile.None?
  {
    match b
    case ErrBody(p, m, c) => HasuraError(p, m, c, None)
    case _ => ServerError(status)
  }

  /** The reply the oracle gives next. */
  function NextReply(replies: seq<Reply>): Reply
  {
    if replies == [] then NoResponse("no response") else replies[0]
  }

  function RestReplies(replies: seq<Reply>): seq<Reply>
  {
    if replies == [] then [] else replies[1..]
  }

  /** The HTTP transport seen as an oracle. */
  class Transport {
    /** Every request sent so far, in order. */
    var sent: seq<Request>
    /** Replies still to be given, in order; once exhausted every send fails. */
    var replies: seq<Reply>

    constructor (script: seq<Reply>)
      ensures sent == [] && replies == script
    {
      sent := [];
      replies := script;
    }

    method Send(r: Request) returns (reply: Reply)
      modifies this
      ensures sent == old(sent) + [r]
      ensures reply == NextReply(old(replies)) && replies == RestReplies(old(replies))
    {
      sent := sent + [r];
      reply := NextReply(replies);
      replies := RestReplies(replies);
    }
  }

  // ---------------------------------------------------------------------------------------
  // SQL texts the driver sends

  function Qualified(table: string): string { DefaultSchema + "." + table }

  function BoolText(b: bool): string { if b then "true" else "false" }

  /** The SQL command a generated statement starts with. */
  function Keyword(q: Statement): string
  {
    match q
    case Verbatim(_) => ""
    case SelectVersionsSql(_) | CountTableSql(_) | SelectSettingSql(_, _) => "SELECT "
    case DeleteVersionSql(_, _) => "DELETE FROM "
    case CreateVersionTableSql(_) | CreateSettingsTableSql(_) => "CREATE TABLE "
    case _ => "INSERT INTO "
  }

  /** The text sent for a statement. */
  function Render(q: Statement): (r: string)
    ensures q.Verbatim? ==> r == q.text
  {
    match q
    case Verbatim(text) => text
    case SelectVersionsSql(table) => "SELECT version, dirty FROM " + Qualified(table)
    case InsertVersionSql(table, version) =>
      "INSERT INTO " + Qualified(table) + " (version, dirty) VALUES (" + IntToString(version) + ", false)"
    case SetVersionSql(table, version, dirty) =>
      "INSERT INTO " + Qualified(table) + " (version, dirty) VALUES (" + IntToString(version) + ", " + BoolText(dirty)
        + ") ON DUPLICATE KEY UPDATE dirty=" + BoolText(dirty)
    case DeleteVersionSql(table, version) =>
      "DELETE FROM " + Qualified(table) + " WHERE version = " + IntToString(version)
    case CountTableSql(table) =>
      "SELECT " + "COUNT(1) FROM information_schema.tables WHERE table_name = '" + table + "' AND table_schema = '" + DefaultSchema + "' LIMIT 1"
    case CreateVersionTableSql(table) =>
      "CREATE TABLE " + Qualified(table) + " (version bigint not null primary key, dirty boolean not null)"
    case CreateSettingsTableSql(table) =>
      "CREATE TABLE " + Qualified(table) + " (setting text not null primary key, value text not null)"
    case InsertSettingSql(table, name, value) =>
      "INSERT INTO " + Qualified(table) + " (setting, value) VALUES ('" + name + "', '" + value + "')"
    case SelectSettingSql(table, name) =>
      "SELECT value from " + Qualified(table) + " where setting='" + name + "'"
    case UpsertSettingSql(table, name, value) =>
      "INSERT INTO " + Qualified(table) + " (setting, value) VALUES ('" + name + "', '" + value + "') ON CONFLICT (setting) DO UPDATE SET value='" + value + "'"
  }

  /** A plain `run_sql` query, without the consistency flag. */
  function Sql(q: Statement): Op { RunSql(q, None) }

  /** Outcome of a plain send whose body is not read: transport failure, server error, or success. */
  function SendOutcome(reply: Reply): (e: Option<DbError>)
    ensures e.None? <==> reply.Http? && reply.status == StatusOK
  {
    match reply
    case NoResponse(m) => Some(TransportFailure(m))
    case Http(s, b) => if s != StatusOK then Some(NewHasuraError(s, b)) else None
  }

  /** Outcome of a send whose body is read as a `run_sql` result of the expected type:
      the rows on success, `InvalidResultType` for a result of another type. */
  function SqlOutcome(reply: Reply, expected: string): (r: Result<seq<seq<string>>, DbError>)
    ensures r.Success? ==> reply.Http? && reply.status == StatusOK && !reply.body.Garbage?
    ensures reply.Http? && reply.status == StatusOK && reply.body.SqlRes? ==>
      (r.Success? <==> reply.body.resultType == expected) && (r.Success? ==> r.value == reply.body.result)
    ensures reply.NoResponse? ==> r == Failure(TransportFailure(reply.reason))
  {
    match reply
    case NoResponse(m) => Failure(TransportFailure(m))
    case Http(s, b) =>
      if s != StatusOK then Failure(NewHasuraError(s, b))
      else match DecodeSqlRes(b)
        case None => Failure(DecodeFailure)
        case Some((t, rows)) => if t != expected then Failure(InvalidResultType(t)) else Success(rows)
  }

  /** A `run_sql` reply of type `CommandOk`. */
  predicate IsCommandOk(reply: Reply)
  {
    reply.Http? && reply.status == StatusOK && reply.body.SqlRes? && reply.body.resultType == CommandOK
  }

  // ---------------------------------------------------------------------------------------
  // The bookkeeping SQL names its version unambiguously

  lemma CancelPrefix(p: string, x: string, y: string)
    requires p + x == p + y
    ensures x == y
  {
    assert x == (p + x)[|p|..];
    assert y == (p + y)[|p|..];
  }

  /** Two texts that agree up to the first `sep` agree on what precedes it. */
  lemma SplitAtFirst(a: string, b: string, x: string, y: string, sep: char)
    requires sep !in a && sep !in b
    requires a + [sep] + x == b + [sep] + y
    ensures a == b && x == y
  {
    var l := a + [sep] + x;
    assert l[|a|] == sep;
    assert (b + [sep] + y)[|b|] == sep;
    if |a| < |b| {
      assert false;
    } else if |b| < |a| {
      assert false;
    }
    assert a == l[..|a|] && b == (b + [sep] + y)[..|b|];
    assert x == l[|a| + 1..] && y == (b + [sep] + y)[|b| + 1..];
  }

  lemma NoCommaInIntToString(n: int)
    ensures ',' !in IntToString(n)
  {
    IntToStringChars(n);
  }

  /** Every generated statement starts with the command of its kind. */
  lemma RenderStartsWithKeyword(q: Statement)
    ensures Keyword(q) <= Render(q)
  {
    if q.SelectVersionsSql? || q.CountTableSql? || q.SelectSettingSql? {
      SelectsStartWithSelect(q);
    } else if q.InsertVersionSql? || q.SetVersionSql? || q.InsertSettingSql? || q.UpsertSettingSql? {
      InsertsStartWithInsert(q);
    } else if !q.Verbatim? {
      SchemaChangesStartWithCommand(q);
    }
  }

  lemma SelectsStartWithSelect(q: Statement)
    requires q.SelectVersionsSql? || q.CountTableSql? || q.SelectSettingSql?
    ensures "SELECT " <= Render(q)
  {
    match q
    case SelectVersionsSql(table) =>
      StartsWith("SELECT ", "version, dirty FROM " + Qualified(table));
    case CountTableSql(table) =>
      StartsWith("SELECT ", "COUNT(1) FROM information_schema.tables WHERE table_name = '" + table + "' AND table_schema = '" + DefaultSchema + "' LIMIT 1");
    case SelectSettingSql(table, name) =>
      StartsWith("SELECT ", "value from " + Qualified(table) + " where setting='" + name + "'");
  }

  lemma InsertsStartWithInsert(q: Statement)
    requires q.InsertVersionSql? || q.SetVersionSql? || q.InsertSettingSql? || q.UpsertSettingSql?
    ensures "INSERT INTO " <= Render(q)
  {
    match q
    case InsertVersionSql(table, version) =>
      StartsWith("INSERT INTO ", Qualified(table) + " (version, dirty) VALUES (" + IntToString(version) + ", false)");
    case SetVersionSql(table, version, dirty) =>
      SetVersionSqlShape(table, version, dirty);
      StartsWith("INSERT INTO ", Qualified(table) + " (version, dirty) VALUES (" +
        (IntToString(version) + [','] + (" " + BoolText(dirty) + ") ON DUPLICATE KEY UPDATE dirty=" + BoolText(dirty))));
    case InsertSettingSql(table, name, value) =>
      StartsWith("INSERT INTO ", Qualified(table) + " (setting, value) VALUES ('" + name + "', '" + value + "')");
    case UpsertSettingSql(table, name, value) =>
      StartsWith("INSERT INTO ", Qualified(table) + " (setting, value) VALUES ('" + name + "', '" + value + "') ON CONFLICT (setting) DO UPDATE SET value='" + value + "'");
  }

  lemma SchemaChangesStartWithCommand(q: Statement)
    requires q.DeleteVersionSql? || q.CreateVersionTableSql? || q.CreateSettingsTableSql?
    ensures Keyword(q) <= Render(q)
  {
    match q
    case DeleteVersionSql(table, version) =>
      StartsWith("DELETE FROM ", Qualified(table) + " WHERE version = " + IntToString(version));
    case CreateVersionTableSql(table) =>
      StartsWith("CREATE TABLE ", Qualified(table) + " (version bigint not null primary key, dirty boolean not null)");
    case CreateSettingsTableSql(table) =>
      StartsWith("CREATE TABLE ", Qualified(table) + " (setting text not null primary key, value text not null)");
  }

  lemma StartsWith(k: string, rest: string)
    ensures k <= k + rest
  {
  }

  /** The INSERT recording a version determines the version. */
  lemma InsertVersionSqlInjective(table: string, a: int, b: int)
    requires Render(InsertVersionSql(table, a)) == Render(InsertVersionSql(table, b))
    ensures a == b
  {
    var p := "INSERT INTO " + Qualified(table) + " (version, dirty) VALUES (";
    assert Render(InsertVersionSql(table, a)) == p + (IntToString(a) + [','] + " false)");
    assert Render(InsertVersionSql(table, b)) == p + (IntToString(b) + [','] + " false)");
    CancelPrefix(p, IntToString(a) + [','] + " false)", IntToString(b) + [','] + " false)");
    NoCommaInIntToString(a);
    NoCommaInIntToString(b);
    SplitAtFirst(IntToString(a), IntToString(b), " false)", " false)", ',');
    IntToStringInjective(a, b);
  }

  lemma SetVersionSqlShape(table: string, v: int, d: bool)
    ensures Render(SetVersionSql(table, v, d)) ==
      "INSERT INTO " + Qualified(table) + " (version, dirty) VALUES (" +
      (IntToString(v) + [','] + (" " + BoolText(d) + ") ON DUPLICATE KEY UPDATE dirty=" + BoolText(d)))
  {
    var p := "INSERT INTO " + Qualified(table) + " (version, dirty) VALUES (";
    var q := ") ON DUPLICATE KEY UPDATE dirty=";
    assert Render(SetVersionSql(table, v, d)) == p + IntToString(v) + ", " + BoolText(d) + q + BoolText(d);
    Regroup(p, IntToString(v), BoolText(d), q);
  }

  lemma Regroup(p: string, n: string, t: string, q: string)
    ensures p + n + ", " + t + q + t == p + (n + [','] + (" " + t + q + t))
  {
    assert ", " == [','] + " ";
  }

  /** The upsert setting a version determines both the version and the dirty flag. */
  lemma SetVersionSqlInjective(table: string, a: int, da: bool, b: int, db: bool)
    requires Render(SetVersionSql(table, a, da)) == Render(SetVersionSql(table, b, db))
    ensures a == b && da == db
  {
    var p := "INSERT INTO " + Qualified(table) + " (version, dirty) VALUES (";
    var ra := " " + BoolText(da) + ") ON DUPLICATE KEY UPDATE dirty=" + BoolText(da);
    var rb := " " + BoolText(db) + ") ON DUPLICATE KEY UPDATE dirty=" + BoolText(db);
    SetVersionSqlShape(table, a, da);
    SetVersionSqlShape(table, b, db);
    CancelPrefix(p, IntToString(a) + [','] + ra, IntToString(b) + [','] + rb);
    NoCommaInIntToString(a);
    NoCommaInIntToString(b);
    SplitAtFirst(IntToString(a), IntToString(b), ra, rb, ',');
    IntToStringInjective(a, b);
    assert ra[1] == BoolText(da)[0] && rb[1] == BoolText(db)[0];
  }

  /** The DELETE forgetting a version determines the version. */
  lemma DeleteVersionSqlInjective(table: string, a: int, b: int)
    requires Render(DeleteVersionSql(table, a)) == Render(DeleteVersionSql(table, b))
    ensures a == b
  {
    var p := "DELETE FROM " + Qualified(table) + " WHERE version = ";
    CancelPrefix(p, IntToString(a), IntToString(b));
    IntToStringInjective(a, b);
  }
}
