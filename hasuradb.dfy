/**
 * The migration driver's bulk-session engine (`HasuraDB`). A session is opened by `Lock`,
 * filled by `Run` (one operation per SQL file, one per YAML list entry for a metadata file,
 * each attributed to its file through `jsonPath`), and sent by `UnLock`; on a failed send the
 * index in the server's error path (`$.args[N]`) is mapped back to the file that produced it.
 * Version bookkeeping either appends SQL to the same bulk (servers without data sources) or
 * rewrites the cached catalog-state list and sends it at once.
 */
module HasuraDb {
  import opened Wrappers
  import opened JsonValue
  import opened Decimal
  import opened Wire
  import opened UrlParams
  import MI = MigrationsIndex

  /** The panic of a write to a nil Go map. */
  const NilMapWrite: string := "assignment to entry in nil map"

  // ---------------------------------------------------------------------------------------
  // Mapping a server error path back to an operation index

  /** Whether the pattern `\$.args\[([0-9]+)\]*` matches at position i: '$', any character but a
      newline (the '.' is unescaped), "args[", and at least one digit. */
  predicate MatchesAt(p: string, i: nat)
  {
    i + 8 <= |p| && p[i] == '$' && p[i + 1] != '\n' && p[i + 2..i + 7] == "args[" && IsDigit(p[i + 7])
  }

  /** The longest run of digits at the start of s (the greedy `[0-9]+`). */
  function DigitRun(s: string): (r: string)
    ensures |r| <= |s| && r == s[..|r|] && AllDigits(r)
    ensures |r| < |s| ==> !IsDigit(s[|r|])
    decreases |s|
  {
    if s != [] && IsDigit(s[0]) then [s[0]] + DigitRun(s[1..]) else []
  }

  /** The captured group of the leftmost match at or after `from`, if any. */
  function FirstArgsIndex(p: string, from: nat): (r: Option<string>)
    ensures r.Some? ==> r.value != [] && AllDigits(r.value)
    decreases |p| - from
  {
    if from + 8 > |p| then None
    else if MatchesAt(p, from) then Some(DigitRun(p[from + 7..]))
    else FirstArgsIndex(p, from + 1)
  }

  /** `re1.FindAllStringSubmatch(path, -1)[0][1]`: the digits of the first `$.args[N]` in an error path. */
  function ArgsIndex(path: string): (r: Option<string>)
    ensures r.None? <==> forall i :: 0 <= i < |path| ==> !MatchesAt(path, i)
    ensures r.Some? ==> r.value != [] && AllDigits(r.value)
  {
    FirstArgsIndexNoneIff(path, 0);
    FirstArgsIndex(path, 0)
  }

  /** The search finds nothing exactly when the pattern matches nowhere at or after `from`. */
  lemma {:induction false} FirstArgsIndexNoneIff(p: string, from: nat)
    ensures FirstArgsIndex(p, from).None? <==> forall i :: from <= i < |p| ==> !MatchesAt(p, i)
    decreases |p| - from
  {
    if from + 8 <= |p| && !MatchesAt(p, from) {
      FirstArgsIndexNoneIff(p, from + 1);
    }
  }

  /** i is the leftmost position at or after `from` where the pattern matches. */
  predicate LeftmostMatch(p: string, from: nat, i: nat)
  {
    from <= i < |p| && MatchesAt(p, i) && forall j :: from <= j < i ==> !MatchesAt(p, j)
  }

  /** A captured index is the digit run of the leftmost match at or after `from`. */
  lemma FirstArgsIndexIsLeftmost(p: string, from: nat)
    requires FirstArgsIndex(p, from).Some?
    ensures exists i :: LeftmostMatch(p, from, i) && FirstArgsIndex(p, from).value == DigitRun(p[i + 7..])
  {
    var i := LeftmostMatchOf(p, from);
  }

  /** The position of the match `FirstArgsIndex` captures from. */
  lemma {:induction false} LeftmostMatchOf(p: string, from: nat) returns (i: nat)
    requires FirstArgsIndex(p, from).Some?
    ensures LeftmostMatch(p, from, i) && FirstArgsIndex(p, from).value == DigitRun(p[i + 7..])
    decreases |p| - from
  {
    if MatchesAt(p, from) {
      i := from;
    } else {
      assert FirstArgsIndex(p, from) == FirstArgsIndex(p, from + 1);
      i := LeftmostMatchOf(p, from + 1);
      assert forall j :: from <= j < i ==> !MatchesAt(p, j);
    }
  }

  /** A key as `fmt.Sprintf("%d", n)` writes it: digits, no leading zero. */
  predicate CanonicalIndex(k: string)
  {
    k != [] && AllDigits(k) && (|k| > 1 ==> k[0] != '0')
  }

  predicate CanonicalKeys(jsonPath: map<string, string>)
  {
    forall k :: k in jsonPath ==> CanonicalIndex(k)
  }

  /** Every operation a file produced is recorded under its index's key. */
  predicate Attribution(producedBy: seq<Option<string>>, jsonPath: map<string, string>)
  {
    forall i :: 0 <= i < |producedBy| && producedBy[i].Some? ==>
      NatToString(i) in jsonPath && jsonPath[NatToString(i)] == producedBy[i].value
  }

  /** The file an error path is attributed to: the `jsonPath` entry of its captured index, if present. */
  function Attributed(path: string, jsonPath: map<string, string>): (r: Option<string>)
    ensures r.Some? ==> ArgsIndex(path).Some? && ArgsIndex(path).value in jsonPath && r.value == jsonPath[ArgsIndex(path).value]
    ensures r.None? ==> ArgsIndex(path).None? || ArgsIndex(path).value !in jsonPath
  {
    match ArgsIndex(path)
    case Some(d) => if d in jsonPath then Some(jsonPath[d]) else None
    case None => None
  }

  /** What `UnLock` returns for the reply to its bulk. */
  function UnlockError(reply: Reply, jsonPath: map<string, string>): (e: Option<DbError>)
    ensures e.None? <==> reply.Http? && reply.status == StatusOK
    ensures reply.NoResponse? ==> e == Some(TransportFailure(reply.reason))
  {
    match reply
    case NoResponse(m) => Some(TransportFailure(m))
    case Http(s, b) =>
      if s == StatusOK then None
      else
        var herror := NewHasuraError(s, b);
        if herror.HasuraError? && herror.path != "" then Some(herror.(migrationFile := Attributed(herror.path, jsonPath)))
        else Some(herror)
  }

  /** `jsonPath` after `count` operations from index `from` on have been attributed to file f. */
  function AttributeRange(m: map<string, string>, from: nat, count: nat, f: string): map<string, string>
    decreases count
  {
    if count == 0 then m else AttributeRange(m, from, count - 1, f)[NatToString(from + count - 1) := f]
  }

  /** The metadata entries of a decoded YAML migration, as bulk operations. */
  function EntriesOf(t: seq<Json>): (ops: seq<Op>)
    ensures |ops| == |t| && forall i :: 0 <= i < |t| ==> ops[i] == Entry(t[i])
    decreases |t|
  {
    if t == [] then [] else EntriesOf(t[..|t| - 1]) + [Entry(t[|t| - 1])]
  }

  /** One more entry of a decoded migration: its operation appended, its index attributed. */
  lemma AppendEntryStep(ops0: seq<Op>, paths0: map<string, string>, t: seq<Json>, fileName: string,
                        i: nat, ops: seq<Op>, paths: map<string, string>)
    requires i < |t|
    requires ops == ops0 + EntriesOf(t[..i]) && paths == AttributeRange(paths0, |ops0|, i, fileName)
    ensures ops + [Entry(t[i])] == ops0 + EntriesOf(t[..i + 1])
    ensures paths[NatToString(|ops0| + i) := fileName] == AttributeRange(paths0, |ops0|, i + 1, fileName)
  {
    assert t[..i + 1][..i] == t[..i];
  }

  /** n copies of x: the attribution of n operations to one file. */
  function Repeat(x: Option<string>, n: nat): (r: seq<Option<string>>)
    ensures |r| == n && forall i :: 0 <= i < n ==> r[i] == x
  {
    if n == 0 then [] else Repeat(x, n - 1) + [x]
  }

  /** The loop of `Run`'s `meta` case: each decoded entry appended to the operations in order,
      and its index recorded as coming from the file. */
  method AppendEntryOps(ops0: seq<Op>, paths0: map<string, string>, t: seq<Json>, fileName: string)
    returns (ops: seq<Op>, paths: map<string, string>)
    ensures ops == ops0 + EntriesOf(t)
    ensures paths == AttributeRange(paths0, |ops0|, |t|, fileName)
  {
    ops, paths := ops0, paths0;
    var i := 0;
    while i < |t|
      invariant 0 <= i <= |t|
      invariant ops == ops0 + EntriesOf(t[..i])
      invariant paths == AttributeRange(paths0, |ops0|, i, fileName)
    {
      AppendEntryStep(ops0, paths0, t, fileName, i, ops, paths);
      ops := ops + [Entry(t[i])];
      paths := paths[NatToString(|ops0| + i) := fileName];
      i := i + 1;
    }
    assert t[..|t|] == t;
  }

  // ---------------------------------------------------------------------------------------
  // Applied versions read from a `run_sql` result

  /** The data rows of a result: every row after the header. */
  function AfterHeader(rows: seq<seq<string>>): seq<seq<string>>
  {
    if |rows| <= 1 then [] else rows[1..]
  }

  /** Versions parsed from column 0 of each row, in order, up to the first row that fails,
      and the error of that row (an empty row is an index out of range, a panic in Go). */
  function ParseRows(rows: seq<seq<string>>): (r: (seq<nat>, Option<DbError>))
    ensures |r.0| <= |rows|
    ensures r.1.None? ==> |r.0| == |rows|
    ensures forall i :: 0 <= i < |r.0| ==> rows[i] != [] && ParseUint10(rows[i][0]) == Some(r.0[i])
    ensures r.1.Some? ==>
      |r.0| < |rows| && r.1.value == (if rows[|r.0|] == [] then Panic("index out of range") else ParseFailure(rows[|r.0|][0]))
    ensures r.1.Some? && rows[|r.0|] != [] ==> ParseUint10(rows[|r.0|][0]).None?
    decreases |rows|
  {
    if rows == [] then ([], None)
    else if rows[0] == [] then ([], Some(Panic("index out of range")))
    else match ParseUint10(rows[0][0])
      case None => ([], Some(ParseFailure(rows[0][0])))
      case Some(v) =>
        var rest := ParseRows(rows[1..]);
        ([v] + rest.0, rest.1)
  }

  /** One row of `ParseRows`: a missing cell, a bad cell, or a version followed by the rest. */
  lemma ParseRowsStep(rows: seq<seq<string>>)
    requires rows != []
    ensures rows[0] == [] ==> ParseRows(rows) == ([], Some(Panic("index out of range")))
    ensures rows[0] != [] && ParseUint10(rows[0][0]).None? ==> ParseRows(rows) == ([], Some(ParseFailure(rows[0][0])))
    ensures rows[0] != [] && ParseUint10(rows[0][0]).Some? ==>
      ParseRows(rows) == ([ParseUint10(rows[0][0]).value] + ParseRows(rows[1..]).0, ParseRows(rows[1..]).1)
  {
  }

  lemma InsertKeepsBound(s: seq<nat>, v: nat)
    requires MI.Ascending(s) && v < Two64
    requires forall j :: 0 <= j < |s| ==> s[j] < Two64
    ensures forall j :: 0 <= j < |MI.Insert(s, v)| ==> MI.Insert(s, v)[j] < Two64
  {
    var r := MI.Insert(s, v);
    forall j | 0 <= j < |r| ensures r[j] < Two64 {
      assert r[j] in r;
      if r[j] != v { var k :| 0 <= k < |s| && s[k] == r[j]; }
    }
  }

  lemma InsertAllSnoc(s: seq<nat>, done: seq<nat>, v: nat)
    requires MI.Ascending(s)
    ensures MI.InsertAll(s, done + [v]) == MI.Insert(MI.InsertAll(s, done), v)
  {
    assert (done + [v])[..|done|] == done;
  }

  /** `int64(v)` for a uint64 v: values of 2^63 and above wrap to negatives. */
  function ToInt64(u: nat): (r: int)
    requires u < Two64
    ensures -(Two63 as int) <= r < Two63
    ensures u < Two63 ==> r == u
  {
    if u < Two63 then u else u - Two64
  }

  datatype Setting = Setting(name: string, defaultValue: string)

  /** What `Open` derives from the connection URL. */
  datatype Config = Config(
    migrationsTable: string,
    settingsTable: string,
    queryURL: Url,
    graphqlURL: Url,
    pgDumpURL: Url,
    metadataURL: Url,
    headers: map<string, string>,
    isCMD: bool)

  /** `Open`, up to building the configuration: a URL that did not parse is an error; otherwise
      every endpoint takes the scheme chosen by `sslmode`, the URL's host, and the URL's path
      joined with the path named by its own query parameter. */
  method Open(url: string, hurl: Option<Url>, isCMD: bool) returns (r: Result<Config, DbError>)
    ensures hurl.None? ==> r == Failure(ParseFailure(url))
    ensures hurl.Some? ==> r.Success?
    ensures hurl.Some? ==>
      var u := hurl.value;
      var c := r.value;
      && c.migrationsTable == DefaultMigrationsTable && c.settingsTable == DefaultSettingsTable
      && c.queryURL == Url(Scheme(u.query), u.host, PathJoin(u.path, Get(u.query, "query")), map[])
      && c.graphqlURL == Url(Scheme(u.query), u.host, PathJoin(u.path, Get(u.query, "graphql")), map[])
      && c.pgDumpURL == Url(Scheme(u.query), u.host, PathJoin(u.path, Get(u.query, "pg_dump")), map[])
      && c.metadataURL == Url(Scheme(u.query), u.host, PathJoin(u.path, Get(u.query, "metadata")), map[])
      && (c.queryURL.scheme == "https" <==> Get(u.query, "sslmode") == "enable")
      && c.headers == (if "headers" in u.query then HeadersOf(u.query["headers"]) else map[])
      && c.isCMD == isCMD
  {
    if hurl.None? {
      return Failure(ParseFailure(url));
    }
    var u := hurl.value;
    var params := u.query;
    var scheme := Scheme(params);
    var headers := ParseHeaders(params);
    r := Success(Config(
      DefaultMigrationsTable,
      DefaultSettingsTable,
      Url(scheme, u.host, PathJoin(u.path, Get(params, "query")), map[]),
      Url(scheme, u.host, PathJoin(u.path, Get(params, "graphql")), map[]),
      Url(scheme, u.host, PathJoin(u.path, Get(params, "pg_dump")), map[]),
      Url(scheme, u.host, PathJoin(u.path, Get(params, "metadata")), map[]),
      headers,
      isCMD));
  }

  /** Outcome of a catalog-state write whose transport error is discarded: the nil response is
      then dereferenced, which panics. */
  function CatalogWriteOutcome(reply: Reply): (e: Option<DbError>)
    ensures e.None? <==> reply.Http? && reply.status == StatusOK
    ensures reply.NoResponse? ==> e.Some? && e.value.Panic?
  {
    match reply
    case NoResponse(_) => Some(Panic("nil response"))
    case Http(s, b) => if s != StatusOK then Some(NewHasuraError(s, b)) else None
  }

  /** A `Migration` zero value, as `make` fills a slice with. */
  const ZeroMigration: Migration := Migration("", false, 0)

  /** The migrations whose version differs from v, in order. */
  function Without(s: seq<Migration>, v: int): (r: seq<Migration>)
    ensures |r| <= |s|
    ensures forall i :: 0 <= i < |r| ==> r[i].version != v
    ensures (forall i :: 0 <= i < |s| ==> s[i].version != v) ==> r == s
    decreases |s|
  {
    if s == [] then []
    else
      var n := |s| - 1;
      if s[n].version != v then Without(s[..n], v) + [s[n]] else Without(s[..n], v)
  }

  /** Catalog-state `RemoveVersion` as written: `make([]Migration, len-1)` and then `append`,
      so the kept migrations come after len-1 zero entries. */
  function RemovedAsWritten(s: seq<Migration>, v: int): (r: seq<Migration>)
    requires s != []
    ensures |s| - 1 <= |r| <= 2 * |s| - 1
    ensures forall i :: 0 <= i < |s| - 1 ==> r[i] == ZeroMigration
    ensures forall i :: |s| - 1 <= i < |r| ==> r[i].version != v
    ensures (forall i :: 0 <= i < |s| ==> s[i].version != v) ==> r[|s| - 1..] == s
  {
    seq(|s| - 1, _ => ZeroMigration) + Without(s, v)
  }

  /** The loop of catalog-state `RemoveVersion`: a slice of len-1 zero entries, then every
      migration whose version differs appended in order. */
  method RemoveFromCatalog(current: seq<Migration>, version: int) returns (newSetOfMigrations: seq<Migration>)
    requires current != []
    ensures newSetOfMigrations == RemovedAsWritten(current, version)
  {
    newSetOfMigrations := seq(|current| - 1, _ => ZeroMigration);
    var i := 0;
    while i < |current|
      invariant 0 <= i <= |current|
      invariant newSetOfMigrations == seq(|current| - 1, _ => ZeroMigration) + Without(current[..i], version)
    {
      assert current[..i + 1][..i] == current[..i];
      if version != current[i].version {
        newSetOfMigrations := newSetOfMigrations + [current[i]];
      }
      i := i + 1;
    }
    assert current[..|current|] == current;
  }

  // ---------------------------------------------------------------------------------------
  // The driver

  class HasuraDB {
    const transport: Transport
    const migrationsTable: string
    const settingsTable: string
    const settings: seq<Setting>
    /** `serverFeatureFlags.HasDatasources`: whether version bookkeeping uses the catalog state. */
    const hasDatasources: bool
    const enableCheckMetadataConsistency: bool

    var isLocked: bool
    /** `migrationQuery.Type` and `migrationQuery.Args`: the bulk being accumulated. */
    var bulkType: string
    var args: seq<Op>
    /** Operation index (as `%d` text) to the file that produced it. */
    var jsonPath: map<string, string>
    /** Whether `jsonPath` has been made. Until the first `Lock` it is Go's nil map, which reads
        as empty and panics on a write. */
    var jsonPathMade: bool
    /** The applied-version index. */
    var migrations: seq<nat>
    /** The cached `catalogState.CLIState`. */
    var schemaMigrations: seq<Migration>
    var migrationMode: bool

    /** For each accumulated operation, the file `Run` produced it from (none for bookkeeping SQL). */
    ghost var producedBy: seq<Option<string>>

    /** The applied-version index: ascending uint64 values. */
    ghost predicate IndexValid()
      reads this`migrations
    {
      && MI.Ascending(migrations)
      && (forall i :: 0 <= i < |migrations| ==> migrations[i] < Two64)
    }

    ghost predicate Valid()
      reads this
    {
      && IndexValid()
      && |producedBy| == |args|
      && Attribution(producedBy, jsonPath)
      && CanonicalKeys(jsonPath)
      && (!jsonPathMade ==> jsonPath == map[])
    }

    /** The driver as `WithInstance` builds it, before its bootstrap checks: `jsonPath` not made. */
    constructor (transport: Transport, migrationsTable: string, settingsTable: string, settings: seq<Setting>,
                 hasDatasources: bool, enableCheckMetadataConsistency: bool)
      ensures Valid()
      ensures this.transport == transport && this.migrationsTable == migrationsTable && this.settingsTable == settingsTable
      ensures this.settings == settings && this.hasDatasources == hasDatasources
      ensures this.enableCheckMetadataConsistency == enableCheckMetadataConsistency
      ensures !isLocked && bulkType == "" && args == [] && jsonPath == map[] && !jsonPathMade && migrations == []
      ensures schemaMigrations == [] && !migrationMode
    {
      this.transport := transport;
      this.migrationsTable := migrationsTable;
      this.settingsTable := settingsTable;
      this.settings := settings;
      this.hasDatasources := hasDatasources;
      this.enableCheckMetadataConsistency := enableCheckMetadataConsistency;
      isLocked := false;
      bulkType := "";
      args := [];
      jsonPath := map[];
      jsonPathMade := false;
      migrations := [];
      schemaMigrations := [];
      migrationMode := false;
      producedBy := [];
    }

    /** Opens a session: refused while one is open, leaving it untouched; otherwise an empty bulk. */
    method Lock() returns (err: Option<DbError>)
      requires Valid()
      modifies this
      ensures Valid()
      ensures old(isLocked) ==> err == Some(ErrLocked) && unchanged(this)
      ensures !old(isLocked) ==> err.None? && isLocked && bulkType == "bulk" && args == [] && jsonPath == map[] && jsonPathMade
      ensures migrations == old(migrations) && schemaMigrations == old(schemaMigrations) && migrationMode == old(migrationMode)
    {
      if isLocked {
        return Some(ErrLocked);
      }
      bulkType := "bulk";
      args := [];
      producedBy := [];
      jsonPath := map[];
      jsonPathMade := true;
      isLocked := true;
      err := None;
    }

    /** Closes a session. Without an open session, or with an empty bulk, nothing is sent.
        Otherwise the bulk is sent once and a failure is mapped back to its file. The session is
        closed in every case; the bulk and `jsonPath` are left as they were. */
    method UnLock() returns (err: Option<DbError>)
      requires Valid()
      modifies this, transport
      ensures Valid()
      ensures !isLocked
      ensures args == old(args) && jsonPath == old(jsonPath) && jsonPathMade == old(jsonPathMade) && bulkType == old(bulkType) && producedBy == old(producedBy)
      ensures migrations == old(migrations) && schemaMigrations == old(schemaMigrations) && migrationMode == old(migrationMode)
      ensures !old(isLocked) || old(args) == [] ==>
        err.None? && transport.sent == old(transport.sent) && transport.replies == old(transport.replies)
      ensures old(isLocked) && old(args) != [] ==>
        && transport.sent == old(transport.sent) + [Bulk(old(bulkType), old(args))]
        && transport.replies == RestReplies(old(transport.replies))
        && err == UnlockError(NextReply(old(transport.replies)), old(jsonPath))
    {
      if !isLocked {
        return None;
      }
      if |args| == 0 {
        isLocked := false;
        return None;
      }
      var reply := transport.Send(Bulk(bulkType, args));
      isLocked := false;
      match reply {
        case NoResponse(m) =>
          err := Some(TransportFailure(m));
        case Http(status, body) =>
          if status != StatusOK {
            var herror := NewHasuraError(status, body);
            if herror.HasuraError? && herror.path != "" {
              var file: Option<string> := None;
              var index := ArgsIndex(herror.path);
              if index.Some? && index.value in jsonPath {
                file := Some(jsonPath[index.value]);
              }
              herror := herror.(migrationFile := file);
            }
            err := Some(herror);
          } else {
            err := None;
          }
      }
    }

    /** Appends the operations of one migration file to the bulk, each attributed to the file.
        Before the first `Lock` the first write to the nil `jsonPath` panics, after the
        operation that triggered it has been appended. */
    method Run(migration: Option<string>, fileType: string, fileName: string, decoded: Option<seq<Json>>)
      returns (err: Option<DbError>)
      requires Valid()
      modifies this
      ensures Valid()
      ensures isLocked == old(isLocked) && bulkType == old(bulkType) && jsonPathMade == old(jsonPathMade)
      ensures migrations == old(migrations) && schemaMigrations == old(schemaMigrations) && migrationMode == old(migrationMode)
      ensures migration.None? ==> err == Some(ReadFailure) && unchanged(this)
      ensures migration.Some? && fileType != "meta" && (fileType != "sql" || migration.value == "") ==>
        err.None? && unchanged(this)
      ensures migration.Some? && fileType == "sql" && migration.value != "" ==>
        && args == old(args) + [RunSql(Verbatim(migration.value), if enableCheckMetadataConsistency then Some(false) else None)]
        && (jsonPathMade ==>
              && err.None?
              && jsonPath == old(jsonPath)[NatToString(|old(args)|) := fileName]
              && producedBy == old(producedBy) + [Some(fileName)])
        && (!jsonPathMade ==> err == Some(Panic(NilMapWrite)) && jsonPath == old(jsonPath))
      ensures migration.Some? && fileType == "meta" && decoded.None? ==>
        err == Some(DecodeFailure) && args == [] && jsonPath == old(jsonPath)
      ensures migration.Some? && fileType == "meta" && decoded.Some? && (jsonPathMade || decoded.value == []) ==>
        && err.None?
        && args == old(args) + EntriesOf(decoded.value)
        && jsonPath == AttributeRange(old(jsonPath), |old(args)|, |decoded.value|, fileName)
        && producedBy == old(producedBy) + Repeat(Some(fileName), |decoded.value|)
      ensures migration.Some? && fileType == "meta" && decoded.Some? && !jsonPathMade && decoded.value != [] ==>
        && err == Some(Panic(NilMapWrite))
        && args == old(args) + [Entry(decoded.value[0])]
        && jsonPath == old(jsonPath)
    {
      if migration.None? {
        return Some(ReadFailure);
      }
      var body := migration.value;
      err := None;
      if fileType == "sql" {
        if body != "" {
          err := AppendSql(body, fileName);
        }
      } else if fileType == "meta" {
        if decoded.None? {
          args := [];
          producedBy := [];
          return Some(DecodeFailure);
        }
        err := AppendEntries(decoded.value, fileName);
      }
    }

    /** The `sql` case of `Run`: one `run_sql` operation holding the file's text. */
    method AppendSql(body: string, fileName: string) returns (err: Option<DbError>)
      requires Valid()
      modifies this
      ensures Valid()
      ensures args == old(args) + [RunSql(Verbatim(body), if enableCheckMetadataConsistency then Some(false) else None)]
      ensures jsonPathMade ==>
        && err.None?
        && jsonPath == old(jsonPath)[NatToString(|old(args)|) := fileName]
        && producedBy == old(producedBy) + [Some(fileName)]
      ensures !jsonPathMade ==> err == Some(Panic(NilMapWrite)) && jsonPath == old(jsonPath)
      ensures isLocked == old(isLocked) && bulkType == old(bulkType) && jsonPathMade == old(jsonPathMade)
      ensures migrations == old(migrations) && schemaMigrations == old(schemaMigrations) && migrationMode == old(migrationMode)
    {
      var check: Option<bool> := if enableCheckMetadataConsistency then Some(false) else None;
      err := AppendAttributed(RunSql(Verbatim(body), check), fileName);
    }

    /** Appends one operation of a file to the bulk and records the file under its index; with
        `jsonPath` not made, the record panics and no file is recorded. */
    method AppendAttributed(op: Op, fileName: string) returns (err: Option<DbError>)
      requires Valid()
      modifies this
      ensures Valid()
      ensures args == old(args) + [op]
      ensures jsonPathMade ==>
        && err.None?
        && jsonPath == old(jsonPath)[NatToString(|old(args)|) := fileName]
        && producedBy == old(producedBy) + [Some(fileName)]
      ensures !jsonPathMade ==>
        err == Some(Panic(NilMapWrite)) && jsonPath == old(jsonPath) && producedBy == old(producedBy) + [None]
      ensures isLocked == old(isLocked) && bulkType == old(bulkType) && jsonPathMade == old(jsonPathMade)
      ensures migrations == old(migrations) && schemaMigrations == old(schemaMigrations) && migrationMode == old(migrationMode)
    {
      if !jsonPathMade {
        AttributionAppendNone(producedBy, jsonPath);
        args := args + [op];
        producedBy := producedBy + [None];
        return Some(Panic(NilMapWrite));
      }
      AttributionAppend(producedBy, jsonPath, fileName);
      args := args + [op];
      producedBy := producedBy + [Some(fileName)];
      jsonPath := jsonPath[NatToString(|args| - 1) := fileName];
      err := None;
    }

    /** The `meta` case of `Run`: one operation per decoded list entry, in order. With `jsonPath`
        not made, the first entry is appended and its record panics. */
    method AppendEntries(t: seq<Json>, fileName: string) returns (err: Option<DbError>)
      requires Valid()
      modifies this
      ensures Valid()
      ensures jsonPathMade || t == [] ==>
        && err.None?
        && args == old(args) + EntriesOf(t)
        && jsonPath == AttributeRange(old(jsonPath), |old(args)|, |t|, fileName)
        && producedBy == old(producedBy) + Repeat(Some(fileName), |t|)
      ensures !jsonPathMade && t != [] ==>
        err == Some(Panic(NilMapWrite)) && args == old(args) + [Entry(t[0])] && jsonPath == old(jsonPath)
      ensures isLocked == old(isLocked) && bulkType == old(bulkType) && jsonPathMade == old(jsonPathMade)
      ensures migrations == old(migrations) && schemaMigrations == old(schemaMigrations) && migrationMode == old(migrationMode)
    {
      if !jsonPathMade && t != [] {
        err := AppendAttributed(Entry(t[0]), fileName);
        return;
      }
      AttributeRangeAttribution(producedBy, jsonPath, |t|, fileName);
      args, jsonPath := AppendEntryOps(args, jsonPath, t, fileName);
      producedBy := producedBy + Repeat(Some(fileName), |t|);
      err := None;
    }

    /** `ResetQuery`: empties the bulk; `jsonPath` is kept. */
    method ResetQuery()
      requires Valid()
      modifies this
      ensures Valid()
      ensures args == [] && jsonPath == old(jsonPath) && jsonPathMade == old(jsonPathMade) && isLocked == old(isLocked) && bulkType == old(bulkType)
      ensures migrations == old(migrations) && schemaMigrations == old(schemaMigrations) && migrationMode == old(migrationMode)
    {
      args := [];
      producedBy := [];
    }

    /** Appends an operation no file produced (version bookkeeping) to the bulk; nothing is sent. */
    method AppendUnattributed(op: Op)
      requires Valid()
      modifies this
      ensures Valid()
      ensures args == old(args) + [op] && producedBy == old(producedBy) + [None]
      ensures jsonPath == old(jsonPath) && jsonPathMade == old(jsonPathMade) && isLocked == old(isLocked) && bulkType == old(bulkType)
      ensures migrations == old(migrations) && schemaMigrations == old(schemaMigrations) && migrationMode == old(migrationMode)
    {
      AttributionAppendNone(producedBy, jsonPath);
      args := args + [op];
      producedBy := producedBy + [None];
    }

    /** Records an applied version: one INSERT appended to the bulk (nothing sent), or, with data
        sources, the cached list extended and written back at once. */
    method InsertVersion(version: int) returns (err: Option<DbError>)
      requires Valid()
      modifies this, transport
      ensures Valid()
      ensures isLocked == old(isLocked) && bulkType == old(bulkType) && jsonPath == old(jsonPath) && jsonPathMade == old(jsonPathMade)
      ensures migrations == old(migrations) && migrationMode == old(migrationMode)
      ensures !hasDatasources ==>
        && err.None?
        && args == old(args) + [Sql(InsertVersionSql(migrationsTable, version))]
        && schemaMigrations == old(schemaMigrations)
        && transport.sent == old(transport.sent) && transport.replies == old(transport.replies)
      ensures hasDatasources ==>
        && args == old(args)
        && schemaMigrations == old(schemaMigrations) + [Migration("", false, version)]
        && transport.sent == old(transport.sent) + [Metadata(SetCatalogState, SetCli(CliState(schemaMigrations, migrationMode)))]
        && transport.replies == RestReplies(old(transport.replies))
        && err == CatalogWriteOutcome(NextReply(old(transport.replies)))
    {
      if !hasDatasources {
        AppendUnattributed(Sql(InsertVersionSql(migrationsTable, version)));
        return None;
      }
      schemaMigrations := schemaMigrations + [Migration("", false, version)];
      var reply := transport.Send(Metadata(SetCatalogState, SetCli(CliState(schemaMigrations, migrationMode))));
      err := CatalogWriteOutcome(reply);
    }

    /** Forgets a version: one DELETE appended to the bulk (nothing sent), or, with data sources,
        the cached list rebuilt as written (zero entries first; a panic on an empty list) and
        written back at once. */
    method RemoveVersion(version: int) returns (err: Option<DbError>)
      requires Valid()
      modifies this, transport
      ensures Valid()
      ensures isLocked == old(isLocked) && bulkType == old(bulkType) && jsonPath == old(jsonPath) && jsonPathMade == old(jsonPathMade)
      ensures migrations == old(migrations) && migrationMode == old(migrationMode)
      ensures !hasDatasources ==>
        && err.None?
        && args == old(args) + [Sql(DeleteVersionSql(migrationsTable, version))]
        && schemaMigrations == old(schemaMigrations)
        && transport.sent == old(transport.sent) && transport.replies == old(transport.replies)
      ensures hasDatasources && old(schemaMigrations) == [] ==>
        && err == Some(Panic("makeslice: len out of range"))
        && args == old(args) && schemaMigrations == []
        && transport.sent == old(transport.sent) && transport.replies == old(transport.replies)
      ensures hasDatasources && old(schemaMigrations) != [] ==>
        && args == old(args)
        && schemaMigrations == RemovedAsWritten(old(schemaMigrations), version)
        && transport.sent == old(transport.sent) + [Metadata(SetCatalogState, SetCli(CliState(schemaMigrations, migrationMode)))]
        && transport.replies == RestReplies(old(transport.replies))
        && err == CatalogWriteOutcome(NextReply(old(transport.replies)))
    {
      if !hasDatasources {
        AppendUnattributed(Sql(DeleteVersionSql(migrationsTable, version)));
        return None;
      }
      if |schemaMigrations| == 0 {
        return Some(Panic("makeslice: len out of range"));
      }
      var newSetOfMigrations := RemoveFromCatalog(schemaMigrations, version);
      schemaMigrations := newSetOfMigrations;
      var reply := transport.Send(Metadata(SetCatalogState, SetCli(CliState(schemaMigrations, migrationMode))));
      err := CatalogWriteOutcome(reply);
    }

    /** `getVersions`: reads `SELECT version, dirty` and appends column 0 of every row after the
        header to the index, in order, stopping at the first row that does not parse. */
    method GetVersions() returns (err: Option<DbError>)
      requires Valid()
      modifies this, transport
      ensures Valid()
      ensures isLocked == old(isLocked) && bulkType == old(bulkType) && args == old(args) && jsonPath == old(jsonPath) && jsonPathMade == old(jsonPathMade)
      ensures producedBy == old(producedBy) && schemaMigrations == old(schemaMigrations) && migrationMode == old(migrationMode)
      ensures transport.sent == old(transport.sent) + [Query(Sql(SelectVersionsSql(migrationsTable)))]
      ensures transport.replies == RestReplies(old(transport.replies))
      ensures var q := SqlOutcome(NextReply(old(transport.replies)), TuplesOK);
        && (q.Failure? ==> err == Some(q.error) && migrations == old(migrations))
        && (q.Success? ==>
              migrations == MI.InsertAll(old(migrations), ParseRows(AfterHeader(q.value)).0)
              && err == ParseRows(AfterHeader(q.value)).1)
    {
      var reply := transport.Send(Query(Sql(SelectVersionsSql(migrationsTable))));
      var q := SqlOutcome(reply, TuplesOK);
      if q.Failure? {
        return Some(q.error);
      }
      var rows := q.value;
      if |rows| <= 1 {
        return None;
      }
      err := AppendVersionRows(rows[1..]);
    }

    /** The loop of `getVersions` over the data rows: column 0 of each, parsed as a uint64 and
        appended to the index, in order; the first row that fails ends it with that row's error. */
    method AppendVersionRows(rows: seq<seq<string>>) returns (err: Option<DbError>)
      requires IndexValid()
      modifies this`migrations
      ensures IndexValid()
      ensures migrations == MI.InsertAll(old(migrations), ParseRows(rows).0)
      ensures err == ParseRows(rows).1
    {
      var rest := rows;
      ghost var done: seq<nat> := [];
      while rest != []
        invariant ParseRows(rows).0 == done + ParseRows(rest).0
        invariant ParseRows(rows).1 == ParseRows(rest).1
        invariant migrations == MI.InsertAll(old(migrations), done)
        invariant IndexValid()
        decreases |rest|
      {
        ParseRowsStep(rest);
        var val := rest[0];
        if |val| == 0 {
          assert done + [] == done;
          return Some(Panic("index out of range"));
        }
        var version := ParseUint10(val[0]);
        if version.None? {
          assert done + [] == done;
          return Some(ParseFailure(val[0]));
        }
        assert done + ParseRows(rest).0 == (done + [version.value]) + ParseRows(rest[1..]).0;
        InsertAllSnoc(old(migrations), done, version.value);
        InsertKeepsBound(migrations, version.value);
        migrations := MI.Insert(migrations, version.value);
        done := done + [version.value];
        rest := rest[1..];
      }
      assert done + [] == done;
      err := None;
    }

    /** `Scan`: a fresh index filled from the server. */
    method Scan() returns (err: Option<DbError>)
      requires Valid()
      modifies this, transport
      ensures Valid()
      ensures isLocked == old(isLocked) && bulkType == old(bulkType) && args == old(args) && jsonPath == old(jsonPath) && jsonPathMade == old(jsonPathMade)
      ensures producedBy == old(producedBy) && schemaMigrations == old(schemaMigrations) && migrationMode == old(migrationMode)
      ensures transport.sent == old(transport.sent) + [Query(Sql(SelectVersionsSql(migrationsTable)))]
      ensures transport.replies == RestReplies(old(transport.replies))
      ensures var q := SqlOutcome(NextReply(old(transport.replies)), TuplesOK);
        && (q.Failure? ==> err == Some(q.error) && migrations == [])
        && (q.Success? ==>
              migrations == MI.InsertAll([], ParseRows(AfterHeader(q.value)).0)
              && err == ParseRows(AfterHeader(q.value)).1)
    {
      migrations := [];
      err := GetVersions();
    }

    /** `Version`: the last applied version as an int64, or `NilVersion`; never dirty, never an error. */
    method Version() returns (version: int, dirty: bool, err: Option<DbError>)
      requires Valid()
      ensures err.None? && !dirty
      ensures migrations == [] ==> version == NilVersion
      ensures migrations != [] ==> version == ToInt64(migrations[|migrations| - 1])
      ensures migrations != [] && migrations[|migrations| - 1] < Two63 ==>
        version in migrations && forall x :: x in migrations ==> x <= version
    {
      var last := MI.Last(migrations);
      if last.None? {
        return NilVersion, false, None;
      }
      return ToInt64(last.value), false, None;
    }

    function First(): (r: Option<nat>)
      requires Valid()
      reads this
      ensures r.None? <==> migrations == []
      ensures r.Some? ==> r.value in migrations && forall x :: x in migrations ==> r.value <= x
    {
      MI.First(migrations)
    }

    function Last(): (r: Option<nat>)
      requires Valid()
      reads this
      ensures r.None? <==> migrations == []
      ensures r.Some? ==> r.value in migrations && forall x :: x in migrations ==> x <= r.value
    {
      MI.Last(migrations)
    }

    function Next(version: nat): (r: Option<nat>)
      requires Valid()
      reads this
      ensures r.Some? ==> version in migrations && r.value in migrations && version < r.value
      ensures r.Some? ==> forall x :: x in migrations && version < x ==> r.value <= x
      ensures r.None? ==> version !in migrations || MI.Last(migrations) == Some(version)
    {
      MI.Next(migrations, version)
    }

    function Prev(version: nat): (r: Option<nat>)
      requires Valid()
      reads this
      ensures r.Some? ==> version in migrations && r.value in migrations && r.value < version
      ensures r.Some? ==> forall x :: x in migrations && x < version ==> x <= r.value
      ensures r.None? ==> version !in migrations || MI.First(migrations) == Some(version)
    {
      MI.Prev(migrations, version)
    }

    function Read(version: nat): (r: bool)
      reads this
      ensures r <==> version in migrations
    {
      MI.Read(migrations, version)
    }
  }

  // ---------------------------------------------------------------------------------------
  // Properties

  lemma NatToStringInjective(a: nat, b: nat)
    requires NatToString(a) == NatToString(b)
    ensures a == b
  {
    DigitsValueOfNatToString(a);
    DigitsValueOfNatToString(b);
  }

  /** Attributing the next operation to a file keeps every earlier attribution and keeps keys canonical. */
  lemma AttributionAppend(producedBy: seq<Option<string>>, jsonPath: map<string, string>, f: string)
    requires Attribution(producedBy, jsonPath) && CanonicalKeys(jsonPath)
    ensures Attribution(producedBy + [Some(f)], jsonPath[NatToString(|producedBy|) := f])
    ensures CanonicalKeys(jsonPath[NatToString(|producedBy|) := f])
  {
    var n := |producedBy|;
    var p := producedBy + [Some(f)];
    var m := jsonPath[NatToString(n) := f];
    NatToStringShape(n);
    forall i | 0 <= i < |p| && p[i].Some?
      ensures NatToString(i) in m && m[NatToString(i)] == p[i].value
    {
      if i < n {
        assert p[i] == producedBy[i];
        if NatToString(i) == NatToString(n) { NatToStringInjective(i, n); }
      }
    }
  }

  /** Operations not from `Run` leave the attribution of the others intact. */
  lemma AttributionAppendNone(producedBy: seq<Option<string>>, jsonPath: map<string, string>)
    requires Attribution(producedBy, jsonPath)
    ensures Attribution(producedBy + [None], jsonPath)
  {
    var p := producedBy + [None];
    forall i | 0 <= i < |p| && p[i].Some?
      ensures NatToString(i) in jsonPath && jsonPath[NatToString(i)] == p[i].value
    {
      assert p[i] == producedBy[i];
    }
  }

  lemma {:induction false} DigitRunOf(d: string, t: string)
    requires AllDigits(d)
    requires t == [] || !IsDigit(t[0])
    ensures DigitRun(d + t) == d
    decreases |d|
  {
    if d != [] {
      assert (d + t)[1..] == d[1..] + t;
      DigitRunOf(d[1..], t);
    } else {
      assert d + t == t;
    }
  }

  /** Any error path of the shape `$?args[N]...`, the '?' being any character but a newline,
      captures exactly N. */
  lemma ArgsIndexOfPath(p: string, d: string, rest: string)
    requires |p| == 7 && p[0] == '$' && p[1] != '\n' && p[2..] == "args["
    requires d != [] && AllDigits(d)
    ensures ArgsIndex(p + d + "]" + rest) == Some(d)
  {
    var s := p + d + "]" + rest;
    assert s[..7] == p;
    assert s[2..7] == p[2..];
    assert s[7] == d[0];
    assert MatchesAt(s, 0);
    assert s[7..] == d + ("]" + rest);
    DigitRunOf(d, "]" + rest);
  }

  /** A server error at `$.args[k]` on an operation a file produced is reported with that file. */
  lemma FailedOperationAttributed(producedBy: seq<Option<string>>, jsonPath: map<string, string>, k: nat, rest: string)
    requires Attribution(producedBy, jsonPath)
    requires k < |producedBy| && producedBy[k].Some?
    ensures Attributed("$.args[" + NatToString(k) + "]" + rest, jsonPath) == producedBy[k]
  {
    NatToStringShape(k);
    ArgsIndexOfPath("$.args[", NatToString(k), rest);
  }

  /** `UnLock`'s error for a non-200 reply naming operation k: the server's error, carrying the
      file that produced operation k, never success. */
  lemma UnlockReportsFailingFile(producedBy: seq<Option<string>>, jsonPath: map<string, string>, k: nat,
                                 status: int, message: string, code: string)
    requires Attribution(producedBy, jsonPath)
    requires k < |producedBy| && producedBy[k].Some?
    requires status != StatusOK
    ensures var path := "$.args[" + NatToString(k) + "]";
      UnlockError(Http(status, ErrBody(path, message, code)), jsonPath) == Some(HasuraError(path, message, code, producedBy[k]))
  {
    FailedOperationAttributed(producedBy, jsonPath, k, "");
    assert "$.args[" + NatToString(k) + "]" + "" == "$.args[" + NatToString(k) + "]";
  }

  /** The captured index is used verbatim as a key, and keys are written with `%d`: an index
      written with a leading zero is never attributed to a file. */
  lemma LeadingZeroIndexNeverAttributed(jsonPath: map<string, string>, k: nat, rest: string)
    requires CanonicalKeys(jsonPath)
    ensures Attributed("$.args[" + ("0" + NatToString(k)) + "]" + rest, jsonPath) == None
  {
    NatToStringShape(k);
    var d := "0" + NatToString(k);
    ArgsIndexOfPath("$.args[", d, rest);
    assert d[0] == '0' && |d| > 1;
    assert !CanonicalIndex(d);
  }

  /** The unescaped '.' matches any character: `$xargs[N]` is read as an index too. */
  lemma UnescapedDotMatchesAnyCharacter(k: nat, rest: string)
    ensures ArgsIndex("$xargs[" + NatToString(k) + "]" + rest) == Some(NatToString(k))
  {
    NatToStringShape(k);
    ArgsIndexOfPath("$xargs[", NatToString(k), rest);
  }

  /** The operations `Run` attributed to a metadata file are exactly those at indices from..from+count-1. */
  lemma {:induction false} AttributeRangeLookup(m: map<string, string>, from: nat, count: nat, f: string, i: nat)
    ensures from <= i < from + count ==>
      NatToString(i) in AttributeRange(m, from, count, f) && AttributeRange(m, from, count, f)[NatToString(i)] == f
    ensures !(from <= i < from + count) ==>
      (NatToString(i) in AttributeRange(m, from, count, f) <==> NatToString(i) in m) &&
      (NatToString(i) in m ==> AttributeRange(m, from, count, f)[NatToString(i)] == m[NatToString(i)])
    decreases count
  {
    if count > 0 {
      AttributeRangeLookup(m, from, count - 1, f, i);
      if i != from + count - 1 && NatToString(i) == NatToString(from + count - 1) {
        NatToStringInjective(i, from + count - 1);
      }
    }
  }

  /** Attributing a run of operations to a file keeps every earlier attribution, records the new
      ones, and keeps the keys canonical. */
  lemma {:induction false} AttributeRangeAttribution(producedBy: seq<Option<string>>, jsonPath: map<string, string>, n: nat, f: string)
    requires Attribution(producedBy, jsonPath) && CanonicalKeys(jsonPath)
    ensures Attribution(producedBy + Repeat(Some(f), n), AttributeRange(jsonPath, |producedBy|, n, f))
    ensures CanonicalKeys(AttributeRange(jsonPath, |producedBy|, n, f))
    decreases n
  {
    if n > 0 {
      AttributeRangeAttribution(producedBy, jsonPath, n - 1, f);
      var before := producedBy + Repeat(Some(f), n - 1);
      var m := AttributeRange(jsonPath, |producedBy|, n - 1, f);
      RepeatSnoc(producedBy, Some(f), n);
      AttributeRangeSnoc(jsonPath, |producedBy|, n, f);
      AttributionAppendTo(before, m, f, producedBy + Repeat(Some(f), n), AttributeRange(jsonPath, |producedBy|, n, f));
    }
  }

  lemma AttributionAppendTo(producedBy: seq<Option<string>>, jsonPath: map<string, string>, f: string,
                            next: seq<Option<string>>, nextPath: map<string, string>)
    requires Attribution(producedBy, jsonPath) && CanonicalKeys(jsonPath)
    requires next == producedBy + [Some(f)] && nextPath == jsonPath[NatToString(|producedBy|) := f]
    ensures Attribution(next, nextPath) && CanonicalKeys(nextPath)
  {
    AttributionAppend(producedBy, jsonPath, f);
  }

  lemma RepeatSnoc(p: seq<Option<string>>, x: Option<string>, n: nat)
    requires n > 0
    ensures |p + Repeat(x, n - 1)| == |p| + n - 1
    ensures p + Repeat(x, n) == (p + Repeat(x, n - 1)) + [x]
  {
    assert Repeat(x, n) == Repeat(x, n - 1) + [x];
  }

  lemma AttributeRangeSnoc(m: map<string, string>, from: nat, n: nat, f: string)
    requires n > 0
    ensures AttributeRange(m, from, n, f) == AttributeRange(m, from, n - 1, f)[NatToString(from + n - 1) := f]
  {
  }

  /** Version rows rendered with `%d` parse back to the same versions, in order. */
  lemma {:induction false} ParseRowsOfRendered(vs: seq<nat>, rows: seq<seq<string>>)
    requires |rows| == |vs|
    requires forall i :: 0 <= i < |vs| ==> vs[i] < Two64 && rows[i] != [] && rows[i][0] == NatToString(vs[i])
    ensures ParseRows(rows) == (vs, None)
    decreases |vs|
  {
    if vs != [] {
      ParseUintFormatRoundTrip(vs[0]);
      assert ParseUint10(rows[0][0]) == Some(vs[0]);
      forall i | 0 <= i < |vs[1..]|
        ensures vs[1..][i] < Two64 && rows[1..][i] != [] && rows[1..][i][0] == NatToString(vs[1..][i])
      {
        assert vs[1..][i] == vs[i + 1] && rows[1..][i] == rows[i + 1];
      }
      ParseRowsOfRendered(vs[1..], rows[1..]);
      assert vs == [vs[0]] + vs[1..];
    }
  }

  /** A header-only (or empty) result adds no version. */
  lemma HeaderOnlyAddsNothing(rows: seq<seq<string>>, index: seq<nat>)
    requires |rows| <= 1 && MI.Ascending(index)
    ensures MI.InsertAll(index, ParseRows(AfterHeader(rows)).0) == index
  {
  }

  /** When every data row parses, the index afterwards holds exactly the old versions and the rows'. */
  lemma ScannedVersions(index: seq<nat>, rows: seq<seq<string>>)
    requires MI.Ascending(index)
    requires ParseRows(rows).1.None?
    ensures |ParseRows(rows).0| == |rows|
    ensures forall x :: x in MI.InsertAll(index, ParseRows(rows).0) <==>
      x in index || exists i :: 0 <= i < |rows| && rows[i] != [] && ParseUint10(rows[i][0]) == Some(x)
  {
    ParseRowsComplete(rows);
    var vs := ParseRows(rows).0;
    MI.InsertAllContents(index, vs);
    forall x ensures x in vs <==> exists i :: 0 <= i < |rows| && rows[i] != [] && ParseUint10(rows[i][0]) == Some(x) {
      if x in vs { var i :| 0 <= i < |vs| && vs[i] == x; assert rows[i] != [] && ParseUint10(rows[i][0]) == Some(x); }
    }
  }

  /** Each parsed version is column 0 of the row at the same position. */
  lemma {:induction false} ParseRowsComplete(rows: seq<seq<string>>)
    ensures forall i :: 0 <= i < |ParseRows(rows).0| ==> rows[i] != [] && ParseUint10(rows[i][0]) == Some(ParseRows(rows).0[i])
    ensures ParseRows(rows).1.None? ==> |ParseRows(rows).0| == |rows|
    decreases |rows|
  {
    if rows != [] {
      ParseRowsComplete(rows[1..]);
    }
  }

  /** What catalog-state `RemoveVersion` keeps: the migrations of other versions, in order. */
  lemma {:induction false} WithoutContents(s: seq<Migration>, v: int)
    ensures forall m :: m in Without(s, v) <==> m in s && m.version != v
    decreases |s|
  {
    if s != [] {
      var n := |s| - 1;
      WithoutContents(s[..n], v);
      assert s == s[..n] + [s[n]];
    }
  }

  /** The pre-sized list leaves zero entries in front: removing from a list of two or more
      leaves a version-0 migration that was never recorded. */
  lemma RemovedAsWrittenHasZeroEntries(s: seq<Migration>, v: int)
    requires |s| >= 2
    ensures ZeroMigration in RemovedAsWritten(s, v)
    ensures |RemovedAsWritten(s, v)| == |s| - 1 + |Without(s, v)|
  {
    assert RemovedAsWritten(s, v)[0] == ZeroMigration;
  }
}
