/**
 * The driver's settings: a two-column `migration_settings` table (or, on servers with data
 * sources, a key of the catalog's CLI state), each setting falling back to a built-in default.
 * Every operation here sends at once; none touches the bulk of the current session.
 */
module Settings {
  import opened Wrappers
  import opened Wire
  import opened Exchanges
  import opened HasuraDb

  // ---------------------------------------------------------------------------------------
  // setDefaultSettings

  /** One INSERT per setting, holding its name and default, in the order of `settings`. */
  function DefaultSettingOps(table: string, settings: seq<Setting>): (ops: seq<Op>)
    ensures |ops| == |settings|
    ensures forall i :: 0 <= i < |settings| ==>
      ops[i] == Sql(InsertSettingSql(table, settings[i].name, settings[i].defaultValue))
  {
    seq(|settings|, i requires 0 <= i < |settings| => Sql(InsertSettingSql(table, settings[i].name, settings[i].defaultValue)))
  }

  /** The `set_catalog_state` call marking the CLI state as holding migrations. */
  const MarkerRequest: Request := Metadata(SetCatalogState, SetCli(MigrationsMarker))

  /** `setDefaultSettings`: without data sources, the defaults in one bulk (nothing at all when
      there are no settings); then, in both modes, the catalog-state marker. */
  function SetDefaultsExchange(table: string, settings: seq<Setting>, hasDataSources: bool, replies: seq<Reply>): (x: Exchange)
    ensures |x.sent| <= 2
    ensures x.sent != [] ==> x.sent[|x.sent| - 1] == MarkerRequest || x.err.Some?
  {
    if hasDataSources then Exchange([MarkerRequest], SendOutcome(NextReply(replies)))
    else
      var ops := DefaultSettingOps(table, settings);
      if |ops| == 0 then Exchange([], None)
      else
        var bulk := Bulk("bulk", ops);
        match SendOutcome(NextReply(replies))
        case Some(e) => Exchange([bulk], Some(e))
        case None => Exchange([bulk, MarkerRequest], SendOutcome(NextReply(RestReplies(replies))))
  }

  /** Performs `SetDefaultsExchange` for the driver's settings table and settings. */
  method SetDefaultSettings(h: HasuraDB, hasDataSources: bool) returns (err: Option<DbError>)
    modifies h.transport
    ensures var x := SetDefaultsExchange(h.settingsTable, h.settings, hasDataSources, old(h.transport.replies));
      && h.transport.sent == old(h.transport.sent) + x.sent
      && h.transport.replies == Consumed(old(h.transport.replies), |x.sent|)
      && err == x.err
  {
    if !hasDataSources {
      var ops: seq<Op> := [];
      var i := 0;
      while i < |h.settings|
        invariant 0 <= i <= |h.settings|
        invariant ops == DefaultSettingOps(h.settingsTable, h.settings[..i])
      {
        var setting := h.settings[i];
        assert h.settings[..i + 1] == h.settings[..i] + [setting];
        ops := ops + [Sql(InsertSettingSql(h.settingsTable, setting.name, setting.defaultValue))];
        i := i + 1;
      }
      assert h.settings[..i] == h.settings;
      if |ops| == 0 {
        return None;
      }
      var reply := h.transport.Send(Bulk("bulk", ops));
      err := SendOutcome(reply);
      if err.Some? {
        return;
      }
    }
    var reply := h.transport.Send(MarkerRequest);
    err := SendOutcome(reply);
  }

  // ---------------------------------------------------------------------------------------
  // ensureSettingsTable

  /** The keys of a fetched catalog state's `cli_state` object, if it has one. A body that is not
      JSON fails to decode; any other JSON object simply has no `cli_state`. */
  function CliStateKeys(b: Body): (r: Result<Option<set<string>>, DbError>)
    ensures r.Failure? <==> b.Garbage?
    ensures r.Success? && r.value.Some? ==> b.CatalogBody? && b.cliState == r.value
  {
    match b
    case Garbage => Failure(DecodeFailure)
    case CatalogBody(keys) => Success(keys)
    case _ => Success(None)
  }

  const GetStateRequest: Request := Metadata(GetCatalogState, NoArgs)

  /** The `set_catalog_state` call that adds the settings key to a fetched CLI state. */
  function SetSettingsKeyRequest(keys: set<string>): (r: Request)
    ensures r.Metadata? && r.action == SetCatalogState && r.args.SetCli? && r.args.state.FetchedStateWithKeys?
    ensures r.args.state.cliKeys == keys + {DefaultSettingsTable} && DefaultSettingsTable in r.args.state.cliKeys
  {
    Metadata(SetCatalogState, SetCli(FetchedStateWithKeys(keys + {DefaultSettingsTable})))
  }

  /** `ensureSettingsTable`. Without data sources: create the table unless it exists, and fill
      it with the defaults after creating it. With data sources: fetch the catalog state; when
      its `cli_state` lacks the migrations key, write it back with the settings key added (a
      transport failure of that write is wrapped around the earlier, nil, error and so becomes
      success without going on); then the defaults. */
  function EnsureSettingsExchange(table: string, settings: seq<Setting>, hasDataSources: bool, replies: seq<Reply>): (x: Exchange)
    ensures x.sent != []
  {
    if !hasDataSources then LegacySettingsExchange(table, settings, replies)
    else CatalogSettingsExchange(table, settings, replies)
  }

  /** The path without data sources. */
  function LegacySettingsExchange(table: string, settings: seq<Setting>, replies: seq<Reply>): (x: Exchange)
    ensures x.sent != []
  {
    var t := EnsureTableExchange(CountTableSql(table), CreateSettingsTableSql(table), replies);
    if Created(t) then Then(t, SetDefaultsExchange(table, settings, false, Consumed(replies, 2))) else t
  }

  /** The path with data sources. */
  function CatalogSettingsExchange(table: string, settings: seq<Setting>, replies: seq<Reply>): (x: Exchange)
    ensures x.sent != []
  {
    match NextReply(replies)
    case NoResponse(m) => Exchange([GetStateRequest], Some(TransportFailure(m)))
    case Http(s, b) =>
      if s != StatusOK then Exchange([GetStateRequest], Some(NewHasuraError(s, b)))
      else match CliStateKeys(b)
        case Failure(e) => Exchange([GetStateRequest], Some(e))
        case Success(keys) =>
          if keys.Some? && DefaultMigrationsTable !in keys.value then
            var write := SetSettingsKeyRequest(keys.value);
            match NextReply(RestReplies(replies))
            case NoResponse(_) => Exchange([GetStateRequest, write], None)
            case Http(s2, b2) =>
              if s2 != StatusOK then Exchange([GetStateRequest, write], Some(NewHasuraError(s2, b2)))
              else Then(Exchange([GetStateRequest, write], None), SetDefaultsExchange(table, settings, true, Consumed(replies, 2)))
          else Then(Exchange([GetStateRequest], None), SetDefaultsExchange(table, settings, true, RestReplies(replies)))
  }

  /** Performs `EnsureSettingsExchange` for the driver's settings table and settings. */
  method EnsureSettingsTable(h: HasuraDB, hasDataSources: bool) returns (err: Option<DbError>)
    modifies h.transport
    ensures var x := EnsureSettingsExchange(h.settingsTable, h.settings, hasDataSources, old(h.transport.replies));
      && h.transport.sent == old(h.transport.sent) + x.sent
      && h.transport.replies == Consumed(old(h.transport.replies), |x.sent|)
      && err == x.err
  {
    if !hasDataSources {
      err := EnsureSettingsTableLegacy(h);
      return;
    }
    err := EnsureSettingsTableCatalog(h);
  }

  /** The path of `ensureSettingsTable` without data sources. */
  method EnsureSettingsTableLegacy(h: HasuraDB) returns (err: Option<DbError>)
    modifies h.transport
    ensures var x := LegacySettingsExchange(h.settingsTable, h.settings, old(h.transport.replies));
      && h.transport.sent == old(h.transport.sent) + x.sent
      && h.transport.replies == Consumed(old(h.transport.replies), |x.sent|)
      && err == x.err
  {
    ghost var replies0 := h.transport.replies;
    ghost var sent0 := h.transport.sent;
    ghost var t := EnsureTableExchange(CountTableSql(h.settingsTable), CreateSettingsTableSql(h.settingsTable), replies0);
    var created;
    err, created := EnsureTable(h.transport, CountTableSql(h.settingsTable), CreateSettingsTableSql(h.settingsTable));
    if !created {
      assert LegacySettingsExchange(h.settingsTable, h.settings, replies0) == t;
      return;
    }
    ghost var sent1 := h.transport.sent;
    assert sent1 == sent0 + t.sent && |t.sent| == 2;
    err := SetDefaultSettings(h, false);
    ghost var d := SetDefaultsExchange(h.settingsTable, h.settings, false, Consumed(replies0, 2));
    assert LegacySettingsExchange(h.settingsTable, h.settings, replies0) == Then(t, d);
    ConsumedTwice(replies0, 2, |d.sent|);
    assert h.transport.sent == sent0 + (t.sent + d.sent);
  }

  /** The path of `ensureSettingsTable` with data sources. */
  method EnsureSettingsTableCatalog(h: HasuraDB) returns (err: Option<DbError>)
    modifies h.transport
    ensures var x := CatalogSettingsExchange(h.settingsTable, h.settings, old(h.transport.replies));
      && h.transport.sent == old(h.transport.sent) + x.sent
      && h.transport.replies == Consumed(old(h.transport.replies), |x.sent|)
      && err == x.err
  {
    ghost var replies0 := h.transport.replies;
    var reply := h.transport.Send(GetStateRequest);
    if reply.NoResponse? {
      return Some(TransportFailure(reply.reason));
    }
    if reply.status != StatusOK {
      return Some(NewHasuraError(reply.status, reply.body));
    }
    var keys := CliStateKeys(reply.body);
    if keys.Failure? {
      return Some(keys.error);
    }
    var toSetKey := keys.value.Some? && DefaultMigrationsTable !in keys.value.value;
    var setCount := 1;
    if toSetKey {
      var setReply := h.transport.Send(SetSettingsKeyRequest(keys.value.value));
      if setReply.NoResponse? {
        return None;
      }
      if setReply.status != StatusOK {
        return Some(NewHasuraError(setReply.status, setReply.body));
      }
      setCount := 2;
    }
    err := SetDefaultSettings(h, true);
    ConsumedTwice(replies0, setCount, 1);
  }

  // ---------------------------------------------------------------------------------------
  // GetSetting and UpdateSetting

  /** The default of the first setting named `name`, if any. */
  function DefaultFor(settings: seq<Setting>, name: string): (r: Option<string>)
    ensures r.None? <==> forall i :: 0 <= i < |settings| ==> settings[i].name != name
    ensures r.Some? ==> (exists i :: 0 <= i < |settings| && settings[i].name == name &&
                                    r.value == settings[i].defaultValue && (forall j :: 0 <= j < i ==> settings[j].name != name))
    decreases |settings|
  {
    if settings == [] then None
    else if settings[0].name == name then Some(settings[0].defaultValue)
    else DefaultFor(settings[1..], name)
  }

  /** What `GetSetting` returns for the reply to its SELECT: the stored value when the result
      has a data row, otherwise the built-in default, or an error for an unknown name. */
  function SettingValue(settings: seq<Setting>, name: string, reply: Reply): (r: Result<string, DbError>)
    ensures r.Success? ==> reply.Http? && reply.status == StatusOK && reply.body.SqlRes? && reply.body.resultType == TuplesOK
    ensures reply.NoResponse? ==> r == Failure(TransportFailure(reply.reason))
    ensures reply.Http? && reply.status == StatusOK && reply.body.SqlRes? && reply.body.resultType != TuplesOK ==>
      r == Failure(InvalidResultType(reply.body.resultType))
    ensures reply.Http? && reply.status == StatusOK && reply.body.SqlRes? && reply.body.resultType == TuplesOK ==>
      var rows := reply.body.result;
      && (|rows| < 2 && DefaultFor(settings, name).None? ==> r == Failure(InvalidSetting(name)))
      && (|rows| < 2 && DefaultFor(settings, name).Some? ==> r == Success(DefaultFor(settings, name).value))
      && (|rows| >= 2 && rows[1] != [] ==> r == Success(rows[1][0]))
      && (|rows| >= 2 && rows[1] == [] ==> r == Failure(Panic("index out of range")))
  {
    match SqlOutcome(reply, TuplesOK)
    case Failure(e) => Failure(e)
    case Success(rows) =>
      if |rows| < 2 then
        match DefaultFor(settings, name)
        case Some(v) => Success(v)
        case None => Failure(InvalidSetting(name))
      else if rows[1] == [] then Failure(Panic("index out of range"))
      else Success(rows[1][0])
  }

  method GetSetting(h: HasuraDB, name: string) returns (r: Result<string, DbError>)
    modifies h.transport
    ensures h.transport.sent == old(h.transport.sent) + [Query(Sql(SelectSettingSql(h.settingsTable, name)))]
    ensures h.transport.replies == RestReplies(old(h.transport.replies))
    ensures r == SettingValue(h.settings, name, NextReply(old(h.transport.replies)))
  {
    var reply := h.transport.Send(Query(Sql(SelectSettingSql(h.settingsTable, name))));
    var q := SqlOutcome(reply, TuplesOK);
    if q.Failure? {
      return Failure(q.error);
    }
    var rows := q.value;
    if |rows| < 2 {
      var i := 0;
      while i < |h.settings|
        invariant 0 <= i <= |h.settings|
        invariant DefaultFor(h.settings, name) == DefaultFor(h.settings[i..], name)
      {
        assert h.settings[i..][1..] == h.settings[i + 1..];
        if h.settings[i].name == name {
          return Success(h.settings[i].defaultValue);
        }
        i := i + 1;
      }
      return Failure(InvalidSetting(name));
    }
    if |rows[1]| == 0 {
      return Failure(Panic("index out of range"));
    }
    r := Success(rows[1][0]);
  }

  /** `UpdateSetting`'s result: anything but a `CommandOk` result is a failure. */
  function UpdateOutcome(reply: Reply, name: string, value: string): (e: Option<DbError>)
    ensures e.None? <==> IsCommandOk(reply)
  {
    match SqlOutcome(reply, CommandOK)
    case Success(_) => None
    case Failure(InvalidResultType(_)) => Some(CannotSetSetting(name, value))
    case Failure(e) => Some(e)
  }

  method UpdateSetting(h: HasuraDB, name: string, value: string) returns (err: Option<DbError>)
    modifies h.transport
    ensures h.transport.sent == old(h.transport.sent) + [Query(Sql(UpsertSettingSql(h.settingsTable, name, value)))]
    ensures h.transport.replies == RestReplies(old(h.transport.replies))
    ensures err == UpdateOutcome(NextReply(old(h.transport.replies)), name, value)
  {
    var reply := h.transport.Send(Query(Sql(UpsertSettingSql(h.settingsTable, name, value))));
    err := UpdateOutcome(reply, name, value);
  }

  // ---------------------------------------------------------------------------------------
  // Properties

  /** Without data sources and without settings, nothing is sent, not even the marker. */
  lemma NoSettingsSendsNothing(table: string, replies: seq<Reply>)
    ensures SetDefaultsExchange(table, [], false, replies) == Exchange([], None)
  {
  }

  /** Without data sources the defaults go first, in one bulk, one INSERT per setting in order,
      and the marker is written only once that bulk succeeded. */
  lemma DefaultsPrecedeMarker(table: string, settings: seq<Setting>, replies: seq<Reply>)
    requires settings != []
    ensures var x := SetDefaultsExchange(table, settings, false, replies);
      && x.sent[0] == Bulk("bulk", DefaultSettingOps(table, settings))
      && (|x.sent| == 2 <==> NextReply(replies).Http? && NextReply(replies).status == StatusOK)
  {
  }

  /** An existing settings table is left alone: no creation and no defaults. */
  lemma ExistingSettingsTableKept(table: string, settings: seq<Setting>, replies: seq<Reply>)
    requires CountReads(NextReply(replies), false)
    ensures EnsureSettingsExchange(table, settings, false, replies) == Exchange([Query(Sql(CountTableSql(table)))], None)
  {
    ExistingTableIsKept(CountTableSql(table), CreateSettingsTableSql(table), replies);
  }

  /** After creating the settings table, the defaults are written as `setDefaultSettings(false)`. */
  lemma CreatedSettingsTableGetsDefaults(table: string, settings: seq<Setting>, replies: seq<Reply>)
    requires CountReads(NextReply(replies), true) && IsCommandOk(NextReply(RestReplies(replies)))
    ensures EnsureSettingsExchange(table, settings, false, replies).sent ==
      [Query(Sql(CountTableSql(table))), Query(Sql(CreateSettingsTableSql(table)))] +
      SetDefaultsExchange(table, settings, false, Consumed(replies, 2)).sent
    ensures EnsureSettingsExchange(table, settings, false, replies).err ==
      SetDefaultsExchange(table, settings, false, Consumed(replies, 2)).err
  {
    EnsureTableSucceedsIff(CountTableSql(table), CreateSettingsTableSql(table), replies);
    CreatesOnlyWhenCountIsZero(CountTableSql(table), CreateSettingsTableSql(table), replies);
  }

  /** The presence test looks for the migrations key, not the settings key: a CLI state that has
      `schema_migrations` but no `migration_settings` is never given the settings key. */
  lemma SettingsKeyNotAddedWhenMigrationsKeyPresent(table: string, settings: seq<Setting>, replies: seq<Reply>, keys: set<string>)
    requires NextReply(replies) == Http(StatusOK, CatalogBody(Some(keys)))
    requires DefaultMigrationsTable in keys && DefaultSettingsTable !in keys
    ensures EnsureSettingsExchange(table, settings, true, replies).sent == [GetStateRequest, MarkerRequest]
  {
  }

  /** A failed write of the settings key is reported as success, and the defaults are never written. */
  lemma DroppedSettingsKeyWriteFailure(table: string, settings: seq<Setting>, replies: seq<Reply>, keys: set<string>)
    requires NextReply(replies) == Http(StatusOK, CatalogBody(Some(keys)))
    requires DefaultMigrationsTable !in keys
    requires NextReply(RestReplies(replies)).NoResponse?
    ensures EnsureSettingsExchange(table, settings, true, replies) == Exchange([GetStateRequest, SetSettingsKeyRequest(keys)], None)
  {
  }

  /** A stored row wins over the default. */
  lemma StoredSettingWins(settings: seq<Setting>, name: string, rows: seq<seq<string>>)
    requires |rows| >= 2 && rows[1] != []
    ensures SettingValue(settings, name, Http(StatusOK, SqlRes(TuplesOK, rows))) == Success(rows[1][0])
  {
  }

  /** Without a stored row, the value is the default of the first setting of that name. */
  lemma MissingSettingFallsBack(settings: seq<Setting>, name: string, rows: seq<seq<string>>, k: nat)
    requires |rows| < 2
    requires k < |settings| && settings[k].name == name
    requires forall j :: 0 <= j < k ==> settings[j].name != name
    ensures SettingValue(settings, name, Http(StatusOK, SqlRes(TuplesOK, rows))) == Success(settings[k].defaultValue)
  {
    var r := DefaultFor(settings, name);
    var i :| 0 <= i < |settings| && settings[i].name == name && r.value == settings[i].defaultValue &&
             (forall j :: 0 <= j < i ==> settings[j].name != name);
    assert i == k;
  }

  /** Without a stored row, a name no setting carries is an error naming it. */
  lemma UnknownSettingIsError(settings: seq<Setting>, name: string, rows: seq<seq<string>>)
    requires |rows| < 2
    requires forall j :: 0 <= j < |settings| ==> settings[j].name != name
    ensures SettingValue(settings, name, Http(StatusOK, SqlRes(TuplesOK, rows))) == Failure(InvalidSetting(name))
  {
  }
}
