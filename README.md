# Hasura CLI migration driver, in Dafny

This project models the core of the Hasura CLI's migration driver for the Hasura GraphQL
engine, plus a few small pieces around it. It proves properties of that model.

The driver (`HasuraDB`) collects the operations of a migration run into one *bulk* request:
- `Lock` opens a session.
- `Run` appends a `run_sql` operation for every non-empty SQL file, and one operation per
  entry of a YAML metadata file. It records which file produced each operation index in
  `jsonPath`.
- `UnLock` sends the bulk. When the server's error path names `$.args[N]`, it reports the
  file that produced operation N.

Applied versions live in a sorted index. That index is filled from a `SELECT version, dirty`
result by parsing column 0 of every row after the header. Version bookkeeping takes one of two
forms:
- It appends `INSERT`/`DELETE`/upsert SQL to the same bulk (the legacy SQL state store).
- On servers with data sources, it rewrites the cached catalog-state list of migrations and
  writes it back at once.

Settings live in a two-column table with built-in defaults.

Around the driver the model covers:
- the request-payload builders for `v2/query` and `v1/metadata`;
- the CLI configuration's `version` flag;
- the v1 client and the seed provider, which derive endpoints and headers from a URL;
- the seed applier, which sends every `.sql` file of a directory as one bulk;
- the console's Actions reducer and lookup helpers.

HTTP is an oracle: `Wire.Transport` records every request in order and answers each one with
the next scripted reply. A reply is either a transport failure or a status code and a decoded
body. A sequence of dependent sends is specified as a pure `Exchange`: the requests sent and
the error returned, as a function of the replies. The methods that perform it are proved to
append exactly those requests and to return that error. Go panics (a nil-response dereference,
an index out of range, `make` with a negative length) are the error value `Panic`. URL parsing
and YAML decoding happen before the modelled code runs, so the parsed URL and the decoded list
are inputs, with `None` for a failure.

The SQL of a `run_sql` operation is a `Wire.Statement`. It is either the text of a migration
or seed file, kept verbatim, or one of the bookkeeping statements the driver writes itself
(count, create, select, insert, upsert, delete), kept by its table, version, setting name and
value. `Wire.Render` gives the exact text sent for each statement. The injectivity lemmas show
that this text determines the version and dirty flag it records.

## Model


| member | source | states |
|---|---|---|
| HasuraDb.HasuraDB.constructor | cli/migrate/database/hasuradb/hasuradb.go:164-171 | every field at the value `WithInstance` gives it: unlocked, no operations, an empty index, and `jsonPath` not yet made |
| HasuraDb.HasuraDB.Lock | cli/migrate/database/hasuradb/hasuradb.go:268-280 | while locked: `ErrLocked` and no field changes; otherwise an empty `bulk`, a newly made empty `jsonPath`, locked; the attribution invariant is kept |
| HasuraDb.HasuraDB.UnLock | cli/migrate/database/hasuradb/hasuradb.go:282-340 | unlocked or empty bulk: nil and nothing sent; otherwise exactly one send of the bulk and the error `UnlockError` gives; always ends unlocked with the bulk and `jsonPath` kept |
| HasuraDb.UnlockError | cli/migrate/database/hasuradb/hasuradb.go:295-339 | nil exactly for a 200 reply; a transport failure is returned as is |
| HasuraDb.Attributed | cli/migrate/database/hasuradb/hasuradb.go:322-332 | the file is `jsonPath[N]` for the first captured index N exactly when that key exists, and none otherwise |
| HasuraDb.DigitRun | cli/migrate/database/hasuradb/hasuradb.go:322 | the greedy `[0-9]+`: the longest all-digit prefix, followed by a non-digit or the end |
| HasuraDb.FirstArgsIndex | cli/migrate/database/hasuradb/hasuradb.go:322-328 | a captured index is a non-empty run of digits |
| HasuraDb.ArgsIndex | cli/migrate/database/hasuradb/hasuradb.go:322-326 | none exactly when `$.args[N]` matches nowhere in the path; otherwise a non-empty run of digits |
| HasuraDb.FirstArgsIndexNoneIff | cli/migrate/database/hasuradb/hasuradb.go:322-326 | the search from a position finds nothing exactly when the pattern matches nowhere from there on |
| HasuraDb.FirstArgsIndexIsLeftmost | cli/migrate/database/hasuradb/hasuradb.go:322-326 | the captured digits are the greedy run after the leftmost match |
| HasuraDb.ArgsIndexOfPath | cli/migrate/database/hasuradb/hasuradb.go:322-328 | any path `$?args[N]...` (any character but newline at `?`) captures exactly N |
| HasuraDb.FailedOperationAttributed | cli/migrate/database/hasuradb/hasuradb.go:322-332 | an error at `$.args[k]` on an operation a file produced is attributed to that file |
| HasuraDb.UnlockReportsFailingFile | cli/migrate/database/hasuradb/hasuradb.go:300-335 | a non-200 error naming operation k is returned as the server error carrying operation k's file |
| HasuraDb.LeadingZeroIndexNeverAttributed | cli/migrate/database/hasuradb/hasuradb.go:322-331 | an index written with a leading zero never finds a `%d` key, so no file is reported |
| HasuraDb.UnescapedDotMatchesAnyCharacter | cli/migrate/database/hasuradb/hasuradb.go:322 | `$xargs[N]` is captured too, because the '.' is unescaped |
| HasuraDb.HasuraDB.Run | cli/migrate/database/hasuradb/hasuradb.go:342-379 | a read failure or an empty SQL body changes nothing; SQL appends one `run_sql` attributed to the file; metadata appends the decoded entries in order, each attributed; a decode failure empties the bulk but keeps `jsonPath`; before the first `Lock` the first append panics on the nil map, after the operation is appended |
| HasuraDb.HasuraDB.AppendSql | cli/migrate/database/hasuradb/hasuradb.go:349-364 | one `run_sql` (with the consistency flag when enabled) appended, and its index's `%d` key mapped to the file; a nil-map panic when `jsonPath` was never made |
| HasuraDb.HasuraDB.AppendEntries | cli/migrate/database/hasuradb/hasuradb.go:373-376 | the entries appended in order, and each new index mapped to the file; when `jsonPath` was never made, only the first entry is appended and the write panics |
| HasuraDb.AppendEntryOps | cli/migrate/database/hasuradb/hasuradb.go:373-376 | the loop over the decoded entries: every entry appended in order, and each new index's `%d` key mapped to the file |
| HasuraDb.AttributeRangeAttribution | cli/migrate/database/hasuradb/hasuradb.go:373-376 | attributing a run of new indexes to one file keeps every earlier attribution, records the new ones, and keeps the keys canonical |
| HasuraDb.HasuraDB.AppendAttributed | cli/migrate/database/hasuradb/hasuradb.go:363-364 | one operation appended, its index's `%d` key mapped to the file, and the attribution invariant kept; a nil-map panic, with the operation appended and `jsonPath` unchanged, when it was never made |
| HasuraDb.EntriesOf | cli/migrate/database/hasuradb/hasuradb.go:373-374 | one operation per decoded entry, same order |
| HasuraDb.AttributionAppend | cli/migrate/database/hasuradb/hasuradb.go:363-364 | attributing the next index keeps every earlier attribution and keeps the keys canonical |
| HasuraDb.AttributeRangeLookup | cli/migrate/database/hasuradb/hasuradb.go:373-376 | after a metadata file, the indices it produced map to it and every other key is unchanged |
| HasuraDb.NatToStringInjective | cli/migrate/database/hasuradb/hasuradb.go:364 | distinct indices get distinct `%d` keys |
| HasuraDb.HasuraDB.ResetQuery | cli/migrate/database/hasuradb/hasuradb.go:381-383 | empties the bulk and keeps `jsonPath` |
| HasuraDb.HasuraDB.AppendUnattributed | cli/migrate/database/hasuradb/hasuradb.go:393 | appends one operation no file produced, sends nothing, keeps `jsonPath` |
| HasuraDb.AttributionAppendNone | cli/migrate/database/hasuradb/hasuradb.go:393 | bookkeeping operations leave the other operations' attribution intact |
| HasuraDb.HasuraDB.InsertVersion | cli/migrate/database/hasuradb/hasuradb.go:385-430 | legacy: one `INSERT ... VALUES (v, false)` appended, nothing sent, nil; catalog: the cached list extended by v and written back once, a dropped transport error becoming a panic |
| HasuraDb.HasuraDB.RemoveVersion | cli/migrate/database/hasuradb/hasuradb.go:432-481 | legacy: one `DELETE ... WHERE version = v` appended, nothing sent; catalog: a panic on an empty list, otherwise the list rebuilt as written and written back once |
| HasuraDb.RemoveFromCatalog | cli/migrate/database/hasuradb/hasuradb.go:447-452 | the rebuilt list is len-1 zero entries followed by every migration of another version, in order |
| HasuraDb.CatalogWriteOutcome | cli/migrate/database/hasuradb/hasuradb.go:419-429 | nil exactly for a 200 reply; a missing response is a panic |
| HasuraDb.Without | cli/migrate/database/hasuradb/hasuradb.go:448-452 | no kept migration has the removed version, none is added, and nothing is dropped when no migration has it |
| HasuraDb.RemovedAsWritten | cli/migrate/database/hasuradb/hasuradb.go:447-452 | len-1 zero entries, then only migrations of other versions; the old list unchanged after them when no migration has the version |
| HasuraDb.WithoutContents | cli/migrate/database/hasuradb/hasuradb.go:448-452 | the kept migrations are exactly those of other versions |
| HasuraDb.RemovedAsWrittenHasZeroEntries | cli/migrate/database/hasuradb/hasuradb.go:447-452 | from two entries up, the rebuilt list holds a zero-valued migration and is len-1 entries longer than the kept ones |
| HasuraDb.HasuraDB.GetVersions | cli/migrate/database/hasuradb/hasuradb.go:484-532 | one `SELECT` sent; on a `TuplesOk` reply the index gains column 0 of each row after the header, in order, up to the first bad row, whose error is returned |
| HasuraDb.HasuraDB.AppendVersionRows | cli/migrate/database/hasuradb/hasuradb.go:518-529 | the index after the loop is the old one with the parsed versions appended in order; the error is the first bad row's |
| HasuraDb.ParseRows | cli/migrate/database/hasuradb/hasuradb.go:518-529 | every parsed version is the value of its row's column 0; without an error every row is parsed; an error names the first row that fails: an empty row panics, a bad cell is a parse failure |
| HasuraDb.ParseRowsComplete | cli/migrate/database/hasuradb/hasuradb.go:518-529 | each parsed version is column 0 of the row at the same position, and without an error every row was parsed |
| HasuraDb.ParseRowsOfRendered | cli/migrate/database/hasuradb/hasuradb.go:523 | rows holding `%d` texts of uint64 versions parse back to exactly those versions |
| HasuraDb.HeaderOnlyAddsNothing | cli/migrate/database/hasuradb/hasuradb.go:514-516 | a header-only or empty result leaves the index as it was |
| HasuraDb.ScannedVersions | cli/migrate/database/hasuradb/hasuradb.go:518-529 | when every row parses, the index holds exactly the old versions and the rows' versions |
| HasuraDb.HasuraDB.Scan | cli/migrate/database/hasuradb/hasuradb.go:263-266 | a fresh index filled as `getVersions` fills it; one reply consumed and every other field unchanged |
| HasuraDb.HasuraDB.Version | cli/migrate/database/hasuradb/hasuradb.go:534-541 | `NilVersion` on an empty index, else the last version as int64; never dirty, never an error; below 2^63 it is the largest version |
| HasuraDb.ToInt64 | cli/migrate/database/hasuradb/hasuradb.go:540 | the int64 conversion is the identity below 2^63 and stays in int64 range |
| HasuraDb.HasuraDB.First | cli/migrate/database/hasuradb/hasuradb.go:760-762 | the smallest version, or none on an empty index |
| HasuraDb.HasuraDB.Last | cli/migrate/database/hasuradb/hasuradb.go:764-766 | the largest version, or none on an empty index |
| HasuraDb.HasuraDB.Prev | cli/migrate/database/hasuradb/hasuradb.go:768-770 | the largest version below v, found only for an indexed v that is not the first |
| HasuraDb.HasuraDB.Next | cli/migrate/database/hasuradb/hasuradb.go:772-774 | the smallest version above v, found only for an indexed v that is not the last |
| HasuraDb.HasuraDB.Read | cli/migrate/database/hasuradb/hasuradb.go:776-778 | true exactly for an indexed version |
| HasuraDb.Open | cli/migrate/database/hasuradb/hasuradb.go:188-256 | a parse failure is an error; otherwise the four endpoints share the `sslmode` scheme and host and join the base path with their own query parameter, and the headers are those of the `headers` parameters |
| MigrationsIndex.Insert | cli/migrate/database/hasuradb/hasuradb.go:528 | the index stays ascending and holds exactly the old versions and v |
| MigrationsIndex.InsertAll | cli/migrate/database/hasuradb/hasuradb.go:518-529 | appending a list keeps the index ascending |
| MigrationsIndex.InsertAllContents | cli/migrate/database/hasuradb/hasuradb.go:518-529 | afterwards the index holds exactly the old versions and the list's |
| MigrationsIndex.InsertThenRead | cli/migrate/database/hasuradb/hasuradb.go:528 | an appended version reads back, and one above the old last becomes the last |
| MigrationsIndex.First | cli/migrate/database/hasuradb/hasuradb.go:760-762 | the smallest element, none exactly when empty |
| MigrationsIndex.Last | cli/migrate/database/hasuradb/hasuradb.go:764-766 | the largest element, none exactly when empty |
| MigrationsIndex.Prev | cli/migrate/database/hasuradb/hasuradb.go:768-770 | the predecessor, found exactly when v is indexed and not the first |
| MigrationsIndex.Next | cli/migrate/database/hasuradb/hasuradb.go:772-774 | the successor, found exactly when v is indexed and not the last |
| MigrationsIndex.Read | cli/migrate/database/hasuradb/hasuradb.go:776-778 | membership |
| Decimal.ParseUint10 | cli/migrate/database/hasuradb/hasuradb.go:523 | a parsed version is a non-empty digit string with a value below 2^64 |
| Decimal.ParseUintFormatRoundTrip | cli/migrate/database/hasuradb/hasuradb.go:523 | every uint64 written in decimal parses back to itself |
| Decimal.DigitsValueOfNatToString | cli/migrate/database/hasuradb/hasuradb.go:364 | `%d` text read back in base 10 is the number |
| Decimal.NatToStringShape | cli/migrate/database/hasuradb/hasuradb.go:364 | `%d` text is non-empty digits with no leading zero |
| Decimal.LeadingZeroIsNotCanonical | cli/migrate/database/hasuradb/hasuradb.go:328 | a text with a leading zero before more digits is never a `%d` rendering |
| Decimal.ParseInt0 | cli/internal/config/version.go:29 | a parsed value lies in int64 range, and the empty text is a syntax error |
| Decimal.ScanDigits | cli/internal/config/version.go:29 | a completed digit loop yields a value below 2^64 |
| Decimal.ScanDigitsAgrees | cli/internal/config/version.go:29 | below 2^64 the digit loop computes the value of the digits |
| Decimal.ParseIntFormatRoundTrip | cli/internal/config/version.go:29 | every int64 written by `FormatInt` parses back to itself |
| Decimal.IntToStringInjective | cli/migrate/database/hasuradb/migration_state_sql.go:28 | `FormatInt` text determines the number |
| Decimal.IntToStringChars | cli/migrate/database/hasuradb/migration_state_sql.go:28 | `FormatInt` writes digits and at most a leading minus sign |
| Decimal.BasePrefix | cli/internal/config/version.go:29 | the base chosen from the prefix is between 2 and 16 |
| Decimal.DigitOf | cli/internal/config/version.go:29 | a digit's value is below 16, and '0'..'9' have their decimal value |
| Wire.SqlOutcome | cli/migrate/database/hasuradb/hasuradb.go:494-512 | rows only for a 200 reply with a JSON body; for a `run_sql` result, rows exactly when its result type is the expected one, and then its rows; a transport failure is returned as is |
| Wire.SendOutcome | cli/migrate/database/hasuradb/settings.go:149-156 | nil exactly for a 200 reply |
| Wire.DecodeSqlRes | cli/migrate/database/hasuradb/hasuradb.go:504-508 | into a freshly declared result: every JSON body decodes, non-JSON does not; a `run_sql` result decodes to its type and rows, any other JSON object to an empty type and no rows |
| Wire.DecodeSqlResInto | cli/migrate/database/hasuradb/migration_state_sql.go:111-114 | into a result that already holds values: a `run_sql` result replaces both fields, any other JSON object leaves them as they were, non-JSON does not decode |
| Wire.NewHasuraError | cli/migrate/database/hasuradb/hasuradb.go:501 | a server error object becomes a `HasuraError` with its path and no file |
| Wire.Render | cli/migrate/database/hasuradb/hasuradb.go:354-356 | a SQL text given by a migration or seed file is sent unchanged |
| Wire.RenderStartsWithKeyword | cli/migrate/database/hasuradb/migration_state_sql.go:28-52 | every statement the driver writes starts with its command: SELECT, INSERT INTO, DELETE FROM or CREATE TABLE |
| Wire.InsertVersionSqlInjective | cli/migrate/database/hasuradb/migration_state_sql.go:28 | the appended INSERT determines its version |
| Wire.SetVersionSqlInjective | cli/migrate/database/hasuradb/migration_state_sql.go:40 | the appended upsert determines its version and dirty flag |
| Wire.DeleteVersionSqlInjective | cli/migrate/database/hasuradb/migration_state_sql.go:52 | the appended DELETE determines its version |
| Exchanges.EnsureTableExchange | cli/migrate/database/hasuradb/migration_state_sql.go:59-121 | the count query is sent first, and the CREATE second when it is sent at all |
| Exchanges.EnsureTable | cli/migrate/database/hasuradb/migration_state_sql.go:59-121 | sends exactly the exchange's requests, consumes one reply each, returns its error |
| Exchanges.CountSaysExists | cli/migrate/database/hasuradb/migration_state_sql.go:90 | reading a missing row or cell panics |
| Exchanges.CreateOutcome | cli/migrate/database/hasuradb/migration_state_sql.go:102-118 | the CREATE reply is decoded into the count's result: nil exactly for a `CommandOk` reply, or for a JSON reply without a result type when the earlier type was `CommandOk`; otherwise "creating failed" with the reply's result type, or with the earlier one when the reply has none; a non-200 status or a transport failure is returned as is |
| Exchanges.CreatesOnlyWhenCountIsZero | cli/migrate/database/hasuradb/migration_state_sql.go:86-100 | the CREATE is sent exactly when the count reads "0" |
| Exchanges.ExistingTableIsKept | cli/migrate/database/hasuradb/migration_state_sql.go:90-92 | a non-zero count sends nothing more and returns nil |
| Exchanges.CreateReplyWithoutResultTypeReportsCountType | cli/migrate/database/hasuradb/migration_state_sql.go:79-118 | after a count of "0", a 200 CREATE reply that is JSON but not a `run_sql` result fails as "creating failed" with the count's `TuplesOk` |
| Exchanges.EnsureTableSucceedsIff | cli/migrate/database/hasuradb/migration_state_sql.go:86-118 | success exactly when the table exists, or it did not and the CREATE came back `CommandOk` |
| MigrationStateSql.MigrationStateWithSQL.InsertVersion | cli/migrate/database/hasuradb/migration_state_sql.go:24-33 | one `INSERT ... VALUES (v, false)` appended to the driver's bulk and attributed to no file; `jsonPath`, whether it is made, and every other field unchanged; nil |
| MigrationStateSql.MigrationStateWithSQL.SetVersion | cli/migrate/database/hasuradb/migration_state_sql.go:35-46 | one upsert, attributed to no file, appended exactly when `v >= 0` or (`v == NilVersion` and dirty); otherwise no change; `jsonPath` and whether it is made kept either way |
| MigrationStateSql.MigrationStateWithSQL.RemoveVersion | cli/migrate/database/hasuradb/migration_state_sql.go:48-57 | one `DELETE ... WHERE version = v` appended and attributed to no file; `jsonPath` and whether it is made unchanged; nil |
| MigrationStateSql.MigrationStateWithSQL.PrepareMigrationsStateStore | cli/migrate/database/hasuradb/migration_state_sql.go:59-121 | performs the count-then-create exchange for the version table |
| MigrationStateSql.MigrationStateWithSQL.GetVersions | cli/migrate/database/hasuradb/migration_state_sql.go:123-170 | as the driver's `getVersions`: header skipped, versions appended in row order, a non-`TuplesOk` result an error; the bulk, `jsonPath` and its attributions unchanged |
| MigrationStateSql.MigrationStateWithSQL.constructor | cli/migrate/database/hasuradb/migration_state_sql.go:19-23 | the store wraps the given driver |
| Settings.DefaultSettingOps | cli/migrate/database/hasuradb/settings.go:135-143 | one INSERT per setting, holding its name and default, in `settings` order |
| Settings.SetDefaultsExchange | cli/migrate/database/hasuradb/settings.go:129-182 | at most two sends, the marker last unless an error stopped first |
| Settings.SetDefaultSettings | cli/migrate/database/hasuradb/settings.go:129-182 | sends exactly the exchange's requests and returns its error |
| Settings.NoSettingsSendsNothing | cli/migrate/database/hasuradb/settings.go:145-147 | legacy mode with no settings sends nothing, not even the marker |
| Settings.DefaultsPrecedeMarker | cli/migrate/database/hasuradb/settings.go:131-171 | the defaults bulk goes first, and the marker follows exactly when it got a 200 |
| Settings.SetSettingsKeyRequest | cli/migrate/database/hasuradb/settings.go:103-112 | a `cli`-type `set_catalog_state` carrying the fetched catalog state, whose `cli_state` keys gain the settings key |
| Settings.CliStateKeys | cli/migrate/database/hasuradb/settings.go:91-99 | a non-JSON body is an error; the keys come from the fetched `cli_state` |
| Settings.EnsureSettingsExchange | cli/migrate/database/hasuradb/settings.go:15-127 | at least one request is always sent |
| Settings.LegacySettingsExchange | cli/migrate/database/hasuradb/settings.go:17-79 | without data sources: always at least one request |
| Settings.CatalogSettingsExchange | cli/migrate/database/hasuradb/settings.go:81-126 | with data sources: always at least one request |
| Settings.EnsureSettingsTable | cli/migrate/database/hasuradb/settings.go:15-127 | sends exactly the exchange's requests and returns its error |
| Settings.EnsureSettingsTableLegacy | cli/migrate/database/hasuradb/settings.go:17-79 | sends exactly the requests of the path without data sources and returns its error |
| Settings.EnsureSettingsTableCatalog | cli/migrate/database/hasuradb/settings.go:81-126 | sends exactly the requests of the catalog-state path and returns its error |
| Settings.ExistingSettingsTableKept | cli/migrate/database/hasuradb/settings.go:48-50 | a non-zero count: no creation, no defaults, nil |
| Settings.CreatedSettingsTableGetsDefaults | cli/migrate/database/hasuradb/settings.go:53-78 | after a successful CREATE, the defaults are written as `setDefaultSettings(false)` writes them, and its error is returned |
| Settings.SettingsKeyNotAddedWhenMigrationsKeyPresent | cli/migrate/database/hasuradb/settings.go:99-107 | the test reads the migrations key: a state with it but without the settings key only gets the marker |
| Settings.DroppedSettingsKeyWriteFailure | cli/migrate/database/hasuradb/settings.go:115-119 | a transport failure writing the settings key returns nil and skips the defaults |
| Settings.DefaultFor | cli/migrate/database/hasuradb/settings.go:216-221 | the default of the first setting with that name; none exactly when no setting has it |
| Settings.SettingValue | cli/migrate/database/hasuradb/settings.go:194-224 | a value only from a 200 `TuplesOk` reply; a transport failure and another result type are errors; without a data row, the default, or `ErrInvalidSetting` for an unknown name; a data row without a cell panics; otherwise the row's cell |
| Settings.GetSetting | cli/migrate/database/hasuradb/settings.go:185-225 | one SELECT sent, and the result `SettingValue` gives for its reply |
| Settings.StoredSettingWins | cli/migrate/database/hasuradb/settings.go:224 | a data row's cell wins over the default |
| Settings.UnknownSettingIsError | cli/migrate/database/hasuradb/settings.go:215-222 | without a data row, a name no setting has is `ErrInvalidSetting` |
| Settings.MissingSettingFallsBack | cli/migrate/database/hasuradb/settings.go:215-222 | without a data row, the default of the first setting of that name |
| Settings.UpdateOutcome | cli/migrate/database/hasuradb/settings.go:237-257 | nil exactly for a `CommandOk` reply |
| Settings.UpdateSetting | cli/migrate/database/hasuradb/settings.go:228-258 | one upsert sent, and success exactly on `CommandOk` |
| QueryUtils.GetV2Query | cli/migrate/database/hasuradb/query_utils.go:109-115 | exactly the keys type, source and args, the source kept even when empty |
| QueryUtils.TypePrefix | cli/migrate/database/hasuradb/query_utils.go:120-124 | `pg_` exactly for the empty driver and postgres, `mysq_` otherwise |
| QueryUtils.GetV1MetadataQueryWithPrefix | cli/migrate/database/hasuradb/query_utils.go:119-140 | keys {type,args} for an empty source, {type,source,args} otherwise; args untouched; the type is longer than the action name |
| QueryUtils.GetV1MetadataQueryNoPrefix | cli/migrate/database/hasuradb/query_utils.go:144-157 | the same source rule, the type and args passed through |
| QueryUtils.WithPrefixIsNoPrefixOfPrefixedType | cli/migrate/database/hasuradb/query_utils.go:119-157 | the prefixed builder is the plain one applied to prefix + action name |
| QueryUtils.PrefixedTypeShape | cli/migrate/database/hasuradb/query_utils.go:120-126 | the type starts with the driver's prefix and ends with the action name |
| QueryUtils.V2AndMetadataAgreeWithSource | cli/migrate/database/hasuradb/query_utils.go:109-157 | with a source, the v2 payload equals the plain metadata payload |
| ConfigVersion.IsValid | cli/internal/config/version.go:50-52 | valid exactly for 1 and 2 |
| ConfigVersion.VersionVar.String | cli/internal/config/version.go:45-47 | in int64 range, the text parses back to the stored value |
| ConfigVersion.VersionVar.Set | cli/internal/config/version.go:28-38 | the parsed value is stored even on failure; a parse error is returned as such, an invalid version as `ErrInvalidConfigVersion`, else nil |
| ConfigVersion.NewConfigVersionValue | cli/internal/config/version.go:22-25 | writes `val` through p and returns p itself |
| ConfigVersion.SetOfStringRestores | cli/internal/config/version.go:28-47 | parsing `String()` of a valid version restores it without error |
| ConfigVersion.PrefixedTextsAreVersionTwo | cli/internal/config/version.go:29 | "0x2", "0b10", "0o2" and "02" all parse to version 2 |
| ConfigVersion.SyntaxErrorStoresZero | cli/internal/config/version.go:29-33 | a syntax error stores 0, which is not a valid version |
| ConfigVersion.VersionVar.constructor | cli/internal/config/version.go:9 | a version cell holding the given value |
| UrlParams.Get | cli/client/v1/v1.go:41 | the first value of a key, or "" |
| UrlParams.FirstColon | cli/client/v1/v1.go:30 | the position of the first ':' |
| UrlParams.SplitFirstColon | cli/client/v1/v1.go:30 | one part without ':', else the text before the first ':' and the rest |
| UrlParams.HeaderOf | cli/client/v1/v1.go:30-33 | a header exactly when the value splits in two with a non-empty value part |
| UrlParams.ParseHeaders | cli/client/v1/v1.go:27-35 | the loop fills exactly `HeadersOf` of the `headers` values, empty without them |
| UrlParams.HeadersOf | cli/client/v1/v1.go:28-35 | every header name is free of ':' and maps to a non-empty value; no values give no headers |
| UrlParams.HeadersOfKeys | cli/client/v1/v1.go:28-35 | a name is kept exactly when some value names it with a non-empty value |
| UrlParams.HeadersOfLastWins | cli/client/v1/v1.go:32 | the value kept is that of the last value naming the header |
| UrlParams.HeaderValueMayHoldColon | cli/client/v1/v1.go:30-32 | a value may itself hold ':' |
| UrlParams.Scheme | cli/client/v1/v1.go:40-46 | https exactly when `sslmode=enable`, else http |
| UrlParams.PathJoin | cli/client/v1/v1.go:51 | an empty side is dropped; otherwise the base then the element |
| UrlParams.Endpoint | cli/client/v1/v1.go:49-51 | host and query kept, scheme from `sslmode`, path joined with the element |
| ClientV1.NewClient | cli/client/v1/v1.go:18-59 | a parse failure gives no client and no error; otherwise a new client with the parsed headers and the two joined endpoints |
| ClientV1.Client.constructor | cli/client/v1/v1.go:24 | every field at its zero value |
| ClientV1.EndpointsDifferOnlyInPath | cli/client/v1/v1.go:48-56 | the two endpoints share scheme, host and query, and their paths differ |
| Seed.NewHasuraV1APIProvider | cli/seed/v1api_provider.go:20-53 | a parse failure gives no provider and no error; otherwise the provider points at the parsed URL, whose scheme and path are rewritten in place, and holds the parsed headers |
| Seed.UrlVar.constructor | cli/seed/v1api_provider.go:21 | a URL cell holding the given value |
| Seed.HasuraV1APIProvider.constructor | cli/seed/v1api_provider.go:26 | every field at its zero value |
| Seed.Ext | cli/seed/apply.go:34 | a non-empty extension starts with '.' and is a suffix of the name |
| Seed.ExtIsSqlIff | cli/seed/apply.go:34 | the extension is ".sql" exactly when the name ends in ".sql" |
| Seed.SqlEntries | cli/seed/apply.go:33-34 | only `.sql` entries of the listing are kept |
| Seed.SeedOps | cli/seed/apply.go:33-47 | a built bulk has one operation per `.sql` entry, and every `.sql` entry of it was read |
| Seed.SeedOpsAreSqlContents | cli/seed/apply.go:33-47 | one `run_sql` per `.sql` entry, holding its contents, in listing order |
| Seed.SeedOpsFailsIff | cli/seed/apply.go:33-38 | the bulk fails to build exactly when some `.sql` entry cannot be read |
| Seed.SeedOpsFailureSticks | cli/seed/apply.go:35-38 | the first unreadable entry ends the build |
| Seed.SeedOutcome | cli/seed/apply.go:50-57 | nil exactly for a 200 reply |
| Seed.ApplySeedsToDatabase | cli/seed/apply.go:22-60 | an unlistable directory is fatal and a read failure returns before any send; otherwise the bulk is sent once, even when empty |
| JsValue.Get | console/src/components/Services/Actions/utils.js:10 | property access throws exactly on undefined and null, and gives an object's own property or undefined |
| JsValue.GetPath | console/src/components/Services/Actions/utils.js:18 | a two-step access succeeds exactly when both steps do |
| JsValue.FindIndex | console/src/components/Services/Actions/utils.js:4 | a found index is the first match, every earlier element was read without a match |
| JsValue.Find | console/src/components/Services/Actions/utils.js:4 | `find` on anything but an array throws |
| JsValue.FindIndexNoneIff | console/src/components/Services/Actions/utils.js:4 | no result exactly when every element was read and none matched |
| JsValue.FindIndexFailsIff | console/src/components/Services/Actions/utils.js:4 | the search throws exactly when an undefined or null element comes before any match |
| JsValue.FindResultIsAMatch | console/src/components/Services/Actions/utils.js:4 | a defined result is an element of the array that matches |
| ActionsUtils.FindType | console/src/components/Services/Actions/utils.js:3-5 | a defined result is a type of the array whose name is strictly `typeName` |
| ActionsUtils.MissingTypeIsUndefined | console/src/components/Services/Actions/utils.js:3-5 | with no type of that name, the result is undefined |
| ActionsUtils.FindTypeUnique | console/src/components/Services/Actions/utils.js:3-5 | the type of that name is found |
| ActionsUtils.FindIndexAt | console/src/components/Services/Actions/utils.js:4 | the search stops at the first match |
| ActionsUtils.GetActionName | console/src/components/Services/Actions/utils.js:9-11 | `action_name` of an object, throwing on undefined and null |
| ActionsUtils.FindAction | console/src/components/Services/Actions/utils.js:13-15 | a defined result is an action of the array whose name is strictly `actionName` |
| ActionsUtils.FoundActionHasName | console/src/components/Services/Actions/utils.js:13-15 | the action found by a name carries that name |
| ActionsUtils.GetActionOutputType | console/src/components/Services/Actions/utils.js:17-19 | throws exactly when the action or its `action_defn` is undefined or null; for an object definition, its `output_type` or undefined |
| ActionsUtils.GetActionOutputFields | console/src/components/Services/Actions/utils.js:21-27 | a result needs a readable output type and a type search that did not throw |
| ActionsUtils.OutputFieldsOfNamedType | console/src/components/Services/Actions/utils.js:21-27 | for an action whose definition holds an `output_type`, the result is the `fields` of the first type whose `name` is strictly that output type, when every type before it has a `name` to read |
| ActionsUtils.UnknownOutputTypeThrows | console/src/components/Services/Actions/utils.js:21-27 | an output type no type carries throws |
| ActionsUtils.GetActionArguments | console/src/components/Services/Actions/utils.js:29-31 | throws exactly when the action or its `action_defn` is undefined or null; for an object definition, its `arguments` or undefined |
| ActionsUtils.DefinitionFieldsReadBack | console/src/components/Services/Actions/utils.js:17-31 | an action built from a name, output type and arguments gives back that output type and those arguments |
| ActionsUtils.MissingDefinitionFields | console/src/components/Services/Actions/utils.js:17-31 | without `action_defn` both accessors throw; an empty definition has undefined arguments |
| ActionsUtils.GetAllActions | console/src/components/Services/Actions/utils.js:33-35 | throws a `TypeError` exactly when the state, `actions` or `actions.common` is undefined or null; for nested objects, `actions.common.actions` or undefined |
| ActionsUtils.StoredActionsAreRead | console/src/components/Services/Actions/utils.js:33-35 | the actions stored in a state are read back; a state without `actions` or `common` throws |
| ActionsTypes.SetTypeDefinition | console/src/components/Services/Actions/Types/reducer.js:4-7 | an action of that type whose definition holds the sdl, and the error with undefined replaced by null |
| ActionsTypes.SetFetching | console/src/components/Services/Actions/Types/reducer.js:10 | an action holding only its type |
| ActionsTypes.UnsetFetching | console/src/components/Services/Actions/Types/reducer.js:12 | an action holding only its type |
| ActionsTypes.Reducer | console/src/components/Services/Actions/Types/reducer.js:14-36 | throws exactly when the action is undefined or null |
| ActionsTypes.SetFetchingSetsFlag | console/src/components/Services/Actions/Types/reducer.js:16-20 | `isFetching` set to true, every other property kept, a second application changes nothing |
| ActionsTypes.UnsetFetchingClearsFlag | console/src/components/Services/Actions/Types/reducer.js:21-25 | `isFetching` set to false, every other property kept, undoing `SET_FETCHING` |
| ActionsTypes.SetTypeDefinitionReplacesManage | console/src/components/Services/Actions/Types/reducer.js:26-32 | `manage` becomes exactly `{definition}`, the action's definition, every other property kept |
| ActionsTypes.OtherActionsKeepState | console/src/components/Services/Actions/Types/reducer.js:33-34 | any other action type returns the state, or the default state for an undefined one |
| ActionsTypes.ArrayWrappedTypeIsIgnored | console/src/components/Services/Actions/Types/reducer.js:15 | the action type is compared strictly |

## Left out

- HTTP plumbing (`sendv1Query`, `sendv2Query`, `sendV1MetadataQuery`, `sendv1GraphQL`, `sendSchemaDumpQuery`, `SendMetadataOrQueryRequest`, the seed provider's `SendQuery`) is the `Transport` oracle. `hasuradb.go:702` calls a `GetV1MetadataQuery` that `query_utils.go` does not define; that send is part of the oracle.
- JSON and YAML encoding and decoding are inputs. A response body arrives already decoded into `Body`, and a metadata migration arrives as an optional list of entries.
- `jsonpath.JsonPathLookup` and the pretty-printed `migrationQuery` text it adds to a server error are not modelled. The error keeps path, message, code and file.
- The `regexp` engine is not modelled. Only this one pattern is written out, as `ArgsIndex`. The trailing `\]*` adds nothing to the captured group, so it is dropped.
- `url.Parse` is an input: the parsed URL, or `None`. `path.Join` is modelled without `Clean`: a base or element with a leading or trailing '/' (`path.Join("/a", "/v1/query")` is "/a/v1/query", `PathJoin` gives "/a//v1/query"), a doubled '/', '.' or `..` is not normalised.
- `filepath.Ext` uses '/' as the only separator, and `filepath.Join` of the directory and file name is not modelled: entries come with their contents or a read failure.
- `Decimal.ParseInt0`: the '_' digit separators that `strconv.ParseInt` accepts with base 0 are not modelled.
- `WithInstance` and its bootstrap (`ensureVersionTable`, the server feature probe, and the `ensureSettingsTable()` call with no argument at `hasuradb.go:180`) are not modelled. `ensureVersionTable`'s catalog-state probing is dynamic-typing glue. The driver's constructor gives the state `WithInstance` builds before that bootstrap, with `jsonPath` still Go's nil map; `Lock` makes it, and `Run` before any `Lock` panics on the first write.
- `database.Migrations` is not part of this model. It is taken to be a strictly ascending list of uint64 versions, where appending inserts in order and ignores duplicates.
- `NewHasuraError` is not part of this model. It is taken to return the server's error object when the body is one, and an opaque error otherwise.
- `Close`, `Drop` and the logger are not modelled, and neither is the `migrationQuery` type field beyond `bulk`.
- `Settings.CliStateKeys`: only the keys of `cli_state` are seen. A key whose value is JSON null counts as present here, but Go treats it as absent. A `cli_state` that is not an object, which panics in Go, is not modelled.
- The catalog-state write sends the marshalled CLI state (`CliState`) or the fetched state with its keys amended (`FetchedStateWithKeys`), not their JSON text.
- `ConfigVersion.VersionVar.Set` stores the int64 result in a Go `int` unchanged, which assumes a 64-bit platform. `Type`, which returns the constant "int", is not modelled.
- The console's `defaultState` (from `./state`) is not part of this model. It is a parameter of `ActionsTypes.Reducer`.
- ActionsTypes.Reducer: the state is an object or `undefined` only. A `null` or non-object state, which JavaScript spreads as no properties (`{...null, isFetching: true}` is `{isFetching: true}`), cannot be passed.
- JavaScript objects and arrays are values here: the spread copies contents, and strict equality between two objects or arrays, which compares references, is always false. Numbers are integers, and property access on strings, numbers and arrays finds no built-in properties such as `length`.
- `ActionsUtils.GetAllActions` takes the state `getState()` returns, not the function.
