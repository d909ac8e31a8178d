/**
 * The migration state store used before catalog state existed: applied versions are rows of
 * a `schema_migrations` table, and every change is one more `run_sql` appended to the
 * driver's current bulk, sent with the migration when the session is unlocked.
 */
module MigrationStateSql {
  import opened Wrappers
  import opened Wire
  import opened Exchanges
  import opened HasuraDb
  import MI = MigrationsIndex

  class MigrationStateWithSQL {
    const db: HasuraDB

    constructor (db: HasuraDB)
      ensures this.db == db
    {
      this.db := db;
    }

    /** Records version v as applied and clean: one INSERT appended to the bulk. */
    method InsertVersion(version: int) returns (err: Option<DbError>)
      requires db.Valid()
      modifies db
      ensures db.Valid() && err.None?
      ensures db.args == old(db.args) + [Sql(InsertVersionSql(db.migrationsTable, version))]
      ensures db.jsonPath == old(db.jsonPath) && db.isLocked == old(db.isLocked) && db.bulkType == old(db.bulkType)
      ensures db.jsonPathMade == old(db.jsonPathMade) && db.producedBy == old(db.producedBy) + [None]
      ensures db.migrations == old(db.migrations) && db.schemaMigrations == old(db.schemaMigrations)
      ensures db.migrationMode == old(db.migrationMode)
    {
      db.AppendUnattributed(Sql(InsertVersionSql(db.migrationsTable, version)));
      err := None;
    }

    /** Upserts version v with its dirty flag, but only for a real version or for a dirty
        `NilVersion`; any other call changes nothing. */
    method SetVersion(version: int, dirty: bool) returns (err: Option<DbError>)
      requires db.Valid()
      modifies db
      ensures db.Valid() && err.None?
      ensures version >= 0 || (version == NilVersion && dirty) ==>
        db.args == old(db.args) + [Sql(SetVersionSql(db.migrationsTable, version, dirty))]
      ensures !(version >= 0 || (version == NilVersion && dirty)) ==> db.args == old(db.args)
      ensures db.jsonPath == old(db.jsonPath) && db.isLocked == old(db.isLocked) && db.bulkType == old(db.bulkType)
      ensures db.jsonPathMade == old(db.jsonPathMade)
      ensures version >= 0 || (version == NilVersion && dirty) ==> db.producedBy == old(db.producedBy) + [None]
      ensures !(version >= 0 || (version == NilVersion && dirty)) ==> db.producedBy == old(db.producedBy)
      ensures db.migrations == old(db.migrations) && db.schemaMigrations == old(db.schemaMigrations)
      ensures db.migrationMode == old(db.migrationMode)
    {
      if version >= 0 || (version == NilVersion && dirty) {
        db.AppendUnattributed(Sql(SetVersionSql(db.migrationsTable, version, dirty)));
      }
      err := None;
    }

    /** Forgets version v: one DELETE appended to the bulk. */
    method RemoveVersion(version: int) returns (err: Option<DbError>)
      requires db.Valid()
      modifies db
      ensures db.Valid() && err.None?
      ensures db.args == old(db.args) + [Sql(DeleteVersionSql(db.migrationsTable, version))]
      ensures db.jsonPath == old(db.jsonPath) && db.isLocked == old(db.isLocked) && db.bulkType == old(db.bulkType)
      ensures db.jsonPathMade == old(db.jsonPathMade) && db.producedBy == old(db.producedBy) + [None]
      ensures db.migrations == old(db.migrations) && db.schemaMigrations == old(db.schemaMigrations)
      ensures db.migrationMode == old(db.migrationMode)
    {
      db.AppendUnattributed(Sql(DeleteVersionSql(db.migrationsTable, version)));
      err := None;
    }

    /** Creates the version table unless the server counts one already. */
    method PrepareMigrationsStateStore() returns (err: Option<DbError>)
      modifies db.transport
      ensures var x := EnsureTableExchange(CountTableSql(db.migrationsTable), CreateVersionTableSql(db.migrationsTable),
                                           old(db.transport.replies));
        && db.transport.sent == old(db.transport.sent) + x.sent
        && db.transport.replies == Consumed(old(db.transport.replies), |x.sent|)
        && err == x.err
    {
      var created;
      err, created := EnsureTable(db.transport, CountTableSql(db.migrationsTable), CreateVersionTableSql(db.migrationsTable));
    }

    /** Reads the version table into the driver's index, exactly as the driver's own `getVersions`. */
    method GetVersions() returns (err: Option<DbError>)
      requires db.Valid()
      modifies db, db.transport
      ensures db.Valid()
      ensures db.isLocked == old(db.isLocked) && db.bulkType == old(db.bulkType)
      ensures db.args == old(db.args) && db.jsonPath == old(db.jsonPath) && db.jsonPathMade == old(db.jsonPathMade)
      ensures db.producedBy == old(db.producedBy)
      ensures db.schemaMigrations == old(db.schemaMigrations) && db.migrationMode == old(db.migrationMode)
      ensures db.transport.sent == old(db.transport.sent) + [Query(Sql(SelectVersionsSql(db.migrationsTable)))]
      ensures db.transport.replies == RestReplies(old(db.transport.replies))
      ensures var q := SqlOutcome(NextReply(old(db.transport.replies)), TuplesOK);
        && (q.Failure? ==> err == Some(q.error) && db.migrations == old(db.migrations))
        && (q.Success? ==>
              db.migrations == MI.InsertAll(old(db.migrations), ParseRows(AfterHeader(q.value)).0)
              && err == ParseRows(AfterHeader(q.value)).1)
    {
      err := db.GetVersions();
    }
  }
}
