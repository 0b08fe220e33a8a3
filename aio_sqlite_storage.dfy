/**
 * `AioSQLiteStorage` of `pyrogram/storage/aio_sqlite_storage.py`: the same
 * five tables over an aiosqlite connection. Unlike the synchronous variant,
 * row writes and migration steps become durable at the explicit `commit()`
 * that follows them, so the class keeps the committed file image `disk` beside
 * the working tables, and a ghost history of every image committed. The schema
 * script of `create` commits on its own, and that image is not kept.
 */
module AioSQLiteStorage {
  import opened Wrappers
  import opened StorageSchema

  /** The schema objects added by migrations: the `api_id` column and two tables. */
  datatype SchemaFeature = ApiIdColumn | UsernamesTable | UpdateStateTable

  const ALL_FEATURES: set<SchemaFeature> := {ApiIdColumn, UsernamesTable, UpdateStateTable}

  /** An image of the database file. */
  datatype Db = Db(session: SessionRow, peers: map<int, PeerRow>, usernames: seq<UsernameRow>,
                   updateState: map<int, UpdateStateRow>, versionNumber: int, features: set<SchemaFeature>)

  /** The empty file `aiosqlite.connect` makes when none exists. */
  const EMPTY: Db := Db(DEFAULT_SESSION, map[], [], map[], 0, {})

  /** The file `create` leaves behind. */
  const FRESH: Db := Db(DEFAULT_SESSION, map[], [], map[], VERSION, ALL_FEATURES)

  // ---------------------------------------------------------------- migration

  /**
   * Migration step `k` (1 to 4) as evidently intended: `DELETE FROM peers`,
   * then the `api_id` column, the usernames table and the update-state table.
   * SQLite refuses to add a column or a table that already exists.
   */
  function Step(db: Db, k: int): Result<Db, StorageError> {
    if k == 1 then Ok(db.(peers := map[]))
    else if k == 2 then
      if ApiIdColumn in db.features then Err(DuplicateColumn("api_id"))
      else Ok(db.(features := db.features + {ApiIdColumn}))
    else if k == 3 then
      if UsernamesTable in db.features then Err(TableExists("usernames"))
      else Ok(db.(features := db.features + {UsernamesTable}))
    else if k == 4 then
      if UpdateStateTable in db.features then Err(TableExists("update_state"))
      else Ok(db.(features := db.features + {UpdateStateTable}))
    else Ok(db)
  }

  /**
   * Step `k` as written: steps 3 and 4 run `USERNAMES_SCHEMA` and
   * `UPDATE_STATE_SCHEMA`, names the module never defines or imports, so
   * each raises NameError before SQLite sees anything.
   */
  function StepAsWritten(db: Db, k: int): Result<Db, StorageError> {
    if k == 3 then Err(UndefinedName("USERNAMES_SCHEMA"))
    else if k == 4 then Err(UndefinedName("UPDATE_STATE_SCHEMA"))
    else Step(db, k)
  }

  /** The schema objects that steps `v` to 4 add. */
  function Needed(v: int): set<SchemaFeature> {
    (if v <= 2 then {ApiIdColumn} else {}) + (if v <= 3 then {UsernamesTable} else {})
    + (if v <= 4 then {UpdateStateTable} else {})
  }

  /**
   * The working database, the local `version` counter, the images committed so
   * far, and the exception that stopped `update`, if any.
   */
  datatype Migration = Migration(db: Db, version: int, commits: seq<Db>, failure: Option<StorageError>)

  /** The outcome of one step: a new image is committed, or the exception stops the migration with nothing changed. */
  function Run(m: Migration, r: Result<Db, StorageError>): Migration {
    if r.Ok? then m.(db := r.value, commits := m.commits + [r.value]) else m.(failure := Some(r.error))
  }

  /** `if version == k: <step k>; commit()` followed by `version += 1`, as written. */
  function GuardAsWritten(m: Migration, k: int): Migration {
    if m.failure.Some? then m
    else
      var m' := if m.version == k then Run(m, StepAsWritten(m.db, k)) else m;
      if m'.failure.Some? then m' else m'.(version := m'.version + 1)
  }

  /** The same guard with `version += 1` inside the `if`, and the schema scripts defined. */
  function GuardIntended(m: Migration, k: int): Migration {
    if m.failure.Some? || m.version != k then m
    else
      var m' := Run(m, Step(m.db, k));
      if m'.failure.Some? then m' else m'.(version := m'.version + 1)
  }

  /** `await self.version(version)`: writes the counter and commits; skipped once a step has raised. */
  function Finish(m: Migration): Migration {
    if m.failure.Some? then m
    else
      var d := m.db.(versionNumber := m.version);
      m.(db := d, commits := m.commits + [d])
  }

  /** `update` as written. */
  function MigrateAsWritten(db: Db): Migration {
    var m0 := Migration(db, db.versionNumber, [], None);
    Finish(GuardAsWritten(GuardAsWritten(GuardAsWritten(GuardAsWritten(m0, 1), 2), 3), 4))
  }

  /** `update` as evidently intended. */
  function MigrateIntended(db: Db): Migration {
    var m0 := Migration(db, db.versionNumber, [], None);
    Finish(GuardIntended(GuardIntended(GuardIntended(GuardIntended(m0, 1), 2), 3), 4))
  }

  /**
   * As written, every guard tests the stored version plus the steps passed, so
   * all of them fire iff the stored version is 1. Any other version runs no
   * step and is stored again increased by four.
   */
  lemma AsWrittenMigration(db: Db)
    ensures db.versionNumber != 1 ==>
      MigrateAsWritten(db).failure.None? &&
      MigrateAsWritten(db).db == db.(versionNumber := db.versionNumber + 4) &&
      MigrateAsWritten(db).commits == [db.(versionNumber := db.versionNumber + 4)]
    ensures db.versionNumber == 1 ==> MigrateAsWritten(db).failure.Some?
  {
    if db.versionNumber == 1 {
      StepsFromOne(db);
    }
  }

  /**
   * As written, a store at version 1 commits the wiped peers, then tries the
   * `api_id` column: an existing column stops there, and otherwise it is
   * committed and step 3 raises NameError. The version is never written.
   */
  lemma StepsFromOne(db: Db)
    requires db.versionNumber == 1
    ensures var m := MigrateAsWritten(db);
      var wiped := db.(peers := map[]);
      var altered := wiped.(features := db.features + {ApiIdColumn});
      m.db.versionNumber == 1 &&
      (ApiIdColumn in db.features ==>
        m.failure == Some(DuplicateColumn("api_id")) && m.db == wiped && m.commits == [wiped]) &&
      (ApiIdColumn !in db.features ==>
        m.failure == Some(UndefinedName("USERNAMES_SCHEMA")) && m.db == altered && m.commits == [wiped, altered])
  {
  }

  /**
   * Hence a store at version 1 never opens: the first attempt raises, leaves
   * the version at 1 and the `api_id` column in place, so every later attempt
   * raises on the duplicate column.
   */
  lemma VersionOneNeverOpens(db: Db)
    requires db.versionNumber == 1
    ensures MigrateAsWritten(db).failure.Some?
    ensures MigrateAsWritten(db).db.versionNumber == 1 && ApiIdColumn in MigrateAsWritten(db).db.features
    ensures MigrateAsWritten(MigrateAsWritten(db).db).failure == Some(DuplicateColumn("api_id"))
  {
    StepsFromOne(db);
    StepsFromOne(MigrateAsWritten(db).db);
  }

  /**
   * As intended, a store at version 1 to 4 whose later schema objects are still
   * missing runs exactly the steps from its version up to 4 and ends at
   * version 5; if one of those objects exists already, its step raises and the
   * version stays. Any other version is left as it is.
   */
  lemma IntendedMigration(db: Db)
    ensures var v := db.versionNumber;
      1 <= v <= 4 && Needed(v) !! db.features ==>
        MigrateIntended(db).failure.None? &&
        MigrateIntended(db).db ==
          db.(peers := if v == 1 then map[] else db.peers, features := db.features + Needed(v), versionNumber := 5) &&
        |MigrateIntended(db).commits| == 6 - v
    ensures var v := db.versionNumber;
      1 <= v <= 4 && !(Needed(v) !! db.features) ==>
        MigrateIntended(db).failure.Some? && MigrateIntended(db).db.versionNumber == v
    ensures !(1 <= db.versionNumber <= 4) ==>
      MigrateIntended(db).failure.None? && MigrateIntended(db).db == db && MigrateIntended(db).commits == [db]
  {
    var v := db.versionNumber;
    if v == 1 {
      IntendedFrom(db, 1);
    } else if v == 2 {
      IntendedFrom(db, 2);
    } else if v == 3 {
      IntendedFrom(db, 3);
    } else if v == 4 {
      IntendedFrom(db, 4);
    }
  }

  /** The intended migration from one given version `v`. */
  lemma IntendedFrom(db: Db, v: int)
    requires db.versionNumber == v && 1 <= v <= 4
    ensures Needed(v) !! db.features ==>
      MigrateIntended(db).failure.None? &&
      MigrateIntended(db).db ==
        db.(peers := if v == 1 then map[] else db.peers, features := db.features + Needed(v), versionNumber := 5) &&
      |MigrateIntended(db).commits| == 6 - v
    ensures !(Needed(v) !! db.features) ==>
      MigrateIntended(db).failure.Some? && MigrateIntended(db).db.versionNumber == v
  {
    var m0 := Migration(db, db.versionNumber, [], None);
    var m1 := GuardIntended(m0, 1);
    var m2 := GuardIntended(m1, 2);
    var m3 := GuardIntended(m2, 3);
    GuardEffect(m0, 1);
    GuardEffect(m1, 2);
    GuardEffect(m2, 3);
    GuardEffect(m3, 4);
  }

  /** One intended guard: it skips unless its version is current, and a failing step keeps the image and the counter. */
  lemma GuardEffect(m: Migration, k: int)
    ensures m.failure.Some? || m.version != k ==> GuardIntended(m, k) == m
    ensures m.failure.None? && m.version == k && Step(m.db, k).Ok? ==>
      GuardIntended(m, k) ==
        Migration(Step(m.db, k).value, k + 1, m.commits + [Step(m.db, k).value], None)
    ensures m.failure.None? && m.version == k && Step(m.db, k).Err? ==>
      GuardIntended(m, k).failure.Some? && GuardIntended(m, k).db == m.db && GuardIntended(m, k).version == k
  {
  }

  /** The intended migration is idempotent: once it succeeds, migrating again changes nothing. */
  lemma IntendedIdempotent(db: Db)
    ensures MigrateIntended(db).failure.None? ==>
      MigrateIntended(MigrateIntended(db).db).failure.None? &&
      MigrateIntended(MigrateIntended(db).db).db == MigrateIntended(db).db
  {
    IntendedMigration(db);
    IntendedMigration(MigrateIntended(db).db);
  }

  /**
   * Inputs that show the misplaced counter: a current store moves to 9, and a
   * store at 2 that lacks the later schema objects never gets its `api_id` column.
   */
  lemma MigrationQuirk(db: Db)
    ensures db.versionNumber == 5 ==>
      MigrateAsWritten(db).db.versionNumber == 9 && MigrateIntended(db).db.versionNumber == 5
    ensures db.versionNumber == 2 && Needed(2) !! db.features ==>
      ApiIdColumn !in MigrateAsWritten(db).db.features && ApiIdColumn in MigrateIntended(db).db.features
  {
    AsWrittenMigration(db);
    IntendedMigration(db);
  }

  // ---------------------------------------------------------------- the store

  class AioStore {
    var session: SessionRow
    var peers: map<int, PeerRow>
    var usernames: seq<UsernameRow>
    var updateState: map<int, UpdateStateRow>
    var versionNumber: int
    var features: set<SchemaFeature>
    /** The file as of the last commit. */
    var disk: Db
    /** Every image committed since `open`, oldest first. */
    ghost var commits: seq<Db>

    ghost predicate Valid()
      reads this
    {
      KeyedById(updateState)
    }

    /** The working state as a file image. */
    function Snapshot(): Db
      reads this
    {
      Db(session, peers, usernames, updateState, versionNumber, features)
    }

    function Directory(): Tables
      reads this
    {
      Tables(peers, usernames)
    }

    /** `await self.conn.commit()`. */
    method Commit()
      modifies this
      ensures disk == Snapshot() && commits == old(commits) + [Snapshot()]
      ensures Snapshot() == old(Snapshot())
    {
      disk := Snapshot();
      commits := commits + [disk];
    }

    /** Connects to a file image: the working tables are the file's. */
    constructor Connect(db: Db)
      ensures Snapshot() == db && disk == db && commits == []
    {
      session, peers, usernames, updateState := db.session, db.peers, db.usernames, db.updateState;
      versionNumber, features := db.versionNumber, db.features;
      disk := db;
      commits := [];
    }

    /**
     * `AioSQLiteStorage(name)` followed by `open`: a missing file is created, an
     * existing one is migrated by `update`, never both; then `VACUUM` and a
     * final commit. An exception from `update` ends `open` before the `VACUUM`.
     */
    static method Open(file: Option<Db>) returns (s: AioStore, r: Result<(), StorageError>)
      requires file.Some? ==> KeyedById(file.value.updateState)
      ensures fresh(s) && s.Valid() && s.disk == s.Snapshot()
      ensures file.None? ==> r == Ok(()) && s.Snapshot() == FRESH && s.commits == [FRESH, FRESH]
      ensures file.Some? ==> s.Snapshot() == MigrateAsWritten(file.value).db
      ensures file.Some? && MigrateAsWritten(file.value).failure.None? ==>
        r == Ok(()) && s.commits == MigrateAsWritten(file.value).commits + [s.Snapshot()]
      ensures file.Some? && MigrateAsWritten(file.value).failure.Some? ==>
        r == Err(MigrateAsWritten(file.value).failure.value) && s.commits == MigrateAsWritten(file.value).commits
    {
      s := new AioStore.Connect(if file.Some? then file.value else EMPTY);
      if file.None? {
        s.Create();
        r := Ok(());
      } else {
        r := s.Update();
      }
      if r.Ok? {
        s.Commit();
      }
    }

    /** `create`: the schema, version 5 and the default session row, then a commit. */
    method Create()
      modifies this
      ensures Valid()
      ensures Snapshot() == FRESH && disk == FRESH && commits == old(commits) + [FRESH]
    {
      session, peers, usernames, updateState := DEFAULT_SESSION, map[], [], map[];
      versionNumber, features := VERSION, ALL_FEATURES;
      Commit();
    }

    /** One migration step: applies `outcome` and commits, or returns its exception with nothing changed. */
    method Execute(outcome: Result<Db, StorageError>) returns (r: Result<(), StorageError>)
      modifies this
      ensures outcome.Ok? ==> r == Ok(()) && Snapshot() == outcome.value && disk == Snapshot() &&
                              commits == old(commits) + [outcome.value]
      ensures outcome.Err? ==> r == Err(outcome.error) && Snapshot() == old(Snapshot()) &&
                               disk == old(disk) && commits == old(commits)
    {
      if outcome.Ok? {
        var db := outcome.value;
        session, peers, usernames, updateState := db.session, db.peers, db.usernames, db.updateState;
        versionNumber, features := db.versionNumber, db.features;
        Commit();
        r := Ok(());
      } else {
        r := Err(outcome.error);
      }
    }

    /**
     * `update`, as written: `version += 1` sits outside every `if`. An
     * exception from a step skips the rest of the method, `version(version)`
     * included.
     */
    method Update() returns (r: Result<(), StorageError>)
      requires Valid() && disk == Snapshot()
      modifies this
      ensures Valid() && disk == Snapshot()
      ensures Snapshot() == MigrateAsWritten(old(Snapshot())).db
      ensures commits == old(commits) + MigrateAsWritten(old(Snapshot())).commits
      ensures r == if MigrateAsWritten(old(Snapshot())).failure.None? then Ok(())
                   else Err(MigrateAsWritten(old(Snapshot())).failure.value)
    {
      ghost var m := Migration(Snapshot(), versionNumber, [], None);
      var version := versionNumber;
      r := Ok(());
      if version == 1 {
        r := Execute(StepAsWritten(Snapshot(), 1));
      }
      if r.Ok? {
        version := version + 1;
      }
      m := GuardAsWritten(m, 1);
      assert Snapshot() == m.db && version == m.version && commits == old(commits) + m.commits;
      assert r.Ok? && m.failure.None?;
      if r.Ok? && version == 2 {
        r := Execute(StepAsWritten(Snapshot(), 2));
      }
      if r.Ok? {
        version := version + 1;
      }
      m := GuardAsWritten(m, 2);
      assert Snapshot() == m.db && version == m.version && commits == old(commits) + m.commits;
      assert (r.Ok? <==> m.failure.None?) && (r.Err? ==> m.failure == Some(r.error));
      if r.Ok? && version == 3 {
        r := Err(UndefinedName("USERNAMES_SCHEMA"));
      }
      if r.Ok? {
        version := version + 1;
      }
      m := GuardAsWritten(m, 3);
      assert Snapshot() == m.db && version == m.version && commits == old(commits) + m.commits;
      assert (r.Ok? <==> m.failure.None?) && (r.Err? ==> m.failure == Some(r.error));
      if r.Ok? && version == 4 {
        r := Err(UndefinedName("UPDATE_STATE_SCHEMA"));
      }
      if r.Ok? {
        version := version + 1;
      }
      m := GuardAsWritten(m, 4);
      assert Snapshot() == m.db && version == m.version && commits == old(commits) + m.commits;
      assert (r.Ok? <==> m.failure.None?) && (r.Err? ==> m.failure == Some(r.error));
      if r.Ok? {
        SetVersion(version);
      }
    }

    /**
     * `update_peers`: the same replace rules as the synchronous store, but
     * nothing is committed.
     */
    method UpdatePeers(batch: seq<PeerData>, stamps: seq<int>)
      requires Valid() && |stamps| == |batch|
      modifies this
      ensures Valid()
      ensures Directory() == ApplyBatch(old(Directory()), batch, stamps)
      ensures session == old(session) && updateState == old(updateState) && versionNumber == old(versionNumber)
      ensures features == old(features) && disk == old(disk) && commits == old(commits)
    {
      var i := 0;
      while i < |batch|
        invariant 0 <= i <= |batch|
        invariant Directory() == ApplyBatch(old(Directory()), batch[..i], stamps[..i])
        invariant session == old(session) && updateState == old(updateState) && versionNumber == old(versionNumber)
        invariant features == old(features) && disk == old(disk) && commits == old(commits)
      {
        var e := batch[i];
        ghost var before := Directory();
        peers := peers[e.id := PeerRow(e.accessHash, e.peerType, e.phoneNumber, stamps[i])];
        usernames := RemoveId(usernames, e.id);
        usernames := usernames + AliasRows(e.id, e.usernames);
        assert Directory() == ApplyPeer(before, e, stamps[i]);
        BatchStep(old(Directory()), batch, stamps, i);
        i := i + 1;
      }
      assert batch[..|batch|] == batch && stamps[..|stamps|] == stamps;
    }

    /**
     * `update_state`: with no argument every row, in no promised order; `None`
     * deletes every row; a tuple upserts by id. Writes are committed. An int is
     * not a parameter sequence, so there is no single-id delete: sqlite3
     * rejects it before anything changes.
     */
    method UpdateState(value: UpdateStateArg) returns (r: Result<UpdateStateReply, StorageError>)
      requires Valid()
      modifies this
      ensures Valid()
      ensures value.Omitted? ==> r.Ok? && r.value.Rows?
      ensures value.Omitted? && r.Ok? && r.value.Rows? ==> ListsRows(updateState, r.value.rows)
      ensures value.Omitted? || value.IntArg? ==>
        Snapshot() == old(Snapshot()) && disk == old(disk) && commits == old(commits)
      ensures value.IntArg? ==> r == Err(UnsupportedParameters)
      ensures value.NoneArg? ==> r == Ok(Done) && updateState == map[]
      ensures value.TupleArg? ==> r == Ok(Done) && updateState == old(updateState)[value.row.id := value.row]
      ensures value.NoneArg? || value.TupleArg? ==> disk == Snapshot() && commits == old(commits) + [Snapshot()]
      ensures session == old(session) && peers == old(peers) && usernames == old(usernames)
      ensures versionNumber == old(versionNumber) && features == old(features)
    {
      match value
      case Omitted =>
        var rows := ScanUpdateState(updateState);
        r := Ok(Rows(rows));
      case IntArg(_) =>
        r := Err(UnsupportedParameters);
      case NoneArg =>
        updateState := map[];
        Commit();
        r := Ok(Done);
      case TupleArg(row) =>
        updateState := updateState[row.id := row];
        Commit();
        r := Ok(Done);
    }

    /** `get_peer_by_id`. */
    method GetPeerById(peerId: int) returns (r: Result<InputPeer, StorageError>)
      ensures r == LookupId(Directory(), peerId)
    {
      if peerId in peers {
        r := GetInputPeer(peerId, peers[peerId].accessHash, peers[peerId].peerType);
      } else {
        r := Err(IdNotFound(peerId));
      }
    }

    /** `get_peer_by_username` at wall-clock time `now`. */
    method GetPeerByUsername(username: string, now: real) returns (r: Result<InputPeer, StorageError>)
      ensures r == LookupUsername(Directory(), username, now)
    {
      r := LookupUsername(Directory(), username, now);
    }

    /** `get_peer_by_phone_number`. */
    method GetPeerByPhoneNumber(phoneNumber: string) returns (r: Result<InputPeer, StorageError>)
      ensures PhoneLookup(peers, phoneNumber, r)
    {
      r := LookupPhone(peers, phoneNumber);
    }

    /** `_get`. */
    method Get(field: SessionField) returns (v: SqlValue)
      ensures v == GetField(session, field)
    {
      v := GetField(session, field);
    }

    /** `_set`: writes one column and commits; a rejected value raises before the commit. */
    method Set(field: SessionField, v: SqlValue) returns (r: Result<(), StorageError>)
      requires Valid()
      modifies this
      ensures Valid()
      ensures SetField(old(session), field, v).Ok? ==>
        r == Ok(()) && session == SetField(old(session), field, v).value &&
        disk == Snapshot() && commits == old(commits) + [Snapshot()]
      ensures SetField(old(session), field, v).Err? ==>
        r == Err(SetField(old(session), field, v).error) && session == old(session) &&
        disk == old(disk) && commits == old(commits)
      ensures peers == old(peers) && usernames == old(usernames) && updateState == old(updateState)
      ensures versionNumber == old(versionNumber) && features == old(features)
    {
      var updated := SetField(session, field, v);
      if updated.Ok? {
        session := updated.value;
        Commit();
        r := Ok(());
      } else {
        r := Err(updated.error);
      }
    }

    /** `version()`. */
    method Version() returns (n: int)
      ensures n == versionNumber
    {
      n := versionNumber;
    }

    /** `version(value)`: writes the counter and commits. */
    method SetVersion(n: int)
      modifies this
      ensures Snapshot() == old(Snapshot()).(versionNumber := n)
      ensures disk == Snapshot() && commits == old(commits) + [Snapshot()]
    {
      versionNumber := n;
      Commit();
    }

    /**
     * `save`: stores `int(time.time())` as the date (committed by `_set`), then
     * commits again; a time beyond 64 bits raises OverflowError before either commit.
     */
    method Save(now: real) returns (r: Result<(), StorageError>)
      requires Valid()
      modifies this
      ensures Valid()
      ensures FitsInt64(Trunc(now)) ==>
        r == Ok(()) && Snapshot() == old(Snapshot()).(session := old(session).(date := Integer(Trunc(now)))) &&
        disk == Snapshot() && commits == old(commits) + [Snapshot(), Snapshot()]
      ensures !FitsInt64(Trunc(now)) ==>
        r == Err(IntegerOverflow(Trunc(now))) && Snapshot() == old(Snapshot()) &&
        disk == old(disk) && commits == old(commits)
    {
      r := Set(Date, Integer(Trunc(now)));
      if r.Ok? {
        Commit();
      }
    }
  }
}
