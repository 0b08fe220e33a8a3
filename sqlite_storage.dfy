/**
 * `SQLiteStorage` of `pyrogram/storage/sqlite_storage.py`: a session store
 * whose five tables live in one SQLite connection. Every `with self.conn:`
 * block is one method here, committing on success and rolling back when it
 * raises, and the connection's tables are the fields of the class.
 */
module SQLiteStorage {
  import opened Wrappers
  import opened StorageSchema

  class SQLiteStore {
    var session: SessionRow
    var peers: map<int, PeerRow>
    var usernames: seq<UsernameRow>
    var updateState: map<int, UpdateStateRow>
    var versionNumber: int

    /** `update_state.id` is the primary key. */
    ghost predicate Valid()
      reads this
    {
      KeyedById(updateState)
    }

    /** The peer directory and the alias relation, as the lookups see them. */
    function Directory(): Tables
      reads this
    {
      Tables(peers, usernames)
    }

    /** `_create_impl`: the schema, the version row and the default session row. */
    constructor Create()
      ensures Valid()
      ensures versionNumber == VERSION && session == DEFAULT_SESSION
      ensures peers == map[] && usernames == [] && updateState == map[]
    {
      session := DEFAULT_SESSION;
      peers := map[];
      usernames := [];
      updateState := map[];
      versionNumber := VERSION;
    }

    /**
     * `_update_peers_impl`: each entry replaces its peer row and its whole alias
     * set, in batch order, inside one transaction; `stamps[k]` is SQLite's `now`
     * when entry k's REPLACE runs.
     */
    method UpdatePeers(batch: seq<PeerData>, stamps: seq<int>)
      requires Valid() && |stamps| == |batch|
      modifies this
      ensures Valid()
      ensures Directory() == ApplyBatch(old(Directory()), batch, stamps)
      ensures session == old(session) && updateState == old(updateState) && versionNumber == old(versionNumber)
    {
      var i := 0;
      while i < |batch|
        invariant 0 <= i <= |batch|
        invariant Directory() == ApplyBatch(old(Directory()), batch[..i], stamps[..i])
        invariant session == old(session) && updateState == old(updateState) && versionNumber == old(versionNumber)
      {
        var e := batch[i];
        ghost var before := Directory();
        var added := AliasRows(e.id, e.usernames);
        peers := peers[e.id := PeerRow(e.accessHash, e.peerType, e.phoneNumber, stamps[i])];
        usernames := RemoveId(usernames, e.id);
        usernames := usernames + added;
        assert Directory() == ApplyPeer(before, e, stamps[i]);
        BatchStep(old(Directory()), batch, stamps, i);
        i := i + 1;
      }
      assert batch[..|batch|] == batch && stamps[..|stamps|] == stamps;
    }

    /**
     * `_update_state_impl`: with no argument, every row ordered by date; an int
     * deletes that id's row; a tuple upserts by id. `None` is neither an int nor
     * a parameter sequence, so sqlite3 rejects it.
     */
    method UpdateState(value: UpdateStateArg) returns (r: Result<UpdateStateReply, StorageError>)
      requires Valid()
      modifies this
      ensures Valid()
      ensures value.Omitted? ==> r.Ok? && r.value.Rows?
      ensures value.Omitted? && r.Ok? && r.value.Rows? ==>
        ListsRows(updateState, r.value.rows) && SortedByDate(r.value.rows)
      ensures value.Omitted? ==> updateState == old(updateState)
      ensures value.IntArg? ==> r == Ok(Done) && updateState == old(updateState) - {value.id}
      ensures value.TupleArg? ==> r == Ok(Done) && updateState == old(updateState)[value.row.id := value.row]
      ensures value.NoneArg? ==> r == Err(UnsupportedParameters) && updateState == old(updateState)
      ensures session == old(session) && peers == old(peers) && usernames == old(usernames)
      ensures versionNumber == old(versionNumber)
    {
      match value
      case Omitted =>
        var rows := ScanUpdateStateByDate(updateState);
        r := Ok(Rows(rows));
      case IntArg(id) =>
        updateState := updateState - {id};
        r := Ok(Done);
      case TupleArg(row) =>
        updateState := updateState[row.id := row];
        r := Ok(Done);
      case NoneArg =>
        r := Err(UnsupportedParameters);
    }

    /** `get_peer_by_id`: KeyError when no row has the id. */
    method GetPeerById(peerId: int) returns (r: Result<InputPeer, StorageError>)
      ensures r == LookupId(Directory(), peerId)
    {
      if peerId in peers {
        r := GetInputPeer(peerId, peers[peerId].accessHash, peers[peerId].peerType);
      } else {
        r := Err(IdNotFound(peerId));
      }
    }

    /** `get_peer_by_username` at wall-clock time `now`. */
    method GetPeerByUsername(username: string, now: real) returns (r: Result<InputPeer, StorageError>)
      ensures r == LookupUsername(Directory(), username, now)
    {
      r := LookupUsername(Directory(), username, now);
    }

    /** `get_peer_by_phone_number`: any one peer with that number, or KeyError. */
    method GetPeerByPhoneNumber(phoneNumber: string) returns (r: Result<InputPeer, StorageError>)
      ensures PhoneLookup(peers, phoneNumber, r)
    {
      r := LookupPhone(peers, phoneNumber);
    }

    /** `_get_impl`: one column of the session row. */
    method Get(field: SessionField) returns (v: SqlValue)
      ensures v == GetField(session, field)
    {
      v := GetField(session, field);
    }

    /** `_set_impl`: writes one column; a rejected value leaves the row as it was. */
    method Set(field: SessionField, v: SqlValue) returns (r: Result<(), StorageError>)
      modifies this
      ensures SetField(old(session), field, v).Ok? ==> r == Ok(()) && session == SetField(old(session), field, v).value
      ensures SetField(old(session), field, v).Err? ==>
        r == Err(SetField(old(session), field, v).error) && session == old(session)
      ensures peers == old(peers) && usernames == old(usernames) && updateState == old(updateState)
      ensures versionNumber == old(versionNumber)
    {
      var updated := SetField(session, field, v);
      if updated.Ok? {
        session := updated.value;
        r := Ok(());
      } else {
        r := Err(updated.error);
      }
    }

    /** `_get_version_impl`. */
    method Version() returns (n: int)
      ensures n == versionNumber
    {
      n := versionNumber;
    }

    /** `_set_version_impl`. */
    method SetVersion(n: int)
      modifies this
      ensures versionNumber == n
      ensures session == old(session) && peers == old(peers) && usernames == old(usernames)
      ensures updateState == old(updateState)
    {
      versionNumber := n;
    }

    /** `save`: stores `int(time.time())` as the session date; a time beyond 64 bits raises OverflowError. */
    method Save(now: real) returns (r: Result<(), StorageError>)
      modifies this
      ensures FitsInt64(Trunc(now)) ==> r == Ok(()) && session == old(session).(date := Integer(Trunc(now)))
      ensures !FitsInt64(Trunc(now)) ==> r == Err(IntegerOverflow(Trunc(now))) && session == old(session)
      ensures peers == old(peers) && usernames == old(usernames) && updateState == old(updateState)
      ensures versionNumber == old(versionNumber)
    {
      r := Set(Date, Integer(Trunc(now)));
    }
  }
}
