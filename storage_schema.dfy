/**
 * The tables shared by `pyrogram/storage/sqlite_storage.py` and
 * `pyrogram/storage/aio_sqlite_storage.py`, and the pure meaning of the
 * operations both storage classes perform on them: `get_input_peer`, the
 * `update_peers` replace rules and the three peer lookups.
 */
module StorageSchema {
  import opened Wrappers
  import PeerIds

  const VERSION: int := 5
  /** Eight hours, in seconds. */
  const USERNAME_TTL: int := 8 * 60 * 60

  /** The raw input peers `get_input_peer` builds. */
  datatype InputPeer =
    | InputPeerUser(userId: int, accessHash: int)
    | InputPeerChat(chatId: int)
    | InputPeerChannel(channelId: int, accessHash: int)

  /**
   * The exceptions the storage layer raises: KeyError, ValueError, sqlite3
   * errors, the OverflowError of binding an int wider than SQLite's signed
   * 64-bit INTEGER, and NameError.
   */
  datatype StorageError =
    | IdNotFound(peerId: int)
    | UsernameNotFound(username: string)
    | UsernameExpired(username: string)
    | PhoneNumberNotFound(phoneNumber: string)
    | InvalidPeerType(peerType: string)
    | DatatypeMismatch
    | NotNullConstraintFailed
    | UnsupportedParameters
    | IntegerOverflow(value: int)
    | DuplicateColumn(column: string)
    | TableExists(table: string)
    | UndefinedName(name: string)

  predicate KnownPeerType(peerType: string) {
    peerType == "user" || peerType == "bot" || peerType == "group" ||
    peerType == "channel" || peerType == "supergroup"
  }

  /** `get_input_peer`: the stored type decides the raw peer; any other type is a ValueError. */
  function GetInputPeer(peerId: int, accessHash: int, peerType: string): (r: Result<InputPeer, StorageError>)
    ensures r.Ok? <==> KnownPeerType(peerType)
    ensures !KnownPeerType(peerType) ==> r == Err(InvalidPeerType(peerType))
  {
    if peerType == "user" || peerType == "bot" then Ok(InputPeerUser(peerId, accessHash))
    else if peerType == "group" then Ok(InputPeerChat(-peerId))
    else if peerType == "channel" || peerType == "supergroup" then
      Ok(InputPeerChannel(PeerIds.GetChannelId(peerId), accessHash))
    else Err(InvalidPeerType(peerType))
  }

  /** The marked id a raw input peer stands for, by `get_peer_id` on the matching peer. */
  function MarkedId(p: InputPeer): int {
    match p
    case InputPeerUser(u, _) => PeerIds.GetPeerId(PeerIds.PeerUser(u)).value
    case InputPeerChat(c) => PeerIds.GetPeerId(PeerIds.PeerChat(c)).value
    case InputPeerChannel(c, _) => PeerIds.GetPeerId(PeerIds.PeerChannel(c)).value
  }

  /** The access hash carried by a raw input peer (a basic group has none). */
  function AccessHash(p: InputPeer): Option<int> {
    match p
    case InputPeerUser(_, h) => Some(h)
    case InputPeerChat(_) => None
    case InputPeerChannel(_, h) => Some(h)
  }

  /**
   * `get_input_peer` loses nothing: the raw peer it builds stands for the same
   * marked id, keeps the access hash except for groups, and its kind follows the type.
   */
  lemma InputPeerMarkedId(peerId: int, accessHash: int, peerType: string)
    requires KnownPeerType(peerType)
    ensures MarkedId(GetInputPeer(peerId, accessHash, peerType).value) == peerId
    ensures peerType == "group" <==> AccessHash(GetInputPeer(peerId, accessHash, peerType).value) == None
    ensures peerType != "group" ==> AccessHash(GetInputPeer(peerId, accessHash, peerType).value) == Some(accessHash)
    ensures GetInputPeer(peerId, accessHash, peerType).value.InputPeerUser? <==> (peerType == "user" || peerType == "bot")
    ensures GetInputPeer(peerId, accessHash, peerType).value.InputPeerChannel? <==> (peerType == "channel" || peerType == "supergroup")
  {
    if peerType == "channel" || peerType == "supergroup" {
      PeerIds.ChannelIdInvolution(peerId);
    }
  }

  // ---------------------------------------------------------------- rows

  /** A row of `peers` without its key; `last_update_on` is seconds since the epoch. */
  datatype PeerRow = PeerRow(accessHash: int, peerType: string, phoneNumber: Option<string>, lastUpdateOn: int)

  /** A row of `usernames`; `None` is the marker stored for a peer without usernames. */
  datatype UsernameRow = UsernameRow(id: int, username: Option<string>)

  /** A row of `update_state`. */
  datatype UpdateStateRow = UpdateStateRow(id: int, pts: int, qts: int, date: int, seqNo: int)

  /** The argument of `update_state`: left out (`object`), an id, a row tuple, or `None`. */
  datatype UpdateStateArg = Omitted | IntArg(id: int) | TupleArg(row: UpdateStateRow) | NoneArg

  /** What `update_state` returns: the rows it read, or nothing after a write. */
  datatype UpdateStateReply = Rows(rows: seq<UpdateStateRow>) | Done

  /** One `(id, access_hash, type, usernames, phone_number)` tuple given to `update_peers`. */
  datatype PeerData = PeerData(id: int, accessHash: int, peerType: string, usernames: seq<string>, phoneNumber: Option<string>)

  /** The peer directory (keyed by id) and the alias relation (no key, insertion order). */
  datatype Tables = Tables(peers: map<int, PeerRow>, usernames: seq<UsernameRow>)

  /** The alias rows written for one peer: one per name, or the single `(id, None)` marker. */
  function AliasRows(id: int, names: seq<string>): (r: seq<UsernameRow>)
    ensures |r| > 0
    ensures forall k :: 0 <= k < |r| ==> r[k].id == id
    ensures |names| == 0 ==> r == [UsernameRow(id, None)]
    ensures |names| > 0 ==> |r| == |names| && forall k :: 0 <= k < |r| ==> r[k].username == Some(names[k])
  {
    if |names| == 0 then [UsernameRow(id, None)]
    else seq(|names|, k requires 0 <= k < |names| => UsernameRow(id, Some(names[k])))
  }

  /** `DELETE FROM usernames WHERE id = ?`. */
  function RemoveId(rows: seq<UsernameRow>, id: int): (r: seq<UsernameRow>)
    ensures forall row :: row in r <==> row in rows && row.id != id
  {
    if |rows| == 0 then []
    else if rows[0].id == id then RemoveId(rows[1..], id)
    else [rows[0]] + RemoveId(rows[1..], id)
  }

  /** The alias rows of one peer, in table order. */
  function OwnRows(rows: seq<UsernameRow>, id: int): (r: seq<UsernameRow>)
    ensures forall row :: row in r <==> row in rows && row.id == id
  {
    if |rows| == 0 then []
    else if rows[0].id == id then [rows[0]] + OwnRows(rows[1..], id)
    else OwnRows(rows[1..], id)
  }

  /**
   * One iteration of the `update_peers` loop: REPLACE of the peer row (a fresh
   * row, so `last_update_on` takes the default `now`), deletion of its alias
   * rows and insertion of the new ones.
   */
  function ApplyPeer(t: Tables, e: PeerData, now: int): Tables {
    Tables(t.peers[e.id := PeerRow(e.accessHash, e.peerType, e.phoneNumber, now)],
           RemoveId(t.usernames, e.id) + AliasRows(e.id, e.usernames))
  }

  /**
   * The whole `update_peers` batch, in order. Each REPLACE is its own
   * statement, so `stamps[k]` is SQLite's `now` when entry k is written.
   */
  function ApplyBatch(t: Tables, batch: seq<PeerData>, stamps: seq<int>): Tables
    requires |stamps| == |batch|
    decreases |batch|
  {
    if |batch| == 0 then t
    else ApplyPeer(ApplyBatch(t, batch[..|batch| - 1], stamps[..|batch| - 1]), batch[|batch| - 1], stamps[|batch| - 1])
  }

  /** `ApplyBatch` grows one entry at a time, as the `update_peers` loop does. */
  lemma BatchStep(t: Tables, batch: seq<PeerData>, stamps: seq<int>, i: nat)
    requires |stamps| == |batch| && i < |batch|
    ensures ApplyBatch(t, batch[..i + 1], stamps[..i + 1]) ==
            ApplyPeer(ApplyBatch(t, batch[..i], stamps[..i]), batch[i], stamps[i])
  {
    assert batch[..i + 1][..i] == batch[..i];
    assert stamps[..i + 1][..i] == stamps[..i];
  }

  /** The position of the last entry for `id` in a batch. */
  function LastEntry(batch: seq<PeerData>, id: int): (r: Option<nat>)
    ensures r.None? <==> forall k :: 0 <= k < |batch| ==> batch[k].id != id
    ensures r.Some? ==> r.value < |batch| && batch[r.value].id == id &&
                        forall k :: r.value < k < |batch| ==> batch[k].id != id
  {
    if |batch| == 0 then None
    else if batch[|batch| - 1].id == id then Some(|batch| - 1)
    else LastEntry(batch[..|batch| - 1], id)
  }

  // ---------------------------------------------------------------- lookups

  /** `SELECT ... FROM peers WHERE id = ?` followed by `get_input_peer`. */
  function LookupId(t: Tables, peerId: int): (r: Result<InputPeer, StorageError>)
    ensures r == Err(IdNotFound(peerId)) <==> peerId !in t.peers
    ensures peerId in t.peers ==>
      r == GetInputPeer(peerId, t.peers[peerId].accessHash, t.peers[peerId].peerType)
  {
    if peerId in t.peers then GetInputPeer(peerId, t.peers[peerId].accessHash, t.peers[peerId].peerType)
    else Err(IdNotFound(peerId))
  }

  /** Row `k` of `usernames` names `u` and joins a peer row. */
  predicate AliasMatch(t: Tables, u: string, k: int) {
    0 <= k < |t.usernames| && t.usernames[k].username == Some(u) && t.usernames[k].id in t.peers
  }

  ghost predicate HasAlias(t: Tables, u: string) {
    exists k :: AliasMatch(t, u, k)
  }

  /** Row `k` is a match whose peer has the largest `last_update_on` of all matches. */
  ghost predicate IsFreshestAlias(t: Tables, u: string, k: int) {
    AliasMatch(t, u, k) &&
    forall j :: AliasMatch(t, u, j) ==>
      t.peers[t.usernames[j].id].lastUpdateOn <= t.peers[t.usernames[k].id].lastUpdateOn
  }

  /**
   * The first row of the JOIN as ordered by `last_update_on DESC` among the
   * first `n` alias rows. SQLite leaves the order of ties open; this picks the
   * earliest one.
   */
  function BestMatch(t: Tables, u: string, n: nat): (r: Option<nat>)
    requires n <= |t.usernames|
    ensures r.None? <==> forall k :: 0 <= k < n ==> !AliasMatch(t, u, k)
    ensures r.Some? ==> r.value < n && AliasMatch(t, u, r.value)
    ensures r.Some? ==> forall j :: 0 <= j < n && AliasMatch(t, u, j) ==>
      t.peers[t.usernames[j].id].lastUpdateOn <= t.peers[t.usernames[r.value].id].lastUpdateOn
  {
    if n == 0 then None
    else
      var b := BestMatch(t, u, n - 1);
      if AliasMatch(t, u, n - 1) &&
         (b.None? || t.peers[t.usernames[n - 1].id].lastUpdateOn > t.peers[t.usernames[b.value].id].lastUpdateOn)
      then Some(n - 1)
      else b
  }

  function Abs(x: real): real { if x < 0.0 then -x else x }

  /** `abs(time.time() - last_update_on) > USERNAME_TTL`. */
  predicate Expired(lastUpdateOn: int, now: real) {
    Abs(now - lastUpdateOn as real) > USERNAME_TTL as real
  }

  /** What `get_peer_by_username` answers once the JOIN has picked alias row `k`. */
  function Resolve(t: Tables, u: string, k: nat, now: real): Result<InputPeer, StorageError>
    requires AliasMatch(t, u, k)
  {
    var row := t.peers[t.usernames[k].id];
    if Expired(row.lastUpdateOn, now) then Err(UsernameExpired(u))
    else GetInputPeer(t.usernames[k].id, row.accessHash, row.peerType)
  }

  /** `get_peer_by_username` at wall-clock time `now`. */
  function LookupUsername(t: Tables, u: string, now: real): (r: Result<InputPeer, StorageError>)
    ensures r == Err(UsernameNotFound(u)) <==> !HasAlias(t, u)
    ensures HasAlias(t, u) ==> exists k :: IsFreshestAlias(t, u, k) && r == Resolve(t, u, k, now)
  {
    match BestMatch(t, u, |t.usernames|)
    case None => Err(UsernameNotFound(u))
    case Some(k) =>
      assert IsFreshestAlias(t, u, k);
      Resolve(t, u, k, now)
  }

  /** The answers `get_peer_by_phone_number` may give: SQLite returns any one matching row. */
  ghost predicate PhoneLookup(peers: map<int, PeerRow>, phone: string, r: Result<InputPeer, StorageError>) {
    (r == Err(PhoneNumberNotFound(phone)) && forall id :: id in peers ==> peers[id].phoneNumber != Some(phone)) ||
    (exists id :: id in peers && peers[id].phoneNumber == Some(phone) &&
       r == GetInputPeer(id, peers[id].accessHash, peers[id].peerType))
  }

  /** `SELECT ... FROM peers WHERE phone_number = ?` and `fetchone`, then `get_input_peer`. */
  method LookupPhone(peers: map<int, PeerRow>, phone: string) returns (r: Result<InputPeer, StorageError>)
    ensures PhoneLookup(peers, phone, r)
  {
    if id :| id in peers && peers[id].phoneNumber == Some(phone) {
      r := GetInputPeer(id, peers[id].accessHash, peers[id].peerType);
    } else {
      r := Err(PhoneNumberNotFound(phone));
    }
  }

  /** When one peer holds the phone number, the lookup is determined by that peer. */
  lemma PhoneLookupUnique(peers: map<int, PeerRow>, phone: string, id: int, r: Result<InputPeer, StorageError>)
    requires id in peers && peers[id].phoneNumber == Some(phone)
    requires forall other :: other in peers && other != id ==> peers[other].phoneNumber != Some(phone)
    requires PhoneLookup(peers, phone, r)
    ensures r == GetInputPeer(id, peers[id].accessHash, peers[id].peerType)
  {
  }

  // ---------------------------------------------------------------- lemmas about update_peers

  lemma {:induction false} OwnRowsConcat(a: seq<UsernameRow>, b: seq<UsernameRow>, x: int)
    ensures OwnRows(a + b, x) == OwnRows(a, x) + OwnRows(b, x)
  {
    if |a| > 0 {
      assert (a + b)[1..] == a[1..] + b;
      OwnRowsConcat(a[1..], b, x);
    } else {
      assert a + b == b;
    }
  }

  lemma {:induction false} OwnRowsRemove(rows: seq<UsernameRow>, y: int, x: int)
    ensures OwnRows(RemoveId(rows, y), x) == if x == y then [] else OwnRows(rows, x)
  {
    if |rows| > 0 {
      OwnRowsRemove(rows[1..], y, x);
      if rows[0].id != y {
        var rest := RemoveId(rows[1..], y);
        assert ([rows[0]] + rest)[1..] == rest;
      }
    }
  }

  lemma {:induction false} OwnRowsUniform(rows: seq<UsernameRow>, y: int, x: int)
    requires forall k :: 0 <= k < |rows| ==> rows[k].id == y
    ensures OwnRows(rows, x) == if x == y then rows else []
  {
    if |rows| > 0 {
      OwnRowsUniform(rows[1..], y, x);
      if x == y {
        assert rows == [rows[0]] + rows[1..];
      }
    }
  }

  /** One batch entry replaces exactly its own alias rows. */
  lemma ApplyPeerAliases(t: Tables, e: PeerData, now: int, x: int)
    ensures OwnRows(ApplyPeer(t, e, now).usernames, x) ==
            if x == e.id then AliasRows(e.id, e.usernames) else OwnRows(t.usernames, x)
  {
    OwnRowsConcat(RemoveId(t.usernames, e.id), AliasRows(e.id, e.usernames), x);
    OwnRowsRemove(t.usernames, e.id, x);
    OwnRowsUniform(AliasRows(e.id, e.usernames), e.id, x);
  }

  /**
   * After `update_peers`, the alias rows of a peer are exactly the ones written
   * for its last entry in the batch; names from earlier entries and earlier
   * calls are gone, and peers outside the batch keep theirs.
   */
  lemma {:induction false} BatchAliases(t: Tables, batch: seq<PeerData>, stamps: seq<int>, x: int)
    requires |stamps| == |batch|
    ensures OwnRows(ApplyBatch(t, batch, stamps).usernames, x) ==
            match LastEntry(batch, x)
            case Some(k) => AliasRows(x, batch[k].usernames)
            case None => OwnRows(t.usernames, x)
    decreases |batch|
  {
    if |batch| > 0 {
      var prefix, e := batch[..|batch| - 1], batch[|batch| - 1];
      var early := stamps[..|batch| - 1];
      ApplyPeerAliases(ApplyBatch(t, prefix, early), e, stamps[|batch| - 1], x);
      if x != e.id {
        BatchAliases(t, prefix, early, x);
      }
    }
  }

  /**
   * After `update_peers`, a peer's row comes from its last entry in the batch
   * and carries that entry's statement time; peers outside the batch are untouched.
   */
  lemma {:induction false} BatchPeers(t: Tables, batch: seq<PeerData>, stamps: seq<int>, x: int)
    requires |stamps| == |batch|
    ensures var peers := ApplyBatch(t, batch, stamps).peers;
            match LastEntry(batch, x)
            case Some(k) =>
              x in peers && peers[x] == PeerRow(batch[k].accessHash, batch[k].peerType, batch[k].phoneNumber, stamps[k])
            case None =>
              (x in peers <==> x in t.peers) && (x in t.peers ==> peers[x] == t.peers[x])
    decreases |batch|
  {
    if |batch| > 0 && batch[|batch| - 1].id != x {
      BatchPeers(t, batch[..|batch| - 1], stamps[..|batch| - 1], x);
    }
  }

  /** Latest write wins: `get_peer_by_id` after `update_peers` sees the last entry for the id. */
  lemma LatestWriteWins(t: Tables, batch: seq<PeerData>, stamps: seq<int>, x: int)
    requires |stamps| == |batch|
    ensures LookupId(ApplyBatch(t, batch, stamps), x) ==
            match LastEntry(batch, x)
            case Some(k) => GetInputPeer(x, batch[k].accessHash, batch[k].peerType)
            case None => LookupId(t, x)
  {
    BatchPeers(t, batch, stamps, x);
  }

  /**
   * A peer whose last entry has no usernames keeps exactly one `(id, None)`
   * marker row, and no username lookup matches any row of that peer.
   */
  lemma MarkerNeverMatches(t: Tables, batch: seq<PeerData>, stamps: seq<int>, x: int, k: nat)
    requires |stamps| == |batch|
    requires LastEntry(batch, x) == Some(k) && |batch[k].usernames| == 0
    ensures OwnRows(ApplyBatch(t, batch, stamps).usernames, x) == [UsernameRow(x, None)]
    ensures forall u, j :: AliasMatch(ApplyBatch(t, batch, stamps), u, j) ==>
      ApplyBatch(t, batch, stamps).usernames[j].id != x
  {
    BatchAliases(t, batch, stamps, x);
  }

  /** While the freshest owner of a name is picked among ties, the expiry verdict does not depend on the tie. */
  lemma UsernameExpiry(t: Tables, u: string, now: real, k: nat)
    requires IsFreshestAlias(t, u, k)
    ensures LookupUsername(t, u, now) == Err(UsernameExpired(u)) <==>
            Expired(t.peers[t.usernames[k].id].lastUpdateOn, now)
  {
    assert AliasMatch(t, u, k);
    var k' := BestMatch(t, u, |t.usernames|).value;
    assert LookupUsername(t, u, now) == Resolve(t, u, k', now);
    assert t.peers[t.usernames[k'].id].lastUpdateOn <= t.peers[t.usernames[k].id].lastUpdateOn;
    assert t.peers[t.usernames[k].id].lastUpdateOn <= t.peers[t.usernames[k'].id].lastUpdateOn;
  }

  /**
   * A name just written by `update_peers` at SQLite time `stamp` (with no stored
   * peer stamped later) is found, and is expired at wall-clock `clock` iff
   * `clock` is more than eight hours away from `stamp`, in either direction.
   */
  lemma FreshAliasLookup(t: Tables, e: PeerData, stamp: int, u: string, clock: real)
    requires u in e.usernames
    requires forall id :: id in t.peers ==> t.peers[id].lastUpdateOn <= stamp
    ensures HasAlias(ApplyPeer(t, e, stamp), u)
    ensures LookupUsername(ApplyPeer(t, e, stamp), u, clock) == Err(UsernameExpired(u)) <==> Expired(stamp, clock)
  {
    var t' := ApplyPeer(t, e, stamp);
    var kept := RemoveId(t.usernames, e.id);
    var alias := AliasRows(e.id, e.usernames);
    var n :| 0 <= n < |e.usernames| && e.usernames[n] == u;
    var k0 := |kept| + n;
    assert t'.usernames[k0] == alias[n];
    assert AliasMatch(t', u, k0);
    var k := BestMatch(t', u, |t'.usernames|).value;
    assert IsFreshestAlias(t', u, k);
    assert t'.peers[t'.usernames[k].id].lastUpdateOn == stamp;
    UsernameExpiry(t', u, clock, k);
  }

  /** When no other peer held the name, the lookup of a freshly written, unexpired name resolves to the new entry. */
  lemma FreshAliasResolves(t: Tables, e: PeerData, stamp: int, u: string, clock: real)
    requires u in e.usernames
    requires forall row :: row in t.usernames && row.username == Some(u) ==> row.id == e.id
    requires !Expired(stamp, clock)
    ensures LookupUsername(ApplyPeer(t, e, stamp), u, clock) == GetInputPeer(e.id, e.accessHash, e.peerType)
  {
    var t' := ApplyPeer(t, e, stamp);
    var kept := RemoveId(t.usernames, e.id);
    var alias := AliasRows(e.id, e.usernames);
    var n :| 0 <= n < |e.usernames| && e.usernames[n] == u;
    assert t'.usernames[|kept| + n] == alias[n];
    assert AliasMatch(t', u, |kept| + n);
    var k := BestMatch(t', u, |t'.usernames|).value;
    if k < |kept| {
      assert false;
    }
    assert t'.usernames[k] == alias[k - |kept|];
  }

  /** `id INTEGER PRIMARY KEY`: every row sits under its own id. */
  ghost predicate KeyedById(m: map<int, UpdateStateRow>) {
    forall k :: k in m ==> m[k].id == k
  }

  /** `rows` is the result of a SELECT over the whole table: every row once and nothing else. */
  ghost predicate ListsRows(m: map<int, UpdateStateRow>, rows: seq<UpdateStateRow>) {
    (forall r :: r in rows <==> r.id in m && m[r.id] == r) && |rows| == |m|
  }

  predicate SortedByDate(rows: seq<UpdateStateRow>) {
    forall i, j :: 0 <= i < j < |rows| ==> rows[i].date <= rows[j].date
  }

  /** Every stored row shows up in a full listing. */
  lemma ListingCoversTable(m: map<int, UpdateStateRow>, rows: seq<UpdateStateRow>, k: int)
    requires KeyedById(m) && ListsRows(m, rows) && k in m
    ensures m[k] in rows
  {
    assert m[k].id == k;
  }

  /** `SELECT id, pts, qts, date, seq FROM update_state`: no order is promised. */
  method ScanUpdateState(m: map<int, UpdateStateRow>) returns (rows: seq<UpdateStateRow>)
    requires KeyedById(m)
    ensures ListsRows(m, rows)
  {
    rows := [];
    var remaining := m.Keys;
    ghost var done: set<int> := {};
    while remaining != {}
      invariant remaining !! done && remaining + done == m.Keys
      invariant forall r :: r in rows <==> r.id in done && m[r.id] == r
      invariant |rows| == |done|
      decreases |remaining|
    {
      HasElement(remaining);
      var k :| k in remaining;
      rows := rows + [m[k]];
      remaining := remaining - {k};
      done := done + {k};
    }
    assert done == m.Keys;
  }

  lemma HasElement(s: set<int>)
    requires s != {}
    ensures exists x :: x in s
  {
    if forall x :: x !in s {
      assert false;
    }
  }

  /** A non-empty set of stored ids has one whose row has the smallest date. */
  lemma {:induction false} EarliestExists(m: map<int, UpdateStateRow>, s: set<int>)
    requires s != {} && s <= m.Keys
    ensures exists k :: k in s && forall j :: j in s ==> m[k].date <= m[j].date
    decreases |s|
  {
    HasElement(s);
    var x :| x in s;
    if s == {x} {
      assert forall j :: j in s ==> j == x;
    } else {
      EarliestExists(m, s - {x});
      var y :| y in s - {x} && forall j :: j in s - {x} ==> m[y].date <= m[j].date;
      if m[x].date < m[y].date {
        assert forall j :: j in s ==> m[x].date <= m[j].date;
      } else {
        assert forall j :: j in s ==> j == x || j in s - {x};
      }
    }
  }

  /** A row no earlier than every listed one extends a date-sorted listing. */
  lemma SortedAppend(rows: seq<UpdateStateRow>, x: UpdateStateRow)
    requires SortedByDate(rows)
    requires forall i :: 0 <= i < |rows| ==> rows[i].date <= x.date
    ensures SortedByDate(rows + [x])
    ensures forall r :: r in rows + [x] <==> r in rows || r == x
  {
  }

  /** Moving the earliest remaining row to the end of the listing keeps the scan's invariants. */
  lemma ScanStep(m: map<int, UpdateStateRow>, rows: seq<UpdateStateRow>, remaining: set<int>, done: set<int>, k: int)
    requires KeyedById(m)
    requires remaining !! done && remaining + done == m.Keys
    requires forall r :: r in rows <==> r.id in done && m[r.id] == r
    requires SortedByDate(rows)
    requires forall i, j :: 0 <= i < |rows| && j in remaining ==> rows[i].date <= m[j].date
    requires k in remaining && forall j :: j in remaining ==> m[k].date <= m[j].date
    ensures forall r :: r in rows + [m[k]] <==> r.id in done + {k} && m[r.id] == r
    ensures SortedByDate(rows + [m[k]])
    ensures forall i, j :: 0 <= i < |rows| + 1 && j in remaining - {k} ==> (rows + [m[k]])[i].date <= m[j].date
  {
    SortedAppend(rows, m[k]);
  }

  /** `SELECT id, pts, qts, date, seq FROM update_state ORDER BY date ASC`; ties in any order. */
  method ScanUpdateStateByDate(m: map<int, UpdateStateRow>) returns (rows: seq<UpdateStateRow>)
    requires KeyedById(m)
    ensures ListsRows(m, rows) && SortedByDate(rows)
  {
    rows := [];
    var remaining := m.Keys;
    ghost var done: set<int> := {};
    while remaining != {}
      invariant remaining !! done && remaining + done == m.Keys
      invariant forall r :: r in rows <==> r.id in done && m[r.id] == r
      invariant |rows| == |done|
      invariant SortedByDate(rows)
      invariant forall i, j :: 0 <= i < |rows| && j in remaining ==> rows[i].date <= m[j].date
      decreases |remaining|
    {
      EarliestExists(m, remaining);
      var k :| k in remaining && forall j :: j in remaining ==> m[k].date <= m[j].date;
      ScanStep(m, rows, remaining, done, k);
      rows := rows + [m[k]];
      remaining := remaining - {k};
      done := done + {k};
    }
    assert done == m.Keys;
  }

  // ---------------------------------------------------------------- sessions

  /** The SQLite storage classes a session value can have. */
  datatype SqlValue = Null | Integer(i: int) | Text(text: string) | Blob(bytes: seq<int>)

  /** The columns of `sessions`, one per accessor method. */
  datatype SessionField = DcId | ApiId | TestMode | AuthKey | Date | UserId | IsBot

  /** The single row of `sessions`. */
  datatype SessionRow = SessionRow(dcId: SqlValue, apiId: SqlValue, testMode: SqlValue, authKey: SqlValue,
                                   date: SqlValue, userId: SqlValue, isBot: SqlValue)

  /** The row `create` inserts: `(2, None, None, None, 0, None, None)`. */
  const DEFAULT_SESSION: SessionRow := SessionRow(Integer(2), Null, Null, Null, Integer(0), Null, Null)

  /** `SELECT {attr} FROM sessions`. */
  function GetField(s: SessionRow, f: SessionField): SqlValue {
    match f
    case DcId => s.dcId
    case ApiId => s.apiId
    case TestMode => s.testMode
    case AuthKey => s.authKey
    case Date => s.date
    case UserId => s.userId
    case IsBot => s.isBot
  }

  /** The range of SQLite's INTEGER storage class, a signed 64-bit integer. */
  predicate FitsInt64(i: int) {
    -0x8000_0000_0000_0000 <= i < 0x8000_0000_0000_0000
  }

  /**
   * `UPDATE sessions SET {attr} = ?`. Binding the parameter comes first, and an
   * int outside the signed 64-bit range fails there; then `dc_id`, the INTEGER
   * PRIMARY KEY, only takes integers, and `date` is NOT NULL.
   */
  function SetField(s: SessionRow, f: SessionField, v: SqlValue): (r: Result<SessionRow, StorageError>)
    ensures r.Err? <==> (v.Integer? && !FitsInt64(v.i)) || (f == DcId && !v.Integer?) || (f == Date && v.Null?)
    ensures v.Integer? && !FitsInt64(v.i) ==> r == Err(IntegerOverflow(v.i))
    ensures r.Err? && !v.Integer? ==> r.error == if f == DcId then DatatypeMismatch else NotNullConstraintFailed
    ensures r.Ok? ==> GetField(r.value, f) == v
    ensures r.Ok? ==> forall g :: g != f ==> GetField(r.value, g) == GetField(s, g)
  {
    if v.Integer? && !FitsInt64(v.i) then Err(IntegerOverflow(v.i))
    else if f == DcId && !v.Integer? then Err(DatatypeMismatch)
    else if f == Date && v.Null? then Err(NotNullConstraintFailed)
    else
      Ok(match f
         case DcId => s.(dcId := v)
         case ApiId => s.(apiId := v)
         case TestMode => s.(testMode := v)
         case AuthKey => s.(authKey := v)
         case Date => s.(date := v)
         case UserId => s.(userId := v)
         case IsBot => s.(isBot := v))
  }

  /** Python's `int()` on a float: truncation toward zero. */
  function Trunc(x: real): (r: int)
    ensures x >= 0.0 ==> r >= 0 && r as real <= x < r as real + 1.0
    ensures x < 0.0 ==> r <= 0 && r as real - 1.0 < x <= r as real
  {
    if x >= 0.0 then x.Floor else -((-x).Floor)
  }
}
