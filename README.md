# Pyrogram session storage, peer ids and API mappings in Dafny

This project models the part of Pyrogram (a Telegram MTProto client library
for Python) that keeps a client's session, and the small pure codecs and
translations around it. Dafny proves properties of the model.

- **Session storage.** A store has five tables:
  - a one-row `sessions` record (data centre, API id, test mode, auth key, date, user id, bot flag);
  - a `peers` directory keyed by marked peer id;
  - a `usernames` alias relation;
  - an `update_state` table keyed by id;
  - a schema `version` number.

  `SQLiteStorage.SQLiteStore` is the synchronous `SQLiteStorage`. Each of its
  `with self.conn:` blocks is one method over the tables. The block commits
  when it ends normally and rolls back when it raises.
  `AioSQLiteStorage.AioStore` is the asynchronous variant. Its row writes and
  migration steps become durable at the `commit()` that follows them, so the
  class keeps the committed file image `disk` and a ghost history of commits.
  The schema script of `create` commits on its own; this image is not
  modelled (see Left out). The tables, the domain of
  `get_input_peer` and the lookups both classes share live in
  `StorageSchema`.
- **Peer ids** (`PeerIds`). The arithmetic between raw peers and the marked
  ids the storage uses as keys: user ids positive, basic groups negated,
  channels offset by `-1000000000000`.
- **Inline message ids** (`ByteCodec`, `Base64Url`, `InlineMessageId`).
  - A little-endian struct layout: `<iqq`, 20 bytes, or `<iqiq`, 24 bytes.
  - Wrapped in the URL-safe base64 alphabet of section 5 of RFC 4648, with its padding stripped.
  - Also here: the big-endian `btoi`/`itob` pair and the byte-wise `xor`.
- **Plain domains** (`Domains`). `is_plain_domain`, with `str.find` modelled exactly.
- **API/raw translations.**
  - `ChatPermissions`: permissions against the raw `ChatBannedRights`.
  - `KeyboardButtons`: a reply-keyboard button against the raw button constructors.
  - `SwitchInlineQuery`: `SwitchInlineQueryChosenChat` against its raw peer-type list.

Python's optional booleans are `Option<bool>`, and truthiness is
`Wrappers.Truthy`. An exception is an `Err` value of a `Result`, so every
error path of the code is part of a contract.

External inputs are parameters:
- the wall clock `time.time()` is a `real`;
- SQLite's `STRFTIME('%s','now')` is one `int` per batch entry given to `update_peers`, since each `REPLACE` is its own statement;
- the "does the file exist" test of `open` is an `Option` of the existing file image.

The synchronous `_update_state_impl` reads its rows with `ORDER BY date`. This
is modelled as a selection loop that emits rows in ascending date.
`get_peer_by_username` takes the first row of `ORDER BY last_update_on DESC`,
and `get_peer_by_phone_number` takes the first matching row. SQLite does not
fix the order of ties in either query, so both contracts promise only what the
query guarantees: a freshest match in the first case, and some match in the
second.

Both storage classes follow the code as written, including the migration of
`aio_sqlite_storage.py` (see Findings). The evidently intended migration is a
separate function with its own lemmas.

## Model

| member | source | states |
|---|---|---|
| Wrappers.Not | pyrogram/types/user_and_chats/chat_permissions.py:134-145 | Python `not` on an optional boolean is true exactly when the value is not `True` (so `not None` is `True`) |
| Wrappers.NotNot | pyrogram/types/user_and_chats/chat_permissions.py:198-219 | for a definite boolean, negating twice gives the value back |
| PeerIds.GetRawPeerId | pyrogram/utils.py:247-258 | a user, chat or channel peer gives its own `user_id`, `chat_id` or `channel_id`; any other object gives None |
| PeerIds.GetPeerId | pyrogram/utils.py:261-272 | no contract of its own; PeerIdMapping states the three cases and the ValueError |
| PeerIds.GetPeerType | pyrogram/utils.py:275-285 | no contract of its own; PeerTypeRanges states the ranges and the ValueError |
| PeerIds.GetChannelId | pyrogram/utils.py:288-289 | no contract of its own; ChannelIdInvolution states that it undoes itself |
| PeerIds.ChannelIdInvolution | pyrogram/utils.py:288-289 | `get_channel_id` undoes itself for every integer |
| PeerIds.PeerIdMapping | pyrogram/utils.py:261-272 | user id unchanged, chat id negated, channel id through `get_channel_id`, and ValueError for exactly the other peers |
| PeerIds.PeerTypeRanges | pyrogram/utils.py:275-285 | "chat", "channel" and "user" each hold exactly on their id range, and ValueError exactly outside all three, so the ranges are disjoint and 0 and -1000000000000 are invalid |
| PeerIds.MarkedIdsClassify | pyrogram/utils.py:239-289 | a marked channel id of a 32-bit channel classifies as "channel", a negated chat id as "chat", a user id as "user" |
| PeerIds.PeerFromMarkedId | pyrogram/utils.py:275-285 | a peer is recovered from a marked id exactly when `get_peer_type` accepts it |
| PeerIds.MarkedIdRoundTrip | pyrogram/utils.py:261-289 | marking a peer with an in-range id and classifying the mark gives the same peer back |
| ByteCodec.ToBytesBE | pyrogram/utils.py:296-297 | the big-endian encoding has the requested length |
| ByteCodec.Btoi | pyrogram/utils.py:292-293 | no contract of its own; FromBytesBEBound, ItobBtoiRoundTrip and BtoiItobRoundTrip state its properties |
| ByteCodec.Itob | pyrogram/utils.py:296-297 | `itob` succeeds exactly for 0 <= i < 2^2048, always with 256 bytes, and raises OverflowError otherwise |
| ByteCodec.FromBytesBEBound | pyrogram/utils.py:292-293 | `btoi` of n bytes is below 256^n |
| ByteCodec.FromToBytesBE | pyrogram/utils.py:292-297 | decoding the big-endian encoding of a number that fits gives the number |
| ByteCodec.ToFromBytesBE | pyrogram/utils.py:292-297 | encoding the decoded value at the same width gives the bytes back |
| ByteCodec.ItobBtoiRoundTrip | pyrogram/utils.py:292-297 | `btoi(itob(i)) == i` for 0 <= i < 2^2048 |
| ByteCodec.BtoiItobRoundTrip | pyrogram/utils.py:292-297 | `itob(btoi(b)) == b` for every 256-byte `b` |
| ByteCodec.ToBytesLE | pyrogram/utils.py:197-211 | the little-endian field has the requested width |
| ByteCodec.FromToBytesLE | pyrogram/utils.py:197-236 | a little-endian field decodes to the unsigned value it encodes |
| ByteCodec.PackSignedLE | pyrogram/utils.py:197-211 | a signed struct field has the requested width |
| ByteCodec.SignedRoundTrip | pyrogram/utils.py:197-236 | a two's-complement little-endian field unpacks to the signed value packed, when it fits |
| ByteCodec.Xor | pyrogram/utils.py:304-305 | `xor` has the length of the shorter input, and each byte is the bitwise xor of the bytes at that position |
| ByteCodec.XorBitsCancel | pyrogram/utils.py:304-305 | xoring twice with the same operand cancels, bit by bit |
| ByteCodec.XorByteCancel | pyrogram/utils.py:304-305 | xoring a byte twice with the same byte gives it back |
| ByteCodec.XorTwice | pyrogram/utils.py:304-305 | for equal lengths, `xor(xor(a, b), b) == a` |
| Base64Url.EncodeChar | pyrogram/utils.py:213 | every sextet maps to an alphabet character, never the pad `=` |
| Base64Url.DecodeEncodeChar | pyrogram/utils.py:213-218 | the alphabet decodes each of its characters back to its sextet |
| Base64Url.EncodeUnpadded | pyrogram/utils.py:213 | the unpadded encoding has ceil(4n/3) characters, none of them `=` |
| Base64Url.Encode | pyrogram/utils.py:213 | `urlsafe_b64encode` yields a multiple of 4 characters |
| Base64Url.RStripPad | pyrogram/utils.py:213 | `rstrip("=")` leaves a prefix that does not end in `=`, with only `=` removed |
| Base64Url.RepadCount | pyrogram/utils.py:217 | `-len % 4` is in 0..3 and brings the length to a multiple of 4 |
| Base64Url.Repad | pyrogram/utils.py:217 | the repadded text has a length that is a multiple of 4 |
| Base64Url.DecodeQuad | pyrogram/utils.py:218 | a full group decodes to 3 bytes or is rejected |
| Base64Url.DecodeLastGroup | pyrogram/utils.py:218 | a final group decodes to 1 to 3 bytes by its padding, or is rejected |
| Base64Url.Decode | pyrogram/utils.py:218 | text that decodes has a length that is a multiple of 4; DecodeEncode and StrippedRoundTrip state that it inverts the encoder |
| Base64Url.DecodeEncode | pyrogram/utils.py:213-218 | decoding the padded encoding gives the bytes back |
| Base64Url.StripPadding | pyrogram/utils.py:213-217 | stripping `=` from text that ends in k pad characters of an unpadded body gives the body |
| Base64Url.RepadStripped | pyrogram/utils.py:213-217 | the repadding of the unpack side restores exactly what the `rstrip("=")` of the pack side removed |
| Base64Url.StrippedRoundTrip | pyrogram/utils.py:213-218 | decoding the repadded stripped encoding gives the bytes back |
| InlineMessageId.PackStruct | pyrogram/utils.py:197-211 | layout `<iqq` is 20 bytes and layout `<iqiq` is 24 bytes |
| InlineMessageId.Pack | pyrogram/utils.py:196-213 | packing succeeds exactly when every field fits its i32/i64 slot, and raises struct.error otherwise |
| InlineMessageId.UnpackStruct | pyrogram/utils.py:216-236 | unpacking the struct bytes of either layout gives the fields back |
| InlineMessageId.Unpack | pyrogram/utils.py:216-236 | no contract of its own; UnpackLayoutByLength states its layouts and errors, PackUnpackRoundTrip that it inverts `pack` |
| InlineMessageId.PackUnpackRoundTrip | pyrogram/utils.py:196-236 | `unpack_inline_message_id(pack_inline_message_id(m)) == m` for both layouts when the fields fit |
| InlineMessageId.UnpackLayoutByLength | pyrogram/utils.py:216-236 | the decoded length alone picks the layout: 20 gives the short form, 24 the 64-bit form, anything else struct.error, bad base64 a decoding error |
| Domains.Find | pyrogram/utils.py:515-521 | `str.find` returns -1 exactly when the character is absent, and otherwise the index of its first occurrence, always below `len` |
| Domains.IsPlainDomain | pyrogram/utils.py:515-521 | no contract of its own; IsPlainDomainNeverHolds states that it is false for every string |
| Domains.IsPlainDomainIntended | pyrogram/utils.py:515-521 | no contract of its own; IsPlainDomainIntendedMeaning states what it tests |
| Domains.IsPlainDomainNeverHolds | pyrogram/utils.py:515-521 | as written, `is_plain_domain` is false for every string |
| Domains.IsPlainDomainIntendedMeaning | pyrogram/utils.py:515-521 | the intended test holds exactly when none of `/`, `?`, `#` occurs |
| Domains.BareDomainRejected | pyrogram/utils.py:515-521 | on `"t.me"` the code yields false where the intended test yields true |
| StorageSchema.GetInputPeer | pyrogram/storage/sqlite_storage.py:93-111 | user/bot, group and channel/supergroup give an input peer, and any other type gives ValueError |
| StorageSchema.InputPeerMarkedId | pyrogram/storage/sqlite_storage.py:93-111 | the input peer has the stored marked id: user id unchanged, group id negated, channel id through `get_channel_id`; the access hash is kept except for groups |
| StorageSchema.AliasRows | pyrogram/storage/sqlite_storage.py:175-178 | the rows for a username list are one row per name, and exactly one `(id, None)` marker for an empty list |
| StorageSchema.RemoveId | pyrogram/storage/sqlite_storage.py:170-173 | `DELETE ... WHERE id = ?` keeps exactly the other ids' rows |
| StorageSchema.OwnRows | pyrogram/storage/sqlite_storage.py:170-178 | the alias rows of one id are exactly the rows carrying that id |
| StorageSchema.BatchStep | pyrogram/storage/sqlite_storage.py:161-178 | applying a batch prefix and then one more entry, at that entry's statement time, is applying the longer prefix |
| StorageSchema.ApplyPeer | pyrogram/storage/sqlite_storage.py:161-178 | no contract of its own: one entry's REPLACE, alias delete and alias insert; ApplyPeerAliases and FreshAliasLookup state its effect |
| StorageSchema.ApplyBatch | pyrogram/storage/sqlite_storage.py:156-178 | no contract of its own; BatchAliases, BatchPeers and LatestWriteWins state its effect |
| StorageSchema.LastEntry | pyrogram/storage/sqlite_storage.py:161-178 | finds the last batch entry for an id, or reports that none has it |
| StorageSchema.LookupId | pyrogram/storage/sqlite_storage.py:206-219 | KeyError exactly when no peer row has the id; otherwise `get_input_peer` of its row |
| StorageSchema.BestMatch | pyrogram/storage/sqlite_storage.py:221-229 | no match exactly when no alias row names the user; otherwise a matching row whose peer has the largest `last_update_on` |
| StorageSchema.LookupUsername | pyrogram/storage/sqlite_storage.py:221-240 | "not found" exactly when no alias matches; otherwise the result for a freshest matching peer: "expired" past the TTL, else its input peer |
| StorageSchema.LookupPhone | pyrogram/storage/sqlite_storage.py:242-255 | KeyError exactly when no peer has the number; otherwise the input peer of some peer that has it |
| StorageSchema.PhoneLookupUnique | pyrogram/storage/sqlite_storage.py:242-255 | when one peer alone has the number, the lookup returns that peer |
| StorageSchema.OwnRowsConcat | pyrogram/storage/sqlite_storage.py:170-178 | an id's rows in a concatenation are its rows in each part |
| StorageSchema.OwnRowsRemove | pyrogram/storage/sqlite_storage.py:170-173 | after deleting one id's rows, every other id keeps its rows |
| StorageSchema.OwnRowsUniform | pyrogram/storage/sqlite_storage.py:175-178 | rows that all carry another id hold none of this id's rows |
| StorageSchema.ApplyPeerAliases | pyrogram/storage/sqlite_storage.py:164-178 | one entry replaces its peer's whole alias set and leaves every other peer's rows untouched |
| StorageSchema.BatchAliases | pyrogram/storage/sqlite_storage.py:161-178 | after a batch, each id's aliases are those of its last entry, or unchanged if the batch does not name it |
| StorageSchema.BatchPeers | pyrogram/storage/sqlite_storage.py:161-168 | after a batch, each named peer row is its last entry's, stamped with the SQLite time of that entry's own `REPLACE`; other rows are unchanged |
| StorageSchema.LatestWriteWins | pyrogram/storage/sqlite_storage.py:156-219 | after a batch, the id lookup answers from the last entry for that id |
| StorageSchema.MarkerNeverMatches | pyrogram/storage/sqlite_storage.py:175-229 | an empty list stores exactly one `(id, None)` marker, which no username lookup matches |
| StorageSchema.UsernameExpiry | pyrogram/storage/sqlite_storage.py:221-240 | "expired" exactly when the matched peer is more than 28800 s from now in either direction, so exactly 8 hours is still valid, whichever freshest row is picked |
| StorageSchema.FreshAliasLookup | pyrogram/storage/sqlite_storage.py:156-240 | just after a peer is written with a name, that name is found, and it counts as expired iff the stamp is over 8 h from now |
| StorageSchema.FreshAliasResolves | pyrogram/storage/sqlite_storage.py:156-240 | a name just written for a peer, held by no other peer and not expired, resolves to that peer's input peer |
| StorageSchema.ListingCoversTable | pyrogram/storage/sqlite_storage.py:183-188 | a listing of the table holds each row exactly once |
| StorageSchema.ScanUpdateState | pyrogram/storage/aio_sqlite_storage.py:208-212 | `SELECT ... FROM update_state` returns every row exactly once, in no promised order |
| StorageSchema.EarliestExists | pyrogram/storage/sqlite_storage.py:185-188 | every non-empty set of rows has one of earliest date |
| StorageSchema.ScanUpdateStateByDate | pyrogram/storage/sqlite_storage.py:185-188 | `ORDER BY date ASC` returns every row exactly once, in ascending date |
| StorageSchema.SetField | pyrogram/storage/sqlite_storage.py:268-270 | `UPDATE sessions SET attr = ?` fails for an int outside the signed 64-bit range (OverflowError, raised first at binding), a non-integer `dc_id` or a null `date`, and for nothing else the model can express; otherwise a get returns the value set and the other columns are unchanged |
| StorageSchema.Trunc | pyrogram/storage/sqlite_storage.py:145-147 | `int(time.time())` truncates toward zero |
| SQLiteStorage.SQLiteStore.Create | pyrogram/storage/sqlite_storage.py:125-137 | after `create` the version is 5, the session row is `(2, None, None, None, 0, None, None)` and the other tables are empty |
| SQLiteStorage.SQLiteStore.UpdatePeers | pyrogram/storage/sqlite_storage.py:156-178 | the loop leaves the directory as the batch applied entry by entry, each entry at its own statement time, and the other tables unchanged |
| SQLiteStorage.SQLiteStore.UpdateState | pyrogram/storage/sqlite_storage.py:183-201 | no argument lists every row in ascending date; an int deletes only that id; a tuple upserts by id; `None` is rejected by sqlite3 |
| SQLiteStorage.SQLiteStore.GetPeerById | pyrogram/storage/sqlite_storage.py:206-219 | answers as the id lookup |
| SQLiteStorage.SQLiteStore.GetPeerByUsername | pyrogram/storage/sqlite_storage.py:221-240 | answers as the username lookup at the given wall-clock time |
| SQLiteStorage.SQLiteStore.GetPeerByPhoneNumber | pyrogram/storage/sqlite_storage.py:242-255 | answers as the phone lookup relation |
| SQLiteStorage.SQLiteStore.Get | pyrogram/storage/sqlite_storage.py:257-266 | returns the named session column |
| SQLiteStorage.SQLiteStore.Set | pyrogram/storage/sqlite_storage.py:268-282 | writes the named column as `SetField` does, and leaves the row unchanged when SQLite rejects the value |
| SQLiteStorage.SQLiteStore.Version | pyrogram/storage/sqlite_storage.py:284-286 | returns the version number |
| SQLiteStorage.SQLiteStore.SetVersion | pyrogram/storage/sqlite_storage.py:288-290 | sets the version number and nothing else |
| SQLiteStorage.SQLiteStore.Save | pyrogram/storage/sqlite_storage.py:145-147 | sets the session date to the truncated current time and nothing else, or raises OverflowError with nothing changed when that time exceeds 64 bits |
| AioSQLiteStorage.AsWrittenMigration | pyrogram/storage/aio_sqlite_storage.py:118-145 | as written, a stored version other than 1 runs no step and is stored again increased by 4, in one commit; version 1 always ends in an exception |
| AioSQLiteStorage.StepsFromOne | pyrogram/storage/aio_sqlite_storage.py:121-145 | from version 1 the peer wipe is committed; an existing `api_id` column then raises the duplicate-column error; otherwise the column is committed and step 3 raises NameError; the version is never written |
| AioSQLiteStorage.VersionOneNeverOpens | pyrogram/storage/aio_sqlite_storage.py:118-145 | a store at version 1 fails to migrate, keeps version 1 with the `api_id` column committed, and fails again on the next attempt with the duplicate column |
| AioSQLiteStorage.IntendedFrom | pyrogram/storage/aio_sqlite_storage.py:118-145 | the intended migration from one given version 1 to 4, both outcomes |
| AioSQLiteStorage.Step | pyrogram/storage/aio_sqlite_storage.py:121-141 | no contract of its own: the intended step `k`, which fails on an existing column or table; IntendedMigration states its effect |
| AioSQLiteStorage.MigrateAsWritten | pyrogram/storage/aio_sqlite_storage.py:118-145 | no contract of its own; AsWrittenMigration, StepsFromOne and VersionOneNeverOpens state what it does |
| AioSQLiteStorage.MigrateIntended | pyrogram/storage/aio_sqlite_storage.py:118-145 | no contract of its own; IntendedMigration and IntendedIdempotent state what it does |
| AioSQLiteStorage.IntendedMigration | pyrogram/storage/aio_sqlite_storage.py:118-145 | with the counter advanced inside each `if`, a store at 1 to 4 without its later schema objects runs exactly its remaining steps, each committed, and ends at 5; an existing object makes its step raise and keeps the version; other versions are untouched |
| AioSQLiteStorage.IntendedIdempotent | pyrogram/storage/aio_sqlite_storage.py:118-145 | once the intended migration succeeds, a second one succeeds and changes nothing |
| AioSQLiteStorage.MigrationQuirk | pyrogram/storage/aio_sqlite_storage.py:118-145 | as written a store at 5 goes to 9, and a store at 2 without the later schema objects never gets `api_id`, where the intended migration gives 5 and adds it |
| AioSQLiteStorage.AioStore.Commit | pyrogram/storage/aio_sqlite_storage.py:174-175 | the file image becomes the working tables, and the commit is recorded |
| AioSQLiteStorage.AioStore.Connect | pyrogram/storage/aio_sqlite_storage.py:165 | the connection's working tables are the file's, with nothing committed yet |
| AioSQLiteStorage.AioStore.Execute | pyrogram/storage/aio_sqlite_storage.py:121-129 | a successful step becomes the working tables and is committed; a failing one changes nothing and returns its exception |
| AioSQLiteStorage.AioStore.Open | pyrogram/storage/aio_sqlite_storage.py:161-175 | with no file, exactly `create` runs; with a file, exactly `update` runs; the final commit follows only when `update` did not raise, and its exception is returned with what it had committed |
| AioSQLiteStorage.AioStore.Create | pyrogram/storage/aio_sqlite_storage.py:147-159 | leaves the fresh database (version 5, default session, empty tables, every schema object) committed by the final `commit()`; the earlier schema-only image is not recorded (see Left out) |
| AioSQLiteStorage.AioStore.Update | pyrogram/storage/aio_sqlite_storage.py:118-145 | the migration as written: each step's image committed in turn, the new version committed last, or the first step's exception returned with the version unwritten |
| AioSQLiteStorage.AioStore.UpdatePeers | pyrogram/storage/aio_sqlite_storage.py:187-205 | the same replace semantics as the synchronous store, each entry at its own statement time, with no commit |
| AioSQLiteStorage.AioStore.UpdateState | pyrogram/storage/aio_sqlite_storage.py:207-224 | no argument lists every row in no promised order; `None` deletes all rows; a tuple upserts by id; an int is rejected (no single-id delete); writes commit |
| AioSQLiteStorage.AioStore.GetPeerById | pyrogram/storage/aio_sqlite_storage.py:226-237 | answers as the id lookup |
| AioSQLiteStorage.AioStore.GetPeerByUsername | pyrogram/storage/aio_sqlite_storage.py:239-256 | answers as the username lookup at the given wall-clock time |
| AioSQLiteStorage.AioStore.GetPeerByPhoneNumber | pyrogram/storage/aio_sqlite_storage.py:258-269 | answers as the phone lookup relation |
| AioSQLiteStorage.AioStore.Get | pyrogram/storage/aio_sqlite_storage.py:271-277 | returns the named session column |
| AioSQLiteStorage.AioStore.Set | pyrogram/storage/aio_sqlite_storage.py:279-289 | writes only the named column and commits, or changes nothing when SQLite rejects the value |
| AioSQLiteStorage.AioStore.Version | pyrogram/storage/aio_sqlite_storage.py:312-318 | returns the version number |
| AioSQLiteStorage.AioStore.SetVersion | pyrogram/storage/aio_sqlite_storage.py:319-324 | sets the version number and commits |
| AioSQLiteStorage.AioStore.Save | pyrogram/storage/aio_sqlite_storage.py:177-179 | sets the session date to the truncated current time, committed by the setter and again by `save`; a time beyond 64 bits raises OverflowError before either commit |
| ChatPermissions.Parse | pyrogram/types/user_and_chats/chat_permissions.py:116-189 | a permissions object exactly for a `ChatBannedRights`, and None otherwise |
| ChatPermissions.Write | pyrogram/types/user_and_chats/chat_permissions.py:191-221 | no contract of its own; WriteNegations, WriteManageTopics and ParseWriteRoundTrip state what it writes |
| ChatPermissions.WriteIntended | pyrogram/types/user_and_chats/chat_permissions.py:191-221 | no contract of its own: `write` with `manage_topics = not can_manage_topics`; ParseWriteIntendedRoundTrip states its round trip |
| ChatPermissions.ParseNegations | pyrogram/types/user_and_chats/chat_permissions.py:134-145 | messages, polls, previews, info, invites and pinning each negate their banned flag |
| ChatPermissions.ParseOtherMessages | pyrogram/types/user_and_chats/chat_permissions.py:136-141 | "other messages" is allowed iff one of gifs, games, stickers or inline is not banned |
| ChatPermissions.ParseManageTopics | pyrogram/types/user_and_chats/chat_permissions.py:146-149 | topic management negates `manage_topics` when present, and otherwise equals the pin permission |
| ChatPermissions.ParseMedia | pyrogram/types/user_and_chats/chat_permissions.py:150-171 | with any fine-grained media flag, each media permission negates its own flag and the media permission stays False; otherwise all six equal `not send_media` |
| ChatPermissions.WriteNegations | pyrogram/types/user_and_chats/chat_permissions.py:196-219 | `write` negates each permission into its banned flag, and stickers, gifs, games and inline all get `not can_send_other_messages` |
| ChatPermissions.WriteManageTopics | pyrogram/types/user_and_chats/chat_permissions.py:209-212 | as written, `manage_topics` is `not can_pin_messages` whatever `can_manage_topics` is |
| ChatPermissions.ManageTopicsIgnored | pyrogram/types/user_and_chats/chat_permissions.py:209-212 | pinning allowed with topic management denied is written as topic management allowed |
| ChatPermissions.ParseWriteRoundTrip | pyrogram/types/user_and_chats/chat_permissions.py:115-221 | for definite booleans, parse after write returns every permission, except topic management comes back as the pin permission and the media permission as False |
| ChatPermissions.ParseWriteIntendedRoundTrip | pyrogram/types/user_and_chats/chat_permissions.py:69-71 | with the intended `write`, topic management round-trips as well |
| KeyboardButtons.TextButton | pyrogram/types/bots_and_keyboards/keyboard_button.py:59-77 | the constructor with only `text`: the text is kept, every option is None, so no option is set and the button is plain |
| KeyboardButtons.SetOptions | pyrogram/types/bots_and_keyboards/keyboard_button.py:170-196 | an option counts as set exactly when `write` tests it truthy |
| KeyboardButtons.Selected | pyrogram/types/bots_and_keyboards/keyboard_button.py:170-232 | plain exactly when no option is set; otherwise the set option first in the order contact, location, poll, web app, users, chat |
| KeyboardButtons.Read | pyrogram/types/bots_and_keyboards/keyboard_button.py:80-167 | a plain raw button gives its bare text; an unknown button, or a peer request of unknown peer type, gives None; any other gives a button with the same text and exactly its one option set |
| KeyboardButtons.Write | pyrogram/types/bots_and_keyboards/keyboard_button.py:170-232 | the raw button keeps the text, is of the kind of the selected option, and is a plain button exactly when no option is set |
| KeyboardButtons.Kept | pyrogram/types/bots_and_keyboards/keyboard_button.py:80-232 | no contract of its own: the part of a button that survives `write` then `read`; ReadWriteRoundTrip states that read after write gives it |
| KeyboardButtons.ReadWriteRoundTrip | pyrogram/types/bots_and_keyboards/keyboard_button.py:80-232 | read after write gives the plain text, or the text with the selected option only (contact or location as `True`; a channel request without forum and bot-membership criteria) |
| KeyboardButtons.ReadWriteExact | pyrogram/types/bots_and_keyboards/keyboard_button.py:80-232 | a button whose only set option is the selected one, set definitely, and nothing Broadcast cannot carry, survives the round trip unchanged |
| KeyboardButtons.WriteReadWrite | pyrogram/types/bots_and_keyboards/keyboard_button.py:80-232 | writing what was read back gives the same raw button |
| KeyboardButtons.PollTypeRoundTrip | pyrogram/types/bots_and_keyboards/keyboard_button.py:96-179 | `write` sets quiz iff the type is QUIZ; `read` maps a truthy quiz to QUIZ and otherwise to REGULAR; so the poll type round-trips |
| KeyboardButtons.RequestChatEncoding | pyrogram/types/bots_and_keyboards/keyboard_button.py:196-230 | a chat request is written for one chat, as a Broadcast peer type iff it asks for a channel and as a Chat peer type otherwise |
| KeyboardButtons.ReadRequestChat | pyrogram/types/bots_and_keyboards/keyboard_button.py:112-153 | a Broadcast or Chat peer request reads as a chat request with its button id, a channel request iff the type is Broadcast |
| KeyboardButtons.RequestUsersRoundTrip | pyrogram/types/bots_and_keyboards/keyboard_button.py:155-194 | the request id, bot and premium filters, `max_quantity` and the name/username/photo requests round-trip |
| KeyboardButtons.ContactWins | pyrogram/types/bots_and_keyboards/keyboard_button.py:171-172 | a contact request is written as a phone request whatever else is set, and reads back as `request_contact=True` |
| SwitchInlineQuery.Default | pyrogram/types/bots_and_keyboards/switch_inline_query_chosen_chat.py:44-58 | the default query is the empty string and every flag is None |
| SwitchInlineQuery.Flag | pyrogram/types/bots_and_keyboards/switch_inline_query_chosen_chat.py:62-76 | a flag is True exactly when a matching peer type was seen, and None otherwise |
| SwitchInlineQuery.WritePeerTypesMeaning | pyrogram/types/bots_and_keyboards/switch_inline_query_chosen_chat.py:85-108 | `write` lists exactly the peer types whose flag is truthy, each once, in the order SameBotPM, BotPM, PM, Chat, Megagroup, Broadcast |
| SwitchInlineQuery.WritePeerTypesMember | pyrogram/types/bots_and_keyboards/switch_inline_query_chosen_chat.py:85-108 | a peer type is in `write`'s list iff the flag covering it is truthy |
| SwitchInlineQuery.WritePeerTypesOrdered | pyrogram/types/bots_and_keyboards/switch_inline_query_chosen_chat.py:85-108 | `write`'s list ranks each peer type strictly above the ones before it |
| SwitchInlineQuery.Read | pyrogram/types/bots_and_keyboards/switch_inline_query_chosen_chat.py:60-83 | the loop sets each flag True iff one of its peer types occurs (bot chats: SameBotPM or BotPM; group chats: Chat or Megagroup) and copies the query |
| SwitchInlineQuery.Write | pyrogram/types/bots_and_keyboards/switch_inline_query_chosen_chat.py:85-113 | the appends build exactly the admitted peer types in the fixed order, and `text` and `query` pass through unchanged |
| SwitchInlineQuery.ReadDependsOnSet | pyrogram/types/bots_and_keyboards/switch_inline_query_chosen_chat.py:66-76 | `read` depends only on which peer types occur, not on their order or repeats |
| SwitchInlineQuery.ReadFlagsDefinite | pyrogram/types/bots_and_keyboards/switch_inline_query_chosen_chat.py:62-83 | `read` never yields False: each flag is True or None, and the query is copied |
| SwitchInlineQuery.ReadWriteRoundTrip | pyrogram/types/bots_and_keyboards/switch_inline_query_chosen_chat.py:60-113 | `read(write(x, t))` has each flag True if it was truthy and None otherwise, and the same query |
| SwitchInlineQuery.WriteReadWrite | pyrogram/types/bots_and_keyboards/switch_inline_query_chosen_chat.py:60-113 | writing again what was read back lists the same peer types |

## Left out

- The thread-pool executor, the event loop, `asyncio`/`aiosqlite`, `close`, `delete` (`os.remove`) and the `NotImplementedError` stubs of the synchronous `open`/`delete`: these are concurrency, I/O or absent. Each `with self.conn:` block is one method, which commits on success and rolls back on an exception.
- `PRAGMA journal_mode=WAL` and `VACUUM` affect only the file's layout. `open` keeps just the commit that follows them.
- The SQL engine is replaced by its tables: `peers` and `update_state` are maps, and `usernames` is a sequence. The usernames table has no key, so `REPLACE` inserts and repeated names stay. The foreign key is not enforced, which is SQLite's default.
- AioSQLiteStorage.MigrateIntended: `USERNAMES_SCHEMA` and `UPDATE_STATE_SCHEMA` are not defined in `aio_sqlite_storage.py`, so their contents are not known. The intended steps add their table to the image, and fail when it exists already, as a `CREATE TABLE` without `IF NOT EXISTS` does. The as-written steps raise NameError (see Findings).
- The `inspect.stack()` column lookup of the session accessors is an explicit `SessionField` argument. The `object` sentinel default is the `Omitted` case of `UpdateStateArg`.
- SQLiteStorage.SQLiteStore.UpdatePeers, UpdateState and SetVersion: peer ids, access hashes, update-state fields and version numbers are assumed to fit in SQLite's signed 64-bit INTEGER. They come from TL `int`/`long` fields or the constant 5. A wider int would make sqlite3 raise OverflowError, which these contracts do not state.
- AioSQLiteStorage.AioStore.UpdatePeers, UpdateState and SetVersion: the same 64-bit assumption as for the synchronous store.
- AioSQLiteStorage.AioStore.Create: records only the final commit. `executescript(SCHEMA)` at aio_sqlite_storage.py:148 first commits any pending transaction and then runs the schema in autocommit. The schema-only file, with no version row, is therefore durable before the inserts and the commit at :159. Every image of the model has a version number, so it cannot hold that file. SQLiteStorage.SQLiteStore.Create has the same gap, inside its `with` block.
- AioSQLiteStorage.AioStore.Open: an existing file is assumed to have its version row. A file without one makes `version()` raise at aio_sqlite_storage.py:313-317, because `fetchone()` returns None. Examples are an empty file, or a file left behind by a `create` interrupted after its schema script. The model instead migrates whatever version its image holds.
- StorageSchema.SetField: rejects every non-integer `dc_id`. SQLite also accepts text or a real that converts losslessly to an integer. Besides the `dc_id` key and the NOT NULL `date`, column type affinity is not modelled.
- StorageSchema.LookupUsername: when several matching peers share the largest `last_update_on`, the contract states only that a freshest match is used, because SQLite does not fix the order of the tie. The 8-hour check is stated exactly.
- StorageSchema.LookupPhone: states only that some peer with the number is returned, because the query has no `ORDER BY`.
- StorageSchema.ScanUpdateStateByDate: rows with equal dates may come back in any order, as with `ORDER BY date` in SQLite.
- Base64Url.Decode: accepts only the URL-safe alphabet, with padding only in the last group, so it rejects some text that `base64.urlsafe_b64decode` decodes. That decoder also reads `+` and `/` as 62 and 63 (`"+/8="` is `b'\xfb\xff'`), discards other characters outside its alphabet, and stops after the first complete padded group (`"QQ==QQ=="` is `b'A'`). The model's decoding errors are therefore a superset of Python's, and on text the model accepts both give the same bytes.
- `datetime_to_timestamp` (time zones) is out of scope. `ChatPermissions.write` takes its `until_date` as the timestamp it produced.
- KeyboardButtons: `user_administrator_rights` and `bot_administrator_rights` are left out of the chat request. `ChatPrivileges` is not part of this model.
- KeyboardButtons.Read: `text` is typed `string`, so the `str(text)` conversion of the constructor is the identity; conversion of non-string arguments is not modelled.
- KeyboardButtons.Write: a poll type, web app, users request or chat request object counts as truthy whenever it is present, since these objects define no truth value. A poll type whose `type` is None is not modelled.
- SwitchInlineQuery.Read: the raw `peer_types` is a list. A raw button without the list, which `read` would fail to iterate, is not modelled, and neither is the raw `same_peer` flag.
- The rest of `utils.py` is not modelled: `compute_password_hash`/`compute_password_check` (SHA-256, PBKDF2, randomness), `get_first_url` (regex, UTF-16), the datetime helpers, `ainput`, `parse_messages` and `parse_deleted_messages`.

## Findings

| source | as written | input that shows it | evidently intended | confidence | as-written member | corrected member |
|---|---|---|---|---|---|---|
| pyrogram/storage/aio_sqlite_storage.py:118-145 | `version += 1` follows each `if` instead of sitting inside it, so every migration adds 4 to the stored version and runs steps only from version 1 | a current store at version 5 reopens at 9 (then 13, ...); a store at version 2 never gets its `api_id` column | each step runs from its own version to 4, and the store ends at version 5 | not executed | AioSQLiteStorage.MigrationQuirk | AioSQLiteStorage.IntendedMigration |
| pyrogram/utils.py:515-521 | the test `url.find(c) >= len(url)` follows a C++ original where "not found" is the largest index; Python's `find` returns -1, so the test never holds | `is_plain_domain("t.me")` is False | true exactly when none of `/`, `?`, `#` occurs (`find(c) == -1`) | not executed | Domains.BareDomainRejected | Domains.IsPlainDomainIntendedMeaning |
| pyrogram/types/user_and_chats/chat_permissions.py:209-212 | `manage_topics=(x and not x) or not can_pin_messages`: the left operand is never truthy, so `can_manage_topics` is ignored | `can_pin_messages=True, can_manage_topics=False` writes `manage_topics=False`, so the user may manage topics | `manage_topics = not can_manage_topics`, defaulting to the pin permission when it is omitted, as the field's documentation says | not executed | ChatPermissions.ManageTopicsIgnored | ChatPermissions.ParseWriteIntendedRoundTrip |
| pyrogram/storage/aio_sqlite_storage.py:118-145 | `USERNAMES_SCHEMA` and `UPDATE_STATE_SCHEMA` are not defined in the module, so from version 1 the migration raises NameError at line 134 after committing the peers wipe and the `api_id` column, and never writes the new version | an existing store at version 1: the first open fails; every later open fails at line 128 on the duplicate `api_id` column | both scripts are defined, each step creates its table, and the store ends at version 5 | not executed | AioSQLiteStorage.VersionOneNeverOpens | AioSQLiteStorage.IntendedMigration |
