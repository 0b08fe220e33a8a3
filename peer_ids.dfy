/**
 * Peer-id arithmetic of `pyrogram/utils.py`: the protocol addresses users, basic
 * groups and channels by raw positive ids; the library folds them into one signed
 * "marked" id space (users positive, groups negated, channels shifted below
 * -10^12) and classifies a marked id back by range.
 */
module PeerIds {
  import opened Wrappers

  const MIN_CHANNEL_ID: int := -1002147483647
  const MAX_CHANNEL_ID: int := -1000000000000
  const MIN_CHAT_ID_OLD: int := -2147483647
  const MIN_CHAT_ID: int := -999999999999
  const MAX_USER_ID_OLD: int := 2147483647
  const MAX_USER_ID: int := 999999999999

  /** The raw `Peer` constructors; `OtherPeer` stands for any other object passed in. */
  datatype Peer = PeerUser(userId: int) | PeerChat(chatId: int) | PeerChannel(channelId: int) | OtherPeer

  /** `ValueError` raised by the classification functions. */
  datatype PeerIdError = PeerTypeInvalid(peer: Peer) | PeerIdInvalid(peerId: int)

  /** `get_raw_peer_id`: the id carried by the constructor, `None` for anything else. */
  function GetRawPeerId(peer: Peer): (r: Option<int>)
    ensures r.None? <==> peer.OtherPeer?
    ensures peer.PeerUser? ==> r == Some(peer.userId)
    ensures peer.PeerChat? ==> r == Some(peer.chatId)
    ensures peer.PeerChannel? ==> r == Some(peer.channelId)
  {
    match peer
    case PeerUser(u) => Some(u)
    case PeerChat(c) => Some(c)
    case PeerChannel(c) => Some(c)
    case OtherPeer => None
  }

  /** `get_channel_id`: the shift between raw channel ids and marked ids. */
  function GetChannelId(peerId: int): int {
    MAX_CHANNEL_ID - peerId
  }

  /** `get_peer_id`: the marked id of a raw peer. */
  function GetPeerId(peer: Peer): Result<int, PeerIdError> {
    match peer
    case PeerUser(u) => Ok(u)
    case PeerChat(c) => Ok(-c)
    case PeerChannel(c) => Ok(MAX_CHANNEL_ID - c)
    case OtherPeer => Err(PeerTypeInvalid(peer))
  }

  /** `get_peer_type`: classify a marked id by range. */
  function GetPeerType(peerId: int): Result<string, PeerIdError> {
    if peerId < 0 then
      if MIN_CHAT_ID <= peerId then Ok("chat")
      else if MIN_CHANNEL_ID <= peerId < MAX_CHANNEL_ID then Ok("channel")
      else Err(PeerIdInvalid(peerId))
    else if 0 < peerId <= MAX_USER_ID then Ok("user")
    else Err(PeerIdInvalid(peerId))
  }

  /** `get_channel_id` is an involution: applying it twice gives the id back. */
  lemma ChannelIdInvolution(x: int)
    ensures GetChannelId(GetChannelId(x)) == x
  {
  }

  /** `get_peer_id` on each constructor; anything else is a `ValueError`. */
  lemma PeerIdMapping(peer: Peer)
    ensures peer.PeerUser? ==> GetPeerId(peer) == Ok(peer.userId)
    ensures peer.PeerChat? ==> GetPeerId(peer) == Ok(-peer.chatId)
    ensures peer.PeerChannel? ==> GetPeerId(peer) == Ok(GetChannelId(peer.channelId))
    ensures GetPeerId(peer).Err? <==> peer.OtherPeer?
  {
  }

  /** The three classes of marked ids are exactly three disjoint ranges; everything else, 0 included, is invalid. */
  lemma PeerTypeRanges(peerId: int)
    ensures GetPeerType(peerId) == Ok("chat") <==> MIN_CHAT_ID <= peerId <= -1
    ensures GetPeerType(peerId) == Ok("channel") <==> MIN_CHANNEL_ID <= peerId < MAX_CHANNEL_ID
    ensures GetPeerType(peerId) == Ok("user") <==> 1 <= peerId <= MAX_USER_ID
    ensures GetPeerType(peerId).Err? <==>
      !(MIN_CHAT_ID <= peerId <= -1 || MIN_CHANNEL_ID <= peerId < MAX_CHANNEL_ID || 1 <= peerId <= MAX_USER_ID)
  {
  }

  /** Raw ids in their documented ranges land in the matching class after marking. */
  lemma MarkedIdsClassify(c: int)
    ensures 1 <= c <= MAX_USER_ID_OLD ==> GetPeerType(GetChannelId(c)) == Ok("channel")
    ensures 1 <= c <= MAX_USER_ID ==> GetPeerType(-c) == Ok("chat")
    ensures 1 <= c <= MAX_USER_ID ==> GetPeerType(c) == Ok("user")
  {
  }

  /** Inverse of `get_peer_id`: the raw peer a marked id stands for, read off its class. */
  function PeerFromMarkedId(peerId: int): (r: Option<Peer>)
    ensures r.Some? <==> GetPeerType(peerId).Ok?
  {
    match GetPeerType(peerId)
    case Ok(kind) =>
      if kind == "user" then Some(PeerUser(peerId))
      else if kind == "chat" then Some(PeerChat(-peerId))
      else Some(PeerChannel(GetChannelId(peerId)))
    case Err(_) => None
  }

  /** A raw peer whose id lies in its class's range is recovered from its marked id. */
  lemma MarkedIdRoundTrip(peer: Peer)
    requires peer.PeerUser? ==> 1 <= peer.userId <= MAX_USER_ID
    requires peer.PeerChat? ==> 1 <= peer.chatId <= MAX_USER_ID
    requires peer.PeerChannel? ==> 1 <= peer.channelId <= MAX_USER_ID_OLD
    requires !peer.OtherPeer?
    ensures GetPeerId(peer).Ok? && PeerFromMarkedId(GetPeerId(peer).value) == Some(peer)
  {
    match peer
    case PeerUser(u) => assert GetPeerType(u) == Ok("user");
    case PeerChat(c) => assert GetPeerType(-c) == Ok("chat");
    case PeerChannel(c) => assert GetPeerType(MAX_CHANNEL_ID - c) == Ok("channel");
  }
}
