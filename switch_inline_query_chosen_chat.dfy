/**
 * `SwitchInlineQueryChosenChat` of
 * `pyrogram/types/bots_and_keyboards/switch_inline_query_chosen_chat.py`: an
 * inline button that switches the user to inline mode in a chat they choose,
 * restricted to the kinds of chat the `allow_*` flags admit. The raw button
 * lists those kinds as a sequence of peer types.
 */
module SwitchInlineQuery {
  import opened Wrappers

  /** The raw `InlineQueryPeerType` constructors. */
  datatype InlineQueryPeerType = SameBotPM | BotPM | PM | Chat | Megagroup | Broadcast

  /** The high-level button. */
  datatype SwitchInlineQueryChosenChat = SwitchInlineQueryChosenChat(
    query: string,
    allowUserChats: Option<bool>,
    allowBotChats: Option<bool>,
    allowGroupChats: Option<bool>,
    allowChannelChats: Option<bool>)

  /** The raw `KeyboardButtonSwitchInline` with its peer-type list. */
  datatype KeyboardButtonSwitchInline = KeyboardButtonSwitchInline(
    text: string, query: string, peerTypes: seq<InlineQueryPeerType>)

  /** The constructor with every argument left at its default. */
  function Default(): (x: SwitchInlineQueryChosenChat)
    ensures x.query == ""
    ensures x.allowUserChats.None? && x.allowBotChats.None?
    ensures x.allowGroupChats.None? && x.allowChannelChats.None?
  {
    SwitchInlineQueryChosenChat("", None, None, None, None)
  }

  /** A flag `read` sets to `True` when it sees a matching peer type, and leaves `None` otherwise. */
  function Flag(seen: bool): (f: Option<bool>)
    ensures f == Some(true) <==> seen
    ensures f == None <==> !seen
  {
    if seen then Some(true) else None
  }

  /** The position of a peer type in the order `write` emits them. */
  function Rank(p: InlineQueryPeerType): nat
  {
    match p
    case SameBotPM => 0
    case BotPM => 1
    case PM => 2
    case Chat => 3
    case Megagroup => 4
    case Broadcast => 5
  }

  /** Each element ranks strictly above the ones before it: ordered and without repeats. */
  predicate StrictlyOrdered(s: seq<InlineQueryPeerType>)
  {
    forall i, j :: 0 <= i < j < |s| ==> Rank(s[i]) < Rank(s[j])
  }

  /**
   * What `read` computes: each `allow_*` is `True` iff at least one of its peer
   * types is listed. Bot chats cover SameBotPM and BotPM, group chats cover
   * Chat and Megagroup.
   */
  function ReadSpec(b: KeyboardButtonSwitchInline): SwitchInlineQueryChosenChat
  {
    var s := b.peerTypes;
    SwitchInlineQueryChosenChat(
      b.query,
      Flag(PM in s),
      Flag(SameBotPM in s || BotPM in s),
      Flag(Chat in s || Megagroup in s),
      Flag(Broadcast in s))
  }

  /** The flag of `x` that admits peer type `p`. */
  predicate Allowed(x: SwitchInlineQueryChosenChat, p: InlineQueryPeerType)
  {
    match p
    case SameBotPM => Truthy(x.allowBotChats)
    case BotPM => Truthy(x.allowBotChats)
    case PM => Truthy(x.allowUserChats)
    case Chat => Truthy(x.allowGroupChats)
    case Megagroup => Truthy(x.allowGroupChats)
    case Broadcast => Truthy(x.allowChannelChats)
  }

  /** The block of peer types one flag contributes. */
  function Block(flag: Option<bool>, block: seq<InlineQueryPeerType>): seq<InlineQueryPeerType>
  {
    if Truthy(flag) then block else []
  }

  /**
   * The peer-type list `write` builds: SameBotPM and BotPM for bot chats, PM
   * for user chats, Chat and Megagroup for group chats, Broadcast for channels.
   */
  function WritePeerTypes(x: SwitchInlineQueryChosenChat): seq<InlineQueryPeerType>
  {
    Block(x.allowBotChats, [SameBotPM, BotPM]) + Block(x.allowUserChats, [PM])
    + Block(x.allowGroupChats, [Chat, Megagroup]) + Block(x.allowChannelChats, [Broadcast])
  }

  /** `write` lists exactly the admitted peer types, each once, in the fixed order. */
  lemma WritePeerTypesMeaning(x: SwitchInlineQueryChosenChat)
    ensures forall p :: p in WritePeerTypes(x) <==> Allowed(x, p)
    ensures StrictlyOrdered(WritePeerTypes(x))
  {
    forall p
      ensures p in WritePeerTypes(x) <==> Allowed(x, p)
    {
      WritePeerTypesMember(x, p);
    }
    WritePeerTypesOrdered(x);
  }

  lemma WritePeerTypesMember(x: SwitchInlineQueryChosenChat, p: InlineQueryPeerType)
    ensures p in WritePeerTypes(x) <==> Allowed(x, p)
  {
    var bots := Block(x.allowBotChats, [SameBotPM, BotPM]);
    var users := Block(x.allowUserChats, [PM]);
    var groups := Block(x.allowGroupChats, [Chat, Megagroup]);
    var channels := Block(x.allowChannelChats, [Broadcast]);
    assert p in WritePeerTypes(x) <==> p in bots || p in users || p in groups || p in channels;
  }

  lemma WritePeerTypesOrdered(x: SwitchInlineQueryChosenChat)
    ensures StrictlyOrdered(WritePeerTypes(x))
  {
    var bots := Block(x.allowBotChats, [SameBotPM, BotPM]);
    var users := Block(x.allowUserChats, [PM]);
    var groups := Block(x.allowGroupChats, [Chat, Megagroup]);
    var channels := Block(x.allowChannelChats, [Broadcast]);
    PairOrdered(SameBotPM, BotPM);
    BlockWithin(x.allowBotChats, [SameBotPM, BotPM], 0, 1);
    BlockWithin(x.allowUserChats, [PM], 2, 2);
    PairOrdered(Chat, Megagroup);
    BlockWithin(x.allowGroupChats, [Chat, Megagroup], 3, 4);
    BlockWithin(x.allowChannelChats, [Broadcast], 5, 5);
    OrderedConcat(bots, users, 0, 1, 2, 2);
    OrderedConcat(bots + users, groups, 0, 2, 3, 4);
    OrderedConcat(bots + users + groups, channels, 0, 4, 5, 5);
  }

  /** Every element of `s` ranks between `lo` and `hi`. */
  predicate RanksWithin(s: seq<InlineQueryPeerType>, lo: nat, hi: nat)
  {
    forall i :: 0 <= i < |s| ==> lo <= Rank(s[i]) <= hi
  }

  /** Two peer types in rank order form an ordered block ranked between them. */
  lemma PairOrdered(p: InlineQueryPeerType, q: InlineQueryPeerType)
    requires Rank(p) < Rank(q)
    ensures StrictlyOrdered([p, q]) && RanksWithin([p, q], Rank(p), Rank(q))
  {
  }

  /** A block, whether emitted or not, is ordered and keeps the ranks of its peer types. */
  lemma BlockWithin(flag: Option<bool>, block: seq<InlineQueryPeerType>, lo: nat, hi: nat)
    requires StrictlyOrdered(block) && RanksWithin(block, lo, hi)
    ensures StrictlyOrdered(Block(flag, block)) && RanksWithin(Block(flag, block), lo, hi)
  {
  }

  /**
   * Two ordered sequences, the first ranked within `aLo..aHi`, the second within
   * `bLo..bHi` above it, concatenate to an ordered one ranked within `aLo..bHi`.
   */
  lemma OrderedConcat(a: seq<InlineQueryPeerType>, b: seq<InlineQueryPeerType>, aLo: nat, aHi: nat, bLo: nat, bHi: nat)
    requires StrictlyOrdered(a) && StrictlyOrdered(b) && aLo <= aHi < bLo <= bHi
    requires RanksWithin(a, aLo, aHi) && RanksWithin(b, bLo, bHi)
    ensures StrictlyOrdered(a + b) && RanksWithin(a + b, aLo, bHi)
  {
    forall i | 0 <= i < |a + b|
      ensures aLo <= Rank((a + b)[i]) <= bHi
    {
      if i < |a| {
        assert (a + b)[i] == a[i];
      } else {
        assert (a + b)[i] == b[i - |a|];
      }
    }
  }

  /** `read`: one pass over the peer types, raising a flag for each kind seen. */
  method Read(b: KeyboardButtonSwitchInline) returns (r: SwitchInlineQueryChosenChat)
    ensures r == ReadSpec(b)
  {
    var allowUserChats: Option<bool> := None;
    var allowBotChats: Option<bool> := None;
    var allowGroupChats: Option<bool> := None;
    var allowChannelChats: Option<bool> := None;
    var i := 0;
    while i < |b.peerTypes|
      invariant 0 <= i <= |b.peerTypes|
      invariant allowUserChats == Flag(PM in b.peerTypes[..i])
      invariant allowBotChats == Flag(SameBotPM in b.peerTypes[..i] || BotPM in b.peerTypes[..i])
      invariant allowGroupChats == Flag(Chat in b.peerTypes[..i] || Megagroup in b.peerTypes[..i])
      invariant allowChannelChats == Flag(Broadcast in b.peerTypes[..i])
    {
      var peerType := b.peerTypes[i];
      assert b.peerTypes[..i + 1] == b.peerTypes[..i] + [peerType];
      match peerType {
        case SameBotPM => allowBotChats := Some(true);
        case BotPM => allowBotChats := Some(true);
        case PM => allowUserChats := Some(true);
        case Chat => allowGroupChats := Some(true);
        case Megagroup => allowGroupChats := Some(true);
        case Broadcast => allowChannelChats := Some(true);
      }
      i := i + 1;
    }
    assert b.peerTypes[..i] == b.peerTypes;
    r := SwitchInlineQueryChosenChat(b.query, allowUserChats, allowBotChats, allowGroupChats, allowChannelChats);
  }

  /** `write`: builds the peer-type list by appending, and passes `text` and `query` through. */
  method Write(x: SwitchInlineQueryChosenChat, text: string) returns (r: KeyboardButtonSwitchInline)
    ensures r.text == text && r.query == x.query
    ensures r.peerTypes == WritePeerTypes(x)
    ensures forall p :: p in r.peerTypes <==> Allowed(x, p)
    ensures StrictlyOrdered(r.peerTypes)
  {
    var peerTypes: seq<InlineQueryPeerType> := [];
    if Truthy(x.allowBotChats) {
      peerTypes := peerTypes + [SameBotPM];
      peerTypes := peerTypes + [BotPM];
    }
    assert peerTypes == Block(x.allowBotChats, [SameBotPM, BotPM]);
    if Truthy(x.allowUserChats) {
      peerTypes := peerTypes + [PM];
    }
    assert peerTypes == Block(x.allowBotChats, [SameBotPM, BotPM]) + Block(x.allowUserChats, [PM]);
    if Truthy(x.allowGroupChats) {
      peerTypes := peerTypes + [Chat];
      peerTypes := peerTypes + [Megagroup];
    }
    assert peerTypes == Block(x.allowBotChats, [SameBotPM, BotPM]) + Block(x.allowUserChats, [PM])
                        + Block(x.allowGroupChats, [Chat, Megagroup]);
    if Truthy(x.allowChannelChats) {
      peerTypes := peerTypes + [Broadcast];
    }
    r := KeyboardButtonSwitchInline(text, x.query, peerTypes);
    WritePeerTypesMeaning(x);
  }

  /** `read` sees only which peer types occur: order and repeats do not matter. */
  lemma ReadDependsOnSet(b1: KeyboardButtonSwitchInline, b2: KeyboardButtonSwitchInline)
    requires b1.query == b2.query
    requires forall p :: p in b1.peerTypes <==> p in b2.peerTypes
    ensures ReadSpec(b1) == ReadSpec(b2)
  {
  }

  /** `read` never yields `False`: every flag is `True` or `None`. */
  lemma ReadFlagsDefinite(b: KeyboardButtonSwitchInline)
    ensures ReadSpec(b).allowUserChats != Some(false) && ReadSpec(b).allowBotChats != Some(false)
    ensures ReadSpec(b).allowGroupChats != Some(false) && ReadSpec(b).allowChannelChats != Some(false)
    ensures ReadSpec(b).query == b.query
  {
  }

  /**
   * Round trip: reading back a written button gives each flag as `True` when it
   * was truthy and `None` otherwise, and the same query.
   */
  lemma ReadWriteRoundTrip(x: SwitchInlineQueryChosenChat, text: string)
    ensures ReadSpec(KeyboardButtonSwitchInline(text, x.query, WritePeerTypes(x))) ==
      SwitchInlineQueryChosenChat(x.query, Flag(Truthy(x.allowUserChats)), Flag(Truthy(x.allowBotChats)),
                                  Flag(Truthy(x.allowGroupChats)), Flag(Truthy(x.allowChannelChats)))
  {
    WritePeerTypesMeaning(x);
  }

  /** Writing again what was read back lists the same peer types: `write` after `read` is stable. */
  lemma WriteReadWrite(x: SwitchInlineQueryChosenChat, text: string)
    ensures WritePeerTypes(ReadSpec(KeyboardButtonSwitchInline(text, x.query, WritePeerTypes(x)))) ==
      WritePeerTypes(x)
  {
    ReadWriteRoundTrip(x, text);
  }
}
