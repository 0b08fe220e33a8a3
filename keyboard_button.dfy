/**
 * `KeyboardButton` of `pyrogram/types/bots_and_keyboards/keyboard_button.py`:
 * one reply-keyboard button and its translation to and from the raw API's
 * button constructors. The optional fields are meant to be mutually exclusive;
 * `write` resolves a button that sets several by a fixed priority.
 */
module KeyboardButtons {
  import opened Wrappers

  datatype PollType = Regular | Quiz

  /** `KeyboardButtonPollType`: which kind of poll the user is asked to create. */
  datatype KeyboardButtonPollType = KeyboardButtonPollType(pollType: PollType)

  /** `WebAppInfo`: the Web App a button launches. */
  datatype WebAppInfo = WebAppInfo(url: string)

  /** `KeyboardButtonRequestUsers`: criteria for the users a button asks for. */
  datatype KeyboardButtonRequestUsers = KeyboardButtonRequestUsers(
    requestId: int,
    userIsBot: Option<bool>,
    userIsPremium: Option<bool>,
    maxQuantity: int,
    requestName: Option<bool>,
    requestUsername: Option<bool>,
    requestPhoto: Option<bool>)

  /** `KeyboardButtonRequestChat` without its two administrator-rights fields. */
  datatype KeyboardButtonRequestChat = KeyboardButtonRequestChat(
    requestId: int,
    chatIsChannel: bool,
    chatIsForum: Option<bool>,
    chatHasUsername: Option<bool>,
    chatIsCreated: Option<bool>,
    botIsMember: Option<bool>,
    requestTitle: Option<bool>,
    requestUsername: Option<bool>,
    requestPhoto: Option<bool>)

  /** The high-level button; `text` is the already converted `str(text)`. */
  datatype KeyboardButton = KeyboardButton(
    text: string,
    requestContact: Option<bool>,
    requestLocation: Option<bool>,
    requestPoll: Option<KeyboardButtonPollType>,
    webApp: Option<WebAppInfo>,
    requestUsers: Option<KeyboardButtonRequestUsers>,
    requestChat: Option<KeyboardButtonRequestChat>)

  /** A button with only its text set. */
  function TextButton(text: string): (k: KeyboardButton)
    ensures k.text == text
    ensures k.requestContact.None? && k.requestLocation.None? && k.requestPoll.None?
    ensures k.webApp.None? && k.requestUsers.None? && k.requestChat.None?
    ensures SetOptions(k) == {} && Selected(k) == Plain
  {
    KeyboardButton(text, None, None, None, None, None, None)
  }

  /** The raw `RequestPeerType` constructors; any other value is `UnknownPeerType`. */
  datatype RequestPeerType =
    | RequestPeerTypeUser(bot: Option<bool>, premium: Option<bool>)
    | RequestPeerTypeChat(creator: Option<bool>, botParticipant: Option<bool>,
                          hasUsername: Option<bool>, forum: Option<bool>)
    | RequestPeerTypeBroadcast(creator: Option<bool>, hasUsername: Option<bool>)
    | UnknownPeerType

  /**
   * The raw reply-keyboard buttons. `RequestPeer` is the server's form, which
   * carries no name/username/photo flags; `InputRequestPeer` is the client's
   * form. `OtherButton` stands for every raw button `read` does not handle.
   */
  datatype RawButton =
    | RawKeyboardButton(text: string)
    | RequestPhone(text: string)
    | RequestGeoLocation(text: string)
    | RequestPoll(text: string, quiz: Option<bool>)
    | SimpleWebView(text: string, url: string)
    | RequestPeer(text: string, buttonId: int, peerType: RequestPeerType, maxQuantity: int)
    | InputRequestPeer(text: string, buttonId: int, peerType: RequestPeerType, maxQuantity: int,
                       nameRequested: Option<bool>, usernameRequested: Option<bool>,
                       photoRequested: Option<bool>)
    | OtherButton(text: string)

  /** What `read` returns: a bare string, a button, or `None`. */
  datatype ReadResult = PlainText(text: string) | Button(button: KeyboardButton) | NoButton

  /** The options of a button, in `write`'s priority order; `Plain` is none of them. */
  datatype ButtonKind = Contact | Location | Poll | WebApp | Users | Chat | Plain

  /** The options a button sets, each as `write` tests it (truthiness). */
  function SetOptions(k: KeyboardButton): (s: set<ButtonKind>)
    ensures Plain !in s
    ensures Contact in s <==> Truthy(k.requestContact)
    ensures Location in s <==> Truthy(k.requestLocation)
    ensures Poll in s <==> k.requestPoll.Some?
    ensures WebApp in s <==> k.webApp.Some?
    ensures Users in s <==> k.requestUsers.Some?
    ensures Chat in s <==> k.requestChat.Some?
  {
    (if Truthy(k.requestContact) then {Contact} else {})
    + (if Truthy(k.requestLocation) then {Location} else {})
    + (if k.requestPoll.Some? then {Poll} else {})
    + (if k.webApp.Some? then {WebApp} else {})
    + (if k.requestUsers.Some? then {Users} else {})
    + (if k.requestChat.Some? then {Chat} else {})
  }

  /** The rank of an option in the priority order of `write`. */
  function Rank(c: ButtonKind): nat
  {
    match c
    case Contact => 0
    case Location => 1
    case Poll => 2
    case WebApp => 3
    case Users => 4
    case Chat => 5
    case Plain => 6
  }

  /** The option `write` encodes: the set one of lowest rank, or `Plain`. */
  function Selected(k: KeyboardButton): (c: ButtonKind)
    ensures c == Plain <==> SetOptions(k) == {}
    ensures c != Plain ==> c in SetOptions(k)
    ensures forall d :: d in SetOptions(k) ==> Rank(c) <= Rank(d)
  {
    if Truthy(k.requestContact) then Contact
    else if Truthy(k.requestLocation) then Location
    else if k.requestPoll.Some? then Poll
    else if k.webApp.Some? then WebApp
    else if k.requestUsers.Some? then Users
    else if k.requestChat.Some? then Chat
    else Plain
  }

  /** The kind of high-level button `read` builds from a raw one. */
  function RawKind(b: RawButton): ButtonKind
  {
    match b
    case RequestPhone(_) => Contact
    case RequestGeoLocation(_) => Location
    case RequestPoll(_, _) => Poll
    case SimpleWebView(_, _) => WebApp
    case RequestPeer(_, _, pt, _) => if pt.RequestPeerTypeUser? then Users else Chat
    case InputRequestPeer(_, _, pt, _, _, _, _) => if pt.RequestPeerTypeUser? then Users else Chat
    case _ => Plain
  }

  /** The `*_requested` flags of a raw peer request; the server's form has none. */
  function NameRequested(b: RawButton): Option<bool>
  {
    if b.InputRequestPeer? then b.nameRequested else None
  }

  function UsernameRequested(b: RawButton): Option<bool>
  {
    if b.InputRequestPeer? then b.usernameRequested else None
  }

  function PhotoRequested(b: RawButton): Option<bool>
  {
    if b.InputRequestPeer? then b.photoRequested else None
  }

  /** `getattr(peer_type, "forum", None)` and its siblings on the three peer types. */
  function Forum(pt: RequestPeerType): Option<bool>
  {
    if pt.RequestPeerTypeChat? then pt.forum else None
  }

  function BotParticipant(pt: RequestPeerType): Option<bool>
  {
    if pt.RequestPeerTypeChat? then pt.botParticipant else None
  }

  function Creator(pt: RequestPeerType): Option<bool>
  {
    if pt.RequestPeerTypeChat? || pt.RequestPeerTypeBroadcast? then pt.creator else None
  }

  function HasUsername(pt: RequestPeerType): Option<bool>
  {
    if pt.RequestPeerTypeChat? || pt.RequestPeerTypeBroadcast? then pt.hasUsername else None
  }

  /**
   * `KeyboardButton.read`: a plain raw button becomes its text, every other
   * handled raw button becomes a button with exactly its one option set, and
   * anything else (including a peer request of unknown peer type) is `None`.
   */
  function Read(b: RawButton): (r: ReadResult)
    ensures r.PlainText? <==> b.RawKeyboardButton?
    ensures r.NoButton? <==>
      b.OtherButton? || ((b.RequestPeer? || b.InputRequestPeer?) && b.peerType.UnknownPeerType?)
    ensures r.PlainText? ==> r.text == b.text
    ensures r.Button? ==> r.button.text == b.text
    ensures r.Button? ==> SetOptions(r.button) == {RawKind(b)} && Selected(r.button) == RawKind(b)
  {
    match b
    case RawKeyboardButton(text) => PlainText(text)
    case RequestPhone(text) => Button(TextButton(text).(requestContact := Some(true)))
    case RequestGeoLocation(text) => Button(TextButton(text).(requestLocation := Some(true)))
    case RequestPoll(text, quiz) =>
      Button(TextButton(text).(requestPoll :=
        Some(KeyboardButtonPollType(if Truthy(quiz) then Quiz else Regular))))
    case SimpleWebView(text, url) => Button(TextButton(text).(webApp := Some(WebAppInfo(url))))
    case OtherButton(_) => NoButton
    case _ =>
      var pt := b.peerType;
      if pt.RequestPeerTypeBroadcast? || pt.RequestPeerTypeChat? then
        Button(TextButton(b.text).(requestChat := Some(KeyboardButtonRequestChat(
          b.buttonId, pt.RequestPeerTypeBroadcast?, Forum(pt), HasUsername(pt), Creator(pt),
          BotParticipant(pt), NameRequested(b), UsernameRequested(b), PhotoRequested(b)))))
      else if pt.RequestPeerTypeUser? then
        Button(TextButton(b.text).(requestUsers := Some(KeyboardButtonRequestUsers(
          b.buttonId, pt.bot, pt.premium, b.maxQuantity,
          NameRequested(b), UsernameRequested(b), PhotoRequested(b)))))
      else
        NoButton
  }

  /**
   * `KeyboardButton.write`: the raw constructor of the selected option; a
   * request-chat button always asks for one chat.
   */
  function Write(k: KeyboardButton): (r: RawButton)
    ensures r.text == k.text
    ensures RawKind(r) == Selected(k)
    ensures Selected(k) == Plain <==> r.RawKeyboardButton?
  {
    if Truthy(k.requestContact) then RequestPhone(k.text)
    else if Truthy(k.requestLocation) then RequestGeoLocation(k.text)
    else if k.requestPoll.Some? then
      RequestPoll(k.text, Some(k.requestPoll.value.pollType == Quiz))
    else if k.webApp.Some? then SimpleWebView(k.text, k.webApp.value.url)
    else if k.requestUsers.Some? then
      var u := k.requestUsers.value;
      InputRequestPeer(k.text, u.requestId, RequestPeerTypeUser(u.userIsBot, u.userIsPremium),
                       u.maxQuantity, u.requestName, u.requestUsername, u.requestPhoto)
    else if k.requestChat.Some? then
      var c := k.requestChat.value;
      var pt := if c.chatIsChannel then RequestPeerTypeBroadcast(c.chatIsCreated, c.chatHasUsername)
                else RequestPeerTypeChat(c.chatIsCreated, c.botIsMember, c.chatHasUsername, c.chatIsForum);
      InputRequestPeer(k.text, c.requestId, pt, 1, c.requestTitle, c.requestUsername, c.requestPhoto)
    else RawKeyboardButton(k.text)
  }

  /**
   * What survives a `write` followed by a `read`: the text and the selected
   * option only. A contact or location request comes back as `True`; a channel
   * request loses the forum and bot-membership criteria, which the Broadcast
   * peer type cannot carry.
   */
  function Kept(k: KeyboardButton): KeyboardButton
  {
    var t := TextButton(k.text);
    match Selected(k)
    case Contact => t.(requestContact := Some(true))
    case Location => t.(requestLocation := Some(true))
    case Poll => t.(requestPoll := k.requestPoll)
    case WebApp => t.(webApp := k.webApp)
    case Users => t.(requestUsers := k.requestUsers)
    case Chat =>
      var c := k.requestChat.value;
      t.(requestChat := Some(if c.chatIsChannel then c.(chatIsForum := None, botIsMember := None) else c))
    case Plain => t
  }

  /** `write` then `read` keeps the text and the selected option, as `Kept` describes. */
  lemma ReadWriteRoundTrip(k: KeyboardButton)
    ensures Selected(k) == Plain ==> Read(Write(k)) == PlainText(k.text)
    ensures Selected(k) != Plain ==> Read(Write(k)) == Button(Kept(k))
  {
  }

  /** A button that sets only one option, and sets it definitely, survives the round trip unchanged. */
  lemma ReadWriteExact(k: KeyboardButton)
    requires SetOptions(k) == {Selected(k)}
    requires k.requestContact.Some? ==> Truthy(k.requestContact)
    requires k.requestLocation.Some? ==> Truthy(k.requestLocation)
    requires k.requestChat.Some? && k.requestChat.value.chatIsChannel ==>
      k.requestChat.value.chatIsForum.None? && k.requestChat.value.botIsMember.None?
    ensures Read(Write(k)) == Button(k)
  {
    ReadWriteRoundTrip(k);
    assert Selected(k) in SetOptions(k);
  }

  /** Writing what was read back gives the same raw button as the first write. */
  lemma WriteReadWrite(k: KeyboardButton)
    ensures Read(Write(k)).PlainText? ==> RawKeyboardButton(Read(Write(k)).text) == Write(k)
    ensures Read(Write(k)).Button? ==> Write(Read(Write(k)).button) == Write(k)
  {
    ReadWriteRoundTrip(k);
  }

  /** The poll type round-trips: `write` sets quiz iff QUIZ, and `read` maps a truthy quiz to QUIZ. */
  lemma PollTypeRoundTrip(k: KeyboardButton, text: string, quiz: Option<bool>)
    ensures Selected(k) == Poll ==> Write(k).quiz == Some(k.requestPoll.value.pollType == Quiz)
    ensures Read(RequestPoll(text, quiz)).button.requestPoll ==
      Some(KeyboardButtonPollType(if Truthy(quiz) then Quiz else Regular))
    ensures Selected(k) == Poll ==> Read(Write(k)).button.requestPoll == k.requestPoll
  {
    if Selected(k) == Poll {
      ReadWriteRoundTrip(k);
    }
  }

  /**
   * A request-chat button is written as a peer request for one chat, of
   * Broadcast type exactly when it asks for a channel; `read` recognises the
   * channel request by the Broadcast type.
   */
  lemma RequestChatEncoding(k: KeyboardButton)
    requires Selected(k) == Chat
    ensures Write(k).InputRequestPeer? && Write(k).maxQuantity == 1
    ensures Write(k).peerType.RequestPeerTypeBroadcast? <==> k.requestChat.value.chatIsChannel
    ensures Write(k).peerType.RequestPeerTypeChat? <==> !k.requestChat.value.chatIsChannel
  {
  }

  /** `read` of a Broadcast or Chat peer request sets `chat_is_channel` iff the type is Broadcast. */
  lemma ReadRequestChat(b: RawButton)
    requires b.RequestPeer? || b.InputRequestPeer?
    requires b.peerType.RequestPeerTypeBroadcast? || b.peerType.RequestPeerTypeChat?
    ensures Read(b).Button? && Read(b).button.requestChat.Some?
    ensures Read(b).button.requestChat.value.chatIsChannel <==> b.peerType.RequestPeerTypeBroadcast?
    ensures Read(b).button.requestChat.value.requestId == b.buttonId
  {
  }

  /** The request-users criteria round-trip through `write` and `read` in full. */
  lemma RequestUsersRoundTrip(k: KeyboardButton)
    requires Selected(k) == Users
    ensures Read(Write(k)) == Button(TextButton(k.text).(requestUsers := k.requestUsers))
  {
    ReadWriteRoundTrip(k);
  }

  /** A contact request wins over every other option, as the first branch of `write`. */
  lemma ContactWins(k: KeyboardButton)
    requires Truthy(k.requestContact)
    ensures Write(k) == RequestPhone(k.text)
    ensures Read(Write(k)) == Button(TextButton(k.text).(requestContact := Some(true)))
  {
  }
}
