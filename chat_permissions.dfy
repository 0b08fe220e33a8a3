/**
 * `ChatPermissions._parse` and `ChatPermissions.write` of
 * `pyrogram/types/user_and_chats/chat_permissions.py`: the translation between
 * the permissions a chat grants and the raw `ChatBannedRights` record, whose
 * flags say what is denied. Optional booleans are `Option<bool>`, with `None`
 * for Python's `None`; `not x` is `Not(x)`.
 */
module ChatPermissions {
  import opened Wrappers

  /** The API object: every permission is optional. */
  datatype ChatPermissions = ChatPermissions(
    canSendMessages: Option<bool>,
    canSendAudios: Option<bool>,
    canSendDocuments: Option<bool>,
    canSendPhotos: Option<bool>,
    canSendVideos: Option<bool>,
    canSendVideoNotes: Option<bool>,
    canSendVoiceNotes: Option<bool>,
    canSendPolls: Option<bool>,
    canSendOtherMessages: Option<bool>,
    canAddWebPagePreviews: Option<bool>,
    canChangeInfo: Option<bool>,
    canInviteUsers: Option<bool>,
    canPinMessages: Option<bool>,
    canManageTopics: Option<bool>,
    canSendMediaMessages: Option<bool>)

  /** The raw `ChatBannedRights` record: every flag denies something. */
  datatype ChatBannedRights = ChatBannedRights(
    untilDate: Option<int>,
    viewMessages: Option<bool>,
    sendMessages: Option<bool>,
    sendMedia: Option<bool>,
    sendStickers: Option<bool>,
    sendGifs: Option<bool>,
    sendGames: Option<bool>,
    sendInline: Option<bool>,
    embedLinks: Option<bool>,
    sendPolls: Option<bool>,
    changeInfo: Option<bool>,
    inviteUsers: Option<bool>,
    pinMessages: Option<bool>,
    manageTopics: Option<bool>,
    sendPhotos: Option<bool>,
    sendVideos: Option<bool>,
    sendRoundvideos: Option<bool>,
    sendAudios: Option<bool>,
    sendVoices: Option<bool>,
    sendDocs: Option<bool>,
    sendPlain: Option<bool>)

  /** What `_parse` may be handed: banned rights or any other raw object. */
  datatype RawRights = Banned(rights: ChatBannedRights) | OtherRights

  /** Some per-type media flag is present (not `None`). */
  predicate HasFineGrainedMedia(d: ChatBannedRights) {
    d.sendAudios.Some? || d.sendDocs.Some? || d.sendPhotos.Some? ||
    d.sendVideos.Some? || d.sendRoundvideos.Some? || d.sendVoices.Some?
  }

  /**
   * `_parse`: defaults to False everywhere, then overrides from the banned
   * rights; anything that is not a ChatBannedRights falls through to `None`.
   */
  function Parse(raw: RawRights): (r: Option<ChatPermissions>)
    ensures r.Some? <==> raw.Banned?
  {
    match raw
    case OtherRights => None
    case Banned(d) =>
      var canPin := Not(d.pinMessages);
      var canManageTopics := if d.manageTopics.Some? then Not(d.manageTopics) else canPin;
      var media := Not(d.sendMedia);
      var fine := HasFineGrainedMedia(d);
      Some(ChatPermissions(
        canSendMessages := Some(Not(d.sendMessages)),
        canSendAudios := Some(if fine then Not(d.sendAudios) else media),
        canSendDocuments := Some(if fine then Not(d.sendDocs) else media),
        canSendPhotos := Some(if fine then Not(d.sendPhotos) else media),
        canSendVideos := Some(if fine then Not(d.sendVideos) else media),
        canSendVideoNotes := Some(if fine then Not(d.sendRoundvideos) else media),
        canSendVoiceNotes := Some(if fine then Not(d.sendVoices) else media),
        canSendPolls := Some(Not(d.sendPolls)),
        canSendOtherMessages := Some(Not(d.sendGifs) || Not(d.sendGames) || Not(d.sendStickers) || Not(d.sendInline)),
        canAddWebPagePreviews := Some(Not(d.embedLinks)),
        canChangeInfo := Some(Not(d.changeInfo)),
        canInviteUsers := Some(Not(d.inviteUsers)),
        canPinMessages := Some(canPin),
        canManageTopics := Some(canManageTopics),
        canSendMediaMessages := Some(if fine then false else media)))
  }

  /**
   * `write`. `until_date` is the timestamp `datetime_to_timestamp` produced;
   * `use_independent_chat_permissions` is accepted and ignored, as in the code.
   * `manage_topics` is `(x and not x) or not can_pin_messages` as written.
   */
  function Write(p: ChatPermissions, useIndependentChatPermissions: bool, untilDate: Option<int>): ChatBannedRights {
    var other := Not(p.canSendOtherMessages);
    ChatBannedRights(
      untilDate := untilDate,
      viewMessages := None,
      sendMessages := Some(Not(p.canSendMessages)),
      sendMedia := Some(Not(p.canSendMediaMessages)),
      sendStickers := Some(other),
      sendGifs := Some(other),
      sendGames := Some(other),
      sendInline := Some(other),
      embedLinks := Some(Not(p.canAddWebPagePreviews)),
      sendPolls := Some(Not(p.canSendPolls)),
      changeInfo := Some(Not(p.canChangeInfo)),
      inviteUsers := Some(Not(p.canInviteUsers)),
      pinMessages := Some(Not(p.canPinMessages)),
      manageTopics := Some(SelfAndNotSelfOr(p.canManageTopics, Not(p.canPinMessages))),
      sendPhotos := Some(Not(p.canSendPhotos)),
      sendVideos := Some(Not(p.canSendVideos)),
      sendRoundvideos := Some(Not(p.canSendVideoNotes)),
      sendAudios := Some(Not(p.canSendAudios)),
      sendVoices := Some(Not(p.canSendVoiceNotes)),
      sendDocs := Some(Not(p.canSendDocuments)),
      sendPlain := None)
  }

  /**
   * Python's `(x and not x) or y` for an optional boolean `x` and a boolean
   * `y`: `x and not x` yields `x` when `x` is falsy and `False` otherwise, and
   * `or` then yields `y` whenever the left operand is falsy.
   */
  function SelfAndNotSelfOr(x: Option<bool>, y: bool): bool {
    var left: Option<bool> := if Truthy(x) then Some(Not(x)) else x;
    if Truthy(left) then true else y
  }

  // ---------------------------------------------------------------- properties of _parse

  /** The six simple permissions are the negations of their banned flags. */
  lemma ParseNegations(d: ChatBannedRights)
    ensures var p := Parse(Banned(d)).value;
      p.canSendMessages == Some(!Truthy(d.sendMessages)) &&
      p.canSendPolls == Some(!Truthy(d.sendPolls)) &&
      p.canAddWebPagePreviews == Some(!Truthy(d.embedLinks)) &&
      p.canChangeInfo == Some(!Truthy(d.changeInfo)) &&
      p.canInviteUsers == Some(!Truthy(d.inviteUsers)) &&
      p.canPinMessages == Some(!Truthy(d.pinMessages))
  {
  }

  /** Other messages are allowed iff at least one of gifs, games, stickers and inline bots is not banned. */
  lemma ParseOtherMessages(d: ChatBannedRights)
    ensures Parse(Banned(d)).value.canSendOtherMessages == Some(true) <==>
      !Truthy(d.sendGifs) || !Truthy(d.sendGames) || !Truthy(d.sendStickers) || !Truthy(d.sendInline)
  {
  }

  /** Topic management negates its own flag when present and follows pinning otherwise. */
  lemma ParseManageTopics(d: ChatBannedRights)
    ensures d.manageTopics.Some? ==> Parse(Banned(d)).value.canManageTopics == Some(!Truthy(d.manageTopics))
    ensures d.manageTopics.None? ==>
      Parse(Banned(d)).value.canManageTopics == Parse(Banned(d)).value.canPinMessages
  {
  }

  /**
   * With a per-type media flag present, each media permission negates its own
   * flag and `can_send_media_messages` stays False; otherwise all six follow
   * `not send_media`, and so does `can_send_media_messages`.
   */
  lemma ParseMedia(d: ChatBannedRights)
    ensures var p := Parse(Banned(d)).value;
      HasFineGrainedMedia(d) ==>
        p.canSendAudios == Some(!Truthy(d.sendAudios)) && p.canSendDocuments == Some(!Truthy(d.sendDocs)) &&
        p.canSendPhotos == Some(!Truthy(d.sendPhotos)) && p.canSendVideos == Some(!Truthy(d.sendVideos)) &&
        p.canSendVideoNotes == Some(!Truthy(d.sendRoundvideos)) &&
        p.canSendVoiceNotes == Some(!Truthy(d.sendVoices)) && p.canSendMediaMessages == Some(false)
    ensures var p := Parse(Banned(d)).value;
      var m := Some(!Truthy(d.sendMedia));
      !HasFineGrainedMedia(d) ==>
        p.canSendAudios == m && p.canSendDocuments == m && p.canSendPhotos == m && p.canSendVideos == m &&
        p.canSendVideoNotes == m && p.canSendVoiceNotes == m && p.canSendMediaMessages == m
  {
  }

  // ---------------------------------------------------------------- properties of write

  /** `write` bans exactly what is not truthily permitted; the four "other" flags move together. */
  lemma WriteNegations(p: ChatPermissions, independent: bool, untilDate: Option<int>)
    ensures Write(p, independent, untilDate).untilDate == untilDate
    ensures Write(p, independent, untilDate).viewMessages.None?
    ensures Write(p, independent, untilDate).sendPlain.None?
    ensures Write(p, independent, untilDate).sendMessages == Some(!Truthy(p.canSendMessages))
    ensures Write(p, independent, untilDate).sendMedia == Some(!Truthy(p.canSendMediaMessages))
    ensures Write(p, independent, untilDate).sendStickers == Some(!Truthy(p.canSendOtherMessages))
    ensures Write(p, independent, untilDate).sendGifs == Write(p, independent, untilDate).sendStickers
    ensures Write(p, independent, untilDate).sendGames == Write(p, independent, untilDate).sendStickers
    ensures Write(p, independent, untilDate).sendInline == Write(p, independent, untilDate).sendStickers
    ensures Write(p, independent, untilDate).embedLinks == Some(!Truthy(p.canAddWebPagePreviews))
    ensures Write(p, independent, untilDate).sendPolls == Some(!Truthy(p.canSendPolls))
    ensures Write(p, independent, untilDate).changeInfo == Some(!Truthy(p.canChangeInfo))
    ensures Write(p, independent, untilDate).inviteUsers == Some(!Truthy(p.canInviteUsers))
    ensures Write(p, independent, untilDate).pinMessages == Some(!Truthy(p.canPinMessages))
    ensures Write(p, independent, untilDate).sendAudios == Some(!Truthy(p.canSendAudios))
    ensures Write(p, independent, untilDate).sendDocs == Some(!Truthy(p.canSendDocuments))
    ensures Write(p, independent, untilDate).sendPhotos == Some(!Truthy(p.canSendPhotos))
    ensures Write(p, independent, untilDate).sendVideos == Some(!Truthy(p.canSendVideos))
    ensures Write(p, independent, untilDate).sendRoundvideos == Some(!Truthy(p.canSendVideoNotes))
    ensures Write(p, independent, untilDate).sendVoices == Some(!Truthy(p.canSendVoiceNotes))
  {
  }

  /** `(x and not x)` is never truthy, so `manage_topics` is `not can_pin_messages` whatever `can_manage_topics` is. */
  lemma WriteManageTopics(p: ChatPermissions, independent: bool, untilDate: Option<int>)
    ensures Write(p, independent, untilDate).manageTopics == Some(!Truthy(p.canPinMessages))
  {
    var x := p.canManageTopics;
    var left: Option<bool> := if Truthy(x) then Some(Not(x)) else x;
    assert !Truthy(left);
  }

  /** A concrete input: a user barred from managing topics but allowed to pin is written as allowed to manage them. */
  lemma ManageTopicsIgnored()
    ensures var p := ChatPermissions(None, None, None, None, None, None, None, None, None, None, None, None,
                                     Some(true), Some(false), None);
      Write(p, false, Some(0)).manageTopics == Some(false)
  {
  }

  predicate Definite(p: ChatPermissions) {
    p.canSendMessages.Some? && p.canSendAudios.Some? && p.canSendDocuments.Some? && p.canSendPhotos.Some? &&
    p.canSendVideos.Some? && p.canSendVideoNotes.Some? && p.canSendVoiceNotes.Some? && p.canSendPolls.Some? &&
    p.canSendOtherMessages.Some? && p.canAddWebPagePreviews.Some? && p.canChangeInfo.Some? &&
    p.canInviteUsers.Some? && p.canPinMessages.Some? && p.canManageTopics.Some? && p.canSendMediaMessages.Some?
  }

  /**
   * Round trip for definite booleans: every permission comes back, except that
   * topic management comes back as the pin permission and, since `write`
   * always sends per-type media flags, `can_send_media_messages` as False.
   */
  lemma ParseWriteRoundTrip(p: ChatPermissions, independent: bool, untilDate: Option<int>)
    requires Definite(p)
    ensures Parse(Banned(Write(p, independent, untilDate))) ==
      Some(p.(canManageTopics := p.canPinMessages, canSendMediaMessages := Some(false)))
  {
    WriteManageTopics(p, independent, untilDate);
    NotNot(p.canSendMessages); NotNot(p.canSendAudios); NotNot(p.canSendDocuments);
    NotNot(p.canSendPhotos); NotNot(p.canSendVideos); NotNot(p.canSendVideoNotes);
    NotNot(p.canSendVoiceNotes); NotNot(p.canSendPolls); NotNot(p.canSendOtherMessages);
    NotNot(p.canAddWebPagePreviews); NotNot(p.canChangeInfo); NotNot(p.canInviteUsers);
    NotNot(p.canPinMessages);
  }

  // ---------------------------------------------------------------- the evidently intended write

  /** `write` with `manage_topics` negating `can_manage_topics`, falling back to pinning when it is omitted. */
  function WriteIntended(p: ChatPermissions, useIndependentChatPermissions: bool, untilDate: Option<int>): ChatBannedRights {
    Write(p, useIndependentChatPermissions, untilDate).(
      manageTopics := Some(if p.canManageTopics.Some? then Not(p.canManageTopics) else Not(p.canPinMessages)))
  }

  /** With the intended `write`, topic management round-trips too. */
  lemma ParseWriteIntendedRoundTrip(p: ChatPermissions, independent: bool, untilDate: Option<int>)
    requires Definite(p)
    ensures Parse(Banned(WriteIntended(p, independent, untilDate))) ==
      Some(p.(canSendMediaMessages := Some(false)))
  {
    NotNot(p.canSendMessages); NotNot(p.canSendAudios); NotNot(p.canSendDocuments);
    NotNot(p.canSendPhotos); NotNot(p.canSendVideos); NotNot(p.canSendVideoNotes);
    NotNot(p.canSendVoiceNotes); NotNot(p.canSendPolls); NotNot(p.canSendOtherMessages);
    NotNot(p.canAddWebPagePreviews); NotNot(p.canChangeInfo); NotNot(p.canInviteUsers);
    NotNot(p.canPinMessages);
    NotNot(p.canManageTopics);
  }
}
