/** The part of `xmpp_client` that translates between the hbox's events and XMPP
    messages: the subject an outgoing event is sent under, the event an incoming message
    becomes, what a roster presence becomes, and the two code-to-text tables. The gloox
    connection itself is not modelled; a sent message is returned as a value. */
module Xmpp {
  import opened Wrappers
  import opened Events

  /** A normal XMPP message: recipient, body and subject. */
  datatype Message = Message(to: string, body: string, subject: string)

  /** `onMessage`: the message an event from the hbox is sent as, if any. */
  function OnMessage(e: Event): (m: Option<Message>)
    ensures m.Some? ==> m.value.to == e.name && m.value.body == e.description
  {
    if e.IsHboxInfo() then
      if e.command == "NEW" then Some(Message(e.name, e.description, "HBOX_INFO")) else None
    else if e.command == "NEW" then Some(Message(e.name, e.description, "NEW_DEVICE"))
    else if e.command == "PORT" then Some(Message(e.name, e.description, "DEVICE_PORT"))
    else if e.command == "SERVICE" then Some(Message(e.name, e.description, "NEW_SERVICE"))
    else if e.command == "START" then Some(Message(e.name, e.description, "START_DEVICE"))
    else if e.command == "DEL" then Some(Message(e.name, e.description, "DELETE_DEVICE"))
    else if e.command == "ACTION" then Some(Message(e.name, e.description, "ACTION"))
    else if e.command == "ACTION_RESPONSE" then Some(Message(e.name, e.description, "ACTION_RESPONSE"))
    else None
  }

  /** `handleMessage`: the event a message from `sender` (its bare JID) is pushed to the
      hbox as, if its subject is one of the eight known ones. */
  function HandleMessage(sender: string, subject: string, body: string): (e: Option<Event>)
    ensures e.Some? ==> e.value.name == sender && e.value.description == body
  {
    if subject == "HBOX_INFO" then Some(Event("NEW", false, sender, body))
    else if subject == "NEW_DEVICE" then Some(Event("NEW", true, sender, body))
    else if subject == "DEVICE_PORT" then Some(Event("PORT", true, sender, body))
    else if subject == "NEW_SERVICE" then Some(Event("SERVICE", true, sender, body))
    else if subject == "START_DEVICE" then Some(Event("START", true, sender, body))
    else if subject == "DELETE_DEVICE" then Some(Event("DEL", true, sender, body))
    else if subject == "ACTION" then Some(Event("ACTION", true, sender, body))
    else if subject == "ACTION_RESPONSE" then Some(Event("ACTION_RESPONSE", true, sender, body))
    else None
  }

  /** The events the hbox can send to a peer: hbox-level NEW, and the seven device-level
      commands. */
  predicate Sendable(e: Event) {
    if e.IsHboxInfo() then e.command == "NEW"
    else e.command in ["NEW", "PORT", "SERVICE", "START", "DEL", "ACTION", "ACTION_RESPONSE"]
  }

  /** An event is sent exactly when it is one of the sendable ones. */
  lemma OnMessageSends(e: Event)
    ensures OnMessage(e).Some? <==> Sendable(e)
  {
  }

  /** Sending and receiving round-trip: the receiving hbox gets back the command, the level
      and the description, named after the sender. */
  lemma SendReceive(e: Event, sender: string)
    requires Sendable(e)
    ensures OnMessage(e).Some?
    ensures var m := OnMessage(e).value;
      HandleMessage(sender, m.subject, m.body) == Some(e.(name := sender))
  {
  }

  /** The other direction: every message that becomes an event is the message that event
      is sent as (to whichever peer it names). */
  lemma ReceiveSend(sender: string, subject: string, body: string, to: string)
    requires HandleMessage(sender, subject, body).Some?
    ensures var e := HandleMessage(sender, subject, body).value;
      Sendable(e) && OnMessage(e.(name := to)) == Some(Message(to, body, subject))
  {
  }

  /** `PresenceMeaning`: the name of a gloox presence type. */
  function PresenceMeaning(n: int): (s: string)
    ensures s == "Available" <==> n == 0
    ensures !(0 <= n <= 8) <==> s == "Something is wrong"
  {
    match n
    case 0 => "Available"
    case 1 => "Chat"
    case 2 => "Away"
    case 3 => "DND"
    case 4 => "XA"
    case 5 => "Offline"
    case 6 => "Probe"
    case 7 => "Error"
    case 8 => "Invalid"
    case _ => "Something is wrong"
  }

  /** `handleRosterPresence`: an available peer is announced as a new hbox, any other
      presence retires it; both name it by its JID, in name and description. */
  function HandleRosterPresence(jid: string, presence: int): (e: Event)
    ensures e.IsHboxInfo() && e.name == jid && e.description == jid
    ensures e.command == (if presence == 0 then "NEW" else "DEL")
  {
    if PresenceMeaning(presence) == "Available" then Event("NEW", false, jid, jid)
    else Event("DEL", false, jid, jid)
  }

  /** `StanzaErrorMeaning`: the switch has no return for codes outside 0..24, so callers
      must stay inside. */
  function StanzaErrorMeaning(n: int): (s: string)
    requires 0 <= n <= 24
    ensures |s| > 0
  {
    match n
    case 0 => "StanzaErrorBadRequest "
    case 1 => "StanzaErrorConflict- Node by this name already exists "
    case 2 => "StanzaErrorFeatureNotImplemented "
    case 3 => "StanzaErrorForbidden "
    case 4 => "StanzaErrorGone "
    case 5 => "StanzaErrorInternalServerError "
    case 6 => "StanzaErrorItemNotFound "
    case 7 => "StanzaErrorJidMalformed "
    case 8 => "StanzaErrorNotAcceptable "
    case 9 => "StanzaErrorNotAllowed "
    case 10 => "StanzaErrorNotAuthorized "
    case 11 => "StanzaErrorNotModified "
    case 12 => "StanzaErrorPaymentRequired "
    case 13 => "StanzaErrorRecipientUnavailable "
    case 14 => "StanzaErrorRedirect "
    case 15 => "StanzaErrorRegistrationRequired"
    case 16 => "StanzaErrorRemoteServerNotFound "
    case 17 => "StanzaErrorRemoteServerTimeout "
    case 18 => "StanzaErrorResourceConstraint"
    case 19 => "StanzaErrorServiceUnavailable "
    case 20 => "StanzaErrorSubscribtionRequired "
    case 21 => "StanzaErrorUndefinedCondition "
    case 22 => "StanzaErrorUnexpectedRequest "
    case 23 => "associated error type SHOULD be "
    case _ => "StanzaErrorUndefined"
  }
}
