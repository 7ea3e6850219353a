/**
 * The `'message'` listener: slash-prefixed texts are left to the command
 * handlers, every other message is recorded and then routed by an exact match
 * of its text against the reply-keyboard labels, with a fallback reply for
 * any other non-empty text.
 */
module Dispatch {

  import opened Wrappers
  import opened Access
  import opened UserStore
  import opened Chat

  /** The handlers of the label table, and the two ways of having none. */
  datatype Intent =
    | Directions
    | Videos
    | Services
    | Contact
    | Statistics
    | UserListing
    | MainMenu
    | Unknown
    | NoReply

  const DirectionsLabel: string := "\U{1F30D} Yonalishlar"
  const VideosLabel: string := "\U{1F3A5} Video Lavhalar"
  const ServicesLabel: string := "\U{1F4BC} Xizmatlar"
  const ContactLabel: string := "\U{1F4DE} Aloqa"
  const StatisticsLabel: string := "\U{1F4CA} Statistika"
  const UsersLabel: string := "\U{1F465} Foydalanuvchilar"
  const MainMenuLabel: string := "\U{1F519} Asosiy menyu"

  /** A button of the admin keyboard that has no handler of its own. */
  const AnnounceLabel: string := "\U{1F4E2} E'lon yuborish"

  /** The keys of the label table. */
  const Labels: set<string> :=
    {DirectionsLabel, VideosLabel, ServicesLabel, ContactLabel, StatisticsLabel, UsersLabel, MainMenuLabel}

  predicate HasHandler(i: Intent) {
    i != Unknown && i != NoReply
  }

  /** The label a handler is registered under. */
  function Label(i: Intent): string
    requires HasHandler(i)
  {
    match i
    case Directions => DirectionsLabel
    case Videos => VideosLabel
    case Services => ServicesLabel
    case Contact => ContactLabel
    case Statistics => StatisticsLabel
    case UserListing => UsersLabel
    case MainMenu => MainMenuLabel
  }

  /** `msg.text?.startsWith('/')`: the message belongs to the command handlers. */
  predicate IsCommandText(text: Option<string>) {
    text.Some? && |text.value| > 0 && text.value[0] == '/'
  }

  /** The handlers that refuse everyone but the administrator. */
  predicate IsGated(i: Intent) {
    i == Statistics || i == UserListing
  }

  /**
   * The handler a recorded message runs: a label handler exactly when the text
   * is one of the labels, the fallback for any other non-empty text that does
   * not start with '/', and nothing for a missing or empty text.
   */
  function Route(text: Option<string>): (i: Intent)
    ensures text.None? ==> i == NoReply
    ensures HasHandler(i) <==> text.Some? && text.value in Labels
    ensures HasHandler(i) ==> text == Some(Label(i))
    ensures i == Unknown <==>
      text.Some? && text.value !in Labels && text.value != "" && text.value[0] != '/'
  {
    match text
    case None => NoReply
    case Some(t) =>
      if t == DirectionsLabel then Directions
      else if t == VideosLabel then Videos
      else if t == ServicesLabel then Services
      else if t == ContactLabel then Contact
      else if t == StatisticsLabel then Statistics
      else if t == UsersLabel then UserListing
      else if t == MainMenuLabel then MainMenu
      else if t != "" && t[0] != '/' then Unknown
      else NoReply
  }

  /** Each label routes to its own handler and to no other. */
  lemma LabelRoutesToItsHandler(i: Intent)
    requires HasHandler(i)
    ensures Route(Some(Label(i))) == i
    ensures forall j :: HasHandler(j) && j != i ==> Label(j) != Label(i)
  {
  }

  /** The admin keyboard's announcement button is answered like any unknown text. */
  lemma AnnounceLabelFallsBack()
    ensures Route(Some(AnnounceLabel)) == Unknown
  {
  }

  /**
   * The one message a handler sends for `intent`, computed after the sender is
   * recorded in `r`; `today` is the midnight `getStats` counts from.
   */
  function Respond(intent: Intent, msg: Message, r: Registry, today: int): (o: Option<Outgoing>)
    requires Consistent(r)
    ensures o.None? <==> intent == NoReply
    ensures o.Some? ==> o.value.chat == msg.chat
    ensures IsGated(intent) && !IsAdmin(msg.from.id) ==> o == Some(Denial(msg.chat))
    ensures o.Some? && o.value.reply == AccessDenied <==> IsGated(intent) && !IsAdmin(msg.from.id)
    ensures intent == Unknown ==> o == Some(Outgoing(msg.chat, UnknownMessage, MainKeyboard))
    ensures intent == Statistics && IsAdmin(msg.from.id) ==>
      o.Some? && o.value.reply.StatsReport? && o.value.reply.stats.activeToday <= o.value.reply.stats.totalUsers
      && o.value.reply.stats.totalUsers == |r.users|
  {
    match intent
    case Directions => Some(Outgoing(msg.chat, DirectionsText, NoKeyboard))
    case Videos => Some(Outgoing(msg.chat, VideosText, VideosKeyboard))
    case Services => Some(Outgoing(msg.chat, ServicesText, NoKeyboard))
    case Contact => Some(Outgoing(msg.chat, ContactText, NoKeyboard))
    case Statistics =>
      if !IsAdmin(msg.from.id) then Some(Denial(msg.chat))
      else Some(Outgoing(msg.chat, StatsReport(StatsOf(r, today)), NoKeyboard))
    case UserListing =>
      if !IsAdmin(msg.from.id) then Some(Denial(msg.chat))
      else Some(Outgoing(msg.chat, UserList(ListingOf(r)), NoKeyboard))
    case MainMenu => Some(Outgoing(msg.chat, Welcome(GreetingName(msg.from.firstName)), MainKeyboard))
    case Unknown => Some(Outgoing(msg.chat, UnknownMessage, MainKeyboard))
    case NoReply => None
  }

  /**
   * The sends a handler makes: its reply, and when the transport rejects that,
   * one attempt at the generic error message, whose own outcome is ignored.
   */
  function HandlerTrace(reply: Option<Outgoing>, chat: int, transport: Transport): (trace: seq<Event>)
    ensures reply.None? ==> trace == []
    ensures reply.Some? ==> 1 <= |trace| <= 2 && trace[0] == Attempt(reply.value, transport)
    ensures reply.Some? ==>
      (|trace| == 2 <==> !transport(reply.value))
    ensures |trace| == 2 ==> trace[1].Sent? && trace[1].message == Outgoing(chat, ErrorMessage, NoKeyboard)
  {
    match reply
    case None => []
    case Some(o) =>
      if transport(o) then [Sent(o, true)]
      else [Sent(o, false), Attempt(Outgoing(chat, ErrorMessage, NoKeyboard), transport)]
  }

  /**
   * A non-administrator who presses a gated button gets the denial and nothing
   * else: no statistics, no listing, only the error notice if the denial
   * itself cannot be delivered.
   */
  lemma GatedLabelDeniesNonAdmin(msg: Message, r: Registry, today: int, transport: Transport)
    requires Consistent(r)
    requires IsGated(Route(msg.text)) && !IsAdmin(msg.from.id)
    ensures var trace := HandlerTrace(Respond(Route(msg.text), msg, r, today), msg.chat, transport);
      && trace[0] == Attempt(Denial(msg.chat), transport)
      && forall e :: e in trace ==>
           (e.Sent? && e.message.chat == msg.chat
            && (e.message.reply == AccessDenied || e.message.reply == ErrorMessage))
  {
  }

  /**
   * The `'message'` listener for one inbound message at time `now`. Command
   * texts return at once; everything else is recorded before its handler
   * runs, and stays recorded whatever the transport does afterwards.
   */
  method OnMessage(store: Store, msg: Message, now: int, today: int, transport: Transport)
    returns (trace: seq<Event>)
    requires store.Valid()
    modifies store
    ensures store.Valid()
    ensures IsCommandText(msg.text) ==> store.Snapshot() == old(store.Snapshot()) && trace == []
    ensures !IsCommandText(msg.text) ==> store.Snapshot() == Save(old(store.Snapshot()), msg.from, now)
    ensures !IsCommandText(msg.text) ==>
      trace == HandlerTrace(Respond(Route(msg.text), msg, store.Snapshot(), today), msg.chat, transport)
  {
    if msg.text.Some? && |msg.text.value| > 0 && msg.text.value[0] == '/' {
      return [];
    }
    store.SaveUser(msg.from, now);
    var intent := Route(msg.text);
    var reply: Option<Outgoing>;
    match intent {
      case Directions => reply := Some(Outgoing(msg.chat, DirectionsText, NoKeyboard));
      case Videos => reply := Some(Outgoing(msg.chat, VideosText, VideosKeyboard));
      case Services => reply := Some(Outgoing(msg.chat, ServicesText, NoKeyboard));
      case Contact => reply := Some(Outgoing(msg.chat, ContactText, NoKeyboard));
      case Statistics =>
        if !IsAdmin(msg.from.id) {
          reply := Some(Denial(msg.chat));
        } else {
          var stats := store.GetStats(today);
          reply := Some(Outgoing(msg.chat, StatsReport(stats), NoKeyboard));
        }
      case UserListing =>
        if !IsAdmin(msg.from.id) {
          reply := Some(Denial(msg.chat));
        } else {
          var listing := store.ListUsers();
          reply := Some(Outgoing(msg.chat, UserList(listing), NoKeyboard));
        }
      case MainMenu => reply := Some(Outgoing(msg.chat, Welcome(GreetingName(msg.from.firstName)), MainKeyboard));
      case Unknown => reply := Some(Outgoing(msg.chat, UnknownMessage, MainKeyboard));
      case NoReply => reply := None;
    }
    trace := [];
    if reply.Some? {
      var delivered := transport(reply.value);
      trace := [Sent(reply.value, delivered)];
      if !delivered {
        var notice := Outgoing(msg.chat, ErrorMessage, NoKeyboard);
        trace := trace + [Attempt(notice, transport)];
      }
    }
  }

  // ---------------------------------------------------------------------------
  // The label lookup as written: `messageHandlers[messageText]` on a plain
  // object literal also finds the members every object inherits.

  /** The property names an object literal inherits from `Object.prototype`. */
  const InheritedNames: set<string> := {
    "constructor", "__defineGetter__", "__defineSetter__", "hasOwnProperty",
    "__lookupGetter__", "__lookupSetter__", "isPrototypeOf", "propertyIsEnumerable",
    "toString", "valueOf", "__proto__", "toLocaleString"}

  /**
   * The inherited members that return without throwing when called as
   * `handler(chatId, msg)`: `Object` wraps its argument, `toString` describes
   * `undefined`, `isPrototypeOf` answers false for a number. The others throw a
   * TypeError (no usable `this`, or, for `__proto__`, not a function).
   */
  const QuietInheritedNames: set<string> := {"constructor", "toString", "isPrototypeOf"}

  /** What the as-written lookup finds and how the listener then behaves. */
  datatype Handling = Runs(intent: Intent) | InheritedQuiet | InheritedThrows

  /** The property key a text is looked up under; a missing text becomes "undefined". */
  function PropertyKey(text: Option<string>): string {
    match text
    case None => "undefined"
    case Some(t) => t
  }

  /** The listener's routing as written, inherited members included. */
  function RouteAsWritten(text: Option<string>): (h: Handling)
    ensures h.InheritedQuiet? <==> PropertyKey(text) in QuietInheritedNames
    ensures h.InheritedThrows? <==> PropertyKey(text) in InheritedNames - QuietInheritedNames
  {
    var key := PropertyKey(text);
    if key in QuietInheritedNames then InheritedQuiet
    else if key in InheritedNames then InheritedThrows
    else Runs(Route(text))
  }

  /** Away from the inherited names, the lookup as written and Route agree. */
  lemma RouteAsWrittenAgrees(text: Option<string>)
    requires PropertyKey(text) !in InheritedNames
    ensures RouteAsWritten(text) == Runs(Route(text))
  {
  }

  /**
   * An inherited name typed as a message should get the fallback reply, but
   * the lookup as written finds a truthy handler, so the fallback never runs:
   * the sender gets no reply or, when the inherited member throws, the generic
   * error message.
   */
  lemma InheritedNameMisrouted(t: string)
    requires t in InheritedNames
    ensures Route(Some(t)) == Unknown
    ensures RouteAsWritten(Some(t)) != Runs(Unknown)
  {
    assert t != "" && t[0] != '/';
  }

  /** The concrete case: "constructor" is answered with silence. */
  lemma ConstructorGetsNoReply()
    ensures RouteAsWritten(Some("constructor")) == InheritedQuiet
    ensures Route(Some("constructor")) == Unknown
  {
    InheritedNameMisrouted("constructor");
  }

}
