/**
 * The shapes the bot exchanges with the chat transport: an inbound message,
 * the replies it sends (their texts and keyboards are fixed copy, so they are
 * named rather than spelled out), and the trace of what was sent.
 */
module Chat {

  import opened Wrappers
  import opened UserStore

  /** An inbound message: the chat it came from, its sender and its text, which is absent for media. */
  datatype Message = Message(chat: int, from: Sender, text: Option<string>)

  datatype Keyboard = NoKeyboard | MainKeyboard | VideosKeyboard | AdminKeyboard

  datatype Reply =
    | Welcome(name: string)
    | DirectionsText
    | VideosText
    | ServicesText
    | ContactText
    | AdminPanel
    | AccessDenied
    | UnknownMessage
    | ErrorMessage
    | StatsReport(stats: Stats)
    | DetailedStats(stats: Stats)
    | UserList(listing: Listing)
    | BroadcastStarted
    | Announcement(body: string)
    | BroadcastSummary(successCount: nat, errorCount: nat)

  /** One `bot.sendMessage(chat, text, keyboard)` call. */
  datatype Outgoing = Outgoing(chat: int, reply: Reply, keyboard: Keyboard)

  /** What happened, in order: each send attempt with whether the transport accepted it, and each pause. */
  datatype Event = Sent(message: Outgoing, delivered: bool) | Pause(ms: nat)

  /** The transport's verdict on each send; the model never looks inside it. */
  type Transport = Outgoing -> bool

  function Attempt(o: Outgoing, transport: Transport): Event {
    Sent(o, transport(o))
  }

  /** The name the greeting uses: `first_name || 'Foydalanuvchi'`. */
  function GreetingName(firstName: string): string {
    if firstName == "" then "Foydalanuvchi" else firstName
  }

  function Denial(chat: int): Outgoing {
    Outgoing(chat, AccessDenied, NoKeyboard)
  }

}
