/**
 * The slash commands registered with `bot.onText`. Each pattern is unanchored,
 * so it fires whenever its text occurs anywhere in a message. A text starting
 * with '/' is never recorded in the user registry; a text with a command further
 * in is recorded and answered by the `'message'` listener's fallback as well as
 * by the command handler. `/admin`, `/stats` and `/broadcast` answer anyone but
 * the administrator with the denial alone.
 */
module Commands {

  import opened Wrappers
  import opened Access
  import opened UserStore
  import opened Chat
  import opened Broadcast
  import opened Dispatch

  datatype Command = Start | Admin | StatsCommand | BroadcastCommand(body: string)

  predicate OccursAt(t: string, p: string, i: nat) {
    i + |p| <= |t| && t[i..i + |p|] == p
  }

  /** `p` occurs somewhere in `t`, which is all an unanchored pattern without groups asks. */
  predicate Contains(t: string, p: string) {
    exists i: nat :: i <= |t| && OccursAt(t, p, i)
  }

  /** The characters JavaScript's `.` does not match. */
  predicate IsLineTerminator(c: char) {
    c == '\n' || c == '\r' || c == '\U{2028}' || c == '\U{2029}'
  }

  const BroadcastPrefix: string := "/broadcast "

  /** `/\/broadcast (.+)/` can match at `i`: the prefix, then at least one character of the same line. */
  predicate MatchesAt(t: string, i: nat) {
    OccursAt(t, BroadcastPrefix, i) && i + |BroadcastPrefix| < |t| && !IsLineTerminator(t[i + |BroadcastPrefix|])
  }

  /** The leftmost position at or after `from` where the broadcast pattern matches. */
  function FirstMatch(t: string, from: nat): (r: Option<nat>)
    ensures r.Some? ==>
      from <= r.value < |t| && MatchesAt(t, r.value)
      && forall j: nat :: from <= j < r.value ==> !MatchesAt(t, j)
    ensures r.None? ==> forall j: nat :: from <= j ==> !MatchesAt(t, j)
    decreases |t| - from
  {
    if from >= |t| then None
    else if MatchesAt(t, from) then Some(from)
    else FirstMatch(t, from + 1)
  }

  /** What greedy `.+` takes: the longest prefix of `s` that stays on one line. */
  function RestOfLine(s: string): (line: string)
    ensures |line| <= |s| && line == s[..|line|]
    ensures forall k :: 0 <= k < |line| ==> !IsLineTerminator(line[k])
    ensures |line| == |s| || IsLineTerminator(s[|line|])
  {
    if s == [] || IsLineTerminator(s[0]) then [] else [s[0]] + RestOfLine(s[1..])
  }

  /**
   * `match[1]` of `/\/broadcast (.+)/`: the rest of the line after the first
   * "/broadcast " that is followed by at least one character on its line.
   */
  function BroadcastArg(t: string): (r: Option<string>)
    ensures r.Some? <==> exists i: nat :: MatchesAt(t, i)
    ensures r.Some? ==>
      |r.value| > 0 && forall k :: 0 <= k < |r.value| ==> !IsLineTerminator(r.value[k])
    ensures r.Some? ==>
      exists i: nat :: MatchesAt(t, i) && (forall j: nat :: j < i ==> !MatchesAt(t, j))
        && r.value == RestOfLine(t[i + |BroadcastPrefix|..])
  {
    match FirstMatch(t, 0)
    case None => None
    case Some(i) => Some(RestOfLine(t[i + |BroadcastPrefix|..]))
  }

  /** The command handlers a message text triggers, in the order they are registered. */
  function MatchedCommands(t: string): (cs: seq<Command>)
    ensures Start in cs <==> Contains(t, "/start")
    ensures Admin in cs <==> Contains(t, "/admin")
    ensures StatsCommand in cs <==> Contains(t, "/stats")
    ensures (exists c :: c in cs && c.BroadcastCommand?) <==> BroadcastArg(t).Some?
    ensures forall c :: c in cs && c.BroadcastCommand? ==> BroadcastArg(t) == Some(c.body)
  {
    var broadcast := match BroadcastArg(t) case Some(body) => [BroadcastCommand(body)] case None => [];
    var cs := (if Contains(t, "/start") then [Start] else [])
      + (if Contains(t, "/admin") then [Admin] else [])
      + (if Contains(t, "/stats") then [StatsCommand] else [])
      + broadcast;
    assert BroadcastArg(t).Some? ==> BroadcastCommand(BroadcastArg(t).value) in cs;
    cs
  }

  /** Whether a command is kept for the administrator. */
  predicate IsGatedCommand(cmd: Command) {
    cmd != Start
  }

  /**
   * One command handler for `msg`. A failed send is only logged, except that a
   * rejected progress notice ends a broadcast before any announcement.
   */
  method OnCommand(store: Store, msg: Message, cmd: Command, today: int, transport: Transport)
    returns (trace: seq<Event>)
    requires store.Valid()
    ensures cmd == Start ==>
      trace == [Attempt(Outgoing(msg.chat, Welcome(GreetingName(msg.from.firstName)), MainKeyboard), transport)]
    ensures IsGatedCommand(cmd) && !IsAdmin(msg.from.id) ==> trace == [Attempt(Denial(msg.chat), transport)]
    ensures cmd == Admin && IsAdmin(msg.from.id) ==>
      trace == [Attempt(Outgoing(msg.chat, AdminPanel, AdminKeyboard), transport)]
    ensures cmd == StatsCommand && IsAdmin(msg.from.id) ==>
      trace == [Attempt(Outgoing(msg.chat, DetailedStats(StatsOf(store.Snapshot(), today)), NoKeyboard), transport)]
    ensures cmd.BroadcastCommand? && IsAdmin(msg.from.id) ==>
      trace == BroadcastTrace(store.Values(), msg.chat, cmd.body, transport)
  {
    if IsGatedCommand(cmd) && !IsAdmin(msg.from.id) {
      return [Attempt(Denial(msg.chat), transport)];
    }
    match cmd {
      case Start =>
        var welcome := Outgoing(msg.chat, Welcome(GreetingName(msg.from.firstName)), MainKeyboard);
        trace := [Attempt(welcome, transport)];
      case Admin =>
        trace := [Attempt(Outgoing(msg.chat, AdminPanel, AdminKeyboard), transport)];
      case StatsCommand =>
        var stats := store.GetStats(today);
        trace := [Attempt(Outgoing(msg.chat, DetailedStats(stats), NoKeyboard), transport)];
      case BroadcastCommand(body) =>
        trace := RunBroadcast(store.Values(), msg.chat, body, transport);
    }
  }

  /** No reply-keyboard label contains a '/'. */
  lemma LabelsHaveNoSlash(t: string)
    requires t in Labels
    ensures '/' !in t
  {
  }

  /**
   * A text that does not start with '/' but mentions `/stats` further in, such
   * as "hi /stats", is handled twice: the `'message'` listener records it and
   * sends the fallback, and the `/stats` handler fires for the same message.
   */
  lemma EmbeddedCommandHandledTwice(t: string)
    requires |t| > 0 && t[0] != '/' && Contains(t, "/stats")
    ensures !IsCommandText(Some(t))
    ensures Route(Some(t)) == Unknown
    ensures StatsCommand in MatchedCommands(t)
  {
    var i: nat :| i <= |t| && OccursAt(t, "/stats", i);
    assert t[i] == t[i..i + 6][0] == '/';
    if t in Labels {
      LabelsHaveNoSlash(t);
    }
  }

  /**
   * A message that triggers no command handler and starts with '/' is answered
   * by nobody: the `'message'` listener leaves it to the commands.
   */
  lemma UsersCommandIsUnanswered()
    ensures MatchedCommands("/users") == []
  {
    assert !Contains("/users", "/start") by {
      forall i: nat | i <= 6 ensures !OccursAt("/users", "/start", i) {
        if i == 0 {
          assert "/users"[1] != "/start"[1];
        }
      }
    }
    assert !Contains("/users", "/admin") by {
      forall i: nat | i <= 6 ensures !OccursAt("/users", "/admin", i) {
        if i == 0 {
          assert "/users"[1] != "/admin"[1];
        }
      }
    }
    assert !Contains("/users", "/stats") by {
      forall i: nat | i <= 6 ensures !OccursAt("/users", "/stats", i) {
        if i == 0 {
          assert "/users"[1] != "/stats"[1];
        }
      }
    }
  }

}
