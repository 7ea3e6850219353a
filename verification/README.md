# ExclusiveTour bot: user registry, label dispatch and broadcast

A Dafny model of the logic in `bot.js`, a Telegram bot for a travel agency. The bot keeps an in-memory
registry of the users who write to it (`users`, a JavaScript `Map` keyed by `user.id.toString()`, plus the
`userStats` counters). It routes each non-command message by exact match of its text against the reply-keyboard
labels. Two of those labels, and the `/admin`, `/stats` and `/broadcast` commands, are kept for one
administrator. `/broadcast` sends an announcement to every known user and counts successes and failures.

Modules, one per component:

- `Wrappers` (`wrappers.dfy`): `Option`.
- `Decimal` (`decimal.dfy`): `Number.prototype.toString` on integer identities, with its inverse. The registry
  keys users by this string, and the administrator test compares against it.
- `Access` (`access.dfy`): `ADMIN_ID` and `isAdmin`.
- `UserStore` (`user_store.dfy`): the records, the value `Registry` with `Save`, `StatsOf` and `ListingOf`
  defined on it, lemmas about replaying a history of events, and the class `Store`. `Store` is the object the bot
  mutates. `SaveUser`, `GetStats` and `ListUsers` are proved against those functions.
- `Chat` (`chat.dfy`): inbound messages, the replies and keyboards (named, since their texts are fixed copy),
  and the trace of send attempts and pauses. The transport is a function from an outgoing message to
  "accepted or rejected".
- `Dispatch` (`dispatch.dfy`): the `'message'` listener (`OnMessage`), label routing (`Route`), the handlers'
  replies (`Respond`), the error-notice path, and the lookup as written (see Findings).
- `Broadcast` (`broadcast.dfy`): the delivery loop (`DeliverAll`) and the whole authorised `/broadcast`
  handler (`RunBroadcast`), with lemmas about their traces.
- `Commands` (`commands.dfy`): the `onText` patterns as substring tests, the `/broadcast (.+)` capture, and
  the four command handlers (`OnCommand`).

Three behaviours of the code that the model keeps as written:

- A user's `messageCount` starts at 0 and counts only the events after the first. The global `messagesCount`
  counts every event. `UserStore.RepeatedSender` proves the result: N events give a count of N - 1.
- A text starting with `/` is never recorded: only the `'message'` listener calls `saveUser`, and it returns
  early on such a text. The command patterns are unanchored, though. A text with a command further in, such as
  `hi /stats`, is recorded and answered by the listener's fallback, and the command's handler answers it too.
  A non-administrator sending `hi /stats` therefore gets both the fallback and the denial
  (`Commands.EmbeddedCommandHandledTwice`).
- The admin panel text advertises `/users`, but no handler exists for it. `Commands.UsersCommandIsUnanswered`
  shows that no command pattern matches it, and the `'message'` listener skips it because it starts with `/`.

## Model

| member | source | states |
|---|---|---|
| `Decimal.IdStringRoundTrip` | bot.js:69 | the key string of an identity reads back as that identity |
| `Decimal.IdStringInjective` | bot.js:69 | two identities have the same key exactly when they are equal; `UserStore.DistinctIds` uses this to show the map holds one record per identity |
| `Access.AdminIsUnique` | bot.js:66 | `isAdmin(id)` holds for exactly one identity, 7405854373 |
| `UserStore.Save` | bot.js:68-87 | an unseen sender adds exactly its key, appended to the order, with a fresh record (count 0, join and activity time `now`) and `totalUsers` + 1. A seen sender keeps the key set and order and its record's id, names and join time; only its activity time (now `now`) and count (+1) change. Other records are untouched, and `messagesCount` rises by 1 in both branches |
| `UserStore.SaveKeepsConsistent` | bot.js:70-86 | recording keeps the invariant: `totalUsers` equals the number of users (`users.size`), and the order lists every key once |
| `UserStore.SaveKeepsKeyed` | bot.js:69-72 | recording keeps every record under the key of its own `id` |
| `UserStore.DistinctIds` | bot.js:69-72 | in a consistent registry whose records sit under their own keys, no two stored users have the same identity |
| `UserStore.ActiveWithinUsers` | bot.js:93-101 | `activeToday` never exceeds `totalUsers` |
| `UserStore.StatsOf` | bot.js:89-104 | the statistics report `users.size`, the users active since midnight (at most that many), and the global message count |
| `UserStore.ReplayTotals` | bot.js:68-87 | after any history of events the registry is consistent, `messagesCount` equals the number of events, and the keys (and `totalUsers`) are exactly the distinct senders |
| `UserStore.ReplayKeyed` | bot.js:68-87 | after any history of events, every record is stored under the key of its own identity |
| `UserStore.FirstFrom` | bot.js:70-80 | the event a new record is built from: the earliest event in the history from that sender |
| `UserStore.LastFrom` | bot.js:82-84 | the event that last refreshed a record: the latest event in the history from that sender |
| `UserStore.ReplayRecord` | bot.js:70-85 | after any history, a sender's record has the names, id and join time of its first event, the time of its last event, and a count one less than its number of events |
| `UserStore.ReplayActiveToday` | bot.js:93-98 | after any history, the users counted as active today are exactly the senders whose latest event is at or after midnight |
| `UserStore.RepeatedSender` | bot.js:78-84 | N events from one sender leave one user whose count is N - 1 |
| `UserStore.Store.constructor` | bot.js:59-64 | the store starts empty with both counters at 0 |
| `UserStore.Store.SaveUser` | bot.js:68-87 | the in-place update leaves the store equal to `Save` of its old value, and keeps both the invariant and the key of every record |
| `UserStore.Store.GetStats` | bot.js:89-104 | one pass over the users counts exactly those active since `today`, at most `totalUsers`; the totals are `users.size` and `messagesCount` |
| `UserStore.Store.ListUsers` | bot.js:134-143 | the listing has min(20, n) entries in insertion order, numbered 1.., with an empty username shown as `no_username`, and a trailer of n - 20 exactly when n > 20 |
| `Dispatch.Route` | bot.js:223-228 | a handler runs exactly when the text equals one of the seven labels, and it is that label's handler. Any other non-empty text not starting with `/` gets the fallback. A missing or empty text gets nothing |
| `Dispatch.LabelRoutesToItsHandler` | bot.js:107-150 | each label routes to its own handler, and no two handlers share a label |
| `Dispatch.AnnounceLabelFallsBack` | bot.js:51 | the admin keyboard's announcement button has no handler and gets the fallback |
| `Dispatch.Respond` | bot.js:107-150 | each handler sends one message to the originating chat; the two gated handlers send a non-administrator the denial and nothing else; the denial goes to nobody else; the fallback carries the main keyboard; the statistics sent to the administrator are bounded as `getStats` promises |
| `Dispatch.HandlerTrace` | bot.js:224-236 | a handler's reply is attempted once; only when the transport rejects it is one error notice attempted, and that attempt's outcome changes nothing |
| `Dispatch.GatedLabelDeniesNonAdmin` | bot.js:120-133 | a non-administrator pressing a gated button is sent only the denial, or the error notice if that fails |
| `Dispatch.OnMessage` | bot.js:217-237 | a text starting with `/` records nothing and sends nothing. Any other message (with or without text) is recorded first, and stays recorded whatever the transport does. Then exactly the routed handler's sends follow |
| `Dispatch.RouteAsWritten` | bot.js:223-228 | the lookup as written: inherited member names find a handler, silent for three of them and throwing for the rest |
| `Dispatch.RouteAsWrittenAgrees` | bot.js:223-228 | for every text that is not an inherited member name, the lookup as written routes like `Route` |
| `Dispatch.InheritedNameMisrouted` | bot.js:223-228 | every inherited member name should get the fallback, but the lookup as written never gives it one |
| `Dispatch.ConstructorGetsNoReply` | bot.js:223-225 | the text `constructor` is answered with silence |
| `Commands.FirstMatch` | bot.js:190 | finds the leftmost position where `/broadcast ` is followed by a character on the same line, or reports that there is none |
| `Commands.RestOfLine` | bot.js:190 | the greedy `(.+)` capture takes the longest prefix without a line terminator |
| `Commands.BroadcastArg` | bot.js:190-197 | the broadcast pattern matches exactly when some position matches. The captured body is the rest of the line after the leftmost match, so it is non-empty and on one line |
| `Commands.MatchedCommands` | bot.js:152-190 | each command pattern fires exactly when its text occurs anywhere in the message (unanchored) |
| `Commands.OnCommand` | bot.js:152-215 | `/start` greets anyone. `/admin`, `/stats` and `/broadcast` send a non-administrator the denial alone, with no broadcast. The administrator gets the panel, the current statistics, or the full broadcast. No command changes the registry |
| `Commands.LabelsHaveNoSlash` | bot.js:107-150 | no label in the handler table contains a `/` |
| `Commands.EmbeddedCommandHandledTwice` | bot.js:175-227 | a text that does not start with `/` but contains `/stats` is recorded and routed to the fallback by the `'message'` listener, and it fires the `/stats` handler as well |
| `Commands.UsersCommandIsUnanswered` | bot.js:22 | the `/users` command the admin panel advertises triggers no handler |
| `Broadcast.StepShape` | bot.js:202-209 | one iteration attempts its own user once and pauses only after a delivery |
| `Broadcast.DeliveriesVisitEachOnce` | bot.js:201-210 | the loop attempts every user exactly once, in store order, whatever the transport answers |
| `Broadcast.StepPaused` | bot.js:203-205 | within one iteration, the 100-unit pause comes right after a delivered send and only there |
| `Broadcast.DeliveriesPauseCount` | bot.js:202-209 | the loop pauses exactly as many times as the transport accepts an announcement |
| `Broadcast.DeliveriesPauseAfterSuccess` | bot.js:202-209 | over the whole loop, each delivered send is followed directly by a 100-unit pause, and every pause follows a delivered send |
| `Broadcast.NoIdentityAnnouncedTwice` | bot.js:201-203 | over the registry the bot keeps, the loop addresses one announcement to each stored user, and no identity gets two |
| `Broadcast.DeliverAll` | bot.js:198-210 | `successCount + errorCount` equals the number of users, and `successCount` is the number the transport accepted; the trace is the reference loop's |
| `Broadcast.RunBroadcast` | bot.js:197-211 | the progress notice goes first. If it is rejected, nothing else is sent. Otherwise the last send is a summary whose counts add up to the number of users |
| `Broadcast.BroadcastReachesEveryone` | bot.js:198-211 | in a broadcast that starts, the announcements go to every user once in store order, and the summary reports the deliveries and the rejections |

## Findings

| source | as written | input that shows it | evidently intended | confidence | as-written member | corrected member |
|---|---|---|---|---|---|---|
| bot.js:223-228 | `messageHandlers[messageText]` reads an ordinary object literal, so the twelve names every object inherits from `Object.prototype` also find a truthy "handler". The fallback is then skipped: `constructor`, `toString` and `isPrototypeOf` return quietly, and the others throw, which produces the generic error message | the message text `constructor` (also `toString`, `hasOwnProperty`, `__proto__`, …) | every text that is not one of the seven labels, is not empty and does not start with `/` gets `unknownMessage` with the main keyboard | not executed; follows from JavaScript's property lookup and the built-ins' behaviour when called without a receiver | `Dispatch.RouteAsWritten` | `Dispatch.Route` |

`Dispatch.InheritedNameMisrouted` and `Dispatch.ConstructorGetsNoReply` prove the discrepancy.
`Dispatch.RouteAsWrittenAgrees` proves that the two lookups agree on every other text. `Dispatch.OnMessage`
uses the corrected `Route`.

## Left out

- Telegram client setup, long polling, the `polling_error` listener, SIGINT shutdown and the start-up log lines
  (bot.js:1-12, 239-250). These are process and network plumbing.
- Environment loading (bot.js:1, 14). `ADMIN_ID` is the fallback value `7405854373`. A deployment that sets
  `ADMIN_CHAT_ID` replaces that constant. The bot token is not modelled.
- Message texts and keyboard layouts (bot.js:16-57) are named values (`Reply`, `Keyboard`), not strings. The
  listing is a structured `Listing` rather than the concatenated text of bot.js:138 and 142. The date and time
  in the two statistics messages (bot.js:126, 183) are left out, because they depend on locale and time zone.
- Clocks: `now` and `today` (the midnight `getStats` computes) are integers passed in by the caller. `saveUser`
  calls `new Date()` twice for a new user; the model gives `joinDate` and `lastActivity` the same instant.
- The 100 ms `setTimeout` is a `Pause` event in the trace. Nothing waits.
- Interleaving at `await` points. A broadcast runs over a snapshot of the users, while the live `Map` iterator
  would also reach users added during its pauses. Each listener runs as one step. The library's order of
  running the `'message'` listener and the `onText` callbacks for the same update is not modelled.
  `Commands.MatchedCommands` gives only the set of callbacks that fire.
- `console.error` logging. A rejected send leaves a `Sent(…, false)` event, and that is all.
- `userStats.activeToday` (bot.js:62) is never read or written after initialisation, so it is not modelled.
  `userStats.totalUsers` is kept, and `UserStore.SaveKeepsConsistent` proves it equals `users.size`, which is
  what `getStats` reports.
- Numbers: identities and counters are unbounded integers. JavaScript's loss of precision above 2^53, and its
  exponent notation for magnitudes of at least 10^21 in `toString`, are not modelled.
- A message without `from` would make `saveUser` throw. Telegram always supplies it for private messages, so
  `Message.from` is always present.
- Strings are sequences of Unicode scalar values, while JavaScript strings are UTF-16 code units. None of the
  modelled comparisons or captures behave differently.
