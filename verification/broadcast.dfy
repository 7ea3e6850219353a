/**
 * The `/broadcast` fan-out: one announcement per known user, in the order the
 * users were first seen. A rejected send is counted and skipped, a delivered
 * one is counted and followed by a fixed pause, and the administrator gets a
 * summary of both counts at the end.
 */
module Broadcast {

  import opened UserStore
  import opened Chat

  /** The pause after each delivered announcement. */
  const PauseMs: nat := 100

  /** The announcement to one user: `📢 E'lon:` followed by the body. */
  function Announce(u: UserRecord, body: string): Outgoing {
    Outgoing(u.id, Announcement(body), NoKeyboard)
  }

  /** What one iteration of the loop does for user `u`. */
  function Step(u: UserRecord, body: string, transport: Transport): seq<Event> {
    var o := Announce(u, body);
    if transport(o) then [Sent(o, true), Pause(PauseMs)] else [Sent(o, false)]
  }

  /** The events of the loop over `users`, in order. */
  function Deliveries(users: seq<UserRecord>, body: string, transport: Transport): seq<Event> {
    if users == [] then []
    else Deliveries(users[..|users| - 1], body, transport) + Step(users[|users| - 1], body, transport)
  }

  /** How many of the announcements to `users` the transport accepts. */
  function Delivered(users: seq<UserRecord>, body: string, transport: Transport): (n: nat)
    ensures n <= |users|
  {
    if users == [] then 0
    else
      Delivered(users[..|users| - 1], body, transport)
      + (if transport(Announce(users[|users| - 1], body)) then 1 else 0)
  }

  /** The identities of `users`, in order. */
  function Ids(users: seq<UserRecord>): seq<int> {
    if users == [] then [] else Ids(users[..|users| - 1]) + [users[|users| - 1].id]
  }

  lemma {:induction false} IdsAt(users: seq<UserRecord>)
    ensures |Ids(users)| == |users|
    ensures forall i :: 0 <= i < |users| ==> Ids(users)[i] == users[i].id
  {
    if users != [] {
      IdsAt(users[..|users| - 1]);
    }
  }

  /** The chats that send attempts in `trace` went to, in order. */
  function Recipients(trace: seq<Event>): seq<int> {
    if trace == [] then []
    else
      var e := trace[|trace| - 1];
      Recipients(trace[..|trace| - 1]) + (if e.Sent? then [e.message.chat] else [])
  }

  /** The number of pauses in `trace`. */
  function Pauses(trace: seq<Event>): nat {
    if trace == [] then 0
    else Pauses(trace[..|trace| - 1]) + (if trace[|trace| - 1].Pause? then 1 else 0)
  }

  lemma {:induction false} RecipientsAppend(a: seq<Event>, b: seq<Event>)
    ensures Recipients(a + b) == Recipients(a) + Recipients(b)
    ensures Pauses(a + b) == Pauses(a) + Pauses(b)
  {
    if b == [] {
      assert a + b == a;
    } else {
      assert (a + b)[..|a + b| - 1] == a + b[..|b| - 1];
      RecipientsAppend(a, b[..|b| - 1]);
    }
  }

  /** One iteration attempts exactly its user and pauses only after a delivery. */
  lemma StepShape(u: UserRecord, body: string, transport: Transport)
    ensures Recipients(Step(u, body, transport)) == [u.id]
    ensures Pauses(Step(u, body, transport)) == if transport(Announce(u, body)) then 1 else 0
  {
    var o := Announce(u, body);
    var first := [Sent(o, transport(o))];
    assert first[..0] == [];
    assert Recipients(first) == [u.id];
    assert Pauses(first) == 0;
    if transport(o) {
      assert Step(u, body, transport)[..1] == first;
    }
  }

  /**
   * Every user is attempted exactly once, in store order, whatever the
   * transport answers: a failure does not end the loop.
   */
  lemma {:induction false} DeliveriesVisitEachOnce(users: seq<UserRecord>, body: string, transport: Transport)
    ensures Recipients(Deliveries(users, body, transport)) == Ids(users)
  {
    if users != [] {
      var prefix := users[..|users| - 1];
      DeliveriesVisitEachOnce(prefix, body, transport);
      RecipientsAppend(Deliveries(prefix, body, transport), Step(users[|users| - 1], body, transport));
      StepShape(users[|users| - 1], body, transport);
    }
  }

  /**
   * In `trace`, a pause comes right after each delivered send, and nowhere
   * else; a rejected send is followed directly by the next attempt.
   */
  ghost predicate PausedAfterDelivery(trace: seq<Event>) {
    && (forall i :: 0 <= i < |trace| && trace[i].Pause? ==>
          0 < i && trace[i - 1].Sent? && trace[i - 1].delivered && trace[i].ms == PauseMs)
    && (forall i :: 0 <= i < |trace| && trace[i].Sent? && trace[i].delivered ==>
          i + 1 < |trace| && trace[i + 1] == Pause(PauseMs))
  }

  lemma PausedAfterDeliveryAppend(a: seq<Event>, b: seq<Event>)
    requires PausedAfterDelivery(a) && PausedAfterDelivery(b)
    ensures PausedAfterDelivery(a + b)
  {
    var t := a + b;
    forall i | 0 <= i < |t| && t[i].Pause?
      ensures 0 < i && t[i - 1].Sent? && t[i - 1].delivered && t[i].ms == PauseMs
    {
      if i < |a| {
        assert t[i - 1] == a[i - 1];
      } else {
        assert t[i] == b[i - |a|];
        assert t[i - 1] == b[i - 1 - |a|];
      }
    }
    forall i | 0 <= i < |t| && t[i].Sent? && t[i].delivered
      ensures i + 1 < |t| && t[i + 1] == Pause(PauseMs)
    {
      if i < |a| {
        assert t[i + 1] == a[i + 1];
      } else {
        assert t[i] == b[i - |a|];
        assert t[i + 1] == b[i + 1 - |a|];
      }
    }
  }

  /** One iteration on its own already pauses right after a delivery and nowhere else. */
  lemma StepPaused(u: UserRecord, body: string, transport: Transport)
    ensures PausedAfterDelivery(Step(u, body, transport))
  {
  }

  /** There are exactly as many pauses as deliveries. */
  lemma {:induction false} DeliveriesPauseCount(users: seq<UserRecord>, body: string, transport: Transport)
    ensures Pauses(Deliveries(users, body, transport)) == Delivered(users, body, transport)
  {
    if users != [] {
      var prefix := users[..|users| - 1];
      DeliveriesPauseCount(prefix, body, transport);
      RecipientsAppend(Deliveries(prefix, body, transport), Step(users[|users| - 1], body, transport));
      StepShape(users[|users| - 1], body, transport);
    }
  }

  /** A pause follows every delivered announcement and nothing else. */
  lemma {:induction false} DeliveriesPauseAfterSuccess(users: seq<UserRecord>, body: string, transport: Transport)
    ensures PausedAfterDelivery(Deliveries(users, body, transport))
  {
    if users != [] {
      var prefix := users[..|users| - 1];
      DeliveriesPauseAfterSuccess(prefix, body, transport);
      StepPaused(users[|users| - 1], body, transport);
      PausedAfterDeliveryAppend(Deliveries(prefix, body, transport), Step(users[|users| - 1], body, transport));
    }
  }

  /**
   * The loop over a snapshot of the users: each delivery counts as a success
   * and each rejected send as an error, so the two counts add up to the
   * number of users.
   */
  method DeliverAll(users: seq<UserRecord>, body: string, transport: Transport)
    returns (successCount: nat, errorCount: nat, trace: seq<Event>)
    ensures successCount + errorCount == |users|
    ensures successCount == Delivered(users, body, transport)
    ensures trace == Deliveries(users, body, transport)
  {
    successCount, errorCount, trace := 0, 0, [];
    var i := 0;
    while i < |users|
      invariant 0 <= i <= |users|
      invariant successCount + errorCount == i
      invariant successCount == Delivered(users[..i], body, transport)
      invariant trace == Deliveries(users[..i], body, transport)
    {
      var announcement := Announce(users[i], body);
      assert users[..i + 1][..i] == users[..i];
      if transport(announcement) {
        trace := trace + [Sent(announcement, true)];
        successCount := successCount + 1;
        trace := trace + [Pause(PauseMs)];
      } else {
        errorCount := errorCount + 1;
        trace := trace + [Sent(announcement, false)];
      }
      i := i + 1;
    }
    assert users[..i] == users;
  }

  /**
   * Over the registry the bot keeps, with one record per identity, the loop
   * announces to every stored user and to no identity twice.
   */
  lemma NoIdentityAnnouncedTwice(r: Registry, body: string, transport: Transport)
    requires Consistent(r) && KeyedById(r)
    ensures var recipients := Recipients(Deliveries(ValuesOf(r), body, transport));
      && |recipients| == |r.users|
      && (forall i, j :: 0 <= i < j < |recipients| ==> recipients[i] != recipients[j])
  {
    var users := ValuesOf(r);
    DeliveriesVisitEachOnce(users, body, transport);
    IdsAt(users);
    DistinctIds(r);
  }

  /**
   * Everything an authorised `/broadcast` sends: the progress notice to the
   * administrator; if that is rejected the handler gives up; otherwise the
   * deliveries and a summary with both counts.
   */
  function BroadcastTrace(users: seq<UserRecord>, chat: int, body: string, transport: Transport): seq<Event> {
    var notice := Outgoing(chat, BroadcastStarted, NoKeyboard);
    if !transport(notice) then [Sent(notice, false)]
    else
      var delivered := Delivered(users, body, transport);
      [Sent(notice, true)] + Deliveries(users, body, transport)
      + [Attempt(Outgoing(chat, BroadcastSummary(delivered, |users| - delivered), NoKeyboard), transport)]
  }

  /** The body of the `/broadcast` handler once the caller is known to be the administrator. */
  method RunBroadcast(users: seq<UserRecord>, chat: int, body: string, transport: Transport)
    returns (trace: seq<Event>)
    ensures trace == BroadcastTrace(users, chat, body, transport)
    ensures |trace| > 0 && trace[0].Sent? && trace[0].message == Outgoing(chat, BroadcastStarted, NoKeyboard)
    ensures trace[0].delivered ==>
      trace[|trace| - 1].Sent? && trace[|trace| - 1].message.reply.BroadcastSummary?
      && trace[|trace| - 1].message.reply.successCount + trace[|trace| - 1].message.reply.errorCount == |users|
  {
    var notice := Outgoing(chat, BroadcastStarted, NoKeyboard);
    if !transport(notice) {
      return [Sent(notice, false)];
    }
    var successCount, errorCount, deliveries := DeliverAll(users, body, transport);
    var summary := Outgoing(chat, BroadcastSummary(successCount, errorCount), NoKeyboard);
    trace := [Sent(notice, true)] + deliveries + [Attempt(summary, transport)];
  }

  /**
   * When the notice gets through, the announcements in a broadcast go to every
   * user once, in store order, and the summary's counts are the number of
   * deliveries and the number of rejections.
   */
  lemma BroadcastReachesEveryone(users: seq<UserRecord>, chat: int, body: string, transport: Transport)
    requires transport(Outgoing(chat, BroadcastStarted, NoKeyboard))
    ensures var trace := BroadcastTrace(users, chat, body, transport);
      var middle := trace[1..|trace| - 1];
      && Recipients(middle) == Ids(users)
      && Pauses(middle) == trace[|trace| - 1].message.reply.successCount
      && trace[|trace| - 1].message.reply.errorCount == |users| - Pauses(middle)
  {
    var trace := BroadcastTrace(users, chat, body, transport);
    assert trace[1..|trace| - 1] == Deliveries(users, body, transport);
    DeliveriesVisitEachOnce(users, body, transport);
    DeliveriesPauseCount(users, body, transport);
  }

}
