/**
 * The in-memory user registry: the `users` Map keyed by `user.id.toString()`,
 * iterated in insertion order, and the `userStats` counters. `Registry` is its
 * value; `Store` is the object the bot updates in place.
 */
module UserStore {

  import opened Wrappers
  import opened Decimal

  /** The `from` object of an inbound message; last name and username may be absent. */
  datatype Sender = Sender(id: int, firstName: string, lastName: Option<string>, username: Option<string>)

  /** One stored user. Times are whatever clock values the caller supplies. */
  datatype UserRecord = UserRecord(
    id: int,
    firstName: string,
    lastName: string,
    username: string,
    joinDate: int,
    lastActivity: int,
    messageCount: nat)

  /** The object `getStats` returns. */
  datatype Stats = Stats(totalUsers: nat, activeToday: nat, messagesCount: nat)

  /** One line of the user listing, numbered from 1. */
  datatype Entry = Entry(number: nat, firstName: string, lastName: string, username: string)

  /** The user listing: at most ListLimit entries, and how many users were not shown. */
  datatype Listing = Listing(entries: seq<Entry>, remaining: Option<nat>)

  /** The users map with its insertion order, and the two counters that are kept up to date. */
  datatype Registry = Registry(
    users: map<string, UserRecord>,
    order: seq<string>,
    totalUsers: nat,
    messagesCount: nat)

  const Empty: Registry := Registry(map[], [], 0, 0)

  /** The listing stops after this many users. */
  const ListLimit: nat := 20

  /** `x || ''` on an optional string. */
  function OrEmpty(o: Option<string>): string {
    match o
    case Some(s) => s
    case None => ""
  }

  function Key(u: Sender): string {
    IdString(u.id)
  }

  /**
   * The registry's invariant: the counter equals the number of users, and the
   * insertion order lists every key exactly once.
   */
  ghost predicate Consistent(r: Registry) {
    && r.totalUsers == |r.users|
    && |r.order| == |r.users|
    && (forall i :: 0 <= i < |r.order| ==> r.order[i] in r.users)
    && (forall k :: k in r.users ==> k in r.order)
    && (forall i, j :: 0 <= i < j < |r.order| ==> r.order[i] != r.order[j])
  }

  /**
   * `saveUser`: a first event creates the record, later events refresh its
   * activity time and count; every event counts towards `messagesCount`.
   */
  function Save(r: Registry, u: Sender, now: int): (r': Registry)
    ensures r'.messagesCount == r.messagesCount + 1
    ensures r'.users.Keys == r.users.Keys + {Key(u)}
    ensures forall k :: k in r.users && k != Key(u) ==> r'.users[k] == r.users[k]
    ensures Key(u) !in r.users ==>
      && r'.totalUsers == r.totalUsers + 1
      && r'.order == r.order + [Key(u)]
      && r'.users[Key(u)] == UserRecord(u.id, u.firstName, OrEmpty(u.lastName), OrEmpty(u.username), now, now, 0)
    ensures Key(u) in r.users ==>
      && r'.totalUsers == r.totalUsers
      && r'.order == r.order
      && r'.users[Key(u)].id == r.users[Key(u)].id
      && r'.users[Key(u)].firstName == r.users[Key(u)].firstName
      && r'.users[Key(u)].lastName == r.users[Key(u)].lastName
      && r'.users[Key(u)].username == r.users[Key(u)].username
      && r'.users[Key(u)].joinDate == r.users[Key(u)].joinDate
      && r'.users[Key(u)].lastActivity == now
      && r'.users[Key(u)].messageCount == r.users[Key(u)].messageCount + 1
  {
    var k := Key(u);
    if k !in r.users then
      var created := UserRecord(u.id, u.firstName, OrEmpty(u.lastName), OrEmpty(u.username), now, now, 0);
      Registry(r.users[k := created], r.order + [k], r.totalUsers + 1, r.messagesCount + 1)
    else
      var prior := r.users[k];
      var refreshed := prior.(lastActivity := now, messageCount := prior.messageCount + 1);
      Registry(r.users[k := refreshed], r.order, r.totalUsers, r.messagesCount + 1)
  }

  /** Recording an event keeps the registry's invariant; in particular `totalUsers` stays equal to the number of users. */
  lemma SaveKeepsConsistent(r: Registry, u: Sender, now: int)
    requires Consistent(r)
    ensures Consistent(Save(r, u, now))
  {
    var r' := Save(r, u, now);
    var k := Key(u);
    if k !in r.users {
      assert |r'.users| == |r.users| + 1;
      forall i, j | 0 <= i < j < |r'.order| ensures r'.order[i] != r'.order[j] {
        if j == |r.order| {
          assert r.order[i] in r.users;
        }
      }
    }
  }

  /** Every record sits under its own identity's key, as `users.set(userId, { id: user.id, … })` stores it. */
  ghost predicate KeyedById(r: Registry) {
    forall k {:trigger IdString(r.users[k].id)} :: k in r.users ==> IdString(r.users[k].id) == k
  }

  /** Recording an event stores the new record under its own identity's key. */
  lemma SaveKeepsKeyed(r: Registry, u: Sender, now: int)
    requires KeyedById(r)
    ensures KeyedById(Save(r, u, now))
  {
  }

  /** Since keys are distinct and each is its record's identity, no identity is stored twice. */
  lemma DistinctIds(r: Registry)
    requires Consistent(r) && KeyedById(r)
    ensures forall i, j :: 0 <= i < j < |ValuesOf(r)| ==> ValuesOf(r)[i].id != ValuesOf(r)[j].id
  {
    var vs := ValuesOf(r);
    forall i, j | 0 <= i < j < |vs| ensures vs[i].id != vs[j].id {
      assert IdString(vs[i].id) == r.order[i] != r.order[j] == IdString(vs[j].id);
      IdStringInjective(vs[i].id, vs[j].id);
    }
  }

  /** The keys of the users whose last activity is at or after `today` (midnight). */
  function ActiveKeys(r: Registry, today: int): set<string> {
    set k | k in r.users && r.users[k].lastActivity >= today
  }

  /** The keys among `keys` whose users were active since `today`. */
  function ActiveIn(keys: seq<string>, users: map<string, UserRecord>, today: int): set<string> {
    set k | k in keys && k in users && users[k].lastActivity >= today
  }

  lemma ActiveInSnoc(keys: seq<string>, k: string, users: map<string, UserRecord>, today: int)
    requires k !in keys && k in users
    ensures |ActiveIn(keys + [k], users, today)| ==
      |ActiveIn(keys, users, today)| + (if users[k].lastActivity >= today then 1 else 0)
  {
    if users[k].lastActivity >= today {
      assert ActiveIn(keys + [k], users, today) == ActiveIn(keys, users, today) + {k};
    } else {
      assert ActiveIn(keys + [k], users, today) == ActiveIn(keys, users, today);
    }
  }

  lemma ActiveInOrder(r: Registry, today: int)
    requires Consistent(r)
    ensures ActiveIn(r.order, r.users, today) == ActiveKeys(r, today)
  {
  }

  /** `getStats`, with `today` the midnight that starts the current day. */
  function StatsOf(r: Registry, today: int): (s: Stats)
    ensures s.activeToday <= s.totalUsers
    ensures s.totalUsers == |r.users|
    ensures s.messagesCount == r.messagesCount
  {
    ActiveWithinUsers(r, today);
    Stats(|r.users|, |ActiveKeys(r, today)|, r.messagesCount)
  }

  lemma ActiveWithinUsers(r: Registry, today: int)
    ensures |ActiveKeys(r, today)| <= |r.users|
  {
    SubsetSize(ActiveKeys(r, today), r.users.Keys);
  }

  lemma {:induction false} SubsetSize<T>(a: set<T>, b: set<T>)
    requires a <= b
    ensures |a| <= |b|
    decreases b
  {
    if a != {} {
      var x :| x in a;
      SubsetSize(a - {x}, b - {x});
    }
  }

  /** How the listing shows a username: `user.username || 'no_username'`. */
  function ShownUsername(username: string): string {
    if username == "" then "no_username" else username
  }

  function EntryFor(index: nat, u: UserRecord): Entry {
    Entry(index + 1, u.firstName, u.lastName, ShownUsername(u.username))
  }

  function Min(a: nat, b: nat): nat {
    if a <= b then a else b
  }

  /** The users in insertion order. */
  function ValuesOf(r: Registry): (vs: seq<UserRecord>)
    requires Consistent(r)
    ensures |vs| == |r.order|
    ensures forall i :: 0 <= i < |vs| ==> vs[i] == r.users[r.order[i]]
  {
    seq(|r.order|, i requires 0 <= i < |r.order| => r.users[r.order[i]])
  }

  /**
   * The `Foydalanuvchilar` listing: the first ListLimit users in insertion
   * order, numbered from 1, and the number left over when there are more.
   */
  function ListingOf(r: Registry): Listing
    requires Consistent(r)
  {
    var vs := ValuesOf(r);
    Listing(
      seq(Min(ListLimit, |vs|), i requires 0 <= i < Min(ListLimit, |vs|) => EntryFor(i, vs[i])),
      if |r.users| > ListLimit then Some(|r.users| - ListLimit) else None)
  }

  // ---------------------------------------------------------------------------
  // Replaying a history of inbound events.

  /** One recorded event: who sent it and when. */
  datatype Arrival = Arrival(from: Sender, at: int)

  /** The registry after recording `events`, oldest first, from an empty start. */
  function Replay(events: seq<Arrival>): Registry {
    if events == [] then Empty
    else
      var last := events[|events| - 1];
      Save(Replay(events[..|events| - 1]), last.from, last.at)
  }

  /** The keys of all senders in `events`. */
  function SeenKeys(events: seq<Arrival>): set<string> {
    set i | 0 <= i < |events| :: Key(events[i].from)
  }

  /** The number of events from the sender keyed `k`. */
  function CountFrom(events: seq<Arrival>, k: string): nat {
    if events == [] then 0
    else CountFrom(events[..|events| - 1], k) + (if Key(events[|events| - 1].from) == k then 1 else 0)
  }

  /** The first event from the sender keyed `k`. */
  function FirstFrom(events: seq<Arrival>, k: string): (first: Arrival)
    requires k in SeenKeys(events)
    ensures Key(first.from) == k
    ensures exists i :: 0 <= i < |events| && events[i] == first && forall j :: 0 <= j < i ==> Key(events[j].from) != k
  {
    var prefix := events[..|events| - 1];
    if k in SeenKeys(prefix) then
      var first := FirstFrom(prefix, k);
      var i :| 0 <= i < |prefix| && prefix[i] == first && forall j :: 0 <= j < i ==> Key(prefix[j].from) != k;
      assert events[i] == first && forall j :: 0 <= j < i ==> events[j] == prefix[j];
      first
    else
      var first := events[|events| - 1];
      SeenKeysSnoc(events);
      assert forall j :: 0 <= j < |prefix| ==> Key(events[j].from) != k by {
        forall j | 0 <= j < |prefix| ensures Key(events[j].from) != k {
          assert prefix[j] == events[j];
        }
      }
      first
  }

  /** The last event from the sender keyed `k`. */
  function LastFrom(events: seq<Arrival>, k: string): (last: Arrival)
    requires k in SeenKeys(events)
    ensures Key(last.from) == k
    ensures exists i :: 0 <= i < |events| && events[i] == last && forall j :: i < j < |events| ==> Key(events[j].from) != k
  {
    var last := events[|events| - 1];
    if Key(last.from) == k then
      assert events[|events| - 1] == last;
      last
    else
      var prefix := events[..|events| - 1];
      SeenKeysSnoc(events);
      var r := LastFrom(prefix, k);
      var i :| 0 <= i < |prefix| && prefix[i] == r && forall j :: i < j < |prefix| ==> Key(prefix[j].from) != k;
      assert events[i] == r;
      assert forall j :: i < j < |events| ==> Key(events[j].from) != k by {
        forall j | i < j < |events| ensures Key(events[j].from) != k {
          if j < |prefix| {
            assert events[j] == prefix[j];
          }
        }
      }
      r
  }

  lemma SeenKeysSnoc(events: seq<Arrival>)
    requires events != []
    ensures SeenKeys(events) == SeenKeys(events[..|events| - 1]) + {Key(events[|events| - 1].from)}
  {
    var prefix := events[..|events| - 1];
    forall k | k in SeenKeys(events) ensures k in SeenKeys(prefix) + {Key(events[|events| - 1].from)} {
      var i :| 0 <= i < |events| && Key(events[i].from) == k;
      if i < |events| - 1 {
        assert prefix[i] == events[i];
      }
    }
    forall k | k in SeenKeys(prefix) ensures k in SeenKeys(events) {
      var i :| 0 <= i < |prefix| && Key(prefix[i].from) == k;
      assert events[i] == prefix[i];
    }
  }

  /**
   * A history of events leaves one record per distinct sender, with
   * `totalUsers` equal to their number, and a global count of every event.
   */
  lemma {:induction false} ReplayTotals(events: seq<Arrival>)
    ensures Consistent(Replay(events))
    ensures Replay(events).messagesCount == |events|
    ensures Replay(events).users.Keys == SeenKeys(events)
    ensures Replay(events).totalUsers == |SeenKeys(events)|
  {
    if events != [] {
      var prefix := events[..|events| - 1];
      var last := events[|events| - 1];
      ReplayTotals(prefix);
      SeenKeysSnoc(events);
      SaveKeepsConsistent(Replay(prefix), last.from, last.at);
    }
  }

  /** A history of events stores every record under its own identity's key. */
  lemma {:induction false} ReplayKeyed(events: seq<Arrival>)
    ensures KeyedById(Replay(events))
  {
    if events != [] {
      var last := events[|events| - 1];
      ReplayKeyed(events[..|events| - 1]);
      SaveKeepsKeyed(Replay(events[..|events| - 1]), last.from, last.at);
    }
  }

  lemma {:induction false} CountFromUnseen(events: seq<Arrival>, k: string)
    requires k !in SeenKeys(events)
    ensures CountFrom(events, k) == 0
  {
    if events != [] {
      SeenKeysSnoc(events);
      CountFromUnseen(events[..|events| - 1], k);
    }
  }

  /**
   * The record of a sender after a history of events: the names, identity and
   * join time of its first event, the time of its last event, and a count one
   * less than its number of events.
   */
  lemma {:induction false} ReplayRecord(events: seq<Arrival>, k: string)
    requires k in SeenKeys(events)
    ensures k in Replay(events).users
    ensures var u := Replay(events).users[k];
      var first := FirstFrom(events, k);
      && u.messageCount + 1 == CountFrom(events, k)
      && u.lastActivity == LastFrom(events, k).at
      && u.id == first.from.id
      && u.firstName == first.from.firstName
      && u.lastName == OrEmpty(first.from.lastName)
      && u.username == OrEmpty(first.from.username)
      && u.joinDate == first.at
  {
    var prefix := events[..|events| - 1];
    var last := events[|events| - 1];
    ReplayTotals(prefix);
    SeenKeysSnoc(events);
    if k in SeenKeys(prefix) {
      ReplayRecord(prefix, k);
    } else {
      CountFromUnseen(prefix, k);
    }
  }

  /**
   * After a history of events, the users `getStats` counts as active today
   * are exactly the senders whose most recent event is at or after `today`.
   */
  lemma ReplayActiveToday(events: seq<Arrival>, today: int)
    ensures ActiveKeys(Replay(events), today) ==
      set k | k in SeenKeys(events) && LastFrom(events, k).at >= today
  {
    forall k ensures k in ActiveKeys(Replay(events), today) <==> k in SeenKeys(events) && LastFrom(events, k).at >= today {
      ReplayActiveKey(events, today, k);
    }
  }

  lemma ReplayActiveKey(events: seq<Arrival>, today: int, k: string)
    ensures k in ActiveKeys(Replay(events), today) <==> k in SeenKeys(events) && LastFrom(events, k).at >= today
  {
    ReplayTotals(events);
    if k in SeenKeys(events) {
      ReplayRecord(events, k);
    }
  }

  /** After N events from one sender, its record counts N - 1 of them. */
  lemma RepeatedSender(u: Sender, times: seq<int>)
    requires |times| > 0
    ensures Key(u) in Replay(Arrivals(u, times)).users
    ensures Replay(Arrivals(u, times)).users[Key(u)].messageCount == |times| - 1
    ensures Replay(Arrivals(u, times)).totalUsers == 1
  {
    var events := Arrivals(u, times);
    ReplayTotals(events);
    ReplayRecord(events, Key(u));
    CountSingleSender(u, times);
    assert events[0] == Arrival(u, times[0]);
    assert SeenKeys(events) == {Key(u)};
  }

  /** Events from `u` at each of `times`. */
  function Arrivals(u: Sender, times: seq<int>): (events: seq<Arrival>)
    ensures |events| == |times|
    ensures forall i :: 0 <= i < |times| ==> events[i] == Arrival(u, times[i])
  {
    seq(|times|, i requires 0 <= i < |times| => Arrival(u, times[i]))
  }

  lemma {:induction false} CountSingleSender(u: Sender, times: seq<int>)
    ensures CountFrom(Arrivals(u, times), Key(u)) == |times|
  {
    if times != [] {
      var prefix := times[..|times| - 1];
      assert Arrivals(u, times)[..|times| - 1] == Arrivals(u, prefix);
      CountSingleSender(u, prefix);
    }
  }

  // ---------------------------------------------------------------------------
  // The registry as the bot holds it.

  class Store {
    var users: map<string, UserRecord>
    var order: seq<string>
    var totalUsers: nat
    var messagesCount: nat

    function Snapshot(): Registry
      reads this
    {
      Registry(users, order, totalUsers, messagesCount)
    }

    /** The registry's invariant, and every record stored under its own identity's key. */
    ghost predicate Valid()
      reads this
    {
      Consistent(Snapshot()) && KeyedById(Snapshot())
    }

    /** Created empty at start-up. */
    constructor ()
      ensures Valid() && Snapshot() == Empty
    {
      users := map[];
      order := [];
      totalUsers := 0;
      messagesCount := 0;
    }

    /** `saveUser(user)` at time `now`. */
    method SaveUser(u: Sender, now: int)
      requires Valid()
      modifies this
      ensures Valid()
      ensures Snapshot() == Save(old(Snapshot()), u, now)
    {
      ghost var before := Snapshot();
      var k := IdString(u.id);
      if k !in users {
        var created := UserRecord(u.id, u.firstName, OrEmpty(u.lastName), OrEmpty(u.username), now, now, 0);
        users, order, totalUsers := users[k := created], order + [k], totalUsers + 1;
      } else {
        var existing := users[k];
        users := users[k := existing.(lastActivity := now, messageCount := existing.messageCount + 1)];
      }
      messagesCount := messagesCount + 1;
      assert Snapshot() == Save(before, u, now);
      SaveKeepsConsistent(before, u, now);
      SaveKeepsKeyed(before, u, now);
    }

    /** The users in insertion order (`users.values()`). */
    function Values(): seq<UserRecord>
      reads this
      requires Valid()
    {
      ValuesOf(Snapshot())
    }

    /** `getStats()`: one pass over the users, counting those active since `today`. */
    method GetStats(today: int) returns (s: Stats)
      requires Valid()
      ensures s == StatsOf(Snapshot(), today)
      ensures s.totalUsers == |users| && s.messagesCount == messagesCount
      ensures s.activeToday == |set k | k in users && users[k].lastActivity >= today|
      ensures s.activeToday <= s.totalUsers
    {
      var activeToday := 0;
      var i := 0;
      while i < |order|
        invariant 0 <= i <= |order|
        invariant activeToday == |ActiveIn(order[..i], users, today)|
      {
        var k := order[i];
        assert order[..i + 1] == order[..i] + [k];
        assert k !in order[..i] by {
          forall j | 0 <= j < i ensures order[j] != k {
          }
        }
        ActiveInSnoc(order[..i], k, users, today);
        if users[k].lastActivity >= today {
          activeToday := activeToday + 1;
        }
        i := i + 1;
      }
      assert order[..i] == order;
      ActiveInOrder(Snapshot(), today);
      s := Stats(|users|, activeToday, messagesCount);
    }

    /**
     * The `Foydalanuvchilar` listing: walks the users in insertion order and
     * stops after ListLimit of them.
     */
    method ListUsers() returns (listing: Listing)
      requires Valid()
      ensures listing == ListingOf(Snapshot())
      ensures |listing.entries| == Min(ListLimit, |users|)
      ensures forall i :: 0 <= i < |listing.entries| ==>
        listing.entries[i].number == i + 1 && listing.entries[i] == EntryFor(i, Values()[i])
      ensures listing.remaining.Some? <==> |users| > ListLimit
      ensures listing.remaining.Some? ==> listing.remaining.value == |users| - ListLimit
    {
      var entries: seq<Entry> := [];
      var count := 0;
      while count < |order|
        invariant 0 <= count <= |order| && count <= ListLimit
        invariant |entries| == count
        invariant forall i :: 0 <= i < count ==> entries[i] == EntryFor(i, users[order[i]])
      {
        if count >= ListLimit {
          break;
        }
        var u := users[order[count]];
        entries := entries + [EntryFor(count, u)];
        count := count + 1;
      }
      var remaining := if |users| > ListLimit then Some(|users| - ListLimit) else None;
      listing := Listing(entries, remaining);
      assert count == Min(ListLimit, |order|);
    }
  }

}
