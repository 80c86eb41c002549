/**
  "Who had access on date Y": one query for the latest successful event per key stands in for replaying
  the grant/revoke log.  Timestamps are UTC microseconds.
 */
module AccessReport {
  import opened Wrappers

  datatype Key = Key(principal: string, targetType: string, identifier: string)
  datatype Event = Event(id: int, executedAt: int, key: Key, action: string, state: string, orderId: int)

  const DAY := 86_400_000_000

  /** Row ids are the primary key of the log. */
  predicate UniqueIds(log: set<Event>) {
    forall a, b :: a in log && b in log && a.id == b.id ==> a == b
  }

  // ----- the query -----

  /** The exclusive bound on `executed_at`: now, or the midnight that ends the requested day. */
  function Cutoff(asOfDay: Option<int>, now: int): int {
    match asOfDay
    case None => now
    case Some(day) => (day + 1) * DAY
  }

  predicate Later(a: Event, b: Event) {
    a.executedAt > b.executedAt || (a.executedAt == b.executedAt && a.id > b.id)
  }

  function Before(log: set<Event>, cutoff: int): set<Event> {
    set e | e in log && e.executedAt < cutoff
  }

  /** First of its key in the DISTINCT ON order, among the successful rows. */
  predicate LatestOfKey(rows: set<Event>, e: Event) {
    e.state == "success" && forall f :: f in rows && f.state == "success" && f.key == e.key ==> f == e || Later(e, f)
  }

  /** The rows the query keeps of a table. */
  function Granted(rows: set<Event>): set<Event> {
    set e | e in rows && LatestOfKey(rows, e) && e.action == "grant"
  }

  function ActiveAccess(log: set<Event>, cutoff: int): set<Event> {
    Granted(Before(log, cutoff))
  }

  // ----- the replay -----

  /** Each key that has access, with the event that granted it. */
  type Access = map<Key, Event>

  function Apply(access: Access, e: Event): Access {
    if e.state != "success" then access
    else if e.action == "grant" then access[e.key := e]
    else access - {e.key}
  }

  function Replay(access: Access, events: seq<Event>): Access
    decreases |events|
  {
    if events == [] then access else Replay(Apply(access, events[0]), events[1..])
  }

  /** `events` lists exactly `rows`, oldest first, rows of one instant by id. */
  ghost predicate Lists(events: seq<Event>, rows: set<Event>) {
    && (forall e :: e in events <==> e in rows)
    && (forall i, j :: 0 <= i < j < |events| ==> Later(events[j], events[i]))
  }

  /** The replay state holds the query's rows and nothing else. */
  predicate Agrees(access: Access, rows: set<Event>) {
    && (forall k :: k in access ==> access[k] in rows && access[k].key == k)
    && (forall e :: e in rows ==> e.key in access && access[e.key] == e)
  }

  // ----- every table can be listed -----

  lemma {:induction false} HasOldest(rows: set<Event>)
    requires rows != {} && UniqueIds(rows)
    ensures exists e :: e in rows && forall f :: f in rows && f != e ==> Later(f, e)
    decreases |rows|
  {
    var x :| x in rows;
    var rest := rows - {x};
    if rest != {} {
      HasOldest(rest);
      var y :| y in rest && forall f :: f in rest && f != y ==> Later(f, y);
      assert x.id != y.id;
      var e := if Later(x, y) then y else x;
      forall f | f in rows && f != e ensures Later(f, e) {
        assert f == x || f == y || Later(f, y);
      }
      assert e in rows;
    } else {
      assert rows == {x};
    }
  }

  ghost function Listing(rows: set<Event>): (events: seq<Event>)
    requires UniqueIds(rows)
    ensures Lists(events, rows)
    decreases |rows|
  {
    if rows == {} then []
    else
      HasOldest(rows);
      var e :| e in rows && forall f :: f in rows && f != e ==> Later(f, e);
      var rest := Listing(rows - {e});
      assert forall i :: 0 <= i < |rest| ==> rest[i] in rows - {e};
      [e] + rest
  }

  // ----- query and replay agree -----

  /** What one newer event does to the query's answer is what it does to the replay. */
  lemma NewestEvent(access: Access, rows: set<Event>, e: Event)
    requires e !in rows && (forall f :: f in rows ==> Later(e, f))
    requires Agrees(access, Granted(rows))
    ensures Agrees(Apply(access, e), Granted(rows + {e}))
  {
    forall f ensures f in Granted(rows + {e}) <==>
                       (f == e && e.state == "success" && e.action == "grant")
                       || (f in Granted(rows) && (e.state == "success" ==> f.key != e.key))
    {
      if f in rows {
        assert LatestOfKey(rows + {e}, f) <==> LatestOfKey(rows, f) && (e.state == "success" ==> f.key != e.key);
      }
    }
  }

  lemma {:induction false} ReplaySnoc(access: Access, events: seq<Event>, e: Event)
    ensures Replay(access, events + [e]) == Apply(Replay(access, events), e)
    decreases |events|
  {
    if events == [] {
      assert [e][1..] == [];
    } else {
      ReplaySnoc(Apply(access, events[0]), events[1..], e);
      assert (events + [e])[1..] == events[1..] + [e];
    }
  }

  lemma {:induction false} ReplayConcat(access: Access, a: seq<Event>, b: seq<Event>)
    ensures Replay(access, a + b) == Replay(Replay(access, a), b)
    decreases |a|
  {
    if a == [] {
      assert a + b == b;
    } else {
      ReplayConcat(Apply(access, a[0]), a[1..], b);
      assert (a + b)[1..] == a[1..] + b;
    }
  }

  /** Without its last event, a listing lists the older rows. */
  lemma ListsInit(events: seq<Event>, rows: set<Event>)
    requires Lists(events, rows) && events != []
    ensures var e, init := events[|events| - 1], events[..|events| - 1];
            e in rows && Lists(init, rows - {e}) && forall f :: f in rows - {e} ==> Later(e, f)
  {
    var e, init := events[|events| - 1], events[..|events| - 1];
    hide Later;
    assert events == init + [e];
    assert !Later(e, e) by { NotLaterThanItself(e); }
    forall f ensures f in init <==> f in rows - {e} {
      if f in init {
        var i :| 0 <= i < |init| && init[i] == f;
        assert events[i] == f && Later(e, f);
      }
    }
    forall f | f in rows - {e} ensures Later(e, f) {
      var i :| 0 <= i < |init| && init[i] == f;
      assert events[i] == f;
    }
  }

  lemma NotLaterThanItself(e: Event)
    ensures !Later(e, e)
  {
  }

  lemma {:induction false} ReplayAgrees(events: seq<Event>, rows: set<Event>)
    requires Lists(events, rows)
    ensures Agrees(Replay(map[], events), Granted(rows))
    decreases |events|
  {
    if events != [] {
      var e, init := events[|events| - 1], events[..|events| - 1];
      ListsInit(events, rows);
      hide Lists, Later, Agrees, Granted, Apply;
      ReplayAgrees(init, rows - {e});
      NewestEvent(Replay(map[], init), rows - {e}, e);
      ReplaySnoc(map[], init, e);
      assert rows - {e} + {e} == rows && init + [e] == events;
    }
  }

  /**
    The latest-successful-event query returns exactly what folding the log in (executed_at, id) order up
    to the cutoff leaves: a grant adds its key, any other successful event removes it.
   */
  lemma QueryIsReplay(log: set<Event>, cutoff: int, events: seq<Event>)
    requires Lists(events, Before(log, cutoff))
    ensures Agrees(Replay(map[], events), ActiveAccess(log, cutoff))
  {
    ReplayAgrees(events, Before(log, cutoff));
  }

  /** The events of one day, in UTC. */
  function OnDay(log: set<Event>, day: int): set<Event> {
    set e | e in log && day * DAY <= e.executedAt < (day + 1) * DAY
  }

  lemma ListsConcat(a: seq<Event>, rows: set<Event>, b: seq<Event>, more: set<Event>)
    requires Lists(a, rows) && Lists(b, more)
    requires forall e, f :: e in rows && f in more ==> Later(f, e)
    ensures Lists(a + b, rows + more)
  {
    forall i, j | 0 <= i < j < |a + b| ensures Later((a + b)[j], (a + b)[i]) {
      if i < |a| <= j {
        assert a[i] in a && b[j - |a|] in b;
      }
    }
  }

  /** The report of one day is the report of the day before with only that day's events replayed onto it. */
  lemma NextDay(log: set<Event>, day: int, now: int, yesterday: Access, today: seq<Event>)
    requires UniqueIds(log)
    requires Agrees(yesterday, ActiveAccess(log, Cutoff(Some(day - 1), now)))
    requires Lists(today, OnDay(log, day))
    ensures Agrees(Replay(yesterday, today), ActiveAccess(log, Cutoff(Some(day), now)))
  {
    var c := Cutoff(Some(day - 1), now);
    var past := Before(log, c);
    var events := Listing(past);
    ReplayAgrees(events, past);
    var folded := Replay(map[], events);
    assert folded == yesterday by {
      assert forall k :: k in folded ==> folded[k] in Granted(past);
      assert forall k :: k in yesterday ==> yesterday[k] in Granted(past);
    }
    ListsConcat(events, past, today, OnDay(log, day));
    ReplayConcat(map[], events, today);
    assert past + OnDay(log, day) == Before(log, Cutoff(Some(day), now));
    ReplayAgrees(events + today, Before(log, Cutoff(Some(day), now)));
  }

  /** Failed rows never matter, and rows written after the cutoff never change a past report. */
  lemma OnlyPastSuccessesMatter(log: set<Event>, other: set<Event>, cutoff: int)
    requires forall e: Event :: e.state == "success" && e.executedAt < cutoff ==> (e in log <==> e in other)
    ensures ActiveAccess(log, cutoff) == ActiveAccess(other, cutoff)
  {
    forall e ensures e in ActiveAccess(log, cutoff) <==> e in ActiveAccess(other, cutoff) {
      var a, b := Before(log, cutoff), Before(other, cutoff);
      if e.state == "success" && e.executedAt < cutoff {
        assert LatestOfKey(a, e) <==> LatestOfKey(b, e) by {
          assert forall f: Event :: f.state == "success" ==> (f in a <==> f in b);
        }
      }
    }
  }

  /**
    What one row of a report says: the key was granted, successfully and before the cutoff, and nothing else
    that succeeded for it before the cutoff came after, by time and then by id.
   */
  lemma ShownIff(log: set<Event>, cutoff: int, e: Event)
    requires UniqueIds(log)
    ensures e in ActiveAccess(log, cutoff)
       <==> && e in log && e.executedAt < cutoff && e.state == "success" && e.action == "grant"
            && forall f :: f in log && f != e && f.key == e.key && f.state == "success" && f.executedAt < cutoff ==>
                 f.executedAt < e.executedAt || (f.executedAt == e.executedAt && f.id < e.id)
  {
  }

  /** A report for a past day covers exactly the events up to the end of that day, in UTC. */
  lemma CutoffIsMidnight(e: Event, day: int, now: int)
    ensures e.executedAt < Cutoff(Some(day), now) <==> e.executedAt / (24 * 60 * 60 * 1_000_000) <= day
    ensures e.executedAt < Cutoff(None, now) <==> e.executedAt < now
  {
  }

  /** The report shows one row per key. */
  lemma OneRowPerKey(log: set<Event>, cutoff: int, a: Event, b: Event)
    requires a in ActiveAccess(log, cutoff) && b in ActiveAccess(log, cutoff) && a.key == b.key
    ensures a == b
  {
    assert LatestOfKey(Before(log, cutoff), a) && LatestOfKey(Before(log, cutoff), b);
  }

  // ----- deleting orders -----

  /** Log rows go with their order. */
  function Without(log: set<Event>, orders: set<int>): set<Event> {
    set e | e in log && e.orderId !in orders
  }

  lemma {:induction false} HasLatest(rows: set<Event>, e: Event)
    requires UniqueIds(rows) && e in rows && e.state == "success"
    ensures exists g :: g in rows && g.key == e.key && LatestOfKey(rows, g)
    decreases |rows|
  {
    if !LatestOfKey(rows, e) {
      var f :| f in rows && f.state == "success" && f.key == e.key && f != e && !Later(e, f);
      assert Later(f, e) by { assert e.id != f.id; }
      var rest := rows - {e};
      HasLatest(rest, f);
      hide UniqueIds;
      var g :| g in rest && g.key == f.key && LatestOfKey(rest, g);
      LatestOfMore(rest, e, f, g);
      assert rest + {e} == rows;
    }
  }

  lemma LatestOfMore(rest: set<Event>, e: Event, f: Event, g: Event)
    requires f in rest && f.state == "success" && f.key == e.key && Later(f, e)
    requires g.key == f.key && LatestOfKey(rest, g)
    ensures LatestOfKey(rest + {e}, g)
  {
    assert g == f || Later(g, f);
    assert Later(g, e);
  }

  /** The latest event of its key belongs to an order that is deleted. */
  predicate LosesLatest(past: set<Event>, orders: set<int>, g: Event) {
    g in past && g.orderId in orders && LatestOfKey(past, g)
  }

  /** The report for a past day is what remains of it without these orders. */
  ghost predicate Unaffected(log: set<Event>, orders: set<int>, cutoff: int) {
    forall g :: LosesLatest(Before(log, cutoff), orders, g) ==>
      g.action != "grant" && NoGrantLatest(Before(Without(log, orders), cutoff), g.key)
  }

  /** No grant is the latest event of that key. */
  predicate NoGrantLatest(rows: set<Event>, key: Key) {
    forall f :: f in rows && f.key == key && LatestOfKey(rows, f) ==> f.action != "grant"
  }

  /** A row the deletion brings into the report was covered by an event of a deleted order. */
  lemma Uncovered(log: set<Event>, orders: set<int>, cutoff: int, e: Event) returns (g: Event)
    requires UniqueIds(log)
    requires e in ActiveAccess(Without(log, orders), cutoff) && e !in ActiveAccess(log, cutoff)
    ensures LosesLatest(Before(log, cutoff), orders, g) && g.key == e.key
  {
    var past, rest := Before(log, cutoff), Before(Without(log, orders), cutoff);
    assert e in past && e in rest && LatestOfKey(rest, e);
    HasLatest(past, e);
    g :| g in past && g.key == e.key && LatestOfKey(past, g);
    assert g in rest <==> g.orderId !in orders;
    assert g in rest ==> e == g || Later(e, g);
    assert g == e || Later(g, e);
  }

  /**
    Deleting orders takes their log rows along, and with them changes reports of the past.  A report stays
    as it was exactly when, for each key whose latest event belongs to a deleted order, that event is no
    grant and no grant is the latest that remains.  Otherwise an access it showed vanishes, or one that had
    been revoked by then comes back.
   */
  lemma DeletionKeepsReportIff(log: set<Event>, orders: set<int>, cutoff: int)
    requires UniqueIds(log)
    ensures ActiveAccess(Without(log, orders), cutoff) == ActiveAccess(log, cutoff) <==> Unaffected(log, orders, cutoff)
  {
    var past, rest := Before(log, cutoff), Before(Without(log, orders), cutoff);
    if Unaffected(log, orders, cutoff) {
      forall e ensures e in Granted(past) <==> e in Granted(rest) {
        if e in Granted(past) {
          assert !LosesLatest(past, orders, e);
          assert e in rest && LatestOfKey(rest, e);
        } else if e in Granted(rest) {
          var g := Uncovered(log, orders, cutoff, e);
        }
      }
    } else {
      var g :| LosesLatest(past, orders, g)
               && !(g.action != "grant" && NoGrantLatest(rest, g.key));
      if g.action == "grant" {
        assert g in Granted(past) && g !in rest;
      } else {
        var f :| f in rest && f.key == g.key && LatestOfKey(rest, f) && f.action == "grant";
        assert f in Granted(rest);
        assert !LatestOfKey(past, f);
        assert f !in Granted(past);
      }
    }
  }
}
