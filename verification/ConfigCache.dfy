/**
  The per-worker cache of app.* configuration: template globals refreshed from the database on a short
  TTL, with a double-checked lock around the refresh.
 */
module ConfigCache {
  import opened Wrappers
  import opened Text

  // ----- the globals -----

  datatype Globals = Globals(title: string, logo: string, hasLogo: bool, logoPosition: string, logoSize: string,
                             logoShowTitle: string, logoTitleSize: string,
                             checkEnabled: bool, latestVersion: string, latestUrl: string, publishedAt: string,
                             checkedAt: string, checkError: string)

  const TITLE_DEFAULT := "ip·Solis"
  const DEFAULTS := Globals(TITLE_DEFAULT, "", false, "left", "80", "true", "12", false, "", "", "", "", "")

  /** The keys the refresh query selects: the app.* keys, then the updates.* keys. */
  datatype Key = AppTitle | AppLogo | LogoPosition | LogoSize | LogoShowTitle | LogoTitleSize
               | CheckEnabled | LatestVersion | LatestUrl | PublishedAt | CheckedAt | CheckError

  predicate IsUpdate(k: Key) {
    k.CheckEnabled? || k.LatestVersion? || k.LatestUrl? || k.PublishedAt? || k.CheckedAt? || k.CheckError?
  }

  type Rows = map<Key, string>

  function Or(value: string, default: string): string {
    if value == "" then default else value
  }

  function SetLogoConfig(g: Globals, key: Key, value: string): Globals {
    if key == AppLogo then g.(logo := value, hasLogo := value != "")
    else if key == LogoPosition then g.(logoPosition := Or(value, "left"))
    else if key == LogoSize then g.(logoSize := Or(value, "80"))
    else if key == LogoShowTitle then g.(logoShowTitle := Or(value, "true"))
    else if key == LogoTitleSize then g.(logoTitleSize := Or(value, "12"))
    else g
  }

  function ValueOf(rows: Rows, key: Key): string {
    if key in rows then rows[key] else ""
  }

  predicate Truthy(value: string) {
    Lower(Trim(Or(value, "false"))) in {"true", "1", "yes", "on", "enabled"}
  }

  function SetUpdates(g: Globals, rows: Rows): Globals {
    g.(checkEnabled := Truthy(ValueOf(rows, CheckEnabled)),
       latestVersion := Trim(ValueOf(rows, LatestVersion)),
       latestUrl := Trim(ValueOf(rows, LatestUrl)),
       publishedAt := Trim(ValueOf(rows, PublishedAt)),
       checkedAt := Trim(ValueOf(rows, CheckedAt)),
       checkError := Trim(ValueOf(rows, CheckError)))
  }

  /** A global that falls back on a default when its row is empty, and is left alone without one. */
  predicate ShowsOr(shown: string, rows: Rows, key: Key, default: string) {
    key in rows ==> shown == if rows[key] == "" then default else rows[key]
  }

  /** A global that holds the trimmed value of its row, and nothing without one. */
  predicate ShowsTrimmed(shown: string, rows: Rows, key: Key) {
    if key in rows then shown == Trim(rows[key]) else shown == ""
  }

  /**
    The globals show a snapshot of the config table: every key it holds, and for the logo and all update
    keys also their absence.  The other keys keep their old value when absent.
   */
  predicate Shows(g: Globals, rows: Rows) {
    && ShowsOr(g.title, rows, AppTitle, "ip·Solis")
    && (if AppLogo in rows then g.logo == rows[AppLogo] else g.logo == "") && (g.hasLogo <==> g.logo != "")
    && ShowsOr(g.logoPosition, rows, LogoPosition, "left")
    && ShowsOr(g.logoSize, rows, LogoSize, "80")
    && ShowsOr(g.logoShowTitle, rows, LogoShowTitle, "true")
    && ShowsOr(g.logoTitleSize, rows, LogoTitleSize, "12")
    && ShowsUpdates(g, rows)
  }

  predicate ShowsUpdates(g: Globals, rows: Rows) {
    && (g.checkEnabled <==>
          CheckEnabled in rows && Lower(Trim(rows[CheckEnabled])) in {"true", "1", "yes", "on", "enabled"})
    && ShowsTrimmed(g.latestVersion, rows, LatestVersion)
    && ShowsTrimmed(g.latestUrl, rows, LatestUrl)
    && ShowsTrimmed(g.publishedAt, rows, PublishedAt)
    && ShowsTrimmed(g.checkedAt, rows, CheckedAt)
    && ShowsTrimmed(g.checkError, rows, CheckError)
  }

  /** What is pushed for the update keys is what their rows say, key by key. */
  lemma UpdatesShown(g: Globals, rows: Rows)
    ensures ShowsUpdates(SetUpdates(g, rows), rows)
    ensures ShowsUpdates(g, rows) ==> SetUpdates(g, rows) == g
  {
    NothingIsTrue();
    hide Trim, Lower;
  }

  lemma NothingIsTrue()
    ensures !Truthy("")
    ensures Trim("false") == "false" && Lower("false") == "false" && Trim("") == "" && Lower("") == ""
  {
    TrimIdentity("false");
    LowerIdentity("false");
    LowerIdentity("");
  }

  /** The keys outside the snapshot whose globals are left alone. */
  predicate KeepsAbsent(before: Globals, after: Globals, rows: Rows) {
    && (AppTitle !in rows ==> after.title == before.title)
    && (LogoPosition !in rows ==> after.logoPosition == before.logoPosition)
    && (LogoSize !in rows ==> after.logoSize == before.logoSize)
    && (LogoShowTitle !in rows ==> after.logoShowTitle == before.logoShowTitle)
    && (LogoTitleSize !in rows ==> after.logoTitleSize == before.logoTitleSize)
  }

  function Given(rows: Rows, key: Key, default: string, kept: string): string {
    if key in rows then Or(rows[key], default) else kept
  }

  /** The title and the logo's looks, where the rows give them. */
  function Placed(g: Globals, rows: Rows): Globals {
    g.(title := Given(rows, AppTitle, TITLE_DEFAULT, g.title),
       logoPosition := Given(rows, LogoPosition, "left", g.logoPosition),
       logoSize := Given(rows, LogoSize, "80", g.logoSize),
       logoShowTitle := Given(rows, LogoShowTitle, "true", g.logoShowTitle),
       logoTitleSize := Given(rows, LogoTitleSize, "12", g.logoTitleSize))
  }

  /** The globals after a refresh from these rows. */
  function Refreshed(g: Globals, rows: Rows): (after: Globals)
    ensures Shows(after, rows) && KeepsAbsent(g, after, rows)
  {
    UpdatesShown(Placed(g, rows).(logo := ValueOf(rows, AppLogo), hasLogo := ValueOf(rows, AppLogo) != ""), rows);
    SetUpdates(Placed(g, rows).(logo := ValueOf(rows, AppLogo), hasLogo := ValueOf(rows, AppLogo) != ""), rows)
  }

  /** The globals after the start of a worker, which reads no update keys and resets nothing. */
  function Hydrated(g: Globals, rows: Rows): Globals {
    Placed(g, rows).(logo := if AppLogo in rows then rows[AppLogo] else g.logo,
                     hasLogo := if AppLogo in rows then rows[AppLogo] != "" else g.hasLogo)
  }

  function Restricted(rows: Rows, keys: set<Key>): Rows {
    map k | k in rows && k in keys :: rows[k]
  }

  /** Two refreshed environments that show the same rows and kept the same old values are the same. */
  lemma ShowsDetermines(before: Globals, a: Globals, b: Globals, rows: Rows)
    requires Shows(a, rows) && KeepsAbsent(before, a, rows)
    requires Shows(b, rows) && KeepsAbsent(before, b, rows)
    ensures a == b
  {
    hide Trim, Lower, Truthy;
  }

  /** What the loop over the rows does with one of them; update rows are only buffered. */
  function Stored(g: Globals, key: Key, value: string): Globals {
    if key == AppTitle then g.(title := Or(value, TITLE_DEFAULT))
    else if IsUpdate(key) then g
    else SetLogoConfig(g, key, value)
  }

  /** The globals when only the rows `seen` have been looked at. */
  predicate Partly(before: Globals, g: Globals, rows: Rows, seen: set<Key>) {
    seen <= rows.Keys && Shows1(g, Restricted(rows, seen))
        && KeepsAbsent(before, g, Restricted(rows, seen))
  }

  /** `Shows` for the rows at hand, without the resets that come last. */
  predicate Shows1(g: Globals, rows: Rows) {
    && (AppTitle in rows ==> g.title == Or(rows[AppTitle], TITLE_DEFAULT))
    && (AppLogo in rows ==> g.logo == rows[AppLogo] && (g.hasLogo <==> rows[AppLogo] != ""))
    && (LogoPosition in rows ==> g.logoPosition == Or(rows[LogoPosition], "left"))
    && (LogoSize in rows ==> g.logoSize == Or(rows[LogoSize], "80"))
    && (LogoShowTitle in rows ==> g.logoShowTitle == Or(rows[LogoShowTitle], "true"))
    && (LogoTitleSize in rows ==> g.logoTitleSize == Or(rows[LogoTitleSize], "12"))
  }

  lemma StoreOne(before: Globals, g: Globals, rows: Rows, seen: set<Key>, key: Key)
    requires Partly(before, g, rows, seen) && key in rows && key !in seen
    ensures Partly(before, Stored(g, key, rows[key]), rows, seen + {key})
  {
    hide Or;
  }

  lemma StoredAll(before: Globals, g: Globals, rows: Rows)
    requires Partly(before, g, rows, rows.Keys)
    ensures Shows1(g, rows) && KeepsAbsent(before, g, rows)
  {
    assert Restricted(rows, rows.Keys) == rows;
  }

  lemma FinalResets(before: Globals, g: Globals, rows: Rows, updates: Rows)
    requires Shows1(g, rows) && KeepsAbsent(before, g, rows)
    requires forall k :: IsUpdate(k) ==> ValueOf(updates, k) == ValueOf(rows, k)
    ensures SetUpdates(if AppLogo in rows then g else SetLogoConfig(g, AppLogo, ""), updates) == Refreshed(before, rows)
  {
    hide Trim, Lower, Truthy, Or;
    var final := SetUpdates(if AppLogo in rows then g else SetLogoConfig(g, AppLogo, ""), updates);
    ShowsDetermines(before, final, Refreshed(before, rows), rows);
  }

  /** The buffered update rows are all the update rows. */
  predicate Buffered(updates: Rows, rows: Rows, seen: set<Key>) {
    && (forall k :: k in updates <==> k in seen && IsUpdate(k))
    && (forall k :: k in updates ==> k in rows && updates[k] == rows[k])
  }

  lemma BufferOne(updates: Rows, rows: Rows, seen: set<Key>, key: Key)
    requires Buffered(updates, rows, seen) && key in rows
    ensures Buffered(if IsUpdate(key) then updates[key := rows[key]] else updates, rows, seen + {key})
  {
  }

  lemma RowsDone(before: Globals, g: Globals, rows: Rows, updates: Rows)
    requires Partly(before, g, rows, rows.Keys) && Buffered(updates, rows, rows.Keys)
    ensures SetUpdates(if AppLogo in rows then g else SetLogoConfig(g, AppLogo, ""), updates) == Refreshed(before, rows)
  {
    hide Partly, Shows1, KeepsAbsent, SetUpdates, SetLogoConfig, Refreshed;
    StoredAll(before, g, rows);
    FinalResets(before, g, rows, updates);
  }

  /** Two sets of rows that agree on the keys hydration looks at hydrate alike. */
  lemma HydrateAlike(before: Globals, a: Rows, b: Rows)
    requires forall k :: !IsUpdate(k) ==> (k in a <==> k in b) && (k in a ==> a[k] == b[k])
    ensures Hydrated(before, a) == Hydrated(before, b)
  {
    hide Or;
  }

  lemma HydrateOne(before: Globals, rows: Rows, key: Key, value: string)
    requires key !in rows && !IsUpdate(key)
    ensures Stored(Hydrated(before, rows), key, value) == Hydrated(before, rows[key := value])
  {
    hide Or;
  }

  lemma HydrateNone(before: Globals)
    ensures Hydrated(before, map[]) == before
  {
  }

  class TemplateEnv {
    var globals: Globals

    constructor ()
      ensures globals == DEFAULTS
    {
      globals := DEFAULTS;
    }

    /** The start of a worker, taking the rows in whatever order the SELECT returned them. */
    method HydrateAtStart(rows: Rows)
      modifies this
      ensures globals == Hydrated(old(globals), rows)
    {
      hide Or, Hydrated, SetLogoConfig;
      var rest := set k | k in rows && !IsUpdate(k);
      ghost var before := globals;
      ghost var seen: Rows := map[];
      HydrateNone(before);
      while rest != {}
        invariant forall k :: k in rest ==> k in rows && !IsUpdate(k) && k !in seen
        invariant forall k :: k in rows && !IsUpdate(k) ==> k in rest || k in seen
        invariant forall k :: k in seen ==> k in rows && seen[k] == rows[k]
        invariant globals == Hydrated(before, seen)
        decreases |rest|
      {
        var key :| key in rest;
        HydrateOne(before, seen, key, rows[key]);
        rest := rest - {key};
        seen := seen[key := rows[key]];
        if key == AppTitle {
          globals := globals.(title := Or(rows[key], TITLE_DEFAULT));
        } else {
          globals := SetLogoConfig(globals, key, rows[key]);
        }
      }
      HydrateAlike(before, seen, rows);
    }

    /** The body of a refresh, taking the rows in whatever order the SELECT returned them. */
    method PushRows(rows: Rows)
      modifies this
      ensures globals == Refreshed(old(globals), rows)
    {
      hide Partly, SetLogoConfig, SetUpdates, Refreshed, Or, Shows, Shows1, KeepsAbsent, ValueOf, Buffered;
      hide Trim, Lower, Truthy;
      var rest, seen := rows.Keys, {};
      var updates: Rows := map[];
      ghost var before := globals;
      NothingStored(before, rows);
      while rest != {}
        invariant rest + seen == rows.Keys && rest !! seen
        invariant Buffered(updates, rows, seen)
        invariant Partly(before, globals, rows, seen)
        decreases |rest|
      {
        var key :| key in rest;
        StoreOne(before, globals, rows, seen, key);
        BufferOne(updates, rows, seen, key);
        var value := rows[key];
        rest, seen := rest - {key}, seen + {key};
        if key == AppTitle {
          globals := globals.(title := Or(value, TITLE_DEFAULT));
        } else if IsUpdate(key) {
          updates := updates[key := value];
        } else {
          globals := SetLogoConfig(globals, key, value);
        }
      }
      assert seen == rows.Keys;
      RowsDone(before, globals, rows, updates);
      if AppLogo !in seen {
        globals := SetLogoConfig(globals, AppLogo, "");
      }
      globals := SetUpdates(globals, updates);
    }
  }

  lemma NothingStored(g: Globals, rows: Rows)
    ensures Partly(g, g, rows, {}) && Buffered(map[], rows, {})
  {
  }

  // ----- the refresh protocol -----

  /** Times are milliseconds of the monotonic clock. */
  const TTL := 5_000

  /** The config rows as the database held them at one moment. */
  datatype Snapshot = Snapshot(time: int, rows: Rows)

  /**
    A call of `refresh_app_config_if_stale`, at one of its await points.  `start` is the time of the call
    and `now` the time read once it held the lock.
   */
  datatype Caller =
    | Waiting(start: int, force: bool)
    | Reading(start: int, force: bool, now: int)
    | Fetched(start: int, force: bool, now: int, snap: Snapshot)
    | Pushed(start: int, force: bool, now: int)
      /**
        `globals` are those the caller returned to, `past` the moments the table had gone through by then,
        `shown` the last of them that was pushed; `warm` says a refresh had completed.
       */
    | Returned(start: int, ok: bool, warm: bool, shown: Option<Snapshot>, globals: Globals, past: set<Snapshot>)

  datatype Refresh = Refresh(at: int, forced: bool)

  /**
    `db` is the table now; `shown`, `warm`, `moments` and `refreshes` are history for the properties.
    `moments` holds the table at every moment the world has gone through.
   */
  datatype World = World(clock: int, lastRefresh: int, globals: Globals, db: Rows, lock: Option<int>,
                         callers: map<int, Caller>, nextCaller: int,
                         shown: Option<Snapshot>, warm: bool, moments: set<Snapshot>, refreshes: seq<Refresh>)

  datatype Step =
    | Tick(elapsed: nat)
    | Write(rows: Rows)
    | Call(force: bool)
    | Acquire(id: int)
    | Read(id: int, ok: bool)
    | Push(id: int)
    | Finish(id: int, ok: bool)

  /** A worker that begins to serve with some globals. */
  function Initial(clock: nat, g0: Globals, db: Rows): World {
    World(clock, 0, g0, db, None, map[], 1, None, false, {Snapshot(clock, db)}, [])
  }

  predicate Fresh(w: World) {
    w.clock - w.lastRefresh < TTL
  }

  function Return(w: World, id: int, start: int, ok: bool): World {
    w.(callers := w.callers[id := Returned(start, ok, w.warm, w.shown, w.globals, w.moments)],
       lock := if w.lock == Some(id) then None else w.lock)
  }

  function Next(w: World, step: Step): World {
    match step
    case Tick(d) => w.(clock := w.clock + d, moments := w.moments + {Snapshot(w.clock + d, w.db)})
    case Write(rows) => w.(db := rows, moments := w.moments + {Snapshot(w.clock, rows)})
    case Call(force) =>
      var w' := w.(nextCaller := w.nextCaller + 1);
      if !force && Fresh(w) then Return(w', w.nextCaller, w.clock, true)
      else w'.(callers := w.callers[w.nextCaller := Waiting(w.clock, force)])
    case Acquire(id) =>
      if id in w.callers && w.callers[id].Waiting? && w.lock.None? then
        var c := w.callers[id];
        if !c.force && Fresh(w) then Return(w, id, c.start, true)
        else w.(lock := Some(id), callers := w.callers[id := Reading(c.start, c.force, w.clock)])
      else w
    case Read(id, ok) =>
      if id in w.callers && w.callers[id].Reading? then
        var c := w.callers[id];
        if !ok then Return(w, id, c.start, false)
        else w.(callers := w.callers[id := Fetched(c.start, c.force, c.now, Snapshot(w.clock, w.db))])
      else w
    case Push(id) =>
      if id in w.callers && w.callers[id].Fetched? then
        var c := w.callers[id];
        w.(globals := Refreshed(w.globals, c.snap.rows), shown := Some(c.snap),
           callers := w.callers[id := Pushed(c.start, c.force, c.now)])
      else w
    case Finish(id, ok) =>
      if id in w.callers && w.callers[id].Pushed? then
        var c := w.callers[id];
        if !ok then Return(w, id, c.start, false)
        else
          var completed := w.(lastRefresh := c.now, warm := true, refreshes := w.refreshes + [Refresh(c.now, c.force)]);
          Return(completed, id, c.start, true)
      else w
  }

  function Run(w: World, steps: seq<Step>): World
    decreases |steps|
  {
    if steps == [] then w else Run(Next(w, steps[0]), steps[1..])
  }

  // ----- safety -----

  predicate Inside(c: Caller) {
    c.Reading? || c.Fetched? || c.Pushed?
  }

  /** A call that returned normally left globals showing a snapshot less than the TTL older than the call. */
  predicate ReturnOk(c: Caller) {
    c.Returned? && c.ok && c.warm ==>
      && c.shown.Some? && c.shown.value in c.past
      && c.shown.value.time > c.start - 5_000 && Shows(c.globals, c.shown.value.rows)
  }

  /** What a caller knows of the clock and the timestamp from the moment it holds the lock. */
  predicate Entered(w: World, start: int, force: bool, now: int) {
    start <= now <= w.clock && w.lastRefresh <= now && (force || now - w.lastRefresh >= TTL)
  }

  predicate CallerOk(w: World, c: Caller) {
    match c
    case Waiting(start, _) => start <= w.clock
    case Reading(start, force, now) => Entered(w, start, force, now)
    case Fetched(start, force, now, snap) =>
      Entered(w, start, force, now) && now <= snap.time <= w.clock && snap in w.moments
    case Pushed(start, force, now) => Entered(w, start, force, now) && w.shown.Some? && w.shown.value.time >= now
    case Returned(_, _, _, _, _, past) => ReturnOk(c) && past <= w.moments
  }

  /** Unforced refreshes keep their distance from the refresh before. */
  predicate Spaced(refreshes: seq<Refresh>) {
    forall i :: 0 < i < |refreshes| && !refreshes[i].forced ==> refreshes[i].at - refreshes[i - 1].at >= 5_000
  }

  ghost predicate Safe(w: World) {
    && w.lastRefresh <= w.clock && Snapshot(w.clock, w.db) in w.moments
    && (forall id :: id in w.callers ==> id < w.nextCaller && CallerOk(w, w.callers[id]))
    && (forall id :: id in w.callers && Inside(w.callers[id]) ==> w.lock == Some(id))
    && (w.lock.Some? ==> w.lock.value in w.callers && Inside(w.callers[w.lock.value]))
    && (w.shown.Some? ==> w.shown.value in w.moments && Shows(w.globals, w.shown.value.rows))
    && (w.warm ==> w.shown.Some? && w.shown.value.time >= w.lastRefresh)
    && (w.refreshes != [] ==> w.refreshes[|w.refreshes| - 1].at == w.lastRefresh)
    && Spaced(w.refreshes)
  }

  lemma CallIsSafe(w: World, force: bool)
    requires Safe(w)
    ensures Safe(Next(w, Call(force)))
  {
    hide Shows, Refreshed, Spaced;
    var after := Next(w, Call(force));
    var id := w.nextCaller;
    assert w.lock != Some(id) && after.lock == w.lock;
    assert CallerOk(after, after.callers[id]);
    forall other | other in after.callers && other != id
      ensures other in w.callers && CallerOk(after, after.callers[other])
    {
      assert after.callers[other] == w.callers[other];
    }
  }

  lemma AcquireIsSafe(w: World, id: int)
    requires Safe(w)
    ensures Safe(Next(w, Acquire(id)))
  {
    hide Shows, Refreshed;
  }

  lemma ReadIsSafe(w: World, id: int, ok: bool)
    requires Safe(w)
    ensures Safe(Next(w, Read(id, ok)))
  {
    hide Shows, Refreshed;
  }

  lemma PushIsSafe(w: World, id: int)
    requires Safe(w)
    ensures Safe(Next(w, Push(id)))
  {
    hide Shows;
  }

  lemma FinishIsSafe(w: World, id: int, ok: bool)
    requires Safe(w)
    ensures Safe(Next(w, Finish(id, ok)))
  {
    hide Shows, Refreshed;
  }

  lemma NextIsSafe(w: World, step: Step)
    requires Safe(w)
    ensures Safe(Next(w, step)) && w.moments <= Next(w, step).moments
  {
    match step
    case Tick(d) => hide Shows;
    case Write(rows) => hide Shows;
    case Call(force) => CallIsSafe(w, force);
    case Acquire(id) => AcquireIsSafe(w, id);
    case Read(id, ok) => ReadIsSafe(w, id, ok);
    case Push(id) => PushIsSafe(w, id);
    case Finish(id, ok) => FinishIsSafe(w, id, ok);
  }

  lemma {:induction false} RunsAreSafe(w: World, steps: seq<Step>)
    requires Safe(w)
    ensures Safe(Run(w, steps)) && w.moments <= Run(w, steps).moments
    decreases |steps|
  {
    if steps != [] {
      hide Safe, Next;
      NextIsSafe(w, steps[0]);
      RunsAreSafe(Next(w, steps[0]), steps[1..]);
    }
  }

  /**
    Over every interleaving of calls, clock ticks, database writes and failures: once a refresh has
    completed, each call that does not itself fail returns with globals that show, for all keys the refresh
    pushes, what the database really held at a moment less than the TTL before the call began (or later);
    and unforced refreshes are at least one TTL apart, so callers that queued on the lock do not repeat it.
   */
  lemma CacheIsFresh(clock: nat, g0: Globals, db: Rows, steps: seq<Step>)
    ensures var w := Run(Initial(clock, g0, db), steps);
            && (forall id :: id in w.callers ==> ReturnOk(w.callers[id]))
            && (forall id :: id in w.callers && w.callers[id].Returned? ==> w.callers[id].past <= w.moments)
            && (w.shown.Some? ==> w.shown.value in w.moments && Shows(w.globals, w.shown.value.rows))
            && Spaced(w.refreshes)
  {
    hide Shows;
    RunsAreSafe(Initial(clock, g0, db), steps);
    var w := Run(Initial(clock, g0, db), steps);
    forall id | id in w.callers
      ensures ReturnOk(w.callers[id])
      ensures w.callers[id].Returned? ==> w.callers[id].past <= w.moments
    {
      assert CallerOk(w, w.callers[id]);
    }
  }

  // ----- what moves the globals and the timestamp -----

  /** The snapshot a step pushes into the globals, if it is such a step. */
  function PushedBy(w: World, step: Step): seq<Snapshot> {
    if step.Push? && step.id in w.callers && w.callers[step.id].Fetched? then [w.callers[step.id].snap] else []
  }

  /** The time of the refresh a step completes, if it completes one. */
  function CompletedBy(w: World, step: Step): seq<int> {
    if step.Finish? && step.ok && step.id in w.callers && w.callers[step.id].Pushed?
    then [w.callers[step.id].now]
    else []
  }

  function Pushes(w: World, steps: seq<Step>): seq<Snapshot>
    decreases |steps|
  {
    if steps == [] then [] else PushedBy(w, steps[0]) + Pushes(Next(w, steps[0]), steps[1..])
  }

  function Completions(w: World, steps: seq<Step>): seq<int>
    decreases |steps|
  {
    if steps == [] then [] else CompletedBy(w, steps[0]) + Completions(Next(w, steps[0]), steps[1..])
  }

  /** The globals after one refresh after the other. */
  function Applied(g: Globals, snaps: seq<Snapshot>): Globals
    decreases |snaps|
  {
    if snaps == [] then g else Applied(Refreshed(g, snaps[0].rows), snaps[1..])
  }

  function LastOf(default: int, times: seq<int>): int {
    if times == [] then default else times[|times| - 1]
  }

  /** A push whose refresh has not ended yet. */
  function Unfinished(w: World): nat {
    if w.lock.Some? && w.lock.value in w.callers && w.callers[w.lock.value].Pushed? then 1 else 0
  }

  lemma StepEffects(w: World, step: Step)
    requires Safe(w)
    ensures var after := Next(w, step);
            && after.globals == Applied(w.globals, PushedBy(w, step))
            && after.lastRefresh == LastOf(w.lastRefresh, CompletedBy(w, step))
            && (forall snap :: snap in PushedBy(w, step) ==> snap in w.moments)
            && |CompletedBy(w, step)| + Unfinished(after) <= |PushedBy(w, step)| + Unfinished(w)
  {
    hide Shows, Refreshed, Spaced, Fresh;
    if step.Push? && step.id in w.callers {
      assert CallerOk(w, w.callers[step.id]);
    }
  }

  lemma AppliedTwice(g: Globals, first: seq<Snapshot>, rest: seq<Snapshot>)
    requires |first| <= 1
    ensures Applied(g, first + rest) == Applied(Applied(g, first), rest)
  {
    if |first| == 1 {
      assert (first + rest)[1..] == rest && first[1..] == [];
    } else {
      assert first + rest == rest;
    }
  }

  /**
    Over every run, failures of both kinds included: the globals are what pushing snapshots onto them one
    after the other gives, each a moment the database really went through; the timestamp is that of the
    last completed refresh; and no refresh completes without a push of its own.
   */
  lemma {:induction false} RunEffects(w: World, steps: seq<Step>)
    requires Safe(w)
    ensures var after := Run(w, steps);
            && after.globals == Applied(w.globals, Pushes(w, steps))
            && after.lastRefresh == LastOf(w.lastRefresh, Completions(w, steps))
            && (forall snap :: snap in Pushes(w, steps) ==> snap in after.moments)
            && |Completions(w, steps)| + Unfinished(after) <= |Pushes(w, steps)| + Unfinished(w)
    decreases |steps|
  {
    hide Safe, Next, PushedBy, CompletedBy, Unfinished, Refreshed, Applied;
    if steps == [] {
      AppliedNothing(w.globals);
    } else {
      var next := Next(w, steps[0]);
      StepEffects(w, steps[0]);
      NextIsSafe(w, steps[0]);
      RunsAreSafe(next, steps[1..]);
      RunEffects(next, steps[1..]);
      AtMostOnePush(w, steps[0]);
      AppliedTwice(w.globals, PushedBy(w, steps[0]), Pushes(next, steps[1..]));
    }
  }

  lemma AppliedNothing(g: Globals)
    ensures Applied(g, []) == g
  {
  }

  lemma AtMostOnePush(w: World, step: Step)
    ensures |PushedBy(w, step)| <= 1
  {
  }

  /** No refresh has read the database without having ended yet. */
  predicate NothingRead(w: World) {
    forall id :: id in w.callers ==> !w.callers[id].Fetched? && !w.callers[id].Pushed?
  }

  predicate NoReadSucceeds(steps: seq<Step>) {
    forall i :: 0 <= i < |steps| && steps[i].Read? ==> !steps[i].ok
  }

  predicate NoFinishSucceeds(steps: seq<Step>) {
    forall i :: 0 <= i < |steps| && steps[i].Finish? ==> !steps[i].ok
  }

  lemma {:induction false} WithoutReads(w: World, steps: seq<Step>)
    requires NothingRead(w) && NoReadSucceeds(steps)
    ensures Pushes(w, steps) == [] && Run(w, steps).shown == w.shown
    decreases |steps|
  {
    if steps != [] {
      hide Refreshed, Fresh;
      WithoutReads(Next(w, steps[0]), steps[1..]);
    }
  }

  lemma {:induction false} WithoutFinishes(w: World, steps: seq<Step>)
    requires NoFinishSucceeds(steps)
    ensures Completions(w, steps) == []
    decreases |steps|
  {
    if steps != [] {
      hide Next;
      WithoutFinishes(Next(w, steps[0]), steps[1..]);
    }
  }

  /**
    However long an outage lasts and however calls interleave meanwhile: while every read fails, globals and
    timestamp stay; while refreshes fail only after their push, the timestamp still stays, so the next call
    past the TTL tries again.
   */
  lemma FailuresChangeNothing(w: World, steps: seq<Step>)
    requires Safe(w)
    ensures NothingRead(w) && NoReadSucceeds(steps) ==>
              var after := Run(w, steps);
              after.globals == w.globals && after.shown == w.shown && after.lastRefresh == w.lastRefresh
    ensures NoFinishSucceeds(steps) ==> Run(w, steps).lastRefresh == w.lastRefresh
  {
    hide Safe, Refreshed, Next;
    RunEffects(w, steps);
    if NoFinishSucceeds(steps) {
      WithoutFinishes(w, steps);
    }
    if NothingRead(w) && NoReadSucceeds(steps) {
      WithoutReads(w, steps);
      NothingUnfinished(w);
    }
  }

  lemma NothingUnfinished(w: World)
    requires NothingRead(w)
    ensures Unfinished(w) == 0
  {
    if w.lock.Some? {
      var holder: int := w.lock.value;
      assert holder in w.callers ==> !w.callers[holder].Pushed?;
    }
  }

  // ----- from the start -----

  /** The globals a call returned to show the table at some moment less than the TTL before the call, or later. */
  predicate ReturnsFresh(c: Caller) {
    c.Returned? && c.ok ==> exists m :: m in c.past && m.time > c.start - 5_000 && Shows(c.globals, m.rows)
  }

  predicate AllFresh(w: World) {
    forall id :: id in w.callers ==> ReturnsFresh(w.callers[id])
  }

  /** No run from this start ever lets a call that does not fail return to stale globals. */
  ghost predicate AlwaysFresh(clock: nat, g0: Globals, db: Rows) {
    forall steps: seq<Step> :: AllFresh(Run(Initial(clock, g0, db), steps))
  }

  /** A world that a run from this start has reached without a stale return. */
  ghost predicate FreshSince(w: World, clock: nat, g0: Globals, db: Rows) {
    && Safe(w) && AllFresh(w)
    && clock <= w.clock && Snapshot(clock, db) in w.moments && (forall m :: m in w.moments ==> m.time >= clock)
    && (w.shown.None? ==> w.globals == g0)
    && (!w.warm ==> w.lastRefresh == 0)
  }

  /** Passing by the refresh is harmless, if the start was late enough or its globals showed the table. */
  lemma ShortcutIsFresh(w: World, clock: nat, g0: Globals, db: Rows, start: int)
    requires FreshSince(w, clock, g0, db) && (clock >= TTL || Shows(g0, db)) && Fresh(w) && start <= w.clock
    ensures exists m :: m in w.moments && m.time > start - TTL && Shows(w.globals, m.rows)
  {
    hide Shows, AllFresh, Spaced, CallerOk;
    var m := if w.shown.Some? then w.shown.value else Snapshot(clock, db);
    assert m in w.moments && m.time > start - TTL && Shows(w.globals, m.rows);
  }

  lemma CallStaysFresh(w: World, clock: nat, g0: Globals, db: Rows, force: bool)
    requires FreshSince(w, clock, g0, db) && (clock >= TTL || Shows(g0, db))
    ensures AllFresh(Next(w, Call(force)))
  {
    hide Shows, ReturnsFresh, Safe, Refreshed;
    var after, id := Next(w, Call(force)), w.nextCaller;
    if Fresh(w) {
      ShortcutIsFresh(w, clock, g0, db, w.clock);
    }
    ReturnedFresh(after.callers[id]);
  }

  lemma ReturnedFresh(c: Caller)
    requires c.Returned? && c.ok ==> exists m :: m in c.past && m.time > c.start - 5_000 && Shows(c.globals, m.rows)
    ensures ReturnsFresh(c)
  {
  }

  lemma AcquireStaysFresh(w: World, clock: nat, g0: Globals, db: Rows, id: int)
    requires FreshSince(w, clock, g0, db) && (clock >= TTL || Shows(g0, db))
    ensures AllFresh(Next(w, Acquire(id)))
  {
    hide Shows, ReturnsFresh, Refreshed;
    var after := Next(w, Acquire(id));
    if id in w.callers && w.callers[id].Waiting? {
      assert CallerOk(w, w.callers[id]);
      if Fresh(w) {
        ShortcutIsFresh(w, clock, g0, db, w.callers[id].start);
      }
      ReturnedFresh(after.callers[id]) by { hide Safe; }
    }
  }

  lemma FinishStaysFresh(w: World, clock: nat, g0: Globals, db: Rows, id: int, ok: bool)
    requires FreshSince(w, clock, g0, db)
    ensures AllFresh(Next(w, Finish(id, ok)))
  {
    hide Shows, ReturnsFresh, Refreshed;
    var after := Next(w, Finish(id, ok));
    if id in w.callers && w.callers[id].Pushed? {
      assert CallerOk(w, w.callers[id]);
      var m := w.shown.value;
      assert m in w.moments && m.time > w.callers[id].start - TTL && Shows(w.globals, m.rows);
      ReturnedFresh(after.callers[id]);
    }
  }

  lemma QuietStaysFresh(w: World, step: Step)
    requires AllFresh(w) && (step.Tick? || step.Write? || step.Read? || step.Push?)
    ensures AllFresh(Next(w, step))
  {
    hide Shows, Refreshed;
  }

  /** What every step keeps of the start. */
  lemma StartRemembered(w: World, clock: nat, g0: Globals, db: Rows, step: Step)
    requires FreshSince(w, clock, g0, db)
    ensures var after := Next(w, step);
            && clock <= after.clock && Snapshot(clock, db) in after.moments
            && (forall m :: m in after.moments ==> m.time >= clock)
            && (after.shown.None? ==> after.globals == g0)
            && (!after.warm ==> after.lastRefresh == 0)
  {
    hide Shows, AllFresh, Safe, Refreshed, Fresh;
  }

  lemma NextStaysFresh(w: World, clock: nat, g0: Globals, db: Rows, step: Step)
    requires FreshSince(w, clock, g0, db) && (clock >= TTL || Shows(g0, db))
    ensures FreshSince(Next(w, step), clock, g0, db)
  {
    hide Shows, AllFresh, Safe, Next;
    NextIsSafe(w, step);
    StartRemembered(w, clock, g0, db, step);
    match step
    case Call(force) => CallStaysFresh(w, clock, g0, db, force);
    case Acquire(id) => AcquireStaysFresh(w, clock, g0, db, id);
    case Finish(id, ok) => FinishStaysFresh(w, clock, g0, db, id, ok);
    case Tick(_) => QuietStaysFresh(w, step);
    case Write(_) => QuietStaysFresh(w, step);
    case Read(_, _) => QuietStaysFresh(w, step);
    case Push(_) => QuietStaysFresh(w, step);
  }

  lemma {:induction false} RunsStayFresh(w: World, clock: nat, g0: Globals, db: Rows, steps: seq<Step>)
    requires FreshSince(w, clock, g0, db) && (clock >= TTL || Shows(g0, db))
    ensures FreshSince(Run(w, steps), clock, g0, db)
    decreases |steps|
  {
    if steps != [] {
      hide FreshSince, Next, Shows;
      NextStaysFresh(w, clock, g0, db, steps[0]);
      RunsStayFresh(Next(w, steps[0]), clock, g0, db, steps[1..]);
    }
  }

  /** A first call within the TTL of the clock's origin returns to the globals the worker started with. */
  lemma ColdCall(clock: nat, g0: Globals, db: Rows)
    requires clock < TTL
    ensures Run(Initial(clock, g0, db), [Call(false)]).callers
         == map[1 := Returned(clock, true, false, None, g0, {Snapshot(clock, db)})]
  {
    assert [Call(false)][1..] == [];
    assert Run(Initial(clock, g0, db), [Call(false)]) == Run(Next(Initial(clock, g0, db), Call(false)), []);
  }

  /**
    The timestamp starts at zero.  Over all runs, every call that does not fail returns to fresh globals
    exactly when the worker begins to serve no earlier than one TTL after the origin of the monotonic clock,
    or the globals it begins with show the table.
   */
  lemma FreshFromTheStartIff(clock: nat, g0: Globals, db: Rows)
    ensures AlwaysFresh(clock, g0, db) <==> clock >= 5_000 || Shows(g0, db)
  {
    hide Shows, Run, Next;
    var w0 := Initial(clock, g0, db);
    if clock >= TTL || Shows(g0, db) {
      forall steps: seq<Step> ensures AllFresh(Run(w0, steps)) {
        RunsStayFresh(w0, clock, g0, db, steps);
      }
    } else {
      ColdCall(clock, g0, db);
      assert !ReturnsFresh(Run(w0, [Call(false)]).callers[1]);
    }
  }

  /** No update key of the table holds anything but its default. */
  predicate UpdatesAtDefault(rows: Rows) {
    && !Truthy(ValueOf(rows, CheckEnabled))
    && Trim(ValueOf(rows, LatestVersion)) == "" && Trim(ValueOf(rows, LatestUrl)) == ""
    && Trim(ValueOf(rows, PublishedAt)) == "" && Trim(ValueOf(rows, CheckedAt)) == ""
    && Trim(ValueOf(rows, CheckError)) == ""
  }

  /**
    A worker reads title and logo from the table before it serves, but no update keys.  From there its calls
    return to fresh globals over all runs exactly when it begins late enough or the update keys hold their
    defaults; with a start that failed to read, exactly when the table as a whole shows the defaults.
   */
  lemma FreshFromHydrationIff(clock: nat, db: Rows)
    ensures AlwaysFresh(clock, Hydrated(DEFAULTS, db), db) <==> clock >= 5_000 || UpdatesAtDefault(db)
    ensures AlwaysFresh(clock, DEFAULTS, db) <==> clock >= 5_000 || Shows(DEFAULTS, db)
  {
    FreshFromTheStartIff(clock, Hydrated(DEFAULTS, db), db);
    FreshFromTheStartIff(clock, DEFAULTS, db);
    HydratedShows(db);
  }

  lemma HydratedShows(db: Rows)
    ensures Shows(Hydrated(DEFAULTS, db), db) <==> UpdatesAtDefault(db)
  {
    var g := Hydrated(DEFAULTS, db);
    NothingIsTrue();
    hide Trim, Lower;
    assert ShowsUpdates(g, db) <==> UpdatesAtDefault(db);
  }
}
