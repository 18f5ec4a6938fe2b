/**
 * The proxy's five caches under every interleaving of lookups, background
 * refreshes and invalidations. Values carry where they came from, and time is
 * the number of steps taken.
 */
module CacheRuns {
  import opened Wrappers
  import opened ObjectKeys
  import opened TtlCache

  /** A stored value, or one that a fetch which began at the given step returned. */
  datatype Origin = Given | Fetched(began: nat)

  /** A background refresh: started under a generation, its fetch begins some time later. */
  datatype Refresh = Refresh(generation: nat, began: Option<nat>)

  /** An entry, the fetch that holds its lock, and the refreshes under way behind it. */
  datatype Cell = Cell(entry: Entry<Origin>, locked: Option<nat>, pending: map<nat, Refresh>, invalidated: nat)

  datatype CacheName = SnapshotList | DataStoreUsage | UsageStats | ArchiveSize | ManifestCryptMode

  datatype Place = Place(cache: CacheName, key: string)

  /** One run of invalidateDataStoreCachesLocal: when it began, and what it has yet to do. */
  datatype Call = Idle | Running(datastore: string, since: nat, stage: nat, todo: Option<set<string>>)

  datatype World = World(cells: map<Place, Cell>, call: Call, tick: nat, now: int)

  type Ttls = CacheName -> int

  const NEW_CELL := Cell(Blank(), None, map[], 0)

  function CellOf(w: World, p: Place): Cell {
    if p in w.cells then w.cells[p] else NEW_CELL
  }

  // -------------------------------------------------------------------- steps

  datatype Step =
    | Create(p: Place)
    | GetBegins(p: Place)
    | GetEnds(p: Place, ok: bool)
    | AsyncRead(p: Place, id: nat)
    | FetchBegins(p: Place, id: nat)
    | RefreshEnds(p: Place, id: nat, ok: bool)
    | StoreValue(p: Place)
    | InvalidateOne(p: Place)
    | ExpireOne(p: Place)
    | TimePasses(nanos: nat)
    | CallBegins(datastore: string)
    | CallNext(key: string)
    | CallEnds

  /** The caches an invalidation visits, in order, and how: a key each for three, a prefix for two. */
  function Target(stage: nat): CacheName {
    if stage == 0 then SnapshotList
    else if stage == 1 then DataStoreUsage
    else if stage == 2 then UsageStats
    else if stage == 3 then ArchiveSize else ManifestCryptMode
  }

  /** The keys of a cache that a prefix invalidation holding its map lock has to visit. */
  function Below(w: World, cache: CacheName, prefix: string): set<string> {
    set p | p in w.cells && p.cache == cache && HasPrefix(p.key, prefix) :: p.key
  }

  /** While a prefix is being invalidated the map of that cache is locked: no entry appears in it. */
  predicate MapLocked(w: World, cache: CacheName) {
    w.call.Running? && w.call.todo.Some? && Target(w.call.stage) == cache
  }

  predicate Unlocked(w: World, p: Place) {
    p in w.cells && w.cells[p].locked.None?
  }

  predicate Enabled(ttls: Ttls, w: World, step: Step) {
    match step
    case Create(p) => p !in w.cells && !MapLocked(w, p.cache)
    case GetBegins(p) => Unlocked(w, p) && !IsFresh(w.cells[p].entry, w.now, ttls(p.cache))
    case GetEnds(p, _) => p in w.cells && w.cells[p].locked.Some?
    case AsyncRead(p, id) => Unlocked(w, p) && id !in w.cells[p].pending
    case FetchBegins(p, id) => p in w.cells && id in w.cells[p].pending && w.cells[p].pending[id].began.None?
    case RefreshEnds(p, id, _) => Unlocked(w, p) && id in w.cells[p].pending && w.cells[p].pending[id].began.Some?
    case StoreValue(p) => Unlocked(w, p)
    case InvalidateOne(p) => Unlocked(w, p)
    case ExpireOne(p) => Unlocked(w, p)
    case TimePasses(_) => true
    case CallBegins(ds) => w.call.Idle?
    case CallNext(key) =>
      w.call.Running? &&
      (if w.call.stage < 3 then key == w.call.datastore && CellOf(w, Place(Target(w.call.stage), key)).locked.None?
       else w.call.stage < 5 &&
            (w.call.todo.None? || w.call.todo.value == {} ||
             (key in w.call.todo.value && Unlocked(w, Place(Target(w.call.stage), key)))))
    case CallEnds => w.call.Running? && w.call.stage == 5
  }

  function Began(id: nat, c: Cell, tick: nat): Cell
    requires id in c.pending
  {
    c.(pending := c.pending[id := c.pending[id].(began := Some(tick))])
  }

  function GetEnded(c: Cell, ok: bool, now: int): Cell
    requires c.locked.Some?
  {
    c.(entry := AfterGet(c.entry, if ok then Some(Fetched(c.locked.value)) else None, now), locked := None)
  }

  function Read(c: Cell, id: nat, now: int, ttl: int): Cell {
    c.(entry := AfterRead(c.entry, now, ttl),
       pending := if StartsRefresh(c.entry, now, ttl) then c.pending[id := Refresh(c.entry.generation, None)]
         else c.pending)
  }

  function Refreshed(c: Cell, id: nat, ok: bool, now: int): Cell
    requires id in c.pending && c.pending[id].began.Some?
  {
    var r := c.pending[id];
    c.(entry := AfterRefresh(c.entry, r.generation, if ok then Some(Fetched(r.began.value)) else None, now),
       pending := c.pending - {id})
  }

  function Dropped(c: Cell, expires: bool, tick: nat): Cell {
    c.(entry := if expires then AfterExpire(c.entry) else AfterInvalidate(c.entry), invalidated := tick)
  }

  function Put(w: World, p: Place, c: Cell): World {
    w.(cells := w.cells[p := c])
  }

  function NextOfCall(w: World, key: string): World
    requires w.call.Running?
  {
    var call := w.call;
    var cache := Target(call.stage);
    if call.stage < 3 then
      var p := Place(cache, call.datastore);
      Put(w, p, Dropped(CellOf(w, p), call.stage == 1, w.tick)).(call := call.(stage := call.stage + 1))
    else if call.todo.None? then w.(call := call.(todo := Some(Below(w, cache, call.datastore + "/"))))
    else if call.todo.value == {} then w.(call := call.(stage := call.stage + 1, todo := None))
    else
      var p := Place(cache, key);
      Put(w, p, Dropped(CellOf(w, p), false, w.tick)).(call := call.(todo := Some(call.todo.value - {key})))
  }

  function Effect(ttls: Ttls, w: World, step: Step): World
    requires Enabled(ttls, w, step)
  {
    match step
    case Create(p) => Put(w, p, NEW_CELL)
    case GetBegins(p) => Put(w, p, w.cells[p].(locked := Some(w.tick)))
    case GetEnds(p, ok) => Put(w, p, GetEnded(w.cells[p], ok, w.now))
    case AsyncRead(p, id) => Put(w, p, Read(w.cells[p], id, w.now, ttls(p.cache)))
    case FetchBegins(p, id) => Put(w, p, Began(id, w.cells[p], w.tick))
    case RefreshEnds(p, id, ok) => Put(w, p, Refreshed(w.cells[p], id, ok, w.now))
    case StoreValue(p) => Put(w, p, w.cells[p].(entry := AfterStore(w.cells[p].entry, Given, w.now)))
    case InvalidateOne(p) => Put(w, p, Dropped(w.cells[p], false, w.tick))
    case ExpireOne(p) => Put(w, p, Dropped(w.cells[p], true, w.tick))
    case TimePasses(nanos) => w.(now := w.now + nanos)
    case CallBegins(ds) => w.(call := Running(ds, w.tick, 0, None))
    case CallNext(key) => NextOfCall(w, key)
    case CallEnds => w.(call := Idle)
  }

  function Apply(ttls: Ttls, w: World, step: Step): World
    requires Enabled(ttls, w, step)
  {
    Effect(ttls, w, step).(tick := w.tick + 1)
  }

  predicate Runs(ttls: Ttls, w: World, steps: seq<Step>)
    decreases |steps|
  {
    steps == [] || (Enabled(ttls, w, steps[0]) && Runs(ttls, Apply(ttls, w, steps[0]), steps[1..]))
  }

  function Exec(ttls: Ttls, w: World, steps: seq<Step>): World
    requires Runs(ttls, w, steps)
    decreases |steps|
  {
    if steps == [] then w else Exec(ttls, Apply(ttls, w, steps[0]), steps[1..])
  }

  const START := World(map[], Idle, 1, 0)

  // ----------------------------------------------------------------- freshness

  /** The entry looks recent and its value came from a fetch. */
  predicate LooksFetched(e: Entry<Origin>) {
    e.valid && e.fetched.At? && e.value.Some? && e.value.value.Fetched?
  }

  /**
   * Nothing from before `since` can pass for recent: not the value there is,
   * not the one a lookup is fetching, not the one a refresh will bring.
   */
  ghost predicate NewerThan(c: Cell, since: nat) {
    && (LooksFetched(c.entry) ==> c.entry.value.value.began > since)
    && (c.locked.Some? ==> c.locked.value > since)
    && (forall id :: id in c.pending && c.pending[id].generation == c.entry.generation && c.pending[id].began.Some? ==>
          c.pending[id].began.value > since)
  }

  /** One background refresh at most, and the flag says whether there is one. */
  ghost predicate SingleRefresh(c: Cell) {
    && (forall id, other :: id in c.pending && other in c.pending ==> id == other)
    && (c.entry.refreshing <==> c.pending != map[])
  }

  ghost predicate CellInv(c: Cell, tick: nat) {
    && c.invalidated < tick
    && NewerThan(c, c.invalidated)
    && SingleRefresh(c)
    && (forall id :: id in c.pending ==> c.pending[id].generation <= c.entry.generation)
  }

  ghost predicate Inv(w: World) {
    w.tick > 0 && forall p :: p in w.cells ==> CellInv(w.cells[p], w.tick)
  }

  lemma RefreshKeepsCell(c: Cell, id: nat, ok: bool, now: int, tick: nat, since: nat)
    requires CellInv(c, tick) && id in c.pending && c.pending[id].began.Some?
    ensures CellInv(Refreshed(c, id, ok, now), tick + 1)
    ensures NewerThan(c, since) ==> NewerThan(Refreshed(c, id, ok, now), since)
  {
  }

  lemma ReadKeepsCell(c: Cell, id: nat, now: int, ttl: int, tick: nat, since: nat)
    requires CellInv(c, tick) && id !in c.pending
    ensures CellInv(Read(c, id, now, ttl), tick + 1)
    ensures NewerThan(c, since) ==> NewerThan(Read(c, id, now, ttl), since)
  {
  }

  lemma BeganKeepsCell(c: Cell, id: nat, tick: nat, since: nat)
    requires CellInv(c, tick) && id in c.pending && since < tick
    ensures CellInv(Began(id, c, tick), tick + 1)
    ensures NewerThan(c, since) ==> NewerThan(Began(id, c, tick), since)
  {
    var after := Began(id, c, tick);
    assert after.pending.Keys == c.pending.Keys;
  }

  predicate IsRefreshStep(step: Step) {
    step.AsyncRead? || step.FetchBegins? || step.RefreshEnds?
  }

  predicate IsLookupStep(step: Step) {
    step.Create? || step.GetBegins? || step.GetEnds? || step.StoreValue? || step.TimePasses?
  }

  /** A cell stays well formed, and at least as new as it was, over one step. */
  ghost predicate Keeps(w: World, after: World, p: Place) {
    && p in after.cells && CellInv(after.cells[p], w.tick + 1)
    && (p in w.cells ==>
          forall since: nat :: since < w.tick && NewerThan(w.cells[p], since) ==> NewerThan(after.cells[p], since))
  }

  lemma RefreshStepKeeps(ttls: Ttls, w: World, step: Step, p: Place)
    requires Inv(w) && Enabled(ttls, w, step) && IsRefreshStep(step) && p in w.cells
    ensures Keeps(w, Apply(ttls, w, step), p)
  {
    var c := w.cells[p];
    assert CellInv(c, w.tick);
    if step.p == p {
      forall since: nat
        ensures CellInv(Apply(ttls, w, step).cells[p], w.tick + 1)
        ensures since < w.tick && NewerThan(c, since) ==> NewerThan(Apply(ttls, w, step).cells[p], since)
      {
        match step
        case AsyncRead(_, id) => ReadKeepsCell(c, id, w.now, ttls(p.cache), w.tick, since);
        case FetchBegins(_, id) =>
          if since < w.tick {
            BeganKeepsCell(c, id, w.tick, since);
          } else {
            BeganKeepsCell(c, id, w.tick, 0);
          }
        case RefreshEnds(_, id, ok) => RefreshKeepsCell(c, id, ok, w.now, w.tick, since);
      }
    }
  }

  lemma LookupStepKeeps(ttls: Ttls, w: World, step: Step, p: Place)
    requires Inv(w) && Enabled(ttls, w, step) && IsLookupStep(step) && p in Apply(ttls, w, step).cells
    ensures Keeps(w, Apply(ttls, w, step), p)
  {
    assert p in w.cells ==> CellInv(w.cells[p], w.tick);
  }

  /** Nothing from before passes for recent in a cell that was just dropped. */
  lemma DroppedKeepsCell(c: Cell, expires: bool, tick: nat)
    requires CellInv(c, tick) && c.locked.None?
    ensures CellInv(Dropped(c, expires, tick), tick + 1)
    ensures forall since: nat :: NewerThan(Dropped(c, expires, tick), since)
  {
  }

  /** A step of another kind leaves a cell alone, or drops it. */
  lemma DropsOrLeaves(ttls: Ttls, w: World, step: Step, p: Place) returns (expires: bool)
    requires Enabled(ttls, w, step) && !IsRefreshStep(step) && !IsLookupStep(step)
    requires p in Apply(ttls, w, step).cells
    ensures (p in w.cells && Apply(ttls, w, step).cells[p] == w.cells[p]) ||
      (CellOf(w, p).locked.None? && Apply(ttls, w, step).cells[p] == Dropped(CellOf(w, p), expires, w.tick))
  {
    expires := step.ExpireOne? || (step.CallNext? && w.call.stage == 1);
  }

  lemma DropStepKeeps(ttls: Ttls, w: World, step: Step, p: Place)
    requires Inv(w) && Enabled(ttls, w, step) && !IsRefreshStep(step) && !IsLookupStep(step)
    requires p in Apply(ttls, w, step).cells
    ensures Keeps(w, Apply(ttls, w, step), p)
  {
    var expires := DropsOrLeaves(ttls, w, step, p);
    assert CellInv(CellOf(w, p), w.tick);
    if CellOf(w, p).locked.None? {
      DroppedKeepsCell(CellOf(w, p), expires, w.tick);
    }
  }

  lemma StepKeeps(ttls: Ttls, w: World, step: Step, p: Place)
    requires Inv(w) && Enabled(ttls, w, step) && p in Apply(ttls, w, step).cells
    ensures Keeps(w, Apply(ttls, w, step), p)
  {
    if IsRefreshStep(step) {
      RefreshStepKeeps(ttls, w, step, p);
    } else if IsLookupStep(step) {
      LookupStepKeeps(ttls, w, step, p);
    } else {
      DropStepKeeps(ttls, w, step, p);
    }
  }

  lemma CellsStay(ttls: Ttls, w: World, step: Step, p: Place)
    requires Enabled(ttls, w, step) && p in w.cells
    ensures p in Apply(ttls, w, step).cells
  {
  }

  /** Every step keeps what it does not invalidate at least as new as it was. */
  lemma StepKeepsNewer(ttls: Ttls, w: World, step: Step, p: Place, since: nat)
    requires Inv(w) && Enabled(ttls, w, step) && p in w.cells && since < w.tick && NewerThan(w.cells[p], since)
    ensures p in Apply(ttls, w, step).cells && NewerThan(Apply(ttls, w, step).cells[p], since)
  {
    CellsStay(ttls, w, step, p);
    StepKeeps(ttls, w, step, p);
  }

  lemma StepKeepsInv(ttls: Ttls, w: World, step: Step)
    requires Inv(w) && Enabled(ttls, w, step)
    ensures Inv(Apply(ttls, w, step))
  {
    var after := Apply(ttls, w, step);
    forall p | p in after.cells ensures CellInv(after.cells[p], after.tick) {
      StepKeeps(ttls, w, step, p);
    }
  }

  lemma {:induction false} RunKeepsInv(ttls: Ttls, w: World, steps: seq<Step>)
    requires Inv(w) && Runs(ttls, w, steps)
    ensures Inv(Exec(ttls, w, steps))
    decreases |steps|
  {
    if steps != [] {
      StepKeepsInv(ttls, w, steps[0]);
      RunKeepsInv(ttls, Apply(ttls, w, steps[0]), steps[1..]);
    }
  }

  lemma AtMostOne(s: set<nat>)
    requires forall id: nat, other: nat :: id in s && other in s ==> id == other
    ensures |s| <= 1
  {
    if s != {} {
      var id: nat :| id in s;
      assert s == {id};
    }
  }

  /**
   * In every interleaving: an entry that is fresh and was produced by Get or
   * GetAsync holds what a fetch returned that began after the last
   * invalidation of its key, and at most one refresh is running behind it.
   */
  lemma FreshMeansAfterInvalidation(ttls: Ttls, steps: seq<Step>, p: Place)
    requires Runs(ttls, START, steps) && p in Exec(ttls, START, steps).cells
    ensures var w := Exec(ttls, START, steps);
      var c := w.cells[p];
      && (IsFresh(c.entry, w.now, ttls(p.cache)) && c.entry.value.Some? && c.entry.value.value.Fetched? ==>
            c.entry.value.value.began > c.invalidated)
      && |c.pending| <= 1
  {
    RunKeepsInv(ttls, START, steps);
    var c := Exec(ttls, START, steps).cells[p];
    assert CellInv(c, Exec(ttls, START, steps).tick);
    AtMostOne(c.pending.Keys);
  }

  // ----------------------------------------------------------------------- age

  /**
   * A value is served for its lifetime and not longer: after some time has
   * passed, a lookup that finds the entry free fetches exactly when the time
   * since the value was fetched has reached the lifetime.
   */
  lemma AgeDecides(ttls: Ttls, w: World, p: Place, fetched: int, nanos: nat)
    requires Unlocked(w, p) && w.cells[p].entry.valid && w.cells[p].entry.fetched == At(fetched)
    ensures Enabled(ttls, w, TimePasses(nanos))
    ensures Enabled(ttls, Apply(ttls, w, TimePasses(nanos)), GetBegins(p)) <==>
      fetched + ttls(p.cache) <= w.now + nanos
  {
  }
}
