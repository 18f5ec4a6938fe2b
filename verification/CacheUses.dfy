/**
 * Whether a cached value can be replaced by one that was fetched earlier. It
 * depends on how the entry is used: through Get, through GetAsync, or both.
 */
module CacheUses {
  import opened Wrappers
  import opened TtlCache
  import opened CacheRuns

  /** The entries that are looked up with Get, and those that are looked up with GetAsync. */
  datatype Uses = Uses(sync: Place -> bool, async: Place -> bool)

  predicate Allowed(uses: Uses, step: Step) {
    (step.GetBegins? ==> uses.sync(step.p)) && (step.AsyncRead? ==> uses.async(step.p))
  }

  /** A run in which every entry is only looked up as it is used. */
  predicate RunsBy(ttls: Ttls, uses: Uses, w: World, steps: seq<Step>) {
    Runs(ttls, w, steps) && forall i :: 0 <= i < |steps| ==> Allowed(uses, steps[i])
  }

  ghost predicate Reachable(ttls: Ttls, uses: Uses, w: World) {
    exists steps :: RunsBy(ttls, uses, START, steps) && Exec(ttls, START, steps) == w
  }

  predicate KeepsLater(w: World, after: World, p: Place) {
    var e, e' := CellOf(w, p).entry, CellOf(after, p).entry;
    LooksFetched(e) && LooksFetched(e') ==> e.value.value.began <= e'.value.value.began
  }

  /** From any moment to any later one, a recent value only gives way to one whose fetch began no earlier. */
  ghost predicate LaterStays(ttls: Ttls, uses: Uses) {
    forall w, steps, p :: Reachable(ttls, uses, w) && RunsBy(ttls, uses, w, steps) ==>
      KeepsLater(w, Exec(ttls, w, steps), p)
  }

  // ------------------------------------------------------ one lookup or the other

  predicate HoldsFetched(c: Cell) {
    c.entry.value.Some? && c.entry.value.value.Fetched?
  }

  /** No value there is, or that a fetch under way may bring, is from before `mark`. */
  ghost predicate NotBefore(c: Cell, mark: nat) {
    && (HoldsFetched(c) ==> c.entry.value.value.began >= mark)
    && (c.locked.Some? ==> c.locked.value >= mark)
    && (forall id :: id in c.pending && c.pending[id].began.Some? ==> c.pending[id].began.value >= mark)
  }

  /** All of it is from before `tick`, and what is under way is as the entry is used. */
  ghost predicate AsUsed(c: Cell, uses: Uses, p: Place, tick: nat) {
    && (HoldsFetched(c) ==> c.entry.value.value.began < tick)
    && (c.locked.Some? ==> uses.sync(p) && c.locked.value < tick)
    && (c.pending != map[] ==> uses.async(p))
    && (forall id :: id in c.pending && c.pending[id].began.Some? ==> c.pending[id].began.value < tick)
  }

  /** What is under way began no earlier than what is there. */
  ghost predicate Forward(c: Cell, uses: Uses, p: Place, tick: nat) {
    AsUsed(c, uses, p, tick) && SingleRefresh(c) && (HoldsFetched(c) ==> NotBefore(c, c.entry.value.value.began))
  }

  predicate Separate(uses: Uses, p: Place) {
    !(uses.sync(p) && uses.async(p))
  }

  ghost predicate StaysForward(c: Cell, after: Cell, uses: Uses, p: Place, tick: nat, mark: nat) {
    Forward(after, uses, p, tick + 1) && (NotBefore(c, mark) ==> NotBefore(after, mark))
  }

  lemma ReadForward(c: Cell, id: nat, now: int, ttl: int, uses: Uses, p: Place, tick: nat, mark: nat)
    requires Forward(c, uses, p, tick) && id !in c.pending && uses.async(p)
    ensures StaysForward(c, Read(c, id, now, ttl), uses, p, tick, mark)
  {
  }

  lemma BeganForward(c: Cell, id: nat, uses: Uses, p: Place, tick: nat, mark: nat)
    requires Forward(c, uses, p, tick) && id in c.pending && mark <= tick
    ensures StaysForward(c, Began(id, c, tick), uses, p, tick, mark)
  {
    assert Began(id, c, tick).pending.Keys == c.pending.Keys;
  }

  /** A refresh that ends was the only one. */
  lemma RefreshedForward(c: Cell, id: nat, ok: bool, now: int, uses: Uses, p: Place, tick: nat, mark: nat)
    requires Forward(c, uses, p, tick) && id in c.pending && c.pending[id].began.Some? && c.locked.None?
    ensures StaysForward(c, Refreshed(c, id, ok, now), uses, p, tick, mark)
  {
    assert Refreshed(c, id, ok, now).pending == map[];
  }

  /** Where there is a lookup that holds the lock there is no refresh. */
  lemma GetForward(c: Cell, ok: bool, now: int, uses: Uses, p: Place, tick: nat, mark: nat)
    requires Forward(c, uses, p, tick) && c.locked.Some? && Separate(uses, p)
    ensures StaysForward(c, GetEnded(c, ok, now), uses, p, tick, mark)
  {
    assert c.pending == map[];
  }

  lemma DroppedForward(c: Cell, expires: bool, uses: Uses, p: Place, tick: nat, mark: nat)
    requires Forward(c, uses, p, tick)
    ensures StaysForward(c, Dropped(c, expires, tick), uses, p, tick, mark)
  {
  }

  lemma RefreshStepForward(ttls: Ttls, uses: Uses, w: World, step: Step, p: Place, mark: nat)
    requires Enabled(ttls, w, step) && Allowed(uses, step) && IsRefreshStep(step) && mark <= w.tick
    requires Forward(CellOf(w, p), uses, p, w.tick)
    ensures StaysForward(CellOf(w, p), CellOf(Apply(ttls, w, step), p), uses, p, w.tick, mark)
  {
    var c := CellOf(w, p);
    if step.p == p {
      match step
      case AsyncRead(_, id) => ReadForward(c, id, w.now, ttls(p.cache), uses, p, w.tick, mark);
      case FetchBegins(_, id) => BeganForward(c, id, uses, p, w.tick, mark);
      case RefreshEnds(_, id, ok) => RefreshedForward(c, id, ok, w.now, uses, p, w.tick, mark);
    }
  }

  lemma LookupStepForward(ttls: Ttls, uses: Uses, w: World, step: Step, p: Place, mark: nat)
    requires Enabled(ttls, w, step) && Allowed(uses, step) && IsLookupStep(step) && mark <= w.tick
    requires Forward(CellOf(w, p), uses, p, w.tick) && Separate(uses, p)
    ensures StaysForward(CellOf(w, p), CellOf(Apply(ttls, w, step), p), uses, p, w.tick, mark)
  {
    if step.GetEnds? && step.p == p {
      GetForward(CellOf(w, p), step.ok, w.now, uses, p, w.tick, mark);
    }
  }

  lemma StepForward(ttls: Ttls, uses: Uses, w: World, step: Step, p: Place, mark: nat)
    requires Enabled(ttls, w, step) && Allowed(uses, step) && mark <= w.tick
    requires Forward(CellOf(w, p), uses, p, w.tick) && Separate(uses, p)
    ensures StaysForward(CellOf(w, p), CellOf(Apply(ttls, w, step), p), uses, p, w.tick, mark)
  {
    if IsRefreshStep(step) {
      RefreshStepForward(ttls, uses, w, step, p, mark);
    } else if IsLookupStep(step) {
      LookupStepForward(ttls, uses, w, step, p, mark);
    } else if p in Apply(ttls, w, step).cells {
      var expires := DropsOrLeaves(ttls, w, step, p);
      DroppedForward(CellOf(w, p), expires, uses, p, w.tick, mark);
    }
  }

  lemma {:induction false} RunForward(ttls: Ttls, uses: Uses, w: World, steps: seq<Step>, p: Place, mark: nat)
    requires RunsBy(ttls, uses, w, steps) && Separate(uses, p) && mark <= w.tick
    requires Forward(CellOf(w, p), uses, p, w.tick)
    ensures var after := Exec(ttls, w, steps);
      && Forward(CellOf(after, p), uses, p, after.tick)
      && (NotBefore(CellOf(w, p), mark) ==> NotBefore(CellOf(after, p), mark))
    decreases |steps|
  {
    if steps != [] {
      StepForward(ttls, uses, w, steps[0], p, mark);
      RunForward(ttls, uses, Apply(ttls, w, steps[0]), steps[1..], p, mark);
    }
  }

  lemma SeparateKeepsLater(ttls: Ttls, uses: Uses, w: World, steps: seq<Step>, p: Place)
    requires Separate(uses, p) && Reachable(ttls, uses, w) && RunsBy(ttls, uses, w, steps)
    ensures KeepsLater(w, Exec(ttls, w, steps), p)
  {
    var before :| RunsBy(ttls, uses, START, before) && Exec(ttls, START, before) == w;
    RunForward(ttls, uses, START, before, p, 0);
    if LooksFetched(CellOf(w, p).entry) {
      RunForward(ttls, uses, w, steps, p, CellOf(w, p).entry.value.value.began);
    }
  }

  // ------------------------------------------------------------------- both of them

  lemma {:induction false} RunsFurther(ttls: Ttls, w: World, steps: seq<Step>, step: Step)
    requires Runs(ttls, w, steps) && Enabled(ttls, Exec(ttls, w, steps), step)
    ensures Runs(ttls, w, steps + [step]) && Exec(ttls, w, steps + [step]) == Apply(ttls, Exec(ttls, w, steps), step)
    decreases |steps|
  {
    if steps == [] {
      assert steps + [step] == [step];
      assert [step][1..] == [];
    } else {
      RunsFurther(ttls, Apply(ttls, w, steps[0]), steps[1..], step);
      assert (steps + [step])[1..] == steps[1..] + [step];
    }
  }

  lemma ReachNext(ttls: Ttls, uses: Uses, w: World, step: Step) returns (after: World)
    requires Reachable(ttls, uses, w) && Enabled(ttls, w, step) && Allowed(uses, step)
    ensures after == Apply(ttls, w, step) && Reachable(ttls, uses, after)
  {
    var steps :| RunsBy(ttls, uses, START, steps) && Exec(ttls, START, steps) == w;
    RunsFurther(ttls, START, steps, step);
    after := Apply(ttls, w, step);
    assert RunsBy(ttls, uses, START, steps + [step]);
  }

  /** A refresh began, a lookup fetched after it and finished before it. */
  function Overtaken(p: Place): World {
    World(map[p := Cell(Entry(Some(Fetched(4)), At(0), true, true, 0), None, map[0 := Refresh(0, Some(3))], 0)],
          Idle, 6, 0)
  }

  lemma RefreshIsSlow(ttls: Ttls, uses: Uses, p: Place) returns (w: World)
    requires uses.async(p)
    ensures Reachable(ttls, uses, w)
    ensures w == World(map[p := Cell(Blank().(refreshing := true), None, map[0 := Refresh(0, Some(3))], 0)],
                       Idle, 4, 0)
  {
    assert RunsBy(ttls, uses, START, []) && Exec(ttls, START, []) == START;
    w := ReachNext(ttls, uses, START, Create(p));
    w := ReachNext(ttls, uses, w, AsyncRead(p, 0));
    w := ReachNext(ttls, uses, w, FetchBegins(p, 0));
    assert w.cells[p].pending == map[0 := Refresh(0, Some(3))];
    assert w.cells == map[p := Cell(Blank().(refreshing := true), None, map[0 := Refresh(0, Some(3))], 0)];
  }

  lemma OvertakenIsReachable(ttls: Ttls, uses: Uses, p: Place)
    requires uses.sync(p) && uses.async(p)
    ensures Reachable(ttls, uses, Overtaken(p))
  {
    var w := RefreshIsSlow(ttls, uses, p);
    w := ReachNext(ttls, uses, w, GetBegins(p));
    w := ReachNext(ttls, uses, w, GetEnds(p, true));
    assert w.cells == Overtaken(p).cells;
  }

  /** On an entry used both ways a slow refresh overwrites what a later lookup brought. */
  lemma MixedUseGoesBack(ttls: Ttls, uses: Uses, p: Place)
    requires uses.sync(p) && uses.async(p)
    ensures !LaterStays(ttls, uses)
  {
    OvertakenIsReachable(ttls, uses, p);
    var w, slow := Overtaken(p), RefreshEnds(p, 0, true);
    assert Enabled(ttls, w, slow);
    RunsFurther(ttls, w, [], slow);
    assert [] + [slow] == [slow];
    assert RunsBy(ttls, uses, w, [slow]);
    assert CellOf(Apply(ttls, w, slow), p).entry.value == Some(Fetched(3));
    assert !KeepsLater(w, Exec(ttls, w, [slow]), p);
  }

  // -------------------------------------------------------------------- theorems

  /**
   * Whatever the lifetimes: values never go back, over any stretch of any run,
   * exactly when no entry is looked up with both Get and GetAsync.
   */
  lemma LaterStaysIffSeparate(ttls: Ttls, uses: Uses)
    ensures LaterStays(ttls, uses) <==> forall p :: Separate(uses, p)
  {
    if forall p :: Separate(uses, p) {
      forall w, steps, p | Reachable(ttls, uses, w) && RunsBy(ttls, uses, w, steps)
        ensures KeepsLater(w, Exec(ttls, w, steps), p)
      {
        SeparateKeepsLater(ttls, uses, w, steps, p);
      }
    } else {
      var p :| !Separate(uses, p);
      MixedUseGoesBack(ttls, uses, p);
    }
  }

  /** The proxy reads the usage of a datastore with GetAsync, and the other four caches with Get. */
  function ProxyUses(): Uses {
    Uses((p: Place) => !p.cache.DataStoreUsage?, (p: Place) => p.cache.DataStoreUsage?)
  }

  /** So none of the five caches of the proxy ever goes back. */
  lemma ProxyNeverGoesBack(ttls: Ttls)
    ensures LaterStays(ttls, ProxyUses())
  {
    LaterStaysIffSeparate(ttls, ProxyUses());
  }
}
