/** One process lock per bucket, held for as long as the proxy has a session on it. */
module SessionLocks {
  import opened Sums

  /** Named locks are shared by all processes of a machine: this proxy, the collector, other proxies. */
  datatype Holder = ThisProxy | Other

  /** `Server.SessionLocks`, `Server.Sessions` and the named locks of the machine. */
  datatype Table = Table(counts: map<string, uint64>, sessions: uint64, held: map<string, Holder>)

  /** An acquire gives up after its timeout; `patient` says that it did not. */
  predicate Acquires(held: map<string, Holder>, name: string, patient: bool) {
    name !in held && patient
  }

  predicate BeginSucceeds(t: Table, name: string, patient: bool) {
    name in t.counts || Acquires(t.held, name, patient)
  }

  function CountOf(counts: map<string, uint64>, name: string): uint64 {
    if name in counts then counts[name] else 0
  }

  function Begun(t: Table, name: string, patient: bool): Table {
    if !BeginSucceeds(t, name, patient) then t
    else t.(counts := t.counts[name := Add64(CountOf(t.counts, name), 1)],
            sessions := Add64(t.sessions, 1),
            held := if name in t.counts then t.held else t.held[name := ThisProxy])
  }

  /** `n--` on uint64. */
  function Decrement(n: uint64): uint64 {
    (n + TWO_64 - 1) % TWO_64
  }

  /** Releasing a lock nobody holds is reported and ignored. */
  function Ended(t: Table, name: string): Table {
    if CountOf(t.counts, name) == 0 then t
    else if t.counts[name] == 1
    then Table(t.counts - {name}, Decrement(t.sessions), t.held - {name})
    else t.(counts := t.counts[name := t.counts[name] - 1], sessions := Decrement(t.sessions))
  }

  // ----------------------------------------------------------- implementation

  class ProcessLocks {
    var held: map<string, Holder>

    constructor ()
      ensures held == map[]
    {
      held := map[];
    }

    method Acquire(name: string, who: Holder, patient: bool) returns (ok: bool)
      modifies this
      ensures ok <==> Acquires(old(held), name, patient)
      ensures held == if ok then old(held)[name := who] else old(held)
      ensures ok ==> name !in old(held)
      ensures name !in old(held) && patient ==> ok
    {
      ok := name !in held && patient;
      if ok {
        held := held[name := who];
      }
    }

    method Release(name: string)
      modifies this
      ensures held == old(held) - {name}
    {
      held := held - {name};
    }
  }

  class Server {
    var counts: map<string, uint64>
    var sessions: uint64
    const locks: ProcessLocks

    constructor (locks: ProcessLocks)
      ensures counts == map[] && sessions == 0 && this.locks == locks
    {
      counts, sessions, this.locks := map[], 0, locks;
    }

    ghost function State(): Table
      reads this, locks
    {
      Table(counts, sessions, locks.held)
    }

    method BeginDataStoreSession(name: string, patient: bool) returns (ok: bool)
      modifies this, locks
      ensures ok <==> BeginSucceeds(old(State()), name, patient)
      ensures State() == Begun(old(State()), name, patient)
      ensures ok <==> name in old(counts) || (name !in old(locks.held) && patient)
      ensures !ok ==> counts == old(counts) && sessions == old(sessions) && locks.held == old(locks.held)
    {
      var count: uint64 := 0;
      if name in counts {
        count := counts[name];
      } else {
        var acquired := locks.Acquire(name, ThisProxy, patient);
        if !acquired {
          return false;
        }
      }
      counts := counts[name := Add64(count, 1)];
      sessions := Add64(sessions, 1);
      return true;
    }

    method EndDataStoreSession(name: string)
      modifies this, locks
      ensures State() == Ended(old(State()), name)
    {
      if name !in counts || counts[name] == 0 {
        return;
      }
      var count: uint64 := counts[name] - 1;
      counts := counts[name := count];
      sessions := Decrement(sessions);
      if count == 0 {
        locks.Release(name);
        counts := counts - {name};
        assert counts == old(counts) - {name};
      }
    }
  }

  // ------------------------------------------------------------ state machine

  /** What happened so far: the sessions open, how many, and how often this proxy took and gave back each lock. */
  datatype History = History(open: multiset<string>, live: nat, acquired: multiset<string>, released: multiset<string>)

  datatype World = World(table: Table, history: History)

  datatype Op =
    | Begin(name: string, patient: bool)
    | End(name: string)
    | OtherAcquires(name: string, patient: bool)
    | OtherReleases(name: string)

  function Once(happens: bool, name: string): multiset<string> {
    if happens then multiset{name} else multiset{}
  }

  function Next(w: World, op: Op): World {
    var t, h := w.table, w.history;
    match op
    case Begin(name, patient) =>
      var ok := BeginSucceeds(t, name, patient);
      World(Begun(t, name, patient),
            h.(open := h.open + Once(ok, name), live := if ok then h.live + 1 else h.live,
              acquired := h.acquired + Once(ok && name !in t.counts, name)))
    case End(name) =>
      var ok := CountOf(t.counts, name) > 0;
      World(Ended(t, name),
            h.(open := h.open - Once(ok, name), live := if ok && h.live > 0 then h.live - 1 else h.live,
              released := h.released + Once(CountOf(t.counts, name) == 1, name)))
    case OtherAcquires(name, patient) =>
      w.(table := t.(held := if Acquires(t.held, name, patient) then t.held[name := Other] else t.held))
    case OtherReleases(name) =>
      w.(table := t.(held := if name in t.held && t.held[name].Other? then t.held - {name} else t.held))
  }

  function After(w: World, ops: seq<Op>): World
    decreases |ops|
  {
    if ops == [] then w else After(Next(w, ops[0]), ops[1..])
  }

  const START := World(Table(map[], 0, map[]), History(multiset{}, 0, multiset{}, multiset{}))

  ghost function Counts(counts: map<string, uint64>): string -> nat {
    n => CountOf(counts, n)
  }

  ghost predicate CountsMatch(counts: map<string, uint64>, open: multiset<string>) {
    forall n :: (n in counts <==> open[n] > 0) && CountOf(counts, n) == open[n]
  }

  ghost function Total(counts: map<string, uint64>): nat {
    Sum(counts.Keys, Counts(counts))
  }

  ghost predicate LocksMatch(t: Table, h: History) {
    && (forall n :: n in t.held && t.held[n].ThisProxy? <==> n in t.counts)
    && (forall n :: h.acquired[n] == h.released[n] + (if n in t.counts then 1 else 0))
  }

  ghost predicate SumsMatch(t: Table, live: nat) {
    t.sessions == live == Total(t.counts)
  }

  ghost predicate Inv(w: World) {
    CountsMatch(w.table.counts, w.history.open) && SumsMatch(w.table, w.history.live) && LocksMatch(w.table, w.history)
  }

  lemma TotalSet(counts: map<string, uint64>, name: string, count: uint64)
    ensures Total(counts[name := count]) == Total(counts) - CountOf(counts, name) + count
  {
    var after := counts[name := count];
    var rest := counts.Keys - {name};
    assert after.Keys - {name} == rest;
    SumRemove(after.Keys, Counts(after), name);
    SumCongruent(rest, Counts(after), Counts(counts));
    if name in counts {
      SumRemove(counts.Keys, Counts(counts), name);
    } else {
      assert rest == counts.Keys;
    }
  }

  lemma TotalDrop(counts: map<string, uint64>, name: string)
    requires name in counts
    ensures Total(counts - {name}) == Total(counts) - counts[name]
  {
    var after := counts - {name};
    SumRemove(counts.Keys, Counts(counts), name);
    assert after.Keys == counts.Keys - {name};
    SumCongruent(after.Keys, Counts(after), Counts(counts));
  }

  lemma {:induction false} AtMostTotal(counts: map<string, uint64>, name: string)
    ensures CountOf(counts, name) <= Total(counts)
  {
    if name in counts {
      SumRemove(counts.Keys, Counts(counts), name);
    }
  }

  lemma CountsAfterBegin(counts: map<string, uint64>, open: multiset<string>, name: string)
    requires CountsMatch(counts, open) && CountOf(counts, name) + 1 < TWO_64
    ensures CountsMatch(counts[name := Add64(CountOf(counts, name), 1)], open + multiset{name})
  {
  }

  lemma CountsAfterEnd(counts: map<string, uint64>, open: multiset<string>, name: string)
    requires CountsMatch(counts, open) && CountOf(counts, name) > 0
    ensures CountsMatch(if counts[name] == 1 then counts - {name} else counts[name := counts[name] - 1],
                        open - multiset{name})
  {
  }

  lemma LocksAfterBegin(t: Table, h: History, name: string, patient: bool)
    requires LocksMatch(t, h) && BeginSucceeds(t, name, patient)
    ensures LocksMatch(Next(World(t, h), Begin(name, patient)).table, Next(World(t, h), Begin(name, patient)).history)
  {
  }

  lemma LocksAfterEnd(t: Table, h: History, name: string)
    requires LocksMatch(t, h) && CountOf(t.counts, name) > 0
    ensures LocksMatch(Next(World(t, h), End(name)).table, Next(World(t, h), End(name)).history)
  {
  }

  lemma SumsAfterBegin(t: Table, name: string, patient: bool, live: nat)
    requires SumsMatch(t, live) && live + 1 < TWO_64 && BeginSucceeds(t, name, patient)
    ensures SumsMatch(Begun(t, name, patient), live + 1)
  {
    AtMostTotal(t.counts, name);
    TotalSet(t.counts, name, Add64(CountOf(t.counts, name), 1));
  }

  lemma SumsAfterEnd(t: Table, name: string, live: nat)
    requires SumsMatch(t, live) && live < TWO_64 && CountOf(t.counts, name) > 0
    ensures live > 0 && SumsMatch(Ended(t, name), live - 1)
  {
    AtMostTotal(t.counts, name);
    if t.counts[name] == 1 {
      TotalDrop(t.counts, name);
    } else {
      TotalSet(t.counts, name, t.counts[name] - 1);
    }
  }

  lemma BeginKeepsInv(w: World, name: string, patient: bool)
    requires Inv(w) && w.history.live + 1 < TWO_64 && BeginSucceeds(w.table, name, patient)
    ensures Inv(Next(w, Begin(name, patient)))
  {
    AtMostTotal(w.table.counts, name);
    CountsAfterBegin(w.table.counts, w.history.open, name);
    SumsAfterBegin(w.table, name, patient, w.history.live);
    LocksAfterBegin(w.table, w.history, name, patient);
  }

  lemma EndKeepsInv(w: World, name: string)
    requires Inv(w) && w.history.live < TWO_64 && CountOf(w.table.counts, name) > 0
    ensures Inv(Next(w, End(name)))
  {
    CountsAfterEnd(w.table.counts, w.history.open, name);
    SumsAfterEnd(w.table, name, w.history.live);
    LocksAfterEnd(w.table, w.history, name);
  }

  lemma NothingKeepsInv(w: World, op: Op)
    requires Inv(w)
    requires match op
      case Begin(name, patient) => !BeginSucceeds(w.table, name, patient)
      case End(name) => CountOf(w.table.counts, name) == 0
      case _ => true
    ensures Inv(Next(w, op)) && Next(w, op).history.live == w.history.live
  {
  }

  lemma StepKeepsInv(w: World, op: Op)
    requires Inv(w) && w.history.live + 1 < TWO_64
    ensures Inv(Next(w, op)) && Next(w, op).history.live <= w.history.live + 1
  {
    if op.Begin? && BeginSucceeds(w.table, op.name, op.patient) {
      BeginKeepsInv(w, op.name, op.patient);
    } else if op.End? && CountOf(w.table.counts, op.name) > 0 {
      EndKeepsInv(w, op.name);
    } else {
      NothingKeepsInv(w, op);
    }
  }

  /**
   * Over any sequence of begins, failed begins, ends and unmatched ends, the
   * session total is the sum of the counts, the lock of a bucket is this
   * proxy's exactly while its count is positive, and each acquire is matched
   * by one release.
   */
  lemma {:induction false} LocksFollowSessions(w: World, ops: seq<Op>)
    requires Inv(w) && w.history.live + |ops| < TWO_64
    ensures Inv(After(w, ops))
    decreases |ops|
  {
    if ops != [] {
      StepKeepsInv(w, ops[0]);
      LocksFollowSessions(Next(w, ops[0]), ops[1..]);
    }
  }

  /** No other process, and so no collector, holds the lock of a bucket with an open session. */
  lemma NoCollectorOverlapsASession(ops: seq<Op>, name: string)
    requires |ops| < TWO_64
    ensures var w := After(START, ops);
      && (name in w.history.open ==> name in w.table.held && w.table.held[name].ThisProxy?)
      && (name in w.table.held && w.table.held[name].Other? ==> name !in w.history.open)
      && (w.history.open == multiset{} ==> w.table.counts == map[] && w.table.sessions == 0)
      && w.table.sessions == Total(w.table.counts)
  {
    assert Inv(START);
    LocksFollowSessions(START, ops);
  }

  ghost predicate HeldByOther(w: World, name: string) {
    name in w.table.held && w.table.held[name] == Other
  }

  lemma StepLeavesOthers(w: World, op: Op, name: string)
    requires Inv(w) && HeldByOther(w, name) && op != OtherReleases(name)
    ensures HeldByOther(Next(w, op), name)
  {
    assert name !in w.table.counts;
  }

  /** A lock that another process holds stays with it until that process gives it back, whatever this proxy does. */
  lemma {:induction false} OthersKeepTheirLocks(w: World, ops: seq<Op>, name: string)
    requires Inv(w) && w.history.live + |ops| < TWO_64
    requires HeldByOther(w, name) && OtherReleases(name) !in ops
    ensures HeldByOther(After(w, ops), name) && name !in After(w, ops).table.counts
    decreases |ops|
  {
    if ops == [] {
      assert name !in w.table.counts;
    } else {
      StepKeepsInv(w, ops[0]);
      StepLeavesOthers(w, ops[0], name);
      assert OtherReleases(name) !in ops[1..];
      OthersKeepTheirLocks(Next(w, ops[0]), ops[1..], name);
    }
  }

  /** A free lock is there for the first to ask, if it waits; and a session that is open can always be joined. */
  lemma FreeLocksAreGiven(w: World, name: string, patient: bool)
    requires Inv(w)
    ensures name !in w.table.held && patient ==>
      name in Next(w, Begin(name, patient)).table.counts && name in Next(w, OtherAcquires(name, patient)).table.held
    ensures name in w.table.counts ==>
      Next(w, Begin(name, patient)).history.open[name] == w.history.open[name] + 1
    ensures name in w.table.held && w.table.held[name] == Other ==>
      name !in Next(w, OtherReleases(name)).table.held && Next(w, Begin(name, patient)) == w
  {
    assert w.history.open + multiset{} == w.history.open && w.history.acquired + multiset{} == w.history.acquired;
  }
}
