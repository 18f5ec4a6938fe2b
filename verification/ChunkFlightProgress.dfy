/** Uploads always get on: no state is stuck, and no run goes on for ever. Draining is what it takes. */
module ChunkFlightProgress {
  import opened ChunkUpload
  import opened ChunkFlight
  import opened ChunkFlightSafety

  // ---------------------------------------------------------------- flow control

  /** A request that waits for another, or is over, holds no part of the window. */
  predicate Orderly(r: Request) {
    && (r.phase.Waiting? || r.phase.Replied? ==> r.unsent == 0 && r.unread == 0)
    && (r.phase.Arrived? || (r.phase.Leading? && r.phase.stage.CheckingFirst?) ==> r.read == 0)
    && (r.phase.Leading? && r.phase.stage.Streaming? ==> r.read <= r.expected)
  }

  ghost predicate FlowInv(s: State) {
    forall i :: 0 <= i < |s.requests| ==> Orderly(s.requests[i])
  }

  lemma StepKeepsFlow(c: Config, s: State, step: Step)
    requires c.drains && FlowInv(s) && Enabled(c, s, step)
    ensures FlowInv(Apply(c, s, step))
  {
    var t := Apply(c, s, step);
    assert Orderly(s.requests[step.id]);
    forall i | 0 <= i < |t.requests| ensures Orderly(t.requests[i]) {
      assert Orderly(s.requests[i]);
    }
  }

  lemma {:induction false} UnreadSomewhere(requests: seq<Request>, conn: nat) returns (i: nat)
    requires Unread(requests, conn) > 0
    ensures i < |requests| && requests[i].conn == conn && requests[i].unread > 0
  {
    var n := |requests| - 1;
    if requests[n].conn == conn && requests[n].unread > 0 {
      i := n;
    } else {
      i := UnreadSomewhere(requests[..n], conn);
    }
  }

  /** A step that needs no fault and can be taken now. */
  ghost predicate CanMove(c: Config, s: State) {
    exists step :: Enabled(c, s, step) && !IsFault(step)
  }

  /** A request that has bytes to read, or waits for the store or for nobody, can move. */
  lemma MovesAlone(c: Config, s: State, i: nat)
    requires Inv(s) && FlowInv(s) && i < |s.requests|
    requires s.requests[i].unread > 0 || !Consumes(s.requests[i]) || s.requests[i].unsent == 0
    requires !s.requests[i].phase.Replied? && !s.requests[i].phase.Waiting?
    ensures CanMove(c, s)
  {
    var r := s.requests[i];
    assert LeaderInv(s, i) && Orderly(r);
    if Consumes(r) {
      if r.unread > 0 {
        assert Enabled(c, s, Read(i));
      } else {
        assert Enabled(c, s, EndOfBody(i));
      }
    } else if r.phase.Arrived? {
      assert Enabled(c, s, Enter(i));
    } else if r.phase.stage.Checking? || r.phase.stage.CheckingFirst? {
      assert Enabled(c, s, Check(i, false));
    } else if r.phase.stage.Returning? {
      assert Enabled(c, s, Return(i));
    } else {
      assert r.phase.stage.Uploading? || r.phase.stage.Streaming?;
      if r.phase.stage.Uploading? || r.read == r.expected {
        assert Enabled(c, s, Put(i, Stored));
      }
    }
  }

  /** One that is starved for bytes can get one, unless others of its connection hold the whole window. */
  lemma MovesOrOthersDo(c: Config, s: State, i: nat)
    requires Inv(s) && FlowInv(s) && c.window > 0 && i < |s.requests|
    requires !s.requests[i].phase.Replied? && !s.requests[i].phase.Waiting?
    ensures CanMove(c, s)
  {
    var r := s.requests[i];
    if r.unread > 0 || !Consumes(r) || r.unsent == 0 {
      MovesAlone(c, s, i);
    } else if Unread(s.requests, r.conn) < c.window {
      assert Enabled(c, s, Send(i));
    } else {
      var j := UnreadSomewhere(s.requests, r.conn);
      assert Orderly(s.requests[j]);
      MovesAlone(c, s, j);
    }
  }

  /** Leaders wait for no other request, and followers only for leaders that can move. */
  lemma NeverStuck(c: Config, s: State, i: nat)
    requires Inv(s) && FlowInv(s) && c.window > 0 && i < |s.requests| && !s.requests[i].phase.Replied?
    ensures CanMove(c, s)
  {
    var r := s.requests[i];
    if r.phase.Waiting? {
      assert FollowerInv(s, i) && FlightInv(s, r.phase.flight);
      if s.group.flights[r.phase.flight].status.Finished? {
        assert Enabled(c, s, Wake(i));
      } else {
        MovesOrOthersDo(c, s, s.group.flights[r.phase.flight].leader);
      }
    } else {
      MovesOrOthersDo(c, s, i);
    }
  }

  // ----------------------------------------------------------------- termination

  function StageRank(stage: Stage): nat {
    match stage
    case Reading => 8
    case Checking => 7
    case Uploading => 6
    case CheckingFirst => 8
    case DrainingKnown => 7
    case Streaming => 7
    case Trailing => 6
    case Returning(_, _) => 5
  }

  /** What is left to do for one request: its stages, and two moves for every byte. */
  function Weight(r: Request): nat {
    2 * r.unsent + r.unread +
    match r.phase
    case Arrived => 9
    case Leading(_, stage) => StageRank(stage)
    case Draining(_) => 4
    case Waiting(_) => 1
    case Replied(_, _) => 0
  }

  function Total(requests: seq<Request>): nat {
    if requests == [] then 0
    else Total(requests[..|requests| - 1]) + Weight(requests[|requests| - 1])
  }

  lemma {:induction false} TotalUpdate(requests: seq<Request>, i: nat, r: Request)
    requires i < |requests|
    ensures Total(requests[i := r]) + Weight(requests[i]) == Total(requests) + Weight(r)
  {
    var n := |requests| - 1;
    var after := requests[i := r];
    if i < n {
      TotalUpdate(requests[..n], i, r);
      assert after[..n] == requests[..n][i := r];
    } else {
      assert after[..n] == requests[..n];
    }
  }

  /** Every step, faults included, leaves less to do. */
  lemma StepsCount(c: Config, s: State, step: Step)
    requires Enabled(c, s, step)
    ensures Total(Apply(c, s, step).requests) < Total(s.requests)
  {
    var r := Apply(c, s, step).requests[step.id];
    assert Apply(c, s, step).requests == s.requests[step.id := r];
    TotalUpdate(s.requests, step.id, r);
  }

  /** So every run is at most as long as the work there was. */
  lemma {:induction false} EveryRunEnds(c: Config, s: State, steps: seq<Step>)
    requires Runs(c, s, steps)
    ensures |steps| + Total(Exec(c, s, steps).requests) <= Total(s.requests)
    decreases |steps|
  {
    if steps != [] {
      StepsCount(c, s, steps[0]);
      EveryRunEnds(c, Apply(c, s, steps[0]), steps[1..]);
    }
  }

  lemma {:induction false} RunKeepsFlow(c: Config, s: State, steps: seq<Step>)
    requires c.drains && FlowInv(s) && Runs(c, s, steps)
    ensures FlowInv(Exec(c, s, steps))
    decreases |steps|
  {
    if steps != [] {
      StepKeepsFlow(c, s, steps[0]);
      RunKeepsFlow(c, Apply(c, s, steps[0]), steps[1..]);
    }
  }

  /** A reachable state with a request to answer and no move but a fault. */
  ghost predicate CanDeadlock(c: Config) {
    exists s, steps :: Initial(s) && Runs(c, s, steps) && !AllReplied(Exec(c, s, steps)) &&
      !CanMove(c, Exec(c, s, steps))
  }

  /** Runs of draining followers end only when everybody is answered. */
  lemma DrainingNeverDeadlocks(c: Config)
    requires c.drains && c.window > 0
    ensures !CanDeadlock(c)
  {
    forall s, steps | Initial(s) && Runs(c, s, steps) && !AllReplied(Exec(c, s, steps))
      ensures CanMove(c, Exec(c, s, steps))
    {
      var t := Exec(c, s, steps);
      InitialInv(s);
      RunKeepsInv(c, s, steps);
      RunKeepsFlow(c, s, steps);
      var i :| 0 <= i < |t.requests| && !t.requests[i].phase.Replied?;
      NeverStuck(c, t, i);
    }
  }

  // ------------------------------------------------- what draining is there for

  /** A leader with one byte to come, and a duplicate that fills the window without reading it. */
  function Pair(window: nat): State
    requires window > 0
  {
    State([Request("k", 0, 1, 1, 0, 0, Arrived), Request("k", 0, window, window, 0, 0, Arrived)],
          Group(map[], map[], 0), {}, multiset{}, multiset{}, true)
  }

  /** The duplicate waits; n of its bytes have arrived. */
  function PairStuck(window: nat, n: nat): State
    requires n <= window
  {
    State([Request("k", 0, 1, 1, 0, 0, Leading(0, Reading)), Request("k", 0, window, window - n, n, 0, Waiting(0))],
          Group(map["k" := 0], map[0 := Flight("k", 0, Pending)], 1), {}, multiset{}, multiset{}, true)
  }

  lemma PairUnread(window: nat, n: nat)
    requires n <= window
    ensures Unread(PairStuck(window, n).requests, 0) == n
  {
    var rs := PairStuck(window, n).requests;
    assert rs[..1] == [rs[0]];
    assert [rs[0]][..0] == [];
    assert Unread([rs[0]], 0) == 0;
  }

  ghost predicate Reached(c: Config, s: State, t: State) {
    exists steps :: Runs(c, s, steps) && Exec(c, s, steps) == t
  }

  lemma {:induction false} RunsFurther(c: Config, s: State, steps: seq<Step>, step: Step)
    requires Runs(c, s, steps) && Enabled(c, Exec(c, s, steps), step)
    ensures Runs(c, s, steps + [step]) && Exec(c, s, steps + [step]) == Apply(c, Exec(c, s, steps), step)
    decreases |steps|
  {
    if steps == [] {
      assert steps + [step] == [step];
      assert [step][1..] == [];
    } else {
      RunsFurther(c, Apply(c, s, steps[0]), steps[1..], step);
      assert (steps + [step])[1..] == steps[1..] + [step];
    }
  }

  lemma ReachedNext(c: Config, s: State, t: State, step: Step)
    requires Reached(c, s, t) && Enabled(c, t, step)
    ensures Reached(c, s, Apply(c, t, step))
  {
    var steps :| Runs(c, s, steps) && Exec(c, s, steps) == t;
    RunsFurther(c, s, steps, step);
  }

  lemma PairEnters(c: Config)
    requires !c.drains && c.window > 0
    ensures Reached(c, Pair(c.window), PairStuck(c.window, 0))
  {
    var s := Pair(c.window);
    assert Runs(c, s, []) && Exec(c, s, []) == s;
    ReachedNext(c, s, s, Enter(0));
    var t := Apply(c, s, Enter(0));
    ReachedNext(c, s, t, Enter(1));
    assert Apply(c, t, Enter(1)) == PairStuck(c.window, 0);
  }

  lemma ByteArrives(c: Config, n: nat)
    requires c.window > 0 && 0 < n <= c.window
    ensures Enabled(c, PairStuck(c.window, n - 1), Send(1))
    ensures Apply(c, PairStuck(c.window, n - 1), Send(1)) == PairStuck(c.window, n)
  {
    PairUnread(c.window, n - 1);
  }

  lemma {:induction false} WindowFills(c: Config, s: State, n: nat)
    requires !c.drains && c.window > 0 && s == Pair(c.window) && n <= c.window
    ensures Reached(c, s, PairStuck(c.window, n))
    decreases n
  {
    if n == 0 {
      PairEnters(c);
    } else {
      WindowFills(c, s, n - 1);
      ByteArrives(c, n);
      ReachedNext(c, s, PairStuck(c.window, n - 1), Send(1));
    }
  }

  lemma PairCannotMove(c: Config)
    requires c.window > 0
    ensures !CanMove(c, PairStuck(c.window, c.window))
  {
    PairUnread(c.window, c.window);
    forall step | Enabled(c, PairStuck(c.window, c.window), step) ensures IsFault(step) {
      assert step.id == 0 || step.id == 1;
    }
  }

  /** A duplicate that waits with its body unread keeps the leader's body from arriving. */
  lemma UndrainedDeadlocks(c: Config)
    requires !c.drains && c.window > 0
    ensures CanDeadlock(c)
  {
    var s, t := Pair(c.window), PairStuck(c.window, c.window);
    WindowFills(c, s, c.window);
    var steps :| Runs(c, s, steps) && Exec(c, s, steps) == t;
    PairUnread(c.window, c.window);
    PairCannotMove(c);
    assert !t.requests[0].phase.Replied?;
  }

  /** On a shared window, whatever its size, uploads can deadlock exactly when followers do not drain. */
  lemma DeadlockIffUndrained(c: Config)
    requires c.window > 0
    ensures CanDeadlock(c) <==> !c.drains
  {
    if c.drains {
      DrainingNeverDeadlocks(c);
    } else {
      UndrainedDeadlocks(c);
    }
  }
}
