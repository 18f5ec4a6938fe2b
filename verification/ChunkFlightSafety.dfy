/** Every interleaving of chunk uploads: one flight at a time, and no false success. */
module ChunkFlightSafety {
  import opened ChunkFlight

  // ---------------------------------------------------------------- invariant

  predicate IsStored(stage: Stage) {
    stage.DrainingKnown? || stage.Trailing? || (stage.Returning? && stage.ok)
  }

  /** A leader owns the flight its key is mapped to. */
  predicate LeaderInv(s: State, i: nat)
    requires i < |s.requests|
  {
    var r := s.requests[i];
    r.phase.Leading? ==>
      && r.phase.flight in s.group.flights && s.group.flights[r.phase.flight] == Flight(r.key, i, Pending)
      && r.key in s.group.calls && s.group.calls[r.key] == r.phase.flight
      && (IsStored(r.phase.stage) ==> r.key in s.stored)
      && (r.phase.stage.Uploading? || r.phase.stage.Streaming? ==> r.key !in s.stored)
  }

  predicate FollowerInv(s: State, i: nat)
    requires i < |s.requests|
  {
    var r := s.requests[i];
    && (r.phase.Draining? || r.phase.Waiting? ==>
          r.phase.flight in s.group.flights && s.group.flights[r.phase.flight].key == r.key)
    && (r.phase.Replied? && r.phase.ok ==> r.key in s.stored)
  }

  /** A pending flight has a leader at work; a finished one without an error has stored its chunk. */
  predicate FlightInv(s: State, f: nat)
    requires f in s.group.flights
  {
    var flight := s.group.flights[f];
    && f < s.group.next
    && (flight.status.Pending? ==>
          flight.leader < |s.requests| && s.requests[flight.leader].phase.Leading? &&
          s.requests[flight.leader].phase.flight == f)
    && (flight.status.Finished? && flight.status.ok ==> flight.key in s.stored)
  }

  /** Only flights in progress are in the map. */
  predicate CallInv(s: State, key: string)
    requires key in s.group.calls
  {
    var f := s.group.calls[key];
    f in s.group.flights && s.group.flights[f].key == key && s.group.flights[f].status.Pending?
  }

  ghost predicate Inv(s: State) {
    && (forall i :: 0 <= i < |s.requests| ==> LeaderInv(s, i))
    && (forall i :: 0 <= i < |s.requests| ==> FollowerInv(s, i))
    && (forall f :: f in s.group.flights ==> FlightInv(s, f))
    && (forall key :: key in s.group.calls ==> CallInv(s, key))
  }

  lemma InitialInv(s: State)
    requires Initial(s)
    ensures Inv(s)
  {
  }

  lemma EnterKeepsInv(c: Config, s: State, id: nat)
    requires Inv(s) && Enabled(c, s, Enter(id))
    ensures Inv(Apply(c, s, Enter(id)))
  {
    var t := Apply(c, s, Enter(id));
    forall i | 0 <= i < |t.requests| ensures LeaderInv(t, i) && FollowerInv(t, i) {
      assert LeaderInv(s, i) && FollowerInv(s, i);
    }
    forall f | f in t.group.flights ensures FlightInv(t, f) {
      assert f in s.group.flights ==> FlightInv(s, f);
    }
    forall key | key in t.group.calls ensures CallInv(t, key) {
      assert key in s.group.calls ==> CallInv(s, key) && FlightInv(s, s.group.calls[key]);
    }
  }

  lemma ReturnKeepsInv(c: Config, s: State, id: nat)
    requires Inv(s) && Enabled(c, s, Return(id))
    ensures Inv(Apply(c, s, Return(id)))
  {
    var t := Apply(c, s, Return(id));
    assert LeaderInv(s, id);
    forall i | 0 <= i < |t.requests| ensures LeaderInv(t, i) && FollowerInv(t, i) {
      assert LeaderInv(s, i) && FollowerInv(s, i);
    }
    forall f | f in t.group.flights ensures FlightInv(t, f) {
      assert FlightInv(s, f);
    }
    forall key | key in t.group.calls ensures CallInv(t, key) {
      assert CallInv(s, key);
    }
  }

  /** Two leaders of one key would own the same flight, and so be the same request. */
  lemma OneLeaderPerKey(s: State, i: nat, j: nat)
    requires Inv(s) && i < |s.requests| && j < |s.requests|
    requires s.requests[i].phase.Leading? && s.requests[j].phase.Leading? && s.requests[i].key == s.requests[j].key
    ensures i == j
  {
    assert LeaderInv(s, i) && LeaderInv(s, j);
  }

  /** A step that changes one request, and at most adds its chunk to the store. */
  lemma LocalKeepsInv(s: State, t: State, id: nat)
    requires Inv(s) && id < |s.requests| && |t.requests| == |s.requests|
    requires forall i :: 0 <= i < |s.requests| && i != id ==> t.requests[i] == s.requests[i]
    requires t.group == s.group && t.requests[id].key == s.requests[id].key
    requires s.stored <= t.stored <= s.stored + {s.requests[id].key}
    requires t.stored != s.stored ==> s.requests[id].phase.Leading?
    requires t.requests[id].phase.Leading? <==> s.requests[id].phase.Leading?
    requires t.requests[id].phase.Leading? ==> t.requests[id].phase.flight == s.requests[id].phase.flight
    requires LeaderInv(t, id) && FollowerInv(t, id)
    ensures Inv(t)
  {
    forall i | 0 <= i < |t.requests| ensures LeaderInv(t, i) && FollowerInv(t, i) {
      assert LeaderInv(s, i) && FollowerInv(s, i);
      if i != id && s.requests[i].phase.Leading? && s.requests[id].phase.Leading? &&
        s.requests[i].key == s.requests[id].key {
        OneLeaderPerKey(s, i, id);
      }
    }
    forall f | f in t.group.flights ensures FlightInv(t, f) {
      assert FlightInv(s, f);
    }
    forall key | key in t.group.calls ensures CallInv(t, key) {
      assert CallInv(s, key);
    }
  }

  lemma StepKeepsInv(c: Config, s: State, step: Step)
    requires Inv(s) && Enabled(c, s, step)
    ensures Inv(Apply(c, s, step))
  {
    assert LeaderInv(s, step.id) && FollowerInv(s, step.id);
    match step
    case Enter(id) => EnterKeepsInv(c, s, id);
    case Return(id) => ReturnKeepsInv(c, s, id);
    case Wake(id) =>
      assert FlightInv(s, s.requests[id].phase.flight);
      LocalKeepsInv(s, Apply(c, s, step), id);
    case _ => LocalKeepsInv(s, Apply(c, s, step), step.id);
  }

  lemma {:induction false} RunKeepsInv(c: Config, s: State, steps: seq<Step>)
    requires Inv(s) && Runs(c, s, steps)
    ensures Inv(Exec(c, s, steps))
    decreases |steps|
  {
    if steps != [] {
      StepKeepsInv(c, s, steps[0]);
      RunKeepsInv(c, Apply(c, s, steps[0]), steps[1..]);
    }
  }

  /**
   * Flights of one chunk never overlap; every request answered without an
   * error, leader or follower, finds its chunk stored; and a flight that is
   * over, failed or panicked, has left no entry in the map.
   */
  lemma EveryRunIsSafe(c: Config, s: State, steps: seq<Step>)
    requires Initial(s) && Runs(c, s, steps)
    ensures var t := Exec(c, s, steps);
      && (forall i, j :: 0 <= i < j < |t.requests| && t.requests[i].phase.Leading? && t.requests[j].phase.Leading? ==>
            t.requests[i].key != t.requests[j].key)
      && (forall i :: 0 <= i < |t.requests| && t.requests[i].phase.Replied? && t.requests[i].phase.ok ==>
            t.requests[i].key in t.stored)
      && (forall key :: key in t.group.calls ==>
            exists i :: 0 <= i < |t.requests| && t.requests[i].phase.Leading? && t.requests[i].key == key)
  {
    InitialInv(s);
    RunKeepsInv(c, s, steps);
    var t := Exec(c, s, steps);
    forall i, j | 0 <= i < j < |t.requests| && t.requests[i].phase.Leading? && t.requests[j].phase.Leading?
      ensures t.requests[i].key != t.requests[j].key
    {
      if t.requests[i].key == t.requests[j].key {
        OneLeaderPerKey(t, i, j);
      }
    }
    forall i | 0 <= i < |t.requests| && t.requests[i].phase.Replied? && t.requests[i].phase.ok
      ensures t.requests[i].key in t.stored
    {
      assert FollowerInv(t, i);
    }
    forall key | key in t.group.calls
      ensures exists i :: 0 <= i < |t.requests| && t.requests[i].phase.Leading? && t.requests[i].key == key
    {
      assert CallInv(t, key) && FlightInv(t, t.group.calls[key]);
      var i := t.group.flights[t.group.calls[key]].leader;
      assert LeaderInv(t, i);
    }
  }

  // -------------------------------------------------------------- exactly once

  /** A leader that has uploaded its chunk and has not replied yet. */
  predicate HasUploaded(r: Request) {
    r.phase.Leading? && (r.phase.stage.Trailing? || r.phase.stage == Returning(true, false))
  }

  predicate Owes(s: State, key: string) {
    key in s.group.calls && s.group.calls[key] in s.group.flights &&
    var i := s.group.flights[s.group.calls[key]].leader;
    i < |s.requests| && s.requests[i].key == key && HasUploaded(s.requests[i])
  }

  predicate CleanRequest(r: Request) {
    && (r.phase.Leading? && r.phase.stage.Returning? ==> r.phase.stage.ok)
    && (r.phase.Replied? ==> r.phase.ok)
  }

  predicate CountsMatch(s: State, before: set<string>, key: string) {
    && s.puts[key] == (if key in s.stored && key !in before then 1 else 0)
    && s.puts[key] == s.created[key] + (if Owes(s, key) then 1 else 0)
  }

  predicate CleanFlight(s: State, f: nat)
    requires f in s.group.flights
  {
    s.group.flights[f].status.Finished? ==> s.group.flights[f].status.ok
  }

  /** As long as nothing fails: one PUT per chunk that was not there, and one reply that says so. */
  ghost predicate OnceInv(s: State, before: set<string>) {
    && before <= s.stored
    && (s.clean ==>
          && (forall key :: CountsMatch(s, before, key))
          && (forall i :: 0 <= i < |s.requests| ==> CleanRequest(s.requests[i]))
          && (forall f :: f in s.group.flights ==> CleanFlight(s, f)))
  }

  /** Whether a leader owes its reply is visible on the leader alone. */
  lemma LeaderOwes(s: State, i: nat)
    requires Inv(s) && i < |s.requests| && s.requests[i].phase.Leading?
    ensures Owes(s, s.requests[i].key) <==> HasUploaded(s.requests[i])
  {
    assert LeaderInv(s, i);
  }

  /** A step within one request changes what is owed for its chunk only. */
  lemma LocalOwes(s: State, t: State, id: nat, key: string)
    requires Inv(s) && id < |s.requests| && |t.requests| == |s.requests| && t.group == s.group
    requires forall i :: 0 <= i < |s.requests| && i != id ==> t.requests[i] == s.requests[i]
    requires t.requests[id].key == s.requests[id].key
    requires t.requests[id].phase.Leading? <==> s.requests[id].phase.Leading?
    requires key != s.requests[id].key || !s.requests[id].phase.Leading?
    ensures Owes(t, key) <==> Owes(s, key)
  {
  }

  lemma LocalCounts(s: State, t: State, id: nat, before: set<string>, key: string)
    requires Inv(s) && Inv(t) && CountsMatch(s, before, key) && before <= s.stored
    requires id < |s.requests| && |t.requests| == |s.requests| && t.group == s.group
    requires forall i :: 0 <= i < |s.requests| && i != id ==> t.requests[i] == s.requests[i]
    requires t.requests[id].key == s.requests[id].key && t.created == s.created
    requires t.requests[id].phase.Leading? <==> s.requests[id].phase.Leading?
    requires var r, r' := s.requests[id], t.requests[id];
      if t.stored == s.stored then t.puts == s.puts && (HasUploaded(r) <==> HasUploaded(r'))
      else && r.phase.Leading? && r.key !in s.stored && !HasUploaded(r) && HasUploaded(r')
           && t.stored == s.stored + {r.key} && t.puts == s.puts + multiset{r.key}
    ensures CountsMatch(t, before, key)
  {
    var r := s.requests[id];
    if key == r.key && r.phase.Leading? {
      LeaderOwes(s, id);
      LeaderOwes(t, id);
    } else {
      LocalOwes(s, t, id, key);
    }
  }

  lemma LocalKeepsOnce(c: Config, s: State, step: Step, before: set<string>)
    requires Inv(s) && OnceInv(s, before) && Enabled(c, s, step) && !step.Enter? && !step.Return?
    ensures OnceInv(Apply(c, s, step), before)
  {
    var t := Apply(c, s, step);
    StepKeepsInv(c, s, step);
    if t.clean {
      assert LeaderInv(s, step.id) && FollowerInv(s, step.id) && CleanRequest(s.requests[step.id]);
      assert step.Wake? ==> CleanFlight(s, s.requests[step.id].phase.flight);
      forall key ensures CountsMatch(t, before, key) {
        assert CountsMatch(s, before, key);
        LocalCounts(s, t, step.id, before, key);
      }
      forall i | 0 <= i < |t.requests| ensures CleanRequest(t.requests[i]) {
        assert CleanRequest(s.requests[i]);
      }
      forall f | f in t.group.flights ensures CleanFlight(t, f) {
        assert CleanFlight(s, f);
      }
    }
  }

  lemma EnterKeepsOnce(c: Config, s: State, id: nat, before: set<string>)
    requires Inv(s) && OnceInv(s, before) && Enabled(c, s, Enter(id))
    ensures OnceInv(Apply(c, s, Enter(id)), before)
  {
    var t := Apply(c, s, Enter(id));
    EnterKeepsInv(c, s, id);
    if t.clean {
      forall key ensures CountsMatch(t, before, key) {
        assert CountsMatch(s, before, key);
        if key in s.group.calls {
          assert CallInv(s, key) && FlightInv(s, s.group.calls[key]);
        }
        assert Owes(t, key) <==> Owes(s, key);
      }
      forall f | f in t.group.flights ensures CleanFlight(t, f) {
        assert f in s.group.flights ==> CleanFlight(s, f);
      }
    }
  }

  lemma ReturnKeepsOnce(c: Config, s: State, id: nat, before: set<string>)
    requires Inv(s) && OnceInv(s, before) && Enabled(c, s, Return(id))
    ensures OnceInv(Apply(c, s, Return(id)), before)
  {
    var t := Apply(c, s, Return(id));
    var r := s.requests[id];
    ReturnKeepsInv(c, s, id);
    if t.clean {
      assert LeaderInv(s, id) && CleanRequest(r);
      forall key ensures CountsMatch(t, before, key) {
        assert CountsMatch(s, before, key);
        if key == r.key {
          LeaderOwes(s, id);
        } else if key in s.group.calls {
          assert CallInv(s, key) && FlightInv(s, s.group.calls[key]);
          assert Owes(t, key) <==> Owes(s, key);
        }
      }
      forall f | f in t.group.flights ensures CleanFlight(t, f) {
        assert CleanFlight(s, f);
      }
    }
  }

  lemma {:induction false} RunKeepsOnce(c: Config, s: State, steps: seq<Step>, before: set<string>)
    requires Inv(s) && OnceInv(s, before) && Runs(c, s, steps)
    ensures OnceInv(Exec(c, s, steps), before)
    decreases |steps|
  {
    if steps != [] {
      StepKeepsInv(c, s, steps[0]);
      match steps[0] {
        case Enter(id) => EnterKeepsOnce(c, s, id, before);
        case Return(id) => ReturnKeepsOnce(c, s, id, before);
        case _ => LocalKeepsOnce(c, s, steps[0], before);
      }
      RunKeepsOnce(c, Apply(c, s, steps[0]), steps[1..], before);
    }
  }

  // ------------------------------------------------------- counting the replies

  predicate SaysNew(r: Request, key: string) {
    r.key == key && r.phase == Replied(true, false)
  }

  /** How many requests were told that the chunk was new. */
  function NewReplies(requests: seq<Request>, key: string): nat {
    if requests == [] then 0
    else
      NewReplies(requests[..|requests| - 1], key) + (if SaysNew(requests[|requests| - 1], key) then 1 else 0)
  }

  lemma {:induction false} NewRepliesUpdate(requests: seq<Request>, i: nat, r: Request, key: string)
    requires i < |requests|
    ensures NewReplies(requests[i := r], key) + (if SaysNew(requests[i], key) then 1 else 0) ==
      NewReplies(requests, key) + (if SaysNew(r, key) then 1 else 0)
  {
    var n := |requests| - 1;
    var after := requests[i := r];
    if i < n {
      NewRepliesUpdate(requests[..n], i, r, key);
      assert after[..n] == requests[..n][i := r];
    } else {
      assert after[..n] == requests[..n];
    }
  }

  lemma {:induction false} NoRepliesYet(requests: seq<Request>, key: string)
    requires forall i :: 0 <= i < |requests| ==> requests[i].phase.Arrived?
    ensures NewReplies(requests, key) == 0
  {
    if requests != [] {
      NoRepliesYet(requests[..|requests| - 1], key);
    }
  }

  lemma StepCountsReplies(c: Config, s: State, step: Step, key: string)
    requires Enabled(c, s, step) && s.created[key] == NewReplies(s.requests, key)
    ensures Apply(c, s, step).created[key] == NewReplies(Apply(c, s, step).requests, key)
  {
    var r := Apply(c, s, step).requests[step.id];
    assert Apply(c, s, step).requests == s.requests[step.id := r];
    NewRepliesUpdate(s.requests, step.id, r, key);
  }

  lemma {:induction false} RunCountsReplies(c: Config, s: State, steps: seq<Step>, key: string)
    requires Runs(c, s, steps) && s.created[key] == NewReplies(s.requests, key)
    ensures Exec(c, s, steps).created[key] == NewReplies(Exec(c, s, steps).requests, key)
    decreases |steps|
  {
    if steps != [] {
      StepCountsReplies(c, s, steps[0], key);
      RunCountsReplies(c, Apply(c, s, steps[0]), steps[1..], key);
    }
  }

  predicate AllReplied(s: State) {
    forall i :: 0 <= i < |s.requests| ==> s.requests[i].phase.Replied?
  }

  /**
   * When nothing fails, however many requests for a chunk run side by side: a
   * chunk that was not there is uploaded exactly once and reported as new
   * exactly once; one that was there is never uploaded. No reply is an error.
   */
  lemma ExactlyOnce(c: Config, s: State, steps: seq<Step>, i: nat)
    requires Initial(s) && Runs(c, s, steps) && AllReplied(Exec(c, s, steps)) && Exec(c, s, steps).clean
    requires i < |Exec(c, s, steps).requests|
    ensures var t := Exec(c, s, steps);
      var key := t.requests[i].key;
      && t.requests[i].phase.ok
      && t.puts[key] == NewReplies(t.requests, key) == (if key in s.stored then 0 else 1)
  {
    InitialInv(s);
    assert OnceInv(s, s.stored) by {
      forall key ensures CountsMatch(s, s.stored, key) {
      }
    }
    RunKeepsInv(c, s, steps);
    RunKeepsOnce(c, s, steps, s.stored);
    var t := Exec(c, s, steps);
    var key := t.requests[i].key;
    assert CleanRequest(t.requests[i]) && FollowerInv(t, i) && CountsMatch(t, s.stored, key);
    assert !Owes(t, key);
    NoRepliesYet(s.requests, key);
    RunCountsReplies(c, s, steps, key);
  }

  // ------------------------------------------------------------- whole bodies

  /** Past the end of its body a request has read what was announced, or it has failed. */
  predicate ReadWhole(r: Request) {
    && (r.phase.Leading? && (r.phase.stage.Checking? || r.phase.stage.Uploading?) ==> r.read == r.expected)
    && (r.phase.Leading? && r.phase.stage.Returning? && r.phase.stage.ok ==> r.read == r.expected)
    && (r.phase.Waiting? ==> r.read == r.expected)
    && (r.phase.Replied? && r.phase.ok ==> r.read == r.expected)
  }

  ghost predicate AllReadWhole(s: State) {
    forall i :: 0 <= i < |s.requests| ==> ReadWhole(s.requests[i])
  }

  lemma StepReadsWhole(c: Config, s: State, step: Step)
    requires c.drains && Enabled(c, s, step) && AllReadWhole(s)
    ensures AllReadWhole(Apply(c, s, step))
  {
    var t := Apply(c, s, step);
    assert ReadWhole(s.requests[step.id]);
    assert ReadWhole(t.requests[step.id]);
    forall i | 0 <= i < |t.requests| ensures ReadWhole(t.requests[i]) {
      assert ReadWhole(s.requests[i]);
    }
  }

  lemma {:induction false} RunReadsWhole(c: Config, s: State, steps: seq<Step>)
    requires c.drains && Runs(c, s, steps) && AllReadWhole(s)
    ensures AllReadWhole(Exec(c, s, steps))
    decreases |steps|
  {
    if steps != [] {
      StepReadsWhole(c, s, steps[0]);
      RunReadsWhole(c, Apply(c, s, steps[0]), steps[1..]);
    }
  }

  /** Nobody, leader or follower, is answered without an error before its body was read to the announced length. */
  lemma SuccessMeansWholeBody(c: Config, s: State, steps: seq<Step>, i: nat)
    requires c.drains && Initial(s) && Runs(c, s, steps) && i < |Exec(c, s, steps).requests|
    requires Exec(c, s, steps).requests[i].phase.Replied? && Exec(c, s, steps).requests[i].phase.ok
    ensures Exec(c, s, steps).requests[i].read == Exec(c, s, steps).requests[i].expected
  {
    RunReadsWhole(c, s, steps);
    assert ReadWhole(Exec(c, s, steps).requests[i]);
  }

  // ------------------------------------------------------------ faults are told

  /** The request will be answered with an error, or has been. */
  predicate Failed(r: Request) {
    (r.phase.Leading? && r.phase.stage.Returning? && !r.phase.stage.ok) || (r.phase.Replied? && !r.phase.ok)
  }

  /** The step is a failed stat or PUT, a broken body, a panic or a client that goes away, and it hits this request. */
  predicate Fails(step: Step, id: nat) {
    step.id == id &&
    (step.Panic? || step.Cancel? || step.BodyBreaks? || (step.Check? && step.fails) ||
     (step.Put? && !step.outcome.Stored?))
  }

  lemma FaultFails(c: Config, s: State, step: Step)
    requires Enabled(c, s, step) && Fails(step, step.id)
    ensures Failed(Apply(c, s, step).requests[step.id])
  {
  }

  lemma {:induction false} FailedStays(c: Config, s: State, steps: seq<Step>, id: nat)
    requires Runs(c, s, steps) && id < |s.requests| && Failed(s.requests[id])
    ensures id < |Exec(c, s, steps).requests| && Failed(Exec(c, s, steps).requests[id])
    decreases |steps|
  {
    if steps != [] {
      StepKeepsFailed(c, s, steps[0], id);
      FailedStays(c, Apply(c, s, steps[0]), steps[1..], id);
    }
  }

  lemma StepKeepsFailed(c: Config, s: State, step: Step, id: nat)
    requires Enabled(c, s, step) && id < |s.requests| && Failed(s.requests[id])
    ensures id < |Apply(c, s, step).requests| && Failed(Apply(c, s, step).requests[id])
  {
    if step.id == id {
      assert step.Return? || step.Send?;
    }
  }

  /**
   * No fault is passed over. A request whose stat or PUT reports an error,
   * even one that took effect, whose body breaks, whose handler panics or
   * whose client goes away, is never answered without an error.
   */
  lemma FaultsAreTold(c: Config, s: State, step: Step, steps: seq<Step>)
    requires Enabled(c, s, step) && Fails(step, step.id) && Runs(c, Apply(c, s, step), steps)
    ensures step.id < |Exec(c, Apply(c, s, step), steps).requests|
    ensures var phase := Exec(c, Apply(c, s, step), steps).requests[step.id].phase;
      phase.Replied? ==> !phase.ok
  {
    FaultFails(c, s, step);
    FailedStays(c, Apply(c, s, step), steps, step.id);
  }
}
