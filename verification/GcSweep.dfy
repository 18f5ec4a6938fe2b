/** The collector's sweep: three rounds of deletes, each of which may fail in part. */
module GcSweep {
  import opened Wrappers
  import opened Snapshots
  import opened GcPlan
  import opened Datastore
  import opened DatastoreSafety
  import opened DatastoreRuns

  /** What became of one delete request. Only `Removed` is reported without an error. */
  datatype Outcome = Removed | Refused | RemovedUnreported

  datatype Outcomes = Outcomes(backups: seq<Outcome>, indexed: seq<Outcome>, chunks: seq<Outcome>)

  predicate Answers(o: Outcomes, plan: Plan) {
    |o.backups| == |plan.backupObjects| && |o.indexed| == |plan.indexedObjects| && |o.chunks| == |plan.chunkObjects|
  }

  predicate AllRemoved(outcomes: seq<Outcome>) {
    forall i :: 0 <= i < |outcomes| ==> outcomes[i].Removed?
  }

  /** The bucket after one round. */
  function AfterDeletes(b: Bucket, stage: nat, objects: seq<ObjectInfo>, outcomes: seq<Outcome>): Bucket
    requires |outcomes| == |objects|
  {
    if objects == [] then b
    else
      var n := |objects| - 1;
      var before := AfterDeletes(b, stage, objects[..n], outcomes[..n]);
      if outcomes[n].Refused? then before else Remove(before, stage, objects[n].key)
  }

  datatype SweepResult = SweepResult(bucket: Bucket, failedStage: Option<nat>)

  /** No round starts unless every delete of the rounds before it was reported done. */
  function Sweep(b: Bucket, plan: Plan, o: Outcomes): SweepResult
    requires Answers(o, plan)
  {
    var b1 := AfterDeletes(b, 1, plan.backupObjects, o.backups);
    if !AllRemoved(o.backups) then SweepResult(b1, Some(1))
    else
      var b2 := AfterDeletes(b1, 2, plan.indexedObjects, o.indexed);
      if !AllRemoved(o.indexed) then SweepResult(b2, Some(2))
      else
        var b3 := AfterDeletes(b2, 3, plan.chunkObjects, o.chunks);
        SweepResult(b3, if AllRemoved(o.chunks) then None else Some(3))
  }

  // ----------------------------------------------------------- implementation

  class Store {
    var bucket: Bucket

    constructor (b: Bucket)
      ensures bucket == b
    {
      bucket := b;
    }

    /** One round. The result lists the keys whose delete was reported as failed. */
    method RemoveObjectsFully(stage: nat, objects: seq<ObjectInfo>, outcomes: seq<Outcome>)
      returns (failed: seq<string>)
      requires |outcomes| == |objects|
      modifies this
      ensures bucket == AfterDeletes(old(bucket), stage, objects, outcomes)
      ensures failed == [] <==> AllRemoved(outcomes)
    {
      failed := [];
      for n := 0 to |objects|
        invariant bucket == AfterDeletes(old(bucket), stage, objects[..n], outcomes[..n])
        invariant failed == [] <==> AllRemoved(outcomes[..n])
      {
        assert objects[..n + 1][..n] == objects[..n] && outcomes[..n + 1][..n] == outcomes[..n];
        assert outcomes[..n + 1] == outcomes[..n] + [outcomes[n]];
        if !outcomes[n].Refused? {
          bucket := Remove(bucket, stage, objects[n].key);
        }
        if !outcomes[n].Removed? {
          assert !outcomes[..n + 1][n].Removed?;
          failed := failed + [objects[n].key];
        }
      }
      assert objects[..|objects|] == objects && outcomes[..|outcomes|] == outcomes;
    }

    /** From least to most dangerous: expired snapshots, orphaned copies, orphaned chunks. */
    method ExecuteGCPlan(plan: Plan, o: Outcomes) returns (failedStage: Option<nat>)
      requires Answers(o, plan)
      modifies this
      ensures SweepResult(bucket, failedStage) == Sweep(old(bucket), plan, o)
    {
      var failed := RemoveObjectsFully(1, plan.backupObjects, o.backups);
      if failed != [] {
        return Some(1);
      }
      failed := RemoveObjectsFully(2, plan.indexedObjects, o.indexed);
      if failed != [] {
        return Some(2);
      }
      failed := RemoveObjectsFully(3, plan.chunkObjects, o.chunks);
      if failed != [] {
        return Some(3);
      }
      return None;
    }
  }

  // --------------------------------------------------------- what it comes to

  /** A round touches its own part of the bucket, removes nothing else, and all of it when all goes well. */
  lemma {:induction false} RoundRemovesOnly(b: Bucket, stage: nat, objects: seq<ObjectInfo>, outcomes: seq<Outcome>)
    requires |outcomes| == |objects| && 1 <= stage <= 3
    ensures var after := AfterDeletes(b, stage, objects, outcomes);
      var keys := ObjectKeySet(objects);
      && (stage != 1 ==> after.backups == b.backups) && (stage != 2 ==> after.indexed == b.indexed)
      && (stage != 3 ==> after.chunks == b.chunks)
      && (forall k :: k in b.backups && (stage != 1 || k !in keys) ==>
          k in after.backups && after.backups[k] == b.backups[k])
      && (forall k :: k in b.indexed && (stage != 2 || k !in keys) ==>
          k in after.indexed && after.indexed[k] == b.indexed[k])
      && (forall k :: k in b.chunks && (stage != 3 || k !in keys) ==>
          k in after.chunks && after.chunks[k] == b.chunks[k])
    decreases |objects|
  {
    if objects != [] {
      var n := |objects| - 1;
      RoundRemovesOnly(b, stage, objects[..n], outcomes[..n]);
      assert objects == objects[..n] + [objects[n]];
      assert objects[n].key in ObjectKeySet(objects);
      assert forall k :: k in ObjectKeySet(objects[..n]) ==> k in ObjectKeySet(objects);
    }
  }

  function Minus(b: Bucket, stage: nat, keys: set<string>): Bucket {
    if stage == 1 then b.(backups := b.backups - keys)
    else if stage == 2 then b.(indexed := b.indexed - keys)
    else b.(chunks := b.chunks - keys)
  }

  lemma MinusOneMore(b: Bucket, stage: nat, keys: set<string>, key: string)
    ensures Remove(Minus(b, stage, keys), stage, key) == Minus(b, stage, keys + {key})
  {
    assert b.backups - keys - {key} == b.backups - (keys + {key});
    assert b.indexed - keys - {key} == b.indexed - (keys + {key});
    assert b.chunks - keys - {key} == b.chunks - (keys + {key});
  }

  lemma KeySetStep(objects: seq<ObjectInfo>, n: nat)
    requires |objects| == n + 1
    ensures ObjectKeySet(objects) == ObjectKeySet(objects[..n]) + {objects[n].key}
  {
    assert objects == objects[..n] + [objects[n]];
  }

  lemma {:induction false} RoundRemovesAll(b: Bucket, stage: nat, objects: seq<ObjectInfo>, outcomes: seq<Outcome>)
    requires |outcomes| == |objects| && AllRemoved(outcomes)
    ensures AfterDeletes(b, stage, objects, outcomes) == Minus(b, stage, ObjectKeySet(objects))
    decreases |objects|
  {
    if objects == [] {
      assert b.backups - {} == b.backups && b.indexed - {} == b.indexed && b.chunks - {} == b.chunks;
    } else {
      var n := |objects| - 1;
      RoundRemovesAll(b, stage, objects[..n], outcomes[..n]);
      KeySetStep(objects, n);
      MinusOneMore(b, stage, ObjectKeySet(objects[..n]), objects[n].key);
    }
  }

  /** A sweep without errors removes exactly the plan. One that stops early has not touched a chunk. */
  lemma SweepIsExact(b: Bucket, plan: Plan, o: Outcomes)
    requires Answers(o, plan)
    ensures var r := Sweep(b, plan, o);
      && (r.failedStage == None ==>
            r.bucket == Bucket(b.backups - ObjectKeySet(plan.backupObjects),
                               b.indexed - ObjectKeySet(plan.indexedObjects),
                               b.chunks - ObjectKeySet(plan.chunkObjects)))
      && (r.failedStage == Some(1) ==> r.bucket.indexed == b.indexed && r.bucket.chunks == b.chunks)
      && (r.failedStage == Some(2) ==>
            r.bucket.chunks == b.chunks && r.bucket.backups == b.backups - ObjectKeySet(plan.backupObjects))
      && (r.failedStage == None <==> AllRemoved(o.backups) && AllRemoved(o.indexed) && AllRemoved(o.chunks))
  {
    RoundRemovesOnly(b, 1, plan.backupObjects, o.backups);
    var b1 := AfterDeletes(b, 1, plan.backupObjects, o.backups);
    if AllRemoved(o.backups) {
      RoundRemovesAll(b, 1, plan.backupObjects, o.backups);
      RoundRemovesOnly(b1, 2, plan.indexedObjects, o.indexed);
      var b2 := AfterDeletes(b1, 2, plan.indexedObjects, o.indexed);
      if AllRemoved(o.indexed) {
        RoundRemovesAll(b1, 2, plan.indexedObjects, o.indexed);
        if AllRemoved(o.chunks) {
          RoundRemovesAll(b2, 3, plan.chunkObjects, o.chunks);
        }
      }
    }
  }

  // --------------------------------------------- a sweep is a run of the store

  /** The keys a round reported removed. */
  function DoneKeys(objects: seq<ObjectInfo>, outcomes: seq<Outcome>): set<string>
    requires |outcomes| == |objects|
  {
    set i | 0 <= i < |objects| && outcomes[i].Removed? :: objects[i].key
  }

  function AfterRound(t: State, objects: seq<ObjectInfo>, outcomes: seq<Outcome>): State
    requires |outcomes| == |objects| && t.gc.Sweeping?
  {
    t.(bucket := AfterDeletes(t.bucket, t.gc.stage, objects, outcomes),
       gc := t.gc.(done := t.gc.done + DoneKeys(objects, outcomes), failed := t.gc.failed || !AllRemoved(outcomes)))
  }

  lemma DoneStep(objects: seq<ObjectInfo>, outcomes: seq<Outcome>, n: nat)
    requires |outcomes| == |objects| == n + 1
    ensures DoneKeys(objects, outcomes) ==
      DoneKeys(objects[..n], outcomes[..n]) + (if outcomes[n].Removed? then {objects[n].key} else {})
    ensures AllRemoved(outcomes) <==> AllRemoved(outcomes[..n]) && outcomes[n].Removed?
  {
    forall k | k in DoneKeys(objects[..n], outcomes[..n]) ensures k in DoneKeys(objects, outcomes) {
      var i :| 0 <= i < n && outcomes[..n][i].Removed? && objects[..n][i].key == k;
      assert outcomes[i].Removed? && objects[i].key == k;
    }
    forall k | k in DoneKeys(objects, outcomes)
      ensures k in DoneKeys(objects[..n], outcomes[..n]) || (outcomes[n].Removed? && k == objects[n].key)
    {
      var i :| 0 <= i < |objects| && outcomes[i].Removed? && objects[i].key == k;
      if i < n {
        assert outcomes[..n][i].Removed? && objects[..n][i].key == k;
      }
    }
    assert outcomes == outcomes[..n] + [outcomes[n]];
  }

  lemma DeleteContinues(env: Env, t: State, objects: seq<ObjectInfo>, outcomes: seq<Outcome>, n: nat)
    requires t.gc.Sweeping? && |outcomes| == |objects| == n + 1 && objects[n].key in StageKeys(t.gc)
    ensures var step := GcDelete(objects[n].key, outcomes[n].Removed?, !outcomes[n].Refused?);
      var u := AfterRound(t, objects[..n], outcomes[..n]);
      Enabled(env, u, step) && Apply(env, u, step) == AfterRound(t, objects, outcomes)
  {
    DoneStep(objects, outcomes, n);
    var front, all := DoneKeys(objects[..n], outcomes[..n]), DoneKeys(objects, outcomes);
    var u, v := AfterRound(t, objects[..n], outcomes[..n]), AfterRound(t, objects, outcomes);
    var w := Apply(env, u, GcDelete(objects[n].key, outcomes[n].Removed?, !outcomes[n].Refused?));
    assert t.gc.done + (front + {objects[n].key}) == t.gc.done + front + {objects[n].key};
    assert w.gc.done == v.gc.done;
    assert w.gc.failed == v.gc.failed;
    assert w.gc == v.gc;
    assert w.bucket == v.bucket;
  }

  lemma KeySetPrefix(objects: seq<ObjectInfo>, n: nat)
    requires n < |objects|
    ensures ObjectKeySet(objects[..n]) <= ObjectKeySet(objects) && objects[n].key in ObjectKeySet(objects)
  {
    assert objects[n] in objects;
  }

  lemma {:induction false} RoundIsARun(env: Env, s: State, t: State, objects: seq<ObjectInfo>, outcomes: seq<Outcome>)
    requires Reaches(env, s, t) && t.gc.Sweeping? && |outcomes| == |objects|
    requires ObjectKeySet(objects) <= StageKeys(t.gc)
    ensures Reaches(env, s, AfterRound(t, objects, outcomes))
    decreases |objects|
  {
    if objects == [] {
      assert AfterRound(t, objects, outcomes) == t;
    } else {
      var n := |objects| - 1;
      KeySetPrefix(objects, n);
      RoundIsARun(env, s, t, objects[..n], outcomes[..n]);
      var u := AfterRound(t, objects[..n], outcomes[..n]);
      var step := GcDelete(objects[n].key, outcomes[n].Removed?, !outcomes[n].Refused?);
      DeleteContinues(env, t, objects, outcomes, n);
      ReachesNext(env, s, u, step);
    }
  }

  lemma AllAreDone(objects: seq<ObjectInfo>, outcomes: seq<Outcome>)
    requires |outcomes| == |objects| && AllRemoved(outcomes)
    ensures DoneKeys(objects, outcomes) == ObjectKeySet(objects)
  {
    forall k | k in ObjectKeySet(objects) ensures k in DoneKeys(objects, outcomes) {
      var i :| 0 <= i < |objects| && objects[i].key == k;
      assert outcomes[i].Removed?;
    }
  }

  /** The sweep starts with the plan just made. */
  ghost predicate Fresh(s: State, plan: Plan) {
    s.gc.Sweeping? && s.gc.plan == plan && s.gc.stage == 1 && s.gc.done == {} && !s.gc.failed
  }

  lemma SweepIsARun(env: Env, s: State, plan: Plan, o: Outcomes) returns (t: State)
    requires Fresh(s, plan) && Answers(o, plan)
    ensures Reaches(env, s, t) && t.bucket == Sweep(s.bucket, plan, o).bucket
  {
    ReachesSelf(env, s);
    RoundIsARun(env, s, s, plan.backupObjects, o.backups);
    t := AfterRound(s, plan.backupObjects, o.backups);
    if AllRemoved(o.backups) {
      AllAreDone(plan.backupObjects, o.backups);
      ReachesNext(env, s, t, GcAdvance);
      var second := Apply(env, t, GcAdvance);
      RoundIsARun(env, s, second, plan.indexedObjects, o.indexed);
      t := AfterRound(second, plan.indexedObjects, o.indexed);
      if AllRemoved(o.indexed) {
        AllAreDone(plan.indexedObjects, o.indexed);
        ReachesNext(env, s, t, GcAdvance);
        var third := Apply(env, t, GcAdvance);
        RoundIsARun(env, s, third, plan.chunkObjects, o.chunks);
        t := AfterRound(third, plan.chunkObjects, o.chunks);
      }
    }
  }

  /** Whichever deletes fail, wherever the sweep stops, every index left in the bucket has its chunks. */
  lemma AnySweepIsSafe(env: Env, s: State, plan: Plan, o: Outcomes)
    requires Sound(env) && Base(env, s) && Complete(s.bucket) && Promised(s)
    requires Fresh(s, plan) && Answers(o, plan)
    ensures Complete(Sweep(s.bucket, plan, o).bucket)
  {
    var t := SweepIsARun(env, s, plan, o);
    var steps :| Runs(env, s, steps) && Exec(env, s, steps) == t;
    EveryRunIsSafe(env, s, steps);
  }
}
