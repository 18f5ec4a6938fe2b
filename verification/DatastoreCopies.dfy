/** Whether the copy an incremental backup reuses is the index whose checksum it named. */
module DatastoreCopies {
  import opened ObjectKeys
  import opened Datastore
  import opened DatastoreSafety
  import opened DatastoreRuns
  import opened DatastoreMixing

  /** Every copy is stored under the checksum of the digests it holds. */
  ghost predicate Keyed(env: Env, b: Bucket) {
    forall csum :: IsKeyed(env, b, csum)
  }

  ghost predicate IsKeyed(env: Env, b: Bucket, csum: string) {
    CopyKey(csum) in b.indexed ==> env.sum(b.indexed[CopyKey(csum)].digests) == csum
  }

  ghost predicate AlwaysKeyed(env: Env) {
    forall s, t :: Quiet(env, s) && Keyed(env, s.bucket) && Reaches(env, s, t) ==> Keyed(env, t.bucket)
  }

  lemma CopyKeysDiffer(a: string, b: string)
    ensures CopyKey(a) == CopyKey(b) <==> a == b
  {
    if CopyKey(a) == CopyKey(b) {
      assert |CopyKey(a)| == |a| + 13 && |CopyKey(b)| == |b| + 13;
      assert a == CopyKey(a)[8..|CopyKey(a)| - 5] && b == CopyKey(b)[8..|CopyKey(b)| - 5];
    }
  }

  /** A close under way says its own checksum, is alone on its key, and is what the key holds once it is stored. */
  ghost predicate CloseInv(env: Env, s: State, id: nat) {
    id in s.closes ==>
      var c := s.closes[id];
      && IsIndex(c.key) && (c.obj.Fixed? ==> c.csum == env.sum(c.obj.file.digests))
      && (forall other :: other in s.closes && s.closes[other].key == c.key ==> other == id)
      && (c.stored && c.key in s.bucket.backups ==> s.bucket.backups[c.key] == c.obj)
  }

  ghost predicate ClosesInv(env: Env, s: State) {
    forall id :: CloseInv(env, s, id)
  }

  lemma NewCloseKeepsClose(env: Env, s: State, step: Step, id: nat)
    requires env.closesApart && ClosesInv(env, s) && Enabled(env, s, step) && (step.CloseFixed? || step.CloseDynamic?)
    ensures CloseInv(env, Apply(env, s, step), id)
  {
    assert CloseInv(env, s, id);
  }

  lemma StoreKeepsClose(env: Env, s: State, step: Step, id: nat)
    requires ClosesInv(env, s) && Enabled(env, s, step) && step.ClosePut?
    ensures CloseInv(env, Apply(env, s, step), id)
  {
    assert CloseInv(env, s, id) && CloseInv(env, s, step.close);
  }

  lemma EndKeepsClose(env: Env, s: State, step: Step, id: nat)
    requires ClosesInv(env, s) && Enabled(env, s, step) && (step.CloseCopy? || step.CloseDone?)
    ensures CloseInv(env, Apply(env, s, step), id)
  {
    assert CloseInv(env, s, id);
  }

  predicate IsCloseStep(step: Step) {
    step.CloseFixed? || step.CloseDynamic? || step.ClosePut? || step.CloseCopy? || step.CloseDone?
  }

  lemma OtherKeepsClose(env: Env, s: State, step: Step, id: nat)
    requires ClosesInv(env, s) && Enabled(env, s, step) && !IsCloseStep(step)
    ensures CloseInv(env, Apply(env, s, step), id)
  {
    assert CloseInv(env, s, id);
    OthersLeaveCloses(env, s, step);
  }

  /** No other step changes a close, except by ending them all, or writes under the key of an index. */
  lemma OthersLeaveCloses(env: Env, s: State, step: Step)
    requires Enabled(env, s, step) && !IsCloseStep(step)
    ensures var t := Apply(env, s, step);
      && (t.closes == s.closes || t.closes == map[])
      && forall k :: IsIndex(k) && k in t.bucket.backups ==>
           k in s.bucket.backups && t.bucket.backups[k] == s.bucket.backups[k]
  {
    if IsSessionStep(step) {
      assert Apply(env, s, step).bucket.backups == s.bucket.backups;
    }
  }

  lemma StepKeepsCloses(env: Env, s: State, step: Step)
    requires env.closesApart && ClosesInv(env, s) && Enabled(env, s, step)
    ensures ClosesInv(env, Apply(env, s, step))
  {
    forall id ensures CloseInv(env, Apply(env, s, step), id) {
      if step.CloseFixed? || step.CloseDynamic? {
        NewCloseKeepsClose(env, s, step, id);
      } else if step.ClosePut? {
        StoreKeepsClose(env, s, step, id);
      } else if step.CloseCopy? || step.CloseDone? {
        EndKeepsClose(env, s, step, id);
      } else {
        OtherKeepsClose(env, s, step, id);
      }
    }
  }

  lemma StepKeepsKeyed(env: Env, s: State, step: Step)
    requires ClosesInv(env, s) && Keyed(env, s.bucket) && Enabled(env, s, step)
    ensures Keyed(env, Apply(env, s, step).bucket)
  {
    var t := Apply(env, s, step);
    forall csum ensures IsKeyed(env, t.bucket, csum) {
      assert IsKeyed(env, s.bucket, csum);
      if step.CloseCopy? {
        assert CloseInv(env, s, step.close);
        CopyKeysDiffer(csum, s.closes[step.close].csum);
      } else {
        OnlyCopiesCopy(env, s, step);
      }
    }
  }

  lemma OnlyCopiesCopy(env: Env, s: State, step: Step)
    requires Enabled(env, s, step) && !step.CloseCopy?
    ensures var t := Apply(env, s, step);
      forall k :: k in t.bucket.indexed ==> k in s.bucket.indexed && t.bucket.indexed[k] == s.bucket.indexed[k]
  {
    if !step.GcDelete? {
      assert Apply(env, s, step).bucket.indexed == s.bucket.indexed;
    }
  }

  lemma {:induction false} RunKeepsKeyed(env: Env, s: State, steps: seq<Step>)
    requires env.closesApart && ClosesInv(env, s) && Keyed(env, s.bucket) && Runs(env, s, steps)
    ensures Keyed(env, Exec(env, s, steps).bucket)
    decreases |steps|
  {
    if steps != [] {
      StepKeepsCloses(env, s, steps[0]);
      StepKeepsKeyed(env, s, steps[0]);
      RunKeepsKeyed(env, Apply(env, s, steps[0]), steps[1..]);
    }
  }

  /** Two closes side by side: the second file is copied under the checksum of the first. */
  lemma MixedClosesMiskey(env: Env, a: string, b: string)
    requires NoCollisions(env) && Pair(env, a, b) && !env.closesApart
    ensures !AlwaysKeyed(env)
  {
    var s, t := Before(env, a, b), BothStored(env, a, b);
    BeforeIsFine(env, a, b);
    BothStore(env, a, b);
    CloseCanCopy(env, s, t, 0);
    var file := OneBlock(env, b);
    var u := t.bucket.(indexed := t.bucket.indexed[CopyKey(env.sum([a])) := CopyOf(env, file, env.sum([a]))]);
    assert u.indexed[CopyKey(env.sum([a]))].digests == [b];
    assert [a][0] != [b][0];
    assert !IsKeyed(env, u, env.sum([a]));
    assert forall csum :: IsKeyed(env, s.bucket, csum);
  }

  /**
   * A backup that names a checksum for reuse starts from the index with that
   * checksum, in every run, exactly when no file is closed again before an
   * earlier close of it is over. No lock and no storage class changes that.
   */
  lemma ReuseIsExactIff(env: Env, a: string, b: string)
    requires NoCollisions(env) && Pair(env, a, b)
    ensures AlwaysKeyed(env) <==> env.closesApart
  {
    if env.closesApart {
      forall s, t | Quiet(env, s) && Keyed(env, s.bucket) && Reaches(env, s, t) ensures Keyed(env, t.bucket) {
        var steps :| Runs(env, s, steps) && Exec(env, s, steps) == t;
        RunKeepsKeyed(env, s, steps);
      }
    } else {
      MixedClosesMiskey(env, a, b);
    }
  }
}
