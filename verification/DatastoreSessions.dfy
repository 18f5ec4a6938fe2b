/** What one session can rely on, from the step that promised it to the end of the session. */
module DatastoreSessions {
  import opened Datastore
  import opened DatastoreSafety

  /** The step ends this session: its own end, or the death of the proxy. */
  predicate Ends(step: Step, id: nat) {
    step.ProxyCrash? || (step.SessionEnd? && step.id == id)
  }

  predicate StaysOpen(steps: seq<Step>, id: nat) {
    forall i :: 0 <= i < |steps| ==> !Ends(steps[i], id)
  }

  /** The session is open, and these digests are what it was acknowledged or sent. */
  ghost predicate Relies(s: State, id: nat, digests: set<string>) {
    id in s.sessions && digests <= s.sessions[id].acked + s.sessions[id].read
  }

  lemma StepKeepsReliance(env: Env, s: State, step: Step, id: nat, digests: set<string>)
    requires Enabled(env, s, step) && Relies(s, id, digests) && !Ends(step, id)
    ensures Relies(Apply(env, s, step), id, digests)
  {
    if !IsSessionStep(step) {
      assert Apply(env, s, step).sessions == s.sessions;
    }
  }

  lemma {:induction false} RunKeepsReliance(env: Env, s: State, steps: seq<Step>, id: nat, digests: set<string>)
    requires Runs(env, s, steps) && Relies(s, id, digests) && StaysOpen(steps, id)
    ensures Relies(Exec(env, s, steps), id, digests)
    decreases |steps|
  {
    if steps != [] {
      StepKeepsReliance(env, s, steps[0], id, digests);
      RunKeepsReliance(env, Apply(env, s, steps[0]), steps[1..], id, digests);
    }
  }

  lemma RunKeepsPromise(env: Env, s: State, steps: seq<Step>, id: nat, digests: set<string>)
    requires Sound(env) && Base(env, s) && Complete(s.bucket) && Promised(s)
    requires Runs(env, s, steps) && Relies(s, id, digests) && StaysOpen(steps, id)
    ensures forall d :: d in digests ==> Present(Exec(env, s, steps).bucket, d)
  {
    EveryRunIsSafe(env, s, steps);
    RunKeepsReliance(env, s, steps, id, digests);
    var t := Exec(env, s, steps);
    assert SetPresent(t.bucket, t.sessions[id].acked) && SetPresent(t.bucket, t.sessions[id].read);
  }

  /**
   * A restore finishes. Whatever else happens to the bucket, the chunks of an
   * index that was sent to a session are there for as long as the session is
   * open, even if the index itself is deleted meanwhile.
   */
  lemma WhatWasReadStays(env: Env, s: State, id: nat, key: string, steps: seq<Step>)
    requires Sound(env) && Base(env, s) && Complete(s.bucket) && Promised(s)
    requires Enabled(env, s, ReadIndex(id, key)) && Runs(env, Apply(env, s, ReadIndex(id, key)), steps)
    requires StaysOpen(steps, id)
    ensures AllPresent(Exec(env, Apply(env, s, ReadIndex(id, key)), steps).bucket, s.bucket.backups[key].Digests())
  {
    var t := Apply(env, s, ReadIndex(id, key));
    var digests := set d | d in s.bucket.backups[key].Digests();
    OneStepIsSafe(env, s, ReadIndex(id, key));
    RunKeepsPromise(env, t, steps, id, digests);
  }

  /** A backup may take up any chunk it was told is there: it stays for as long as the session is open. */
  lemma WhatWasAckedStays(env: Env, s: State, id: nat, d: string, steps: seq<Step>)
    requires Sound(env) && Base(env, s) && Complete(s.bucket) && Promised(s)
    requires Enabled(env, s, ChunkAck(id, d)) && Runs(env, Apply(env, s, ChunkAck(id, d)), steps)
    requires StaysOpen(steps, id)
    ensures Present(Exec(env, Apply(env, s, ChunkAck(id, d)), steps).bucket, d)
  {
    var t := Apply(env, s, ChunkAck(id, d));
    OneStepIsSafe(env, s, ChunkAck(id, d));
    RunKeepsPromise(env, t, steps, id, {d});
  }

  lemma OneStepIsSafe(env: Env, s: State, step: Step)
    requires Sound(env) && Base(env, s) && Complete(s.bucket) && Promised(s) && Enabled(env, s, step)
    ensures var t := Apply(env, s, step); Base(env, t) && Complete(t.bucket) && Promised(t)
  {
    StepKeepsBase(env, s, step);
    StepKeepsPromises(env, s, step);
    StepKeepsComplete(env, s, step);
  }
}
