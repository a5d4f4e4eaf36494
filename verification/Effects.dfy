/** Exactly-once effect: the split SELECT / INSERT / COMMIT of commit_effect, run by any number of
    workers, behaves like one atomic write-once map. */
module Effects {
  import opened Envelopes
  import opened Store
  import opened Protocol

  function Key(s: State, a: nat): string
    requires a < |s.acts|
  {
    EffectKey(s.acts[a].env)
  }

  /** Phases that are reached only once the effect of the key is in. */
  predicate Vouches(p: Phase) {
    p.EffectPresent? || (p.Settled? && p.success) || (p.Returned? && p.success)
  }

  ghost predicate EffectInv(s: State) {
    && (forall a :: 0 <= a < |s.acts| && s.acts[a].phase.EffectInserted? ==> Key(s, a) !in s.tables.effects)
    && (forall a, b :: 0 <= a < b < |s.acts| && s.acts[a].phase.EffectInserted? && s.acts[b].phase.EffectInserted? ==>
          Key(s, a) != Key(s, b))
    && (forall a :: 0 <= a < |s.acts| && Vouches(s.acts[a].phase) ==> Key(s, a) in s.tables.effects)
  }

  /** The atomic specification: a key is written at most once, by one indivisible put. */
  ghost predicate PutOrSkip(m: map<string, EffectRow>, m': map<string, EffectRow>) {
    m' == m || exists k :: k in m' && k !in m && m == m' - {k}
  }

  /** The step that makes an effect row visible. */
  predicate Writes(s: State, step: Step, key: string) {
    step.Commit? && step.applied && step.a < |s.acts| && s.acts[step.a].phase.EffectInserted? && Key(s, step.a) == key
  }

  lemma EffectsAfter(s: State, step: Step)
    requires Enabled(s, step)
    ensures TablesAfter(s, step).effects ==
      if step.Commit? && step.applied && s.acts[step.a].phase.EffectInserted?
      then s.tables.effects[Key(s, step.a) :=
        EffectRow(s.acts[step.a].env.taskId, s.acts[step.a].phase.fence, s.acts[step.a].phase.result)]
      else s.tables.effects
  {
  }

  lemma EffectsOfStep(s: State, step: Step)
    requires Enabled(s, step)
    ensures Next(s, step).tables.effects ==
      if step.Commit? && step.applied && s.acts[step.a].phase.EffectInserted?
      then s.tables.effects[Key(s, step.a) :=
        EffectRow(s.acts[step.a].env.taskId, s.acts[step.a].phase.fence, s.acts[step.a].phase.result)]
      else s.tables.effects
  {
    NextTables(s, step);
    EffectsAfter(s, step);
  }

  lemma EffectPhases(s: State, step: Step)
    requires Enabled(s, step) && IsMove(step) && EffectInv(s)
    ensures step.a < |s.acts| && step.a < |Next(s, step).acts|
    ensures Next(s, step).acts[step.a].phase.EffectInserted? ==>
      step.Insert? && Key(s, step.a) !in s.tables.effects && !Blocked(s, step.a)
    ensures Vouches(Next(s, step).acts[step.a].phase) ==>
      Key(s, step.a) in s.tables.effects || Writes(s, step, Key(s, step.a))
  {
  }

  lemma EffectMoved(s: State, s': State, a: nat, p': Phase, wrote: bool)
    requires EffectInv(s) && a < |s.acts|
    requires s'.acts == s.acts[a := s.acts[a].(phase := p')]
    requires s'.tables.effects.Keys == s.tables.effects.Keys + (if wrote then {Key(s, a)} else {})
    requires wrote ==> s.acts[a].phase.EffectInserted? && !p'.EffectInserted?
    requires p'.EffectInserted? ==> Key(s, a) !in s.tables.effects && !Blocked(s, a)
    requires Vouches(p') ==> Key(s, a) in s'.tables.effects
    ensures EffectInv(s')
  {
    assert forall b :: 0 <= b < |s.acts| ==> Key(s', b) == Key(s, b);
  }

  lemma EffectMove(s: State, step: Step)
    requires EffectInv(s) && Enabled(s, step) && IsMove(step)
    ensures EffectInv(Next(s, step))
  {
    MoveFrame(s, step);
    EffectsOfStep(s, step);
    EffectPhases(s, step);
    EffectMoved(s, Next(s, step), step.a, Next(s, step).acts[step.a].phase, Writes(s, step, Key(s, step.a)));
  }

  lemma EffectOther(s: State, step: Step)
    requires EffectInv(s) && Enabled(s, step) && !IsMove(step)
    ensures EffectInv(Next(s, step))
  {
    var s' := Next(s, step);
    OtherFrame(s, step);
    EffectsOfStep(s, step);
    assert forall a :: 0 <= a < |s.acts| ==> s'.acts[a] == s'.acts[..|s.acts|][a] == s.acts[a];
  }

  lemma EffectStep(s: State, step: Step)
    requires EffectInv(s) && Enabled(s, step)
    ensures EffectInv(Next(s, step))
  {
    if IsMove(step) { EffectMove(s, step); } else { EffectOther(s, step); }
  }

  /** Every step of every interleaving is a put of a fresh key or a stutter of the specification. */
  lemma StepRefinesWriteOnce(s: State, step: Step)
    requires EffectInv(s) && Enabled(s, step)
    ensures PutOrSkip(s.tables.effects, Next(s, step).tables.effects)
    ensures forall k :: k in Next(s, step).tables.effects && k !in s.tables.effects <==> Writes(s, step, k)
  {
    EffectsOfStep(s, step);
  }

  /** How often a run writes the row of a key. */
  function WriteCount(s: State, steps: seq<Step>, key: string): nat
    requires ValidRun(s, steps)
    decreases steps
  {
    if steps == [] then 0
    else (if Writes(s, steps[0], key) then 1 else 0) + WriteCount(Next(s, steps[0]), steps[1..], key)
  }

  /** Exactly once: over a whole run a key is written once if its row is new at the end and never
      otherwise, and a row that exists never changes. */
  lemma {:induction false} WrittenExactlyOnce(s: State, steps: seq<Step>, key: string)
    requires EffectInv(s) && ValidRun(s, steps)
    ensures EffectInv(Run(s, steps))
    ensures WriteCount(s, steps, key) ==
      if key in Run(s, steps).tables.effects && key !in s.tables.effects then 1 else 0
    ensures key in s.tables.effects ==>
      key in Run(s, steps).tables.effects && Run(s, steps).tables.effects[key] == s.tables.effects[key]
    decreases steps
  {
    if steps != [] {
      EffectStep(s, steps[0]);
      EffectsOfStep(s, steps[0]);
      StepRefinesWriteOnce(s, steps[0]);
      WrittenExactlyOnce(Next(s, steps[0]), steps[1..], key);
    }
  }

  /** Once a row is in, whoever comes later is turned away: by FenceRejectedError below the row's
      fence, with "already committed" at or above it, and by the primary key if its SELECT had still
      seen nothing.  The row stays as it is in all cases. */
  lemma LateCommitTurnedAway(s: State, step: Step)
    requires EffectInv(s) && Enabled(s, step) && IsMove(step)
    requires step.a < |s.acts| && Key(s, step.a) in s.tables.effects
    ensures Next(s, step).tables.effects == s.tables.effects
    ensures step.Select? && step.ok ==>
      var f, row := s.acts[step.a].phase.fence, s.tables.effects[Key(s, step.a)];
      Next(s, step).acts[step.a].phase ==
        if f < row.fence then Settled(f, false, step.error) else EffectPresent(f)
    ensures step.Insert? ==>
      Next(s, step).acts[step.a].phase.Settled? && !Next(s, step).acts[step.a].phase.success
  {
    EffectsOfStep(s, step);
  }
}
