/**
 * The state both submission loops of the worker maintain: the result report keyed by instance id,
 * the anyFailure flag, and the ordered trace of store, telemetry and notification effects.
 * Each handled instance contributes one Step; a loop's state is the fold of its steps.
 */
module UploadLoop {
  import opened Wrappers
  import opened AutoSendPolicy

  datatype Status = Submitted | SubmissionFailed

  /** An interaction with the outside world, in the order the worker performs it. */
  datatype Effect =
    | SaveStatus(id: string, status: Status)   // a status write to the instances table
    | Delete(id: string)                       // deletion of the instance record
    | Track(action: string)                    // a "Submission" telemetry event
    | Notify(anyFailure: bool, report: map<string, string>)  // the result notification

  /** What handling one instance contributes: its report message, whether it sets anyFailure, its effects. */
  datatype Step = Step(message: string, failed: bool, effects: seq<Effect>)

  datatype LoopState = LoopState(report: map<string, string>, anyFailure: bool, effects: seq<Effect>)

  /** The loop state after handling xs in order, the j-th instance contributing steps[j]. */
  function Fold(xs: seq<Instance>, steps: seq<Step>): LoopState
    requires |steps| == |xs|
    decreases |xs|
  {
    if xs == [] then LoopState(map[], false, [])
    else Record(Fold(xs[..|xs| - 1], steps[..|xs| - 1]), xs[|xs| - 1], steps[|xs| - 1])
  }

  /** Handling one more instance: record its message, fold in its failure flag, append its effects. */
  function Record(s: LoopState, x: Instance, st: Step): LoopState
  {
    LoopState(s.report[x.id := st.message], s.anyFailure || st.failed, s.effects + st.effects)
  }

  lemma FoldExtend(xs: seq<Instance>, steps: seq<Step>, i: int)
    requires |steps| == |xs| && 0 <= i < |xs|
    ensures Fold(xs[..i + 1], steps[..i + 1]) == Record(Fold(xs[..i], steps[..i]), xs[i], steps[i])
  {
    assert xs[..i + 1][..i] == xs[..i];
    assert steps[..i + 1][..i] == steps[..i];
  }

  function Ids(xs: seq<Instance>): set<string>
  {
    set x | x in xs :: x.id
  }

  /** Database ids are unique within one cursor. */
  ghost predicate DistinctIds(xs: seq<Instance>)
  {
    forall i, j | 0 <= i < j < |xs| :: xs[i].id != xs[j].id
  }

  /** Unique database ids in the finalized cursor stay unique among the candidates chosen from it. */
  lemma {:induction false} CandidatesKeepDistinctIds(finalized: seq<Instance>, forms: seq<Form>, appFlag: bool)
    requires DistinctIds(finalized)
    ensures DistinctIds(AutoSendCandidates(finalized, forms, appFlag))
    decreases |finalized|
  {
    if finalized != [] {
      var n := |finalized| - 1;
      var init, last := finalized[..n], finalized[n];
      assert DistinctIds(init);
      CandidatesKeepDistinctIds(init, forms, appFlag);
      var r' := AutoSendCandidates(init, forms, appFlag);
      forall k | 0 <= k < |r'|
        ensures r'[k].id != last.id
      {
        CandidateIsFinalized(init, forms, appFlag, r'[k]);
        var p :| 0 <= p < n && init[p] == r'[k];
      }
      DistinctIdsAppend(r', last);
      CandidatesGrowByLast(finalized, forms, appFlag);
    }
  }

  /** One more finalized instance adds at most that instance, at the end, to the candidates. */
  lemma CandidatesGrowByLast(finalized: seq<Instance>, forms: seq<Form>, appFlag: bool)
    requires finalized != []
    ensures var n := |finalized| - 1;
            var r' := AutoSendCandidates(finalized[..n], forms, appFlag);
            AutoSendCandidates(finalized, forms, appFlag) in {r', r' + [finalized[n]]}
  {
  }

  lemma CandidateIsFinalized(finalized: seq<Instance>, forms: seq<Form>, appFlag: bool, y: Instance)
    requires y in AutoSendCandidates(finalized, forms, appFlag)
    ensures y in finalized
  {
    CandidatesKeepEveryEligibleInstance(finalized, forms, appFlag, y);
  }

  lemma DistinctIdsAppend(xs: seq<Instance>, x: Instance)
    requires DistinctIds(xs) && forall k | 0 <= k < |xs| :: xs[k].id != x.id
    ensures DistinctIds(xs + [x])
  {
    var r := xs + [x];
    assert forall k | 0 <= k < |xs| :: r[k] == xs[k];
  }

  /** An effect that writes to the row of instance id. */
  predicate Touches(e: Effect, id: string)
  {
    (e.SaveStatus? || e.Delete?) && e.id == id
  }

  lemma {:induction false} FoldReportKeys(xs: seq<Instance>, steps: seq<Step>)
    requires |steps| == |xs|
    ensures Fold(xs, steps).report.Keys == Ids(xs)
    decreases |xs|
  {
    if xs != [] {
      var init := xs[..|xs| - 1];
      FoldReportKeys(init, steps[..|xs| - 1]);
      assert xs == init + [xs[|xs| - 1]];
      assert Ids(xs) == Ids(init) + {xs[|xs| - 1].id};
    }
  }

  lemma {:induction false} FoldReportEntry(xs: seq<Instance>, steps: seq<Step>, j: int)
    requires |steps| == |xs| && DistinctIds(xs) && 0 <= j < |xs|
    ensures xs[j].id in Fold(xs, steps).report
    ensures Fold(xs, steps).report[xs[j].id] == steps[j].message
    decreases |xs|
  {
    if j < |xs| - 1 {
      FoldReportEntry(xs[..|xs| - 1], steps[..|xs| - 1], j);
    }
  }

  lemma {:induction false} FoldAnyFailure(xs: seq<Instance>, steps: seq<Step>)
    requires |steps| == |xs|
    ensures Fold(xs, steps).anyFailure <==> exists j | 0 <= j < |steps| :: steps[j].failed
    decreases |xs|
  {
    if xs != [] {
      var n := |xs| - 1;
      FoldAnyFailure(xs[..n], steps[..n]);
      assert forall j | 0 <= j < n :: steps[..n][j] == steps[j];
    }
  }

  /** Every effect of the fold comes from the step of one instance, and every step's effects are kept. */
  lemma {:induction false} FoldEffectOrigin(xs: seq<Instance>, steps: seq<Step>, e: Effect)
    requires |steps| == |xs|
    ensures e in Fold(xs, steps).effects <==> exists j | 0 <= j < |steps| :: e in steps[j].effects
    decreases |xs|
  {
    if xs != [] {
      var n := |xs| - 1;
      FoldEffectOrigin(xs[..n], steps[..n], e);
      assert forall j | 0 <= j < n :: steps[..n][j] == steps[j];
    }
  }

  /** Each deletion of an instance comes after a success status write for it. */
  ghost predicate DeletesFollowSuccess(es: seq<Effect>)
  {
    forall p | 0 <= p < |es| && es[p].Delete? :: exists q | 0 <= q < p :: es[q] == SaveStatus(es[p].id, Submitted)
  }

  lemma ConcatDeletesFollowSuccess(a: seq<Effect>, b: seq<Effect>)
    requires DeletesFollowSuccess(a) && DeletesFollowSuccess(b)
    ensures DeletesFollowSuccess(a + b)
  {
    var es := a + b;
    forall p | 0 <= p < |es| && es[p].Delete?
      ensures exists q | 0 <= q < p :: es[q] == SaveStatus(es[p].id, Submitted)
    {
      if p < |a| {
        var q :| 0 <= q < p && a[q] == SaveStatus(a[p].id, Submitted);
        assert es[q] == a[q];
      } else {
        var q :| 0 <= q < p - |a| && b[q] == SaveStatus(b[p - |a|].id, Submitted);
        assert es[q + |a|] == b[q];
      }
    }
  }

  lemma {:induction false} FoldDeletesFollowSuccess(xs: seq<Instance>, steps: seq<Step>)
    requires |steps| == |xs|
    requires forall j | 0 <= j < |steps| :: DeletesFollowSuccess(steps[j].effects)
    ensures DeletesFollowSuccess(Fold(xs, steps).effects)
    decreases |xs|
  {
    if xs != [] {
      var n := |xs| - 1;
      assert forall j | 0 <= j < n :: steps[..n][j] == steps[j];
      FoldDeletesFollowSuccess(xs[..n], steps[..n]);
      ConcatDeletesFollowSuccess(Fold(xs[..n], steps[..n]).effects, steps[n].effects);
    }
  }

  /** The instances table as the effects leave it: a status per id and the set of deleted ids. */
  datatype Store = Store(status: map<string, Status>, deleted: set<string>)

  function ApplyEffect(s: Store, e: Effect): Store
  {
    match e
    case SaveStatus(id, st) => Store(s.status[id := st], s.deleted)
    case Delete(id) => Store(s.status, s.deleted + {id})
    case Track(_) => s
    case Notify(_, _) => s
  }

  /** Replaying a trace never removes a status row and never undoes a deletion. */
  function ApplyEffects(s: Store, es: seq<Effect>): (r: Store)
    ensures s.status.Keys <= r.status.Keys && s.deleted <= r.deleted
    decreases |es|
  {
    if es == [] then s else ApplyEffect(ApplyEffects(s, es[..|es| - 1]), es[|es| - 1])
  }

  /** Replaying a trace adds exactly the deleted ids to the deleted set and exactly the written ids to the status rows. */
  lemma {:induction false} ApplyEffectsFootprint(s: Store, es: seq<Effect>)
    ensures ApplyEffects(s, es).deleted == s.deleted + (set e | e in es && e.Delete? :: e.id)
    ensures ApplyEffects(s, es).status.Keys == s.status.Keys + (set e | e in es && e.SaveStatus? :: e.id)
    decreases |es|
  {
    if es != [] {
      var n := |es| - 1;
      ApplyEffectsFootprint(s, es[..n]);
      assert forall e :: e in es <==> e in es[..n] || e == es[n];
    }
  }

  lemma {:induction false} ApplyConcat(s: Store, a: seq<Effect>, b: seq<Effect>)
    ensures ApplyEffects(s, a + b) == ApplyEffects(ApplyEffects(s, a), b)
    decreases |b|
  {
    if b != [] {
      assert (a + b)[..|a + b| - 1] == a + b[..|b| - 1];
      ApplyConcat(s, a, b[..|b| - 1]);
    } else {
      assert a + b == a;
    }
  }

  /** Effects that do not write to the row of id leave its status and deletion unchanged. */
  lemma {:induction false} ApplyUntouched(s: Store, es: seq<Effect>, id: string)
    requires forall e | e in es :: !Touches(e, id)
    ensures (id in ApplyEffects(s, es).status) == (id in s.status)
    ensures id in s.status ==> ApplyEffects(s, es).status[id] == s.status[id]
    ensures (id in ApplyEffects(s, es).deleted) == (id in s.deleted)
    decreases |es|
  {
    if es != [] {
      ApplyUntouched(s, es[..|es| - 1], id);
      assert es[|es| - 1] in es;
    }
  }

  /** What the store says about one row: its status, if any, and whether it was deleted. */
  function RowView(s: Store, id: string): (Option<Status>, bool)
  {
    (if id in s.status then Some(s.status[id]) else None, id in s.deleted)
  }

  lemma {:induction false} ApplyAgreesOnRow(s1: Store, s2: Store, es: seq<Effect>, id: string)
    requires RowView(s1, id) == RowView(s2, id)
    ensures RowView(ApplyEffects(s1, es), id) == RowView(ApplyEffects(s2, es), id)
    decreases |es|
  {
    if es != [] {
      ApplyAgreesOnRow(s1, s2, es[..|es| - 1], id);
    }
  }

  /** Each step writes only to the row of its own instance. */
  ghost predicate StepsTouchOwnRow(xs: seq<Instance>, steps: seq<Step>)
    requires |steps| == |xs|
  {
    forall k, e | 0 <= k < |steps| && e in steps[k].effects && (e.SaveStatus? || e.Delete?) :: e.id == xs[k].id
  }

  /** With unique ids, the row of instance j ends up as instance j's own effects alone would leave it. */
  lemma {:induction false} FoldRowIsOwnStep(s: Store, xs: seq<Instance>, steps: seq<Step>, j: int)
    requires |steps| == |xs| && DistinctIds(xs) && StepsTouchOwnRow(xs, steps) && 0 <= j < |xs|
    ensures RowView(ApplyEffects(s, Fold(xs, steps).effects), xs[j].id)
            == RowView(ApplyEffects(s, steps[j].effects), xs[j].id)
    decreases |xs|
  {
    var n := |xs| - 1;
    var id := xs[j].id;
    var init, initSteps := xs[..n], steps[..n];
    assert DistinctIds(init);
    assert StepsTouchOwnRow(init, initSteps) by {
      assert forall k | 0 <= k < n :: initSteps[k] == steps[k] && init[k] == xs[k];
    }
    var prefix := Fold(init, initSteps).effects;
    ApplyConcat(s, prefix, steps[n].effects);
    if j < n {
      FoldRowIsOwnStep(s, init, initSteps, j);
      assert initSteps[j] == steps[j];
      forall e | e in steps[n].effects ensures !Touches(e, id) { }
      ApplyUntouched(ApplyEffects(s, prefix), steps[n].effects, id);
    } else {
      FoldUntouched(init, initSteps, id);
      ApplyUntouched(s, prefix, id);
      ApplyAgreesOnRow(ApplyEffects(s, prefix), s, steps[n].effects, id);
    }
  }

  /** When no instance has the given id, the fold writes nothing to that row. */
  lemma FoldUntouched(xs: seq<Instance>, steps: seq<Step>, id: string)
    requires |steps| == |xs| && StepsTouchOwnRow(xs, steps)
    requires forall k | 0 <= k < |xs| :: xs[k].id != id
    ensures forall e | e in Fold(xs, steps).effects :: !Touches(e, id)
  {
    forall e | e in Fold(xs, steps).effects
      ensures !Touches(e, id)
    {
      FoldEffectOrigin(xs, steps, e);
    }
  }
}
