/** The ODK server branch of the worker: a pass over the candidates that stops at the first fatal outcome. */
module ServerUpload {
  import opened AutoSendPolicy
  import opened UploadLoop

  const ServerTrackAction: string := "HTTP auto"

  /** The SubmissionUploadResult of one uploadOneSubmission call. */
  datatype Outcome = Outcome(success: bool, fatal: bool, message: string)

  /** One instance of the server loop: a report entry always; deletion and telemetry only after a non-fatal success. */
  function ServerStep(x: Instance, o: Outcome, autoDelete: set<string>): (r: Step)
  {
    Step(o.message, !o.success,
         if o.fatal || !o.success then []
         else (if x.formId in autoDelete then [Delete(x.id)] else []) + [Track(ServerTrackAction)])
  }

  function ServerSteps(xs: seq<Instance>, outcome: nat -> Outcome, autoDelete: set<string>): (r: seq<Step>)
    ensures |r| == |xs|
    ensures forall j | 0 <= j < |xs| :: r[j] == ServerStep(xs[j], outcome(j), autoDelete)
  {
    seq(|xs|, j requires 0 <= j < |xs| => ServerStep(xs[j], outcome(j), autoDelete))
  }

  /** The first position in [i, n) whose outcome is fatal, or n when there is none. */
  function FirstFatalFrom(i: nat, n: nat, outcome: nat -> Outcome): (k: nat)
    requires i <= n
    ensures i <= k <= n
    ensures forall j | i <= j < k :: !outcome(j).fatal
    ensures k < n ==> outcome(k).fatal
    decreases n - i
  {
    if i == n then n else if outcome(i).fatal then i else FirstFatalFrom(i + 1, n, outcome)
  }

  /** How many candidates the loop hands to the uploader: up to and including the first fatal one. */
  function Attempted(n: nat, outcome: nat -> Outcome): (a: nat)
    ensures a <= n
    ensures forall j | 0 <= j < a - 1 :: !outcome(j).fatal
    ensures a < n ==> a > 0 && outcome(a - 1).fatal
  {
    var k := FirstFatalFrom(0, n, outcome);
    if k < n then k + 1 else n
  }

  lemma ServerStepsPrefix(xs: seq<Instance>, outcome: nat -> Outcome, autoDelete: set<string>, i: nat)
    requires i <= |xs|
    ensures ServerSteps(xs, outcome, autoDelete)[..i] == ServerSteps(xs[..i], outcome, autoDelete)
  {
  }

  /** The loop state after i + 1 server candidates, from the state after i. */
  lemma ServerFoldExtend(xs: seq<Instance>, outcome: nat -> Outcome, autoDelete: set<string>, i: nat)
    requires i < |xs|
    ensures Fold(xs[..i + 1], ServerSteps(xs[..i + 1], outcome, autoDelete))
            == Record(Fold(xs[..i], ServerSteps(xs[..i], outcome, autoDelete)), xs[i], ServerStep(xs[i], outcome(i), autoDelete))
  {
    var steps := ServerSteps(xs, outcome, autoDelete);
    FoldExtend(xs, steps, i);
    ServerStepsPrefix(xs, outcome, autoDelete, i);
    ServerStepsPrefix(xs, outcome, autoDelete, i + 1);
  }

  lemma FirstFatalIs(n: nat, outcome: nat -> Outcome, i: nat)
    requires i < n && outcome(i).fatal && forall j | 0 <= j < i :: !outcome(j).fatal
    ensures FirstFatalFrom(0, n, outcome) == i
  {
  }

  datatype ServerEnd = ServerEnd(aborted: bool, state: LoopState)

  /** The server loop: aborted when some candidate's outcome is fatal; the state covers the attempted prefix. */
  function ServerRun(xs: seq<Instance>, outcome: nat -> Outcome, autoDelete: set<string>): (r: ServerEnd)
    ensures r.aborted <==> exists j | 0 <= j < |xs| :: outcome(j).fatal
    ensures r.state.report.Keys == Ids(xs[..Attempted(|xs|, outcome)])
  {
    var k := FirstFatalFrom(0, |xs|, outcome);
    var a := Attempted(|xs|, outcome);
    var steps := ServerSteps(xs[..a], outcome, autoDelete);
    FoldReportKeys(xs[..a], steps);
    ServerEnd(k < |xs|, Fold(xs[..a], steps))
  }

  lemma ServerRunAbortedAt(xs: seq<Instance>, outcome: nat -> Outcome, autoDelete: set<string>, i: nat)
    requires i < |xs| && outcome(i).fatal && forall j | 0 <= j < i :: !outcome(j).fatal
    ensures ServerRun(xs, outcome, autoDelete) == ServerEnd(true, Fold(xs[..i + 1], ServerSteps(xs[..i + 1], outcome, autoDelete)))
  {
    FirstFatalIs(|xs|, outcome, i);
  }

  lemma ServerRunCompleted(xs: seq<Instance>, outcome: nat -> Outcome, autoDelete: set<string>)
    requires forall j | 0 <= j < |xs| :: !outcome(j).fatal
    ensures ServerRun(xs, outcome, autoDelete) == ServerEnd(false, Fold(xs, ServerSteps(xs, outcome, autoDelete)))
  {
    assert xs[..|xs|] == xs;
  }

  /** The server loop of doWork; outcome(j) is the uploader's result for the j-th candidate. */
  method UploadViaServer(toUpload: seq<Instance>, outcome: nat -> Outcome, autoDelete: set<string>)
    returns (aborted: bool, report: map<string, string>, anyFailure: bool, effects: seq<Effect>)
    ensures ServerEnd(aborted, LoopState(report, anyFailure, effects)) == ServerRun(toUpload, outcome, autoDelete)
  {
    report, anyFailure, effects := map[], false, [];
    var i := 0;
    while i < |toUpload|
      invariant 0 <= i <= |toUpload|
      invariant forall j | 0 <= j < i :: !outcome(j).fatal
      invariant LoopState(report, anyFailure, effects) == Fold(toUpload[..i], ServerSteps(toUpload[..i], outcome, autoDelete))
    {
      ghost var before := LoopState(report, anyFailure, effects);
      var instance := toUpload[i];
      var uploadResult := outcome(i);
      ghost var step := ServerStep(instance, uploadResult, autoDelete);
      report := report[instance.id := uploadResult.message];
      if !uploadResult.success {
        anyFailure := true;
      }
      if uploadResult.fatal {
        assert LoopState(report, anyFailure, effects) == Record(before, instance, step);
        ServerFoldExtend(toUpload, outcome, autoDelete, i);
        ServerRunAbortedAt(toUpload, outcome, autoDelete, i);
        return true, report, anyFailure, effects;
      }
      assert forall j | 0 <= j < i + 1 :: !outcome(j).fatal;
      if uploadResult.success {
        if instance.formId in autoDelete {
          effects := effects + [Delete(instance.id)];
        }
        effects := effects + [Track(ServerTrackAction)];
      }
      assert effects == before.effects + step.effects;
      assert LoopState(report, anyFailure, effects) == Record(before, instance, step);
      ServerFoldExtend(toUpload, outcome, autoDelete, i);
      i := i + 1;
    }
    assert toUpload[..i] == toUpload;
    ServerRunCompleted(toUpload, outcome, autoDelete);
    aborted := false;
  }

  /** The loop aborts exactly when some candidate's outcome is fatal, and then it stops at the first such one. */
  lemma ServerAbortsAtFirstFatal(xs: seq<Instance>, outcome: nat -> Outcome, autoDelete: set<string>)
    ensures var end := ServerRun(xs, outcome, autoDelete);
            var a := Attempted(|xs|, outcome);
            (end.aborted <==> exists j | 0 <= j < |xs| :: outcome(j).fatal)
            && (end.aborted ==> 0 < a && outcome(a - 1).fatal && forall j | 0 <= j < a - 1 :: !outcome(j).fatal)
            && (!end.aborted ==> a == |xs|)
  {
    var k := FirstFatalFrom(0, |xs|, outcome);
    if k == |xs| {
      assert forall j | 0 <= j < |xs| :: !outcome(j).fatal;
    }
  }

  /** Each attempted candidate has exactly its own outcome's message in the report; later candidates have none. */
  lemma ServerReportEntries(xs: seq<Instance>, outcome: nat -> Outcome, autoDelete: set<string>, j: int)
    requires DistinctIds(xs) && 0 <= j < |xs|
    ensures var report := ServerRun(xs, outcome, autoDelete).state.report;
            var a := Attempted(|xs|, outcome);
            report.Keys == Ids(xs[..a])
            && (j < a ==> xs[j].id in report && report[xs[j].id] == outcome(j).message)
            && (j >= a ==> xs[j].id !in report)
  {
    var a := Attempted(|xs|, outcome);
    var steps := ServerSteps(xs[..a], outcome, autoDelete);
    FoldReportKeys(xs[..a], steps);
    if j < a {
      assert DistinctIds(xs[..a]);
      FoldReportEntry(xs[..a], steps, j);
    } else {
      assert forall x | x in xs[..a] :: x.id != xs[j].id;
    }
  }

  /** anyFailure says whether some attempted candidate did not succeed. */
  lemma ServerAnyFailure(xs: seq<Instance>, outcome: nat -> Outcome, autoDelete: set<string>)
    ensures ServerRun(xs, outcome, autoDelete).state.anyFailure
            <==> exists j | 0 <= j < Attempted(|xs|, outcome) :: !outcome(j).success
  {
    var a := Attempted(|xs|, outcome);
    FoldAnyFailure(xs[..a], ServerSteps(xs[..a], outcome, autoDelete));
  }

  /**
   * The server branch writes no status itself (the uploader does), deletes candidate j exactly when it
   * was attempted, succeeded, was not fatal and its form is to be auto-deleted, and leaves every
   * candidate after the fatal one untouched.
   */
  lemma ServerEffectsOnRow(xs: seq<Instance>, outcome: nat -> Outcome, autoDelete: set<string>, j: int)
    requires DistinctIds(xs) && 0 <= j < |xs|
    ensures var effects := ServerRun(xs, outcome, autoDelete).state.effects;
            var a := Attempted(|xs|, outcome);
            (forall e | e in effects :: !e.SaveStatus? && !e.Notify?)
            && (Delete(xs[j].id) in effects
                <==> j < a && outcome(j).success && !outcome(j).fatal && xs[j].formId in autoDelete)
            && (j >= a ==> forall e | e in effects :: !Touches(e, xs[j].id))
  {
    var a := Attempted(|xs|, outcome);
    var effects := ServerRun(xs, outcome, autoDelete).state.effects;
    forall e | e in effects
      ensures !e.SaveStatus? && !e.Notify?
      ensures e.Delete? ==> exists k | 0 <= k < a :: e == Delete(xs[k].id)
                              && outcome(k).success && !outcome(k).fatal && xs[k].formId in autoDelete
    {
      ServerEffectShape(xs, outcome, autoDelete, e);
    }
    ServerEffectOrigin(xs, outcome, autoDelete, Delete(xs[j].id));
    if j < a && outcome(j).success && !outcome(j).fatal && xs[j].formId in autoDelete {
      assert Delete(xs[j].id) in ServerStep(xs[j], outcome(j), autoDelete).effects;
    }
  }

  /** An effect of the server loop is telemetry or the deletion of an attempted candidate after its non-fatal success. */
  lemma ServerEffectShape(xs: seq<Instance>, outcome: nat -> Outcome, autoDelete: set<string>, e: Effect)
    requires e in ServerRun(xs, outcome, autoDelete).state.effects
    ensures !e.SaveStatus? && !e.Notify?
    ensures e.Delete? ==> exists k | 0 <= k < Attempted(|xs|, outcome) :: e == Delete(xs[k].id)
                            && outcome(k).success && !outcome(k).fatal && xs[k].formId in autoDelete
  {
    ServerEffectOrigin(xs, outcome, autoDelete, e);
    var k :| 0 <= k < Attempted(|xs|, outcome) && e in ServerStep(xs[k], outcome(k), autoDelete).effects;
    ServerStepEffects(xs[k], outcome(k), autoDelete, e);
  }

  /** One server step reports the outcome's message, fails when the outcome is not a success, and has effects only after a non-fatal success. */
  lemma ServerStepOutcome(x: Instance, o: Outcome, autoDelete: set<string>)
    ensures var r := ServerStep(x, o, autoDelete);
            r.message == o.message && (r.failed <==> !o.success)
            && (r.effects != [] <==> o.success && !o.fatal)
            && (Delete(x.id) in r.effects <==> o.success && !o.fatal && x.formId in autoDelete)
  {
  }

  /** What one server step may emit: telemetry, and the deletion of its own instance after a non-fatal success. */
  lemma ServerStepEffects(x: Instance, o: Outcome, autoDelete: set<string>, e: Effect)
    requires e in ServerStep(x, o, autoDelete).effects
    ensures e == Track(ServerTrackAction) || (e == Delete(x.id) && x.formId in autoDelete)
    ensures !e.SaveStatus? && !e.Notify?
    ensures e.Delete? ==> e == Delete(x.id) && o.success && !o.fatal && x.formId in autoDelete
  {
  }

  /** Every effect of the server loop comes from the step of one attempted candidate, and every such step's effects are kept. */
  lemma ServerEffectOrigin(xs: seq<Instance>, outcome: nat -> Outcome, autoDelete: set<string>, e: Effect)
    ensures e in ServerRun(xs, outcome, autoDelete).state.effects
            <==> exists k | 0 <= k < Attempted(|xs|, outcome) :: e in ServerStep(xs[k], outcome(k), autoDelete).effects
  {
    var a := Attempted(|xs|, outcome);
    var steps := ServerSteps(xs[..a], outcome, autoDelete);
    FoldEffectOrigin(xs[..a], steps, e);
    assert forall k | 0 <= k < a :: steps[k] == ServerStep(xs[k], outcome(k), autoDelete);
  }

  /** Telemetry is sent for an attempted candidate exactly when its outcome is a non-fatal success. */
  lemma ServerTracksSuccesses(xs: seq<Instance>, outcome: nat -> Outcome, autoDelete: set<string>)
    ensures Track(ServerTrackAction) in ServerRun(xs, outcome, autoDelete).state.effects
            <==> exists j | 0 <= j < Attempted(|xs|, outcome) :: outcome(j).success && !outcome(j).fatal
  {
    var a := Attempted(|xs|, outcome);
    var steps := ServerSteps(xs[..a], outcome, autoDelete);
    FoldEffectOrigin(xs[..a], steps, Track(ServerTrackAction));
    forall j | 0 <= j < a
      ensures Track(ServerTrackAction) in steps[j].effects <==> outcome(j).success && !outcome(j).fatal
    {
      if outcome(j).success && !outcome(j).fatal {
        assert steps[j].effects[|steps[j].effects| - 1] == Track(ServerTrackAction);
      }
    }
  }
}
