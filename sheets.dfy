/** The Google Sheets branch of the worker: one pass over the candidates that never stops early. */
module SheetsUpload {
  import opened Wrappers
  import opened AutoSendPolicy
  import opened UploadLoop

  /** Stand-ins for texts the worker takes from string resources and from the uploader utilities. */
  const NotExactlyOneBlankForm: string := "not_exactly_one_blank_form_for_this_form_id"
  const DefaultSuccessfulText: string := "full submission successful"
  const SheetsTrackAction: string := "HTTP-Sheets auto"

  /** What uploadOneSubmission does for one instance: return, or throw an UploadException with its message and its cause's. */
  datatype SheetsResult = Uploaded | Raised(message: Option<string>, causeMessage: string)

  /** The forms-table rows with this form id and version, as the cursor for them lists them. */
  function BlankForms(forms: seq<Form>, formId: string, version: Option<string>): (r: seq<Form>)
    ensures forall f :: f in r <==> f in forms && f.formId == formId && f.version == version
    decreases |forms|
  {
    if forms == [] then []
    else
      var rest := BlankForms(forms[1..], formId, version);
      assert forall f :: f in forms <==> f == forms[0] || f in forms[1..];
      if forms[0].formId == formId && forms[0].version == version then [forms[0]] + rest else rest
  }

  /** Every matching row is found as often as the table holds it, so duplicate rows count towards the size. */
  lemma {:induction false} BlankFormsKeepDuplicates(forms: seq<Form>, formId: string, version: Option<string>, f: Form)
    ensures multiset(BlankForms(forms, formId, version))[f]
            == if f.formId == formId && f.version == version then multiset(forms)[f] else 0
    decreases |forms|
  {
    if forms != [] {
      var rest := BlankForms(forms[1..], formId, version);
      BlankFormsKeepDuplicates(forms[1..], formId, version, f);
      assert forms == [forms[0]] + forms[1..];
      assert multiset(forms) == multiset{forms[0]} + multiset(forms[1..]);
      if forms[0].formId == formId && forms[0].version == version {
        assert multiset([forms[0]] + rest) == multiset{forms[0]} + multiset(rest);
      }
    }
  }

  function BlankFormCount(forms: seq<Form>, x: Instance): nat
  {
    |BlankForms(forms, x.formId, x.version)|
  }

  /** The message, failure flag and effects of one instance of the Sheets loop. */
  function SheetsStep(x: Instance, blankForms: nat, result: SheetsResult, autoDelete: set<string>): (r: Step)
  {
    if blankForms != 1 then Step(NotExactlyOneBlankForm, false, [])
    else
      match result
      case Uploaded =>
        Step(DefaultSuccessfulText, false,
             [SaveStatus(x.id, Submitted)] + (if x.formId in autoDelete then [Delete(x.id)] else []) + [Track(SheetsTrackAction)])
      case Raised(message, cause) =>
        Step(if message.Some? then message.value else cause, true, [SaveStatus(x.id, SubmissionFailed)])
  }

  /**
   * What one Sheets step means: a failure only for an upload exception after exactly one blank form;
   * a mismatch has the mismatch message and no effect; otherwise the status write comes first, and
   * the instance is deleted only after an upload whose form is auto-deleted.
   */
  lemma SheetsStepOutcome(x: Instance, blankForms: nat, result: SheetsResult, autoDelete: set<string>)
    ensures var r := SheetsStep(x, blankForms, result, autoDelete);
            (r.failed <==> blankForms == 1 && result.Raised?)
            && (blankForms != 1 ==> r.message == NotExactlyOneBlankForm && r.effects == [])
            && (blankForms == 1 ==>
                  |r.effects| > 0 && r.effects[0] == SaveStatus(x.id, if result.Uploaded? then Submitted else SubmissionFailed))
            && (Delete(x.id) in r.effects <==> blankForms == 1 && result.Uploaded? && x.formId in autoDelete)
  {
  }

  /** A Sheets step writes only the row of its own instance and never notifies. */
  lemma SheetsStepEffects(x: Instance, blankForms: nat, result: SheetsResult, autoDelete: set<string>, e: Effect)
    requires e in SheetsStep(x, blankForms, result, autoDelete).effects
    ensures !e.Notify?
    ensures e.Track? ==> e == Track(SheetsTrackAction)
    ensures (e.SaveStatus? || e.Delete?) ==> e.id == x.id
  {
  }

  function SheetsSteps(xs: seq<Instance>, forms: seq<Form>, upload: nat -> SheetsResult, autoDelete: set<string>): (r: seq<Step>)
    ensures |r| == |xs|
    ensures forall j | 0 <= j < |xs| :: r[j] == SheetsStep(xs[j], BlankFormCount(forms, xs[j]), upload(j), autoDelete)
  {
    seq(|xs|, j requires 0 <= j < |xs| => SheetsStep(xs[j], BlankFormCount(forms, xs[j]), upload(j), autoDelete))
  }

  /** The state the Sheets loop ends in; upload(j) is the uploader's answer for the j-th candidate. */
  function SheetsRun(xs: seq<Instance>, forms: seq<Form>, upload: nat -> SheetsResult, autoDelete: set<string>): (r: LoopState)
    ensures r.report.Keys == Ids(xs)
  {
    var steps := SheetsSteps(xs, forms, upload, autoDelete);
    FoldReportKeys(xs, steps);
    Fold(xs, steps)
  }

  /** The loop state after i + 1 Sheets candidates, from the state after i. */
  lemma SheetsFoldExtend(xs: seq<Instance>, forms: seq<Form>, upload: nat -> SheetsResult, autoDelete: set<string>, i: nat)
    requires i < |xs|
    ensures SheetsRun(xs[..i + 1], forms, upload, autoDelete)
            == Record(SheetsRun(xs[..i], forms, upload, autoDelete), xs[i],
                      SheetsStep(xs[i], BlankFormCount(forms, xs[i]), upload(i), autoDelete))
  {
    var steps := SheetsSteps(xs, forms, upload, autoDelete);
    FoldExtend(xs, steps, i);
    assert steps[..i] == SheetsSteps(xs[..i], forms, upload, autoDelete);
    assert steps[..i + 1] == SheetsSteps(xs[..i + 1], forms, upload, autoDelete);
  }

  /** The Sheets loop of doWork, after account and folder checks succeeded. */
  method UploadViaSheets(toUpload: seq<Instance>, forms: seq<Form>, upload: nat -> SheetsResult, autoDelete: set<string>)
    returns (report: map<string, string>, anyFailure: bool, effects: seq<Effect>)
    ensures LoopState(report, anyFailure, effects) == SheetsRun(toUpload, forms, upload, autoDelete)
    ensures report.Keys == Ids(toUpload)
  {
    report, anyFailure, effects := map[], false, [];
    for i := 0 to |toUpload|
      invariant LoopState(report, anyFailure, effects) == SheetsRun(toUpload[..i], forms, upload, autoDelete)
    {
      ghost var before := LoopState(report, anyFailure, effects);
      var instance := toUpload[i];
      var blankForms := BlankForms(forms, instance.formId, instance.version);
      ghost var step := SheetsStep(instance, |blankForms|, upload(i), autoDelete);
      if |blankForms| != 1 {
        report := report[instance.id := NotExactlyOneBlankForm];
      } else {
        match upload(i)
        case Uploaded =>
          report := report[instance.id := DefaultSuccessfulText];
          effects := effects + [SaveStatus(instance.id, Submitted)];
          if instance.formId in autoDelete {
            effects := effects + [Delete(instance.id)];
          }
          effects := effects + [Track(SheetsTrackAction)];
        case Raised(message, cause) =>
          anyFailure := true;
          report := report[instance.id := if message.Some? then message.value else cause];
          effects := effects + [SaveStatus(instance.id, SubmissionFailed)];
      }
      assert effects == before.effects + step.effects;
      assert LoopState(report, anyFailure, effects) == Record(before, instance, step);
      SheetsFoldExtend(toUpload, forms, upload, autoDelete, i);
    }
    assert toUpload[..|toUpload|] == toUpload;
    FoldReportKeys(toUpload, SheetsSteps(toUpload, forms, upload, autoDelete));
  }

  /** The loop never stops early: every candidate gets a report entry, the one its own outcome dictates. */
  lemma SheetsReportEntry(xs: seq<Instance>, forms: seq<Form>, upload: nat -> SheetsResult, autoDelete: set<string>, j: int)
    requires DistinctIds(xs) && 0 <= j < |xs|
    ensures var report := SheetsRun(xs, forms, upload, autoDelete).report;
            xs[j].id in report &&
            report[xs[j].id] == if BlankFormCount(forms, xs[j]) != 1 then NotExactlyOneBlankForm
                                else match upload(j)
                                     case Uploaded => DefaultSuccessfulText
                                     case Raised(m, c) => if m.Some? then m.value else c
  {
    FoldReportEntry(xs, SheetsSteps(xs, forms, upload, autoDelete), j);
  }

  /** anyFailure records upload exceptions only; a blank-form mismatch does not set it. */
  lemma SheetsAnyFailure(xs: seq<Instance>, forms: seq<Form>, upload: nat -> SheetsResult, autoDelete: set<string>)
    ensures SheetsRun(xs, forms, upload, autoDelete).anyFailure
            <==> exists j | 0 <= j < |xs| :: BlankFormCount(forms, xs[j]) == 1 && upload(j).Raised?
  {
    var steps := SheetsSteps(xs, forms, upload, autoDelete);
    FoldAnyFailure(xs, steps);
    assert forall j | 0 <= j < |xs| :: steps[j].failed <==> BlankFormCount(forms, xs[j]) == 1 && upload(j).Raised?;
  }

  /** A success status write precedes every deletion. */
  lemma SheetsDeletesAfterSuccessWrite(xs: seq<Instance>, forms: seq<Form>, upload: nat -> SheetsResult, autoDelete: set<string>)
    ensures DeletesFollowSuccess(SheetsRun(xs, forms, upload, autoDelete).effects)
  {
    var steps := SheetsSteps(xs, forms, upload, autoDelete);
    forall j | 0 <= j < |steps| ensures DeletesFollowSuccess(steps[j].effects)
    {
      var es := steps[j].effects;
      forall p | 0 <= p < |es| && es[p].Delete?
        ensures exists q | 0 <= q < p :: es[q] == SaveStatus(es[p].id, Submitted)
      {
        assert es[0] == SaveStatus(es[p].id, Submitted);
      }
    }
    FoldDeletesFollowSuccess(xs, steps);
  }

  /**
   * How the instances table ends up for candidate j: with exactly one blank form its status is
   * submitted or submissionFailed after its outcome and it is deleted only after a success with
   * auto-delete; with a blank-form mismatch its row is left as it was.
   */
  lemma SheetsFinalRow(s: Store, xs: seq<Instance>, forms: seq<Form>, upload: nat -> SheetsResult, autoDelete: set<string>, j: int)
    requires DistinctIds(xs) && 0 <= j < |xs|
    ensures var after := ApplyEffects(s, SheetsRun(xs, forms, upload, autoDelete).effects);
            var id := xs[j].id;
            RowView(after, id)
            == if BlankFormCount(forms, xs[j]) != 1 then RowView(s, id)
               else if upload(j).Uploaded? then (Some(Submitted), id in s.deleted || xs[j].formId in autoDelete)
               else (Some(SubmissionFailed), id in s.deleted)
  {
    var steps := SheetsSteps(xs, forms, upload, autoDelete);
    assert StepsTouchOwnRow(xs, steps);
    FoldRowIsOwnStep(s, xs, steps, j);
    SheetsStepRow(s, xs[j], BlankFormCount(forms, xs[j]), upload(j), autoDelete);
  }

  /** How one Sheets step alone leaves the row of its instance. */
  lemma SheetsStepRow(s: Store, x: Instance, blankForms: nat, result: SheetsResult, autoDelete: set<string>)
    ensures RowView(ApplyEffects(s, SheetsStep(x, blankForms, result, autoDelete).effects), x.id)
            == if blankForms != 1 then RowView(s, x.id)
               else if result.Uploaded? then (Some(Submitted), x.id in s.deleted || x.formId in autoDelete)
               else (Some(SubmissionFailed), x.id in s.deleted)
  {
    var es := SheetsStep(x, blankForms, result, autoDelete).effects;
    if blankForms == 1 {
      if result.Uploaded? {
        var s1 := ApplyEffect(s, SaveStatus(x.id, Submitted));
        if x.formId in autoDelete {
          assert es == [SaveStatus(x.id, Submitted), Delete(x.id), Track(SheetsTrackAction)];
          assert es[..2][..1] == [SaveStatus(x.id, Submitted)];
          assert es[..1][..0] == [];
          assert ApplyEffects(s, es[..1]) == s1;
          assert ApplyEffects(s, es[..2]) == ApplyEffect(s1, Delete(x.id));
        } else {
          assert es == [SaveStatus(x.id, Submitted), Track(SheetsTrackAction)];
          assert es[..1] == [SaveStatus(x.id, Submitted)];
          assert es[..1][..0] == [];
          assert ApplyEffects(s, es[..1]) == s1;
        }
      } else {
        assert es == [SaveStatus(x.id, SubmissionFailed)];
      }
    }
  }

  /** A Sheets run writes nothing to the row of an id that is not among the candidates. */
  lemma SheetsOtherRowsUntouched(s: Store, xs: seq<Instance>, forms: seq<Form>, upload: nat -> SheetsResult, autoDelete: set<string>, id: string)
    requires id !in Ids(xs)
    ensures RowView(ApplyEffects(s, SheetsRun(xs, forms, upload, autoDelete).effects), id) == RowView(s, id)
  {
    var steps := SheetsSteps(xs, forms, upload, autoDelete);
    assert StepsTouchOwnRow(xs, steps);
    assert forall k | 0 <= k < |xs| :: xs[k].id in Ids(xs);
    FoldUntouched(xs, steps, id);
    ApplyUntouched(s, Fold(xs, steps).effects, id);
  }
}
