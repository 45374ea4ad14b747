/** doWork of the auto-send worker: the run gate, candidate selection and dispatch to one of the two loops. */
module AutoSendWorker {
  import opened Wrappers
  import opened AutoSendNetwork
  import opened AutoSendPolicy
  import opened UploadLoop
  import opened SheetsUpload
  import opened ServerUpload

  /** The worker's result to the scheduler. */
  datatype WorkResult = Success | Retry | Failure

  /** Which of the two protocol string resources the protocol preference equals, if either. */
  datatype Protocol = GoogleSheets | OdkDefault | OtherProtocol

  /** Stand-in for the permissions-failure string resource. */
  const OdkPermissionsFail: string := "odk_permissions_fail"

  /** Everything doWork reads from the device, the preferences, the tables and the uploaders. */
  datatype Env = Env(
    storageMounted: bool,             // external storage state is MEDIA_MOUNTED
    network: Network,                 // the active network
    autoSendSetting: string,          // the auto-send preference string
    autoSendEnabled: bool,            // isAutoSendEnabled()
    protocol: Protocol,
    forms: seq<Form>,                 // the forms table
    finalized: seq<Instance>,         // the finalized-instances cursor
    accountsPermission: bool,         // GET_ACCOUNTS granted
    selectedAccount: string,
    submissionsFolderUnique: bool,    // submissionsFolderExistsAndIsUnique()
    autoDelete: set<string>,          // form ids for which formShouldBeAutoDeleted answers true
    sheetsUpload: nat -> SheetsResult,  // the Sheets uploader's result for the j-th candidate
    serverOutcome: nat -> Outcome)      // the server uploader's result for the j-th candidate

  datatype GateDecision = Stop(result: WorkResult) | Proceed

  /** The run gate at the top of doWork. */
  function Gate(storageMounted: bool, networkMatches: bool, someFormForces: bool): (d: GateDecision)
    ensures d == Stop(Retry) <==> !networkMatches && (!storageMounted || !someFormForces)
    ensures d == Stop(Failure) <==> !storageMounted && networkMatches
    ensures d == Proceed <==> storageMounted && (networkMatches || someFormForces)
    ensures d.Stop? ==> d.result != Success
  {
    if !storageMounted || !(networkMatches || someFormForces) then
      if !networkMatches then Stop(Retry) else Stop(Failure)
    else
      Proceed
  }

  /** What one run returns and does; permissionDenied says the resultMessage field was set. */
  datatype RunOutcome = RunOutcome(result: WorkResult, effects: seq<Effect>, permissionDenied: bool)

  function Candidates(env: Env): seq<Instance>
  {
    AutoSendCandidates(env.finalized, env.forms, env.autoSendEnabled)
  }

  function GateOf(env: Env): GateDecision
  {
    Gate(env.storageMounted, NetworkTypeMatchesAutoSendSetting(env.network, env.autoSendSetting),
         AnyFormForcesAutoSend(env.forms))
  }

  /** The Sheets branch once there are candidates. */
  function RunSheets(env: Env, toUpload: seq<Instance>): (r: RunOutcome)
    ensures r.result != Retry
    ensures r.permissionDenied <==> !env.accountsPermission
    ensures r.result == Failure <==> env.accountsPermission && (env.selectedAccount == "" || !env.submissionsFolderUnique)
    ensures r.result == Failure ==> r.effects == []
    ensures r.result == Success ==> r.effects != [] && r.effects[|r.effects| - 1].Notify?
  {
    if !env.accountsPermission then RunOutcome(Success, [Notify(false, map[])], true)
    else if env.selectedAccount == "" || !env.submissionsFolderUnique then RunOutcome(Failure, [], false)
    else
      var st := SheetsRun(toUpload, env.forms, env.sheetsUpload, env.autoDelete);
      RunOutcome(Success, st.effects + [Notify(st.anyFailure, st.report)], false)
  }

  /** The server branch once there are candidates: FAILURE after a fatal outcome, SUCCESS otherwise. */
  function RunServer(env: Env, toUpload: seq<Instance>): (r: RunOutcome)
    ensures r.result == Failure <==> exists j | 0 <= j < |toUpload| :: env.serverOutcome(j).fatal
    ensures r.result != Retry && !r.permissionDenied
    ensures r.effects != [] && r.effects[|r.effects| - 1].Notify?
  {
    var end := ServerRun(toUpload, env.serverOutcome, env.autoDelete);
    RunOutcome(if end.aborted then Failure else Success,
               end.state.effects + [Notify(end.state.anyFailure, end.state.report)], false)
  }

  /** The specification of doWork. */
  function Run(env: Env): (r: RunOutcome)
    ensures r.result == Retry <==> GateOf(env) == Stop(Retry)
    ensures GateOf(env).Stop? ==> r == RunOutcome(GateOf(env).result, [], false)
    ensures r.permissionDenied
            <==> GateOf(env) == Proceed && Candidates(env) != [] && env.protocol == GoogleSheets && !env.accountsPermission
  {
    match GateOf(env)
    case Stop(r) => RunOutcome(r, [], false)
    case Proceed =>
      var toUpload := Candidates(env);
      if toUpload == [] then RunOutcome(Success, [], false)
      else
        match env.protocol
        case GoogleSheets => RunSheets(env, toUpload)
        case OdkDefault => RunServer(env, toUpload)
        case OtherProtocol => RunOutcome(Success, [Notify(false, map[])], false)
  }

  class Worker {
    /** The run-wide message set when the accounts permission is missing. */
    var resultMessage: Option<string>

    constructor()
      ensures resultMessage == None
    {
      resultMessage := None;
    }

    /** doWork: returns the result for the scheduler and the effects in the order it performs them. */
    method DoWork(env: Env) returns (result: WorkResult, effects: seq<Effect>)
      modifies this
      ensures result == Run(env).result && effects == Run(env).effects
      ensures resultMessage == if Run(env).permissionDenied then Some(OdkPermissionsFail) else old(resultMessage)
    {
      var matches := NetworkTypeMatchesAutoSendSetting(env.network, env.autoSendSetting);
      var proceed := env.storageMounted;
      if proceed && !matches {
        proceed := AtLeastOneFormSpecifiesAutoSend(env.forms);
      }
      if !proceed {
        if !NetworkTypeMatchesAutoSendSetting(env.network, env.autoSendSetting) {
          return Retry, [];
        }
        return Failure, [];
      }
      assert GateOf(env) == Proceed;

      var toUpload := GetInstancesToAutoSend(env.finalized, env.forms, env.autoSendEnabled);
      assert toUpload == Candidates(env);
      if toUpload == [] {
        return Success, [];
      }

      var report: map<string, string> := map[];
      var anyFailure := false;
      effects := [];
      match env.protocol {
        case GoogleSheets =>
          assert Run(env) == RunSheets(env, toUpload);
          if env.accountsPermission {
            if env.selectedAccount == "" {
              return Failure, [];
            }
            if !env.submissionsFolderUnique {
              return Failure, [];
            }
            report, anyFailure, effects := UploadViaSheets(toUpload, env.forms, env.sheetsUpload, env.autoDelete);
          } else {
            resultMessage := Some(OdkPermissionsFail);
          }
        case OdkDefault =>
          assert Run(env) == RunServer(env, toUpload);
          var aborted;
          aborted, report, anyFailure, effects := UploadViaServer(toUpload, env.serverOutcome, env.autoDelete);
          if aborted {
            return Failure, effects + [Notify(anyFailure, report)];
          }
        case OtherProtocol =>
      }
      effects := effects + [Notify(anyFailure, report)];
      return Success, effects;
    }
  }

  /** The gate's two early exits return without touching the store, the report or the notification. */
  lemma RunEarlyExits(env: Env)
    ensures var matches := NetworkTypeMatchesAutoSendSetting(env.network, env.autoSendSetting);
            var forces := AnyFormForcesAutoSend(env.forms);
            (Run(env).result == Retry <==> !matches && (!env.storageMounted || !forces))
            && (Run(env).result == Retry ==> Run(env).effects == [] && !Run(env).permissionDenied)
            && (!env.storageMounted && matches ==> Run(env) == RunOutcome(Failure, [], false))
  {
  }

  /** With nothing to send the run succeeds before any write or notification. */
  lemma RunWithNoCandidates(env: Env)
    requires GateOf(env) == Proceed && Candidates(env) == []
    ensures Run(env) == RunOutcome(Success, [], false)
  {
  }

  /** Sheets: a missing account or an unusable submissions folder fails the run before any instance is handled. */
  lemma RunSheetsPreconditions(env: Env)
    requires GateOf(env) == Proceed && Candidates(env) != []
    requires env.protocol == GoogleSheets && env.accountsPermission
    ensures Run(env).result == Failure <==> env.selectedAccount == "" || !env.submissionsFolderUnique
    ensures Run(env).result == Failure ==> Run(env).effects == []
  {
  }

  /**
   * Without the accounts permission the run still succeeds and notifies with an empty report:
   * the permission message stored in resultMessage is not what the notification is built from.
   */
  lemma RunSheetsWithoutPermission(env: Env)
    requires GateOf(env) == Proceed && Candidates(env) != []
    requires env.protocol == GoogleSheets && !env.accountsPermission
    ensures Run(env) == RunOutcome(Success, [Notify(false, map[])], true)
  {
  }

  /** Server: the run fails exactly when some candidate's outcome is fatal; a completed loop succeeds whatever anyFailure says. */
  lemma RunServerResult(env: Env)
    requires GateOf(env) == Proceed && Candidates(env) != [] && env.protocol == OdkDefault
    ensures Run(env).result == Failure <==> exists j | 0 <= j < |Candidates(env)| :: env.serverOutcome(j).fatal
    ensures Run(env).result == Success ==> Attempted(|Candidates(env)|, env.serverOutcome) == |Candidates(env)|
    ensures (forall j | 0 <= j < |Candidates(env)| :: !env.serverOutcome(j).fatal) ==> Run(env).result == Success
  {
    ServerAbortsAtFirstFatal(Candidates(env), env.serverOutcome, env.autoDelete);
  }

  /** A trace that ends in one notification with none before it. */
  predicate NotifiesOnlyLast(es: seq<Effect>)
  {
    (forall p | 0 <= p < |es| - 1 :: !es[p].Notify?) && (es != [] ==> es[|es| - 1].Notify?)
  }

  lemma NotifyAfterFold(xs: seq<Instance>, steps: seq<Step>, anyFailure: bool, report: map<string, string>)
    requires |steps| == |xs|
    requires forall j, e | 0 <= j < |steps| && e in steps[j].effects :: !e.Notify?
    ensures NotifiesOnlyLast(Fold(xs, steps).effects + [Notify(anyFailure, report)])
  {
    NoNotifyInFold(xs, steps);
  }

  /** A run notifies at most once, as its last effect. */
  lemma RunNotifiesLast(env: Env)
    ensures NotifiesOnlyLast(Run(env).effects)
  {
    if GateOf(env) == Proceed && Candidates(env) != [] {
      var toUpload := Candidates(env);
      match env.protocol
      case GoogleSheets => SheetsNotifiesLast(env, toUpload);
      case OdkDefault => ServerNotifiesLast(env, toUpload);
      case OtherProtocol =>
    }
  }

  lemma SheetsNotifiesLast(env: Env, toUpload: seq<Instance>)
    ensures NotifiesOnlyLast(RunSheets(env, toUpload).effects)
  {
    if env.accountsPermission && env.selectedAccount != "" && env.submissionsFolderUnique {
      var steps := SheetsSteps(toUpload, env.forms, env.sheetsUpload, env.autoDelete);
      var st := Fold(toUpload, steps);
      NotifyAfterFold(toUpload, steps, st.anyFailure, st.report);
    }
  }

  lemma ServerNotifiesLast(env: Env, toUpload: seq<Instance>)
    ensures NotifiesOnlyLast(RunServer(env, toUpload).effects)
  {
    var a := Attempted(|toUpload|, env.serverOutcome);
    var steps := ServerSteps(toUpload[..a], env.serverOutcome, env.autoDelete);
    var st := Fold(toUpload[..a], steps);
    NotifyAfterFold(toUpload[..a], steps, st.anyFailure, st.report);
  }

  lemma NoNotifyInFold(xs: seq<Instance>, steps: seq<Step>)
    requires |steps| == |xs|
    requires forall j, e | 0 <= j < |steps| && e in steps[j].effects :: !e.Notify?
    ensures forall p | 0 <= p < |Fold(xs, steps).effects| :: !Fold(xs, steps).effects[p].Notify?
  {
    forall p | 0 <= p < |Fold(xs, steps).effects|
      ensures !Fold(xs, steps).effects[p].Notify?
    {
      FoldEffectOrigin(xs, steps, Fold(xs, steps).effects[p]);
    }
  }
}
