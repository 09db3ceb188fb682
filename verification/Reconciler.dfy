/** One `Reconcile`: four functions run in order, two nested recovers around them, and at most one status write. */
module Reconciler {
  import opened PodModel
  import opened CustomResource
  import opened EventLog
  import opened Health

  datatype EnsureCall =
    | EnsureConfigmap | EnsureStatefulset | EnsureStatefulsetCluster | EnsureService
    | EnsureHeadlessService | EnsureClientService | EnsureMysqlConfigMap | EnsureJob

  /**
    What one reconcile meets outside the operator: the ensure call that panics if any, the StatefulSet found
    (an error, or its replicas), the pods listed (or an error), the clock, and whether a status write succeeds.
   */
  datatype World = World(brokenCall: Option<nat>, sts: Option<Option<int>>, pods: Option<seq<Pod>>,
                         clock: Clock, now: int, writeOk: bool)

  const GRACE_SECONDS := 180

  /** The API server as a reconcile sees it: the calls made in this step and the status it has stored. */
  class ApiServer {
    var calls: seq<EnsureCall>
    var stored: Status

    constructor (stored: Status)
      ensures calls == [] && this.stored == stored
    {
      this.calls, this.stored := [], stored;
    }

    method Ensure(call: EnsureCall, w: World) returns (r: Outcome<()>)
      modifies this`calls
      ensures calls == old(calls) + [call]
      ensures r == if w.brokenCall == Some(|old(calls)|) then Panicked(OtherPanic) else Returned(())
    {
      r := if w.brokenCall == Some(|calls|) then Panicked(OtherPanic) else Returned(());
      calls := calls + [call];
    }

    /** `Status().Update`: true when there was no error. */
    method WriteStatus(status: Status, w: World) returns (ok: bool)
      modifies this`stored
      ensures ok == w.writeOk
      ensures stored == if ok then status else old(stored)
    {
      if w.writeOk {
        stored := status;
      }
      ok := w.writeOk;
    }
  }

  // ---------------------------------------------------------------- ensuring resources

  function Defaulted(spec: Spec): Spec {
    spec.(kind := if spec.kind == "" then "standalone" else spec.kind,
          databaseType := if spec.databaseType == "" then "embedded" else spec.databaseType)
  }

  function DatabasePlan(spec: Spec): seq<EnsureCall> {
    if spec.databaseType == "mysql" && spec.mysqlInitImage != "" then [EnsureMysqlConfigMap, EnsureJob] else []
  }

  function ConfigPlan(spec: Spec): seq<EnsureCall> {
    if spec.config != "" then [EnsureConfigmap] else []
  }

  /** The calls a mode asks for, in order; an unknown mode is a parameter error. */
  function Plan(spec: Spec): Outcome<seq<EnsureCall>> {
    if spec.kind == "standalone" then
      Returned(ConfigPlan(spec) + [EnsureStatefulset, EnsureService] + DatabasePlan(spec))
    else if spec.kind == "cluster" then
      Returned(ConfigPlan(spec) + [EnsureStatefulsetCluster, EnsureHeadlessService, EnsureClientService]
          + DatabasePlan(spec))
    else
      Panicked(OperatorError(CODE_PARAMETER_ERROR, "parameter error"))
  }

  predicate Breaks(plan: seq<EnsureCall>, broken: Option<nat>) { broken.Some? && broken.value < |plan| }

  /** The calls made: all of them, or those up to and including the one that panics. */
  function Made(plan: seq<EnsureCall>, broken: Option<nat>): seq<EnsureCall> {
    if Breaks(plan, broken) then plan[..broken.value + 1] else plan
  }

  method ValidationField(nacos: Nacos)
    modifies nacos`spec
    ensures nacos.spec == Defaulted(old(nacos.spec))
  {
    if nacos.spec.kind == "" {
      nacos.spec := nacos.spec.(kind := "standalone");
    }
    if nacos.spec.databaseType == "" {
      nacos.spec := nacos.spec.(databaseType := "embedded");
    }
  }

  method MakeEnsure(nacos: Nacos, api: ApiServer, w: World) returns (r: Outcome<()>)
    requires api.calls == []
    modifies nacos`spec, api`calls
    ensures nacos.spec == Defaulted(old(nacos.spec))
    ensures var plan := Plan(Defaulted(old(nacos.spec)));
      if plan.Panicked? then r == Panicked(plan.panic) && api.calls == []
      else api.calls == Made(plan.value, w.brokenCall)
           && r == if Breaks(plan.value, w.brokenCall) then Panicked(OtherPanic) else Returned(())
  {
    ValidationField(nacos);
    if nacos.spec.kind == "standalone" {
      r := EnsureStandalone(nacos, api, w);
    } else if nacos.spec.kind == "cluster" {
      r := EnsureCluster(nacos, api, w);
    } else {
      r := Panicked(OperatorError(CODE_PARAMETER_ERROR, "parameter error"));
    }
  }

  method EnsureStandalone(nacos: Nacos, api: ApiServer, w: World) returns (r: Outcome<()>)
    requires api.calls == []
    modifies api`calls
    ensures var plan := ConfigPlan(nacos.spec) + [EnsureStatefulset, EnsureService] + DatabasePlan(nacos.spec);
      && api.calls == Made(plan, w.brokenCall)
      && r == if Breaks(plan, w.brokenCall) then Panicked(OtherPanic) else Returned(())
  {
    hide DatabasePlan;
    if nacos.spec.config != "" {
      var _ :- api.Ensure(EnsureConfigmap, w);
    }
    var _ :- api.Ensure(EnsureStatefulset, w);
    var _ :- api.Ensure(EnsureService, w);
    r := EnsureDatabase(nacos, api, w);
  }

  method EnsureCluster(nacos: Nacos, api: ApiServer, w: World) returns (r: Outcome<()>)
    requires api.calls == []
    modifies api`calls
    ensures var plan := ConfigPlan(nacos.spec) + [EnsureStatefulsetCluster, EnsureHeadlessService, EnsureClientService]
                        + DatabasePlan(nacos.spec);
      && api.calls == Made(plan, w.brokenCall)
      && r == if Breaks(plan, w.brokenCall) then Panicked(OtherPanic) else Returned(())
  {
    hide DatabasePlan;
    if nacos.spec.config != "" {
      var _ :- api.Ensure(EnsureConfigmap, w);
    }
    var _ :- api.Ensure(EnsureStatefulsetCluster, w);
    var _ :- api.Ensure(EnsureHeadlessService, w);
    var _ :- api.Ensure(EnsureClientService, w);
    r := EnsureDatabase(nacos, api, w);
  }

  method EnsureDatabase(nacos: Nacos, api: ApiServer, w: World) returns (r: Outcome<()>)
    requires w.brokenCall.Some? ==> |api.calls| <= w.brokenCall.value
    modifies api`calls
    ensures var all := old(api.calls) + DatabasePlan(nacos.spec);
      && api.calls == Made(all, w.brokenCall)
      && r == if Breaks(all, w.brokenCall) then Panicked(OtherPanic) else Returned(())
  {
    if nacos.spec.databaseType == "mysql" && nacos.spec.mysqlInitImage != "" {
      var _ :- api.Ensure(EnsureMysqlConfigMap, w);
      var _ :- api.Ensure(EnsureJob, w);
    }
    return Returned(());
  }

  // ---------------------------------------------------------------- the four functions

  /** A new instance only moves to Creating; the panic makes the handler store that. */
  method PreCheck(nacos: Nacos) returns (r: Outcome<()>)
    modifies nacos`status
    ensures nacos.status == if old(nacos.status.phase).PhaseNone? then old(nacos.status).(phase := PhaseCreating)
        else old(nacos.status)
    ensures r == if old(nacos.status.phase).PhaseNone? then Panicked(OperatorError(CODE_NORMAL, "")) else Returned(())
  {
    match nacos.status.phase {
      case PhaseNone =>
        nacos.status := nacos.status.(phase := PhaseCreating);
        return Panicked(OperatorError(CODE_NORMAL, ""));
      case _ =>
        return Returned(());
    }
  }

  function RunningCall(w: World): Call { Call(CODE_NORMAL, "", true, w.clock) }

  function FailureCall(code: int, msg: string, w: World): Call { Call(code, msg, false, w.clock) }

  method UpdateStatusRunning(nacos: Nacos, api: ApiServer, w: World) returns (r: Outcome<()>)
    modifies nacos`status, api`stored
    ensures nacos.status
        == old(nacos.status).(events := Record(old(nacos.status.events), RunningCall(w)), phase := PhaseRunning)
    ensures api.stored == if w.writeOk then nacos.status else old(api.stored)
    ensures r == if w.writeOk then Returned(()) else Panicked(OtherPanic)
  {
    UpdateLastEvent(nacos, CODE_NORMAL, "", true, w.clock);
    nacos.status := nacos.status.(phase := PhaseRunning);
    var ok := api.WriteStatus(nacos.status, w);
    r := if ok then Returned(()) else Panicked(OtherPanic);
  }

  /** How the four functions end: with or without a panic, the status in memory, and the calls made. */
  datatype Attempt = Attempt(outcome: Outcome<()>, status: Status, calls: seq<EnsureCall>)

  /** The attempt up to the point where it would store Running. */
  function Try(status: Status, spec: Spec, w: World): Attempt {
    if status.phase.PhaseNone? then
      Attempt(Panicked(OperatorError(CODE_NORMAL, "")), status.(phase := PhaseCreating), [])
    else
      match Plan(Defaulted(spec))
      case Panicked(p) => Attempt(Panicked(p), status, [])
      case Returned(plan) =>
        if Breaks(plan, w.brokenCall) then Attempt(Panicked(OtherPanic), status, Made(plan, w.brokenCall))
        else
          match KindCheck(spec.replicas, w.sts, w.pods)
          case Panicked(p) => Attempt(Panicked(p), status, plan)
          case Returned(ready) =>
            var scan := ScanPods(status.version, ready, spec.replicas.value);
            var checked := status.(conditions := scan.conditions, version := scan.version);
            if scan.failure.Some? then Attempt(Panicked(OperatorError(CODE_CLUSTER_FAILE, scan.failure.value)),
                checked, plan)
            else Attempt(Returned(()), checked, plan)
  }

  method CheckAndMakeHeal(nacos: Nacos, w: World) returns (r: Outcome<()>)
    modifies nacos`status
    ensures match KindCheck(nacos.spec.replicas, w.sts, w.pods)
      case Panicked(p) => r == Panicked(p) && nacos.status == old(nacos.status)
      case Returned(ready) =>
        var scan := ScanPods(old(nacos.status.version), ready, nacos.spec.replicas.value);
        && nacos.status == old(nacos.status).(conditions := scan.conditions, version := scan.version)
        && r == if scan.failure.Some? then Panicked(OperatorError(CODE_CLUSTER_FAILE, scan.failure.value))
            else Returned(())
  {
    var pods :- CheckKind(nacos, w.sts, w.pods);
    r := CheckNacos(nacos, pods);
  }

  method RunFunctions(nacos: Nacos, api: ApiServer, w: World) returns (r: Outcome<()>)
    requires api.calls == []
    modifies nacos, api
    ensures var a := Try(old(nacos.status), old(nacos.spec), w);
      && api.calls == a.calls
      && (a.outcome.Panicked? ==> r == a.outcome && nacos.status == a.status && api.stored == old(api.stored))
      && (a.outcome.Returned? ==>
            var s := a.status.(events := Record(a.status.events, RunningCall(w)), phase := PhaseRunning);
            && r == (if w.writeOk then Returned(()) else Panicked(OtherPanic))
            && api.stored == if w.writeOk then s else old(api.stored))
  {
    var _ :- PreCheck(nacos);
    var _ :- MakeEnsure(nacos, api, w);
    var _ :- CheckAndMakeHeal(nacos, w);
    r := UpdateStatusRunning(nacos, api, w);
  }

  // ---------------------------------------------------------------- the handlers

  method UpdateExceptionStatus(nacos: Nacos, api: ApiServer, code: int, msg: string, w: World)
    modifies nacos`status, api`stored
    ensures nacos.status == old(nacos.status).(events := Record(old(nacos.status.events), FailureCall(code, msg, w)),
        phase := PhaseFailed)
    ensures api.stored == if w.writeOk then nacos.status else old(api.stored)
  {
    UpdateLastEvent(nacos, code, msg, false, w.clock);
    nacos.status := nacos.status.(phase := PhaseFailed);
    var ok := api.WriteStatus(nacos.status, w);
  }

  /** `globalExceptHandle`: it may panic itself when the plain status write fails. */
  method GlobalExceptHandle(panic: Panic, nacos: Nacos, api: ApiServer, w: World) returns (r: Outcome<()>)
    modifies nacos`status, api`stored
    ensures api.stored == if w.writeOk && Handled(panic, old(nacos.status), nacos.created, w).Some?
                          then Handled(panic, old(nacos.status), nacos.created, w).value else old(api.stored)
    ensures nacos.status == match Handled(panic, old(nacos.status), nacos.created, w)
                            case Some(handled) => handled
                            case None => old(nacos.status)
    ensures r == if panic.OperatorError? && panic.code == CODE_NORMAL && !w.writeOk then Panicked(OtherPanic)
        else Returned(())
  {
    if panic.OperatorError? {
      if panic.code == CODE_NORMAL {
        var ok := api.WriteStatus(nacos.status, w);
        return if ok then Returned(()) else Panicked(OtherPanic);
      }
      if nacos.status.phase != PhaseCreating || nacos.created + GRACE_SECONDS < w.now {
        UpdateExceptionStatus(nacos, api, panic.code, panic.msg, w);
      }
    }
    return Returned(());
  }

  /** The status the handler tries to store for a panic, if it tries at all. */
  function Handled(panic: Panic, status: Status, created: int, w: World): Option<Status> {
    if panic.OtherPanic? then None
    else if panic.code == CODE_NORMAL then Some(status)
    else if status.phase != PhaseCreating || created + GRACE_SECONDS < w.now then
      Some(status.(events := Record(status.events, FailureCall(panic.code, panic.msg, w)), phase := PhaseFailed))
    else None
  }

  // ---------------------------------------------------------------- one step

  /** What a step returns, what status it stored, and the calls it made. */
  datatype StepResult = StepResult(ok: bool, written: Option<Status>, calls: seq<EnsureCall>)

  function Step(status: Status, spec: Spec, created: int, w: World): StepResult {
    var a := Try(status, spec, w);
    var attempted :=
      if a.outcome.Returned? then Some(a.status.(events := Record(a.status.events, RunningCall(w)),
          phase := PhaseRunning))
      else Handled(a.outcome.panic, a.status, created, w);
    StepResult(a.outcome.Returned? && w.writeOk, if w.writeOk then attempted else None, a.calls)
  }

  method ReconcileWork(nacos: Nacos, api: ApiServer, w: World) returns (ok: bool)
    requires api.calls == []
    modifies nacos, api
    ensures var s := Step(old(nacos.status), old(nacos.spec), nacos.created, w);
      && ok == s.ok
      && api.calls == s.calls
      && api.stored == if s.written.Some? then s.written.value else old(api.stored)
  {
    var r := RunFunctions(nacos, api, w);
    if r.Panicked? {
      var handled := GlobalExceptHandle(r.panic, nacos, api, w);
      // A panic of the handler itself is recovered a second time and only logged.
      return false;
    }
    return true;
  }

  datatype Fetch = NotFound | FetchError | Found(created: int, spec: Spec)

  datatype Result = Result(requeueAfter: int, failed: bool)

  const RETRY_SECONDS := 5

  /** One reconcile request: what fetching the instance gives, and the world it then meets. */
  datatype Turn = Turn(fetch: Fetch, w: World)

  function TurnStep(status: Status, turn: Turn): StepResult {
    if turn.fetch.Found? then Step(status, turn.fetch.spec, turn.fetch.created, turn.w) else StepResult(false, None, [])
  }

  /** The stored status after one turn. */
  function After(status: Status, turn: Turn): Status {
    if TurnStep(status, turn).written.Some? then TurnStep(status, turn).written.value else status
  }

  function Answer(status: Status, turn: Turn): Result {
    Result(if turn.fetch.Found? && !TurnStep(status, turn).ok then RETRY_SECONDS else 0, turn.fetch.FetchError?)
  }

  method Reconcile(turn: Turn, api: ApiServer) returns (result: Result)
    requires api.calls == []
    modifies api
    ensures api.calls == TurnStep(old(api.stored), turn).calls
    ensures api.stored == After(old(api.stored), turn)
    ensures result == Answer(old(api.stored), turn)
  {
    match turn.fetch {
      case NotFound => return Result(0, false);
      case FetchError => return Result(0, true);
      case Found(created, spec) =>
        var instance := new Nacos(created, spec, api.stored);
        var ok := ReconcileWork(instance, api, turn.w);
        return Result(if ok then 0 else RETRY_SECONDS, false);
    }
  }
}
