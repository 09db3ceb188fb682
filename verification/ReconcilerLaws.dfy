/** What every run of reconcile turns keeps, starting from a new instance. */
module ReconcilerLaws {
  import opened PodModel
  import opened CustomResource
  import opened EventLog
  import opened Health
  import opened HealthLaws
  import opened Reconciler

  const NEW_STATUS := Status(PhaseNone, [], [], "")

  /** The stored status after these turns. */
  function StatusAfter(turns: seq<Turn>): Status {
    if turns == [] then NEW_STATUS else After(StatusAfter(turns[..|turns| - 1]), turns[|turns| - 1])
  }

  function Ready(w: World): seq<Pod> { if w.pods.None? then [] else ReadyPods(w.pods.value) }

  /**
    The cluster is as it should be: replicas agree, enough pods are ready, and they all report one full, live
    cluster.
   */
  ghost predicate Evidence(spec: Spec, w: World) {
    && spec.replicas.Some? && w.sts == Some(spec.replicas)
    && |Ready(w)| >= Half(spec.replicas.value + 1)
    && AllUp(Ready(w), spec.replicas.value)
    && Agreed(AllLeaders(Ready(w)))
  }

  ghost predicate EnsuresPass(spec: Spec, w: World) {
    Plan(Defaulted(spec)).Returned? && !Breaks(Plan(Defaulted(spec)).value, w.brokenCall)
  }

  ghost predicate StoresRunning(r: StepResult) { r.written.Some? && r.written.value.phase == PhaseRunning }

  /**
    A step succeeds exactly when it starts past None, every resource is ensured, the cluster gives full
    evidence and the write goes through; and success is the same as storing Running.
   */
  lemma StepOkIff(status: Status, spec: Spec, created: int, w: World)
    ensures Step(status, spec, created, w).ok <==>
      !status.phase.PhaseNone? && EnsuresPass(spec, w) && Evidence(spec, w) && w.writeOk
    ensures Step(status, spec, created, w).ok <==> StoresRunning(Step(status, spec, created, w))
  {
    if !status.phase.PhaseNone? && EnsuresPass(spec, w) && KindCheck(spec.replicas, w.sts, w.pods).Returned? {
      CheckCompletesIff(status.version, Ready(w), spec.replicas.value);
    }
  }

  // ---------------------------------------------------------------- the calls of a step

  /** The step gets as far as ensuring resources, and none of the calls breaks. */
  predicate EnsuresAll(status: Status, turn: Turn) {
    turn.fetch.Found? && status.phase != PhaseNone && turn.w.brokenCall.None?
  }

  function IfAsked(asked: bool, calls: seq<EnsureCall>): seq<EnsureCall> { if asked then calls else [] }

  /** Kind "standalone", or none given: the StatefulSet, then its service; around them what the resource asks for. */
  lemma StandaloneCalls(status: Status, turn: Turn)
    requires EnsuresAll(status, turn) && turn.fetch.spec.kind in {"", "standalone"}
    ensures var spec := turn.fetch.spec;
      TurnStep(status, turn).calls ==
        IfAsked(spec.config != "", [EnsureConfigmap]) + [EnsureStatefulset, EnsureService]
        + IfAsked(spec.databaseType == "mysql" && spec.mysqlInitImage != "", [EnsureMysqlConfigMap, EnsureJob])
  {
    hide KindCheck, ScanPods;
  }

  /** Kind "cluster": the clustered StatefulSet, the headless service, the client service. */
  lemma ClusterCalls(status: Status, turn: Turn)
    requires EnsuresAll(status, turn) && turn.fetch.spec.kind == "cluster"
    ensures var spec := turn.fetch.spec;
      TurnStep(status, turn).calls ==
        IfAsked(spec.config != "", [EnsureConfigmap])
        + [EnsureStatefulsetCluster, EnsureHeadlessService, EnsureClientService]
        + IfAsked(spec.databaseType == "mysql" && spec.mysqlInitImage != "", [EnsureMysqlConfigMap, EnsureJob])
  {
    hide KindCheck, ScanPods;
  }

  /** Any other kind, no instance, or an instance still in None: no call. */
  lemma NoCalls(status: Status, turn: Turn)
    requires turn.fetch.Found? && status.phase != PhaseNone ==> turn.fetch.spec.kind !in {"", "standalone", "cluster"}
    ensures TurnStep(status, turn).calls == []
  {
    hide KindCheck, ScanPods;
  }

  /** A call that breaks is the last: up to it the calls are those made otherwise, and a later number breaks none. */
  lemma BrokenCallIsLast(status: Status, turn: Turn, n: nat)
    requires turn.w.brokenCall.None?
    ensures var all := TurnStep(status, turn).calls;
            var broken := TurnStep(status, turn.(w := turn.w.(brokenCall := Some(n))));
            broken.calls == (if n < |all| then all[..n + 1] else all)
            && (n < |all| ==> !broken.ok && broken.written.None?)
  {
    hide KindCheck, ScanPods;
  }

  // ---------------------------------------------------------------- what a step stores

  /** The mode is one the operator knows; none stands for standalone. */
  predicate KnownKind(spec: Spec) { spec.kind in {"", "standalone", "cluster"} }

  /** The StatefulSet has the resource's replicas, and at least half of them are ready. */
  predicate EnoughReady(spec: Spec, w: World) {
    && spec.replicas.Some? && w.sts == Some(spec.replicas)
    && |Ready(w)| >= Half(spec.replicas.value + 1)
  }

  /** The first thing stored of an instance is that it is being created, and nothing else changes. */
  lemma FirstStored(status: Status, turn: Turn)
    requires turn.fetch.Found? && status.phase == PhaseNone
    ensures TurnStep(status, turn).written
         == if turn.w.writeOk then Some(status.(phase := PhaseCreating)) else None
  {
  }

  /** The operator error a step past None ends in, with what the check left in the status before it. */
  lemma FailureOf(status: Status, spec: Spec, w: World)
    requires status.phase != PhaseNone
    requires Try(status, spec, w).outcome.Panicked? && Try(status, spec, w).outcome.panic.OperatorError?
    ensures var a := Try(status, spec, w);
      && a.outcome.panic.code == (if !KnownKind(spec) then 301 else if !EnoughReady(spec, w) then -1 else 401)
      && (KnownKind(spec) && EnoughReady(spec, w) ==>
            var scan := ScanPods(status.version, Ready(w), spec.replicas.value);
            a.status == status.(conditions := scan.conditions, version := scan.version))
      && (!KnownKind(spec) || !EnoughReady(spec, w) ==> a.status == status)
  {
    hide ScanPods, ReadyPods;
  }

  /**
    A stored failure leaves behind an event with code 301, -1 or 401 by its cause, and conditions and version of the
    check as far as it came.
   */
  lemma FailureStored(status: Status, turn: Turn)
    requires turn.fetch.Found? && status.phase != PhaseNone
    requires TurnStep(status, turn).written.Some? && !TurnStep(status, turn).ok
    ensures var spec, w, stored := turn.fetch.spec, turn.w, TurnStep(status, turn).written.value;
      && stored.phase == PhaseFailed && stored.events != []
      && stored.events[|stored.events| - 1].code
         == (if !KnownKind(spec) then 301 else if !EnoughReady(spec, w) then -1 else 401)
      && (KnownKind(spec) && EnoughReady(spec, w) ==>
            var scan := ScanPods(status.version, Ready(w), spec.replicas.value);
            stored.conditions == scan.conditions && stored.version == scan.version)
      && (!KnownKind(spec) || !EnoughReady(spec, w) ==>
            stored.conditions == status.conditions && stored.version == status.version)
  {
    hide Try, Ready, ScanPods, KnownKind, EnoughReady, Record;
    var spec, w := turn.fetch.spec, turn.w;
    var a := Try(status, spec, w);
    AttemptKeepsPhase(status, spec, w);
    FailureOf(status, spec, w);
    RecordTells(a.status.events, FailureCall(a.outcome.panic.code, a.outcome.panic.msg, w));
  }

  /** A stored Running comes with an event of code 200 and no message, and with the conditions of the whole check. */
  lemma RunningStores(status: Status, turn: Turn)
    requires turn.fetch.Found? && StoresRunning(TurnStep(status, turn))
    ensures var spec, w, stored := turn.fetch.spec, turn.w, TurnStep(status, turn).written.value;
      && spec.replicas.Some? && stored.events != []
      && stored.events[|stored.events| - 1].code == 200 && stored.events[|stored.events| - 1].message == ""
      && stored.conditions == ScanPods(status.version, Ready(w), spec.replicas.value).conditions
      && |stored.conditions| == |Ready(w)|
      && stored.version == ScanPods(status.version, Ready(w), spec.replicas.value).version
  {
    hide ScanPods;
    var spec, w := turn.fetch.spec, turn.w;
    StepOkIff(status, spec, turn.fetch.created, w);
    RecordTells(status.events, RunningCall(w));
    PodsScanned(status.version, Ready(w), spec.replicas.value);
  }

  // ---------------------------------------------------------------- answers

  /** No instance ends the matter; an error of fetching it is handed on; anything short of Running comes back. */
  lemma Answers(status: Status, turn: Turn)
    ensures turn.fetch.NotFound? ==> Answer(status, turn) == Result(0, false)
    ensures turn.fetch.FetchError? ==> Answer(status, turn) == Result(0, true)
    ensures turn.fetch.Found? && !StoresRunning(TurnStep(status, turn)) ==> Answer(status, turn) == Result(5, false)
    ensures turn.fetch.Found? && StoresRunning(TurnStep(status, turn)) ==> Answer(status, turn) == Result(0, false)
  {
    if turn.fetch.Found? {
      StepOkIff(status, turn.fetch.spec, turn.fetch.created, turn.w);
    }
  }

  // ---------------------------------------------------------------- retries

  /** An existing instance is left alone only by the turn that stored Running; every other turn comes back. */
  lemma RetriedUnlessRunning(status: Status, turn: Turn)
    requires turn.fetch.Found?
    ensures Answer(status, turn) == Result(0, false) <==> StoresRunning(TurnStep(status, turn))
    ensures Answer(status, turn) != Result(0, false) ==> Answer(status, turn) == Result(5, false)
  {
    StepOkIff(status, turn.fetch.spec, turn.fetch.created, turn.w);
  }

  // ---------------------------------------------------------------- Running is earned

  /** Turn `i` stored Running, on evidence, and nothing was stored after it. */
  ghost predicate EarnedAt(turns: seq<Turn>, i: nat)
  {
    && i < |turns|
    && turns[i].fetch.Found?
    && StoresRunning(TurnStep(StatusAfter(turns[..i]), turns[i]))
    && Evidence(turns[i].fetch.spec, turns[i].w)
    && EnsuresPass(turns[i].fetch.spec, turns[i].w)
    && forall j | i < j < |turns| :: TurnStep(StatusAfter(turns[..j]), turns[j]).written.None?
  }

  lemma RunningStored(status: Status, turn: Turn)
    requires After(status, turn).phase == PhaseRunning
    ensures var r := TurnStep(status, turn);
      if r.written.Some? then turn.fetch.Found? && StoresRunning(r) && Evidence(turn.fetch.spec, turn.w)
          && EnsuresPass(turn.fetch.spec, turn.w)
      else After(status, turn) == status
  {
    hide Step, Evidence, EnsuresPass;
    if turn.fetch.Found? {
      StepOkIff(status, turn.fetch.spec, turn.fetch.created, turn.w);
    }
  }

  /** Whenever the stored phase is Running, some turn earned it and no later turn stored anything. */
  lemma {:induction false} RunningWasEarned(turns: seq<Turn>) returns (i: nat)
    requires StatusAfter(turns).phase == PhaseRunning
    ensures EarnedAt(turns, i)
  {
    hide TurnStep, Evidence, EnsuresPass, After, StoresRunning;
    var n := |turns| - 1;
    var front, last := turns[..n], turns[n];
    RunningStored(StatusAfter(front), last);
    if TurnStep(StatusAfter(front), last).written.Some? {
      i := n;
    } else {
      i := RunningWasEarned(front);
      assert turns[..i] == front[..i];
      forall j | i < j < |turns| ensures TurnStep(StatusAfter(turns[..j]), turns[j]).written.None? {
        if j < n { assert turns[..j] == front[..j] && turns[j] == front[j]; }
      }
    }
  }

  // ---------------------------------------------------------------- phases

  /** What one turn can do to the stored phase. */
  lemma PhaseStep(status: Status, turn: Turn)
    requires status.phase != PhaseScale
    ensures var p, q := status.phase, After(status, turn).phase;
      && q != PhaseScale
      && (p == PhaseNone ==> q in {PhaseNone, PhaseCreating} && TurnStep(status, turn).calls == [])
      && (p != PhaseNone ==> q in {p, PhaseRunning, PhaseFailed})
      && (p == PhaseCreating && q == PhaseFailed ==> turn.fetch.created + 180 < turn.w.now)
  {
  }

  /** In any run the stored phase is never Scaling, and once it has left None it never comes back. */
  lemma {:induction false} PhaseSafety(turns: seq<Turn>, i: nat)
    requires i <= |turns|
    ensures StatusAfter(turns).phase != PhaseScale
    ensures StatusAfter(turns[..i]).phase != PhaseNone ==> StatusAfter(turns).phase != PhaseNone
    decreases |turns|
  {
    if i == |turns| {
      assert turns[..i] == turns;
    }
    if turns != [] {
      var front := turns[..|turns| - 1];
      PhaseSafety(front, if i < |turns| then i else 0);
      PhaseStep(StatusAfter(front), turns[|turns| - 1]);
      if i < |turns| { assert front[..i] == turns[..i]; }
    }
  }

  /** The panic a step ends its four functions with, if any. */
  function StepPanic(status: Status, spec: Spec, w: World): Option<Panic> {
    var a := Try(status, spec, w);
    if a.outcome.Panicked? then Some(a.outcome.panic) else if w.writeOk then None else Some(OtherPanic)
  }

  /** A panic that is not an operator error is only logged: nothing is stored. */
  lemma OtherPanicStoresNothing(status: Status, spec: Spec, created: int, w: World)
    requires StepPanic(status, spec, w) == Some(OtherPanic)
    ensures Step(status, spec, created, w).written.None? && !Step(status, spec, created, w).ok
  {
  }

  /** Failed is stored exactly for an operator error once the grace for new instances is over. */
  lemma FailedIff(status: Status, spec: Spec, created: int, w: World)
    ensures Step(status, spec, created, w).written.Some?
        && Step(status, spec, created, w).written.value.phase == PhaseFailed
      <==> && w.writeOk && !status.phase.PhaseNone?
           && StepPanic(status, spec, w).Some? && StepPanic(status, spec, w).value.OperatorError?
           && (status.phase == PhaseCreating ==> created + 180 < w.now)
  {
    AttemptKeepsPhase(status, spec, w);
  }

  /** Past None, an operator error never has the normal code, and the phase in memory is the stored one. */
  lemma AttemptKeepsPhase(status: Status, spec: Spec, w: World)
    ensures !status.phase.PhaseNone? ==>
      && Try(status, spec, w).status.phase == status.phase
      && Try(status, spec, w).status.events == status.events
      && (Try(status, spec, w).outcome.Panicked? && Try(status, spec, w).outcome.panic.OperatorError?
          ==> Try(status, spec, w).outcome.panic.code != CODE_NORMAL)
  {
  }

  // ---------------------------------------------------------------- events

  /** The event a turn stores, if it stores one. */
  function StoredCall(status: Status, turn: Turn): Option<Call> {
    if !turn.fetch.Found? || TurnStep(status, turn).written.None? || status.phase.PhaseNone? then None
    else
      var outcome := Try(status, turn.fetch.spec, turn.w).outcome;
      Some(if outcome.Returned? then RunningCall(turn.w)
           else if outcome.panic.OperatorError? then FailureCall(outcome.panic.code, outcome.panic.msg, turn.w)
           else FailureCall(CODE_ERR_UNKNOW, "", turn.w))
  }

  function StoredCalls(turns: seq<Turn>): seq<Call> {
    if turns == [] then []
    else
      var front := turns[..|turns| - 1];
      StoredCalls(front) +
      match StoredCall(StatusAfter(front), turns[|turns| - 1])
      case Some(c) => [c]
      case None => []
  }

  /** The stored events are the log of the events stored, whatever happened in between. */
  lemma {:induction false} EventsAreLog(turns: seq<Turn>)
    ensures StatusAfter(turns).events == Log(StoredCalls(turns))
  {
    if turns != [] {
      var front, last := turns[..|turns| - 1], turns[|turns| - 1];
      EventsAreLog(front);
      var calls := StoredCalls(front);
      var status := StatusAfter(front);
      EventsStep(status, last);
      match StoredCall(status, last) {
        case Some(c) => assert (calls + [c])[..|calls|] == calls;
        case None => assert StoredCalls(turns) == calls;
      }
    }
  }

  lemma EventsStep(status: Status, turn: Turn)
    ensures After(status, turn).events == match StoredCall(status, turn)
      case Some(c) => Record(status.events, c)
      case None => status.events
  {
    if turn.fetch.Found? {
      AttemptKeepsPhase(status, turn.fetch.spec, turn.w);
    }
  }

  /** Clock readings that never go back from turn to turn. */
  ghost predicate TurnsForward(turns: seq<Turn>) {
    && (forall i | 0 <= i < |turns| :: turns[i].w.clock.first <= turns[i].w.clock.second)
    && (forall i, j | 0 <= i < j < |turns| :: turns[i].w.clock.second <= turns[j].w.clock.first)
  }

  /** A stored event carries the readings of its turn, and claims success only for the success code. */
  lemma StoredCallShape(status: Status, turn: Turn)
    requires StoredCall(status, turn).Some?
    ensures var c := StoredCall(status, turn).value; c.now == turn.w.clock && (c.status ==> c.code == CODE_NORMAL)
  {
    hide TurnStep, Try;
  }

  ghost predicate SuccessOnly(calls: seq<Call>) {
    forall i | 0 <= i < |calls| && calls[i].status :: calls[i].code == CODE_NORMAL
  }

  /** Calls in order of time, none after `t`, that claim success only for the success code. */
  ghost predicate ToldBy(calls: seq<Call>, t: int) {
    ClockForward(calls) && SuccessOnly(calls) && forall i | 0 <= i < |calls| :: calls[i].now.second <= t
  }

  lemma OneCallLater(calls: seq<Call>, t: int, c: Call)
    requires ToldBy(calls, t) && t <= c.now.first <= c.now.second && (c.status ==> c.code == CODE_NORMAL)
    ensures ToldBy(calls + [c], c.now.second)
  {
  }

  lemma Later(calls: seq<Call>, t: int, u: int)
    requires ToldBy(calls, t) && t <= u
    ensures ToldBy(calls, u)
  {
  }

  /** The stored calls of turns that end by `t`, one more turn considered. */
  lemma StoredCallsNext(calls: seq<Call>, t: int, status: Status, turn: Turn)
    requires ToldBy(calls, t) && t <= turn.w.clock.first <= turn.w.clock.second
    ensures var c := StoredCall(status, turn);
            ToldBy(calls + if c.Some? then [c.value] else [], turn.w.clock.second)
  {
    hide ToldBy, StoredCall;
    var c := StoredCall(status, turn);
    if c.Some? {
      StoredCallShape(status, turn);
      OneCallLater(calls, t, c.value);
    } else {
      Later(calls, t, turn.w.clock.second);
      assert calls + [] == calls;
    }
  }

  lemma {:induction false} StoredCallsForward(turns: seq<Turn>)
    requires TurnsForward(turns)
    ensures turns == [] ==> StoredCalls(turns) == []
    ensures turns != [] ==> ToldBy(StoredCalls(turns), turns[|turns| - 1].w.clock.second)
    ensures ClockForward(StoredCalls(turns)) && SuccessOnly(StoredCalls(turns))
  {
    if turns != [] {
      hide StoredCall, StatusAfter;
      var front, last := turns[..|turns| - 1], turns[|turns| - 1];
      assert forall i | 0 <= i < |front| :: front[i] == turns[i];
      StoredCallsForward(front);
      var t := if front == [] then last.w.clock.first else front[|front| - 1].w.clock.second;
      StoredCallsNext(StoredCalls(front), t, StatusAfter(front), last);
    }
  }

  /**
    Over every run: records claim success only for code 200, follow one another in time, tell the recent history,
    and are at least ten once ten changes of code were stored, and never more than eleven.
   */
  lemma EventsOverRuns(turns: seq<Turn>)
    requires TurnsForward(turns)
    ensures var events, history := StatusAfter(turns).events, Compressed(CalledCodes(StoredCalls(turns)));
      && (forall i | 0 <= i < |events| && events[i].status :: events[i].code == CODE_NORMAL)
      && OneAfterTheOther(events)
      && IsSuffix(CodesOf(events), history)
      && NoRepeats(CodesOf(events))
      && Min(10, |history|) <= |events| <= 11
  {
    hide Log, OneAfterTheOther, IsSuffix, Compressed, NoRepeats, ClockForward, StatusAfter, TurnsForward, StoredCalls;
    EventsAreLog(turns);
    StoredCallsForward(turns);
    StatusMeansSuccess(StoredCalls(turns));
    LogTimes(StoredCalls(turns));
    LogTellsHistory(StoredCalls(turns));
  }

  /** With one clock reading per turn, every record of every run appeared no later than it last changed. */
  lemma EventsInOrder(turns: seq<Turn>)
    requires TurnsForward(turns) && forall i | 0 <= i < |turns| :: turns[i].w.clock.first == turns[i].w.clock.second
    ensures InOrder(StatusAfter(turns).events)
  {
    hide Log, InOrder, StatusAfter, ClockForward, TurnsForward;
    EventsAreLog(turns);
    StoredCallsForward(turns);
    StoredReadings(turns);
    LogInOrder(StoredCalls(turns));
  }

  lemma {:induction false} StoredReadings(turns: seq<Turn>)
    requires forall i | 0 <= i < |turns| :: turns[i].w.clock.first == turns[i].w.clock.second
    ensures forall i | 0 <= i < |StoredCalls(turns)| ::
        StoredCalls(turns)[i].now.first == StoredCalls(turns)[i].now.second
  {
    hide TurnStep, Try;
    if turns != [] {
      StoredReadings(turns[..|turns| - 1]);
    }
  }

  // ---------------------------------------------------------------- progress

  ghost predicate GoodTurn(turn: Turn) {
    turn.fetch.Found? && EnsuresPass(turn.fetch.spec, turn.w) && Evidence(turn.fetch.spec, turn.w) && turn.w.writeOk
  }

  /** Two good turns in a row make any instance Running, whatever was stored before. */
  lemma TwoGoodTurnsRun(status: Status, first: Turn, second: Turn)
    requires GoodTurn(first) && GoodTurn(second)
    ensures After(After(status, first), second).phase == PhaseRunning
    ensures Answer(After(status, first), second) == Result(0, false)
  {
    StepOkIff(status, first.fetch.spec, first.fetch.created, first.w);
    StepOkIff(After(status, first), second.fetch.spec, second.fetch.created, second.w);
  }
}
