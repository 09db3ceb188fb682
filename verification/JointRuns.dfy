/** Reconcile steps and the StatefulSet store together: what a stored Running says about the StatefulSet. */
module JointRuns {
  import opened PodModel
  import opened CustomResource
  import opened Reconciler
  import opened ReconcilerLaws
  import opened EventLog
  import opened Health
  import opened HealthLaws
  import opened StatefulSetStore

  /** A turn, the StatefulSet it wants, and which of its requests for it fail. */
  datatype JointTurn = JointTurn(turn: Turn, desired: StatefulSet, faults: Faults)

  datatype Cluster = Cluster(status: Status, store: Store)

  /** Where the StatefulSet is ensured among the calls of a plan. */
  function StatefulSetCall(spec: Spec): nat { |ConfigPlan(Defaulted(spec))| }

  lemma StatefulSetCallPlanned(spec: Spec)
    requires Plan(Defaulted(spec)).Returned?
    ensures StatefulSetCall(spec) < |Plan(Defaulted(spec)).value|
    ensures Plan(Defaulted(spec)).value[StatefulSetCall(spec)] in {EnsureStatefulset, EnsureStatefulsetCluster}
  {
  }

  /** The step comes as far as writing the StatefulSet: nothing panics before, the building of it included. */
  predicate WritesStatefulSet(status: Status, t: Turn) {
    && t.fetch.Found? && !status.phase.PhaseNone? && Plan(Defaulted(t.fetch.spec)).Returned?
    && (t.w.brokenCall.Some? ==> t.w.brokenCall.value > StatefulSetCall(t.fetch.spec))
  }

  function StoreAfterTurn(c: Cluster, t: JointTurn): Store {
    if WritesStatefulSet(c.status, t.turn) then Upsert(c.store, t.desired, t.faults).store else c.store
  }

  /** What the check then finds of it, unless getting it fails. */
  function Seen(s: Store, w: World): Option<Option<int>> {
    if w.sts.None? || s.stored.None? then None else Some(s.stored.value.replicas)
  }

  /**
    The turn as the reconciler meets it: an unsuccessful write is a call that panics, and the check reads the store.
   */
  function Met(c: Cluster, t: JointTurn): Turn {
    var w := t.turn.w.(sts := Seen(StoreAfterTurn(c, t), t.turn.w));
    if WritesStatefulSet(c.status, t.turn) && Upsert(c.store, t.desired, t.faults).result != Returned(true)
    then t.turn.(w := w.(brokenCall := Some(StatefulSetCall(t.turn.fetch.spec))))
    else t.turn.(w := w)
  }

  function Next(c: Cluster, t: JointTurn): Cluster {
    Cluster(After(c.status, Met(c, t)), StoreAfterTurn(c, t))
  }

  function Run(start: Cluster, turns: seq<JointTurn>): Cluster {
    if turns == [] then start else Next(Run(start, turns[..|turns| - 1]), turns[|turns| - 1])
  }

  /** The turns of a joint run, as the reconciler met them. */
  function MetTurns(start: Cluster, turns: seq<JointTurn>): seq<Turn> {
    if turns == [] then []
    else MetTurns(start, turns[..|turns| - 1]) + [Met(Run(start, turns[..|turns| - 1]), turns[|turns| - 1])]
  }

  /** Joint runs of a new instance are runs: everything proved of these holds of the status in those. */
  lemma {:induction false} JointRunsAreRuns(start: Cluster, turns: seq<JointTurn>)
    requires start.status == NEW_STATUS
    ensures Run(start, turns).status == StatusAfter(MetTurns(start, turns))
  {
    if turns != [] {
      var front := turns[..|turns| - 1];
      JointRunsAreRuns(start, front);
      var met := MetTurns(start, turns);
      assert met[..|met| - 1] == MetTurns(start, front);
    }
  }

  /**
    A turn that stores Running wrote its StatefulSet or found it as it should be: the stored one is the desired one,
    or agrees with it, and has the resource's replicas.
   */
  lemma RunningLeavesAgreement(c: Cluster, t: JointTurn)
    requires StoresRunning(TurnStep(c.status, Met(c, t)))
    ensures var stored := Next(c, t).store.stored;
      && stored.Some? && stored.value.replicas == t.turn.fetch.spec.replicas
      && (stored == Some(t.desired.(version := c.store.next)) || Agrees(stored.value, t.desired))
  {
    hide Agrees, Evidence, Step;
    var m := Met(c, t);
    StepOkIff(c.status, m.fetch.spec, m.fetch.created, m.w);
    StatefulSetCallPlanned(m.fetch.spec);
    EvidenceSees(m.fetch.spec, m.w);
    assert WritesStatefulSet(c.status, t.turn);
    assert Upsert(c.store, t.desired, t.faults).result == Returned(true);
    assert Next(c, t).store == Upsert(c.store, t.desired, t.faults).store;
    WriteLeaves(c.store, t.desired, t.faults);
  }

  lemma EvidenceSees(spec: Spec, w: World)
    requires Evidence(spec, w)
    ensures w.sts == Some(spec.replicas) && spec.replicas.Some?
  {
  }

  lemma WriteLeaves(s: Store, desired: StatefulSet, f: Faults)
    requires Upsert(s, desired, f).result == Returned(true)
    ensures var stored := Upsert(s, desired, f).store.stored;
      stored.None? || stored == Some(desired.(version := s.next)) || Agrees(stored.value, desired)
  {
    if s.stored.Some? {
      CompareIff(s.stored.value, desired);
    }
  }

  /**
    While the same usable StatefulSet is wanted and nobody else writes it, a Running status always tells the truth
    about it: in every run, if it did so at the start, the stored StatefulSet agrees with the desired one whenever the
    stored phase is Running.
   */
  lemma {:induction false} RunningMeansSettled(start: Cluster, desired: StatefulSet, turns: seq<JointTurn>)
    requires Usable(desired) && forall t | t in turns :: t.desired == desired
    requires start.status.phase == PhaseRunning ==> Settled(start.store, desired)
    requires Run(start, turns).status.phase == PhaseRunning
    ensures Settled(Run(start, turns).store, desired)
  {
    hide Met, TurnStep, After, Agrees, Upsert, WritesStatefulSet, Usable;
    if turns != [] {
      var front, last := turns[..|turns| - 1], turns[|turns| - 1];
      var c := Run(start, front);
      RunningStored(c.status, Met(c, last));
      assert last in turns;
      if TurnStep(c.status, Met(c, last)).written.Some? {
        RunningLeavesAgreement(c, last);
        UsableAgrees(desired, c.store.next);
      } else {
        RunningMeansSettled(start, desired, front);
        CompareIff(c.store.stored.value, desired);
        CallProgress(c.store, desired, last.faults);
      }
    }
  }

  lemma UsableAgrees(desired: StatefulSet, version: nat)
    requires Usable(desired)
    ensures Agrees(desired.(version := version), desired)
  {
    SelfCompareIff(desired);
    assert Compare(desired.(version := version), desired) == Compare(desired, desired);
    CompareIff(desired.(version := version), desired);
  }

  // ---------------------------------------------------------------- progress

  /** Nothing fails, and the pods are as they should be once the StatefulSet is. */
  ghost predicate Favourable(t: JointTurn, desired: StatefulSet) {
    && t.desired == desired && t.faults == NO_FAULTS
    && t.turn.fetch.Found? && t.turn.w.brokenCall.None? && t.turn.w.sts.Some? && t.turn.w.writeOk
    && var spec := t.turn.fetch.spec;
       && Plan(Defaulted(spec)).Returned? && spec.replicas == desired.replicas
       && Evidence(spec, t.turn.w.(sts := Some(spec.replicas)))
  }

  lemma NoneIsLeft(status: Status, turn: Turn)
    requires status.phase != PhaseNone || (turn.fetch.Found? && turn.w.writeOk)
    ensures After(status, turn).phase != PhaseNone
  {
    hide Plan, Breaks;
    if turn.fetch.Found? {
      AttemptKeepsPhase(status, turn.fetch.spec, turn.w);
    }
  }

  /** Past None a favourable turn brings the store one call nearer, and stores Running if that was the last. */
  lemma FavourableTurn(c: Cluster, t: JointTurn, desired: StatefulSet)
    requires Favourable(t, desired) && Reaches(c.store, desired) && c.status.phase != PhaseNone
    ensures var n := Next(c, t);
      && Reaches(n.store, desired) && n.status.phase != PhaseNone
      && (Remaining(c.store, desired) > 0 ==> Remaining(n.store, desired) == Remaining(c.store, desired) - 1)
      && (Remaining(c.store, desired) == 0 ==> n.store == c.store)
      && (Remaining(n.store, desired) == 0 ==> n.status.phase == PhaseRunning)
  {
    hide Stuck, Evidence, Step, Upsert, Plan, Agrees;
    var n, m := Next(c, t), Met(c, t);
    CallProgress(c.store, desired, t.faults);
    FaultFree(c.store, desired);
    NoneIsLeft(c.status, m);
    assert n.store == Upsert(c.store, desired, t.faults).store;
    if Remaining(n.store, desired) == 0 {
      CompareIff(n.store.stored.value, desired);
      AgreedReplicas(n.store.stored.value, desired);
      assert m.w == t.turn.w.(sts := Some(m.fetch.spec.replicas));
      StepOkIff(c.status, m.fetch.spec, m.fetch.created, m.w);
    }
  }

  lemma AgreedReplicas(o: StatefulSet, n: StatefulSet)
    requires Agrees(o, n)
    ensures o.replicas == n.replicas
  {
  }

  lemma FaultFree(s: Store, desired: StatefulSet)
    requires Reaches(s, desired)
    ensures Upsert(s, desired, NO_FAULTS).result == Returned(true)
  {
    hide Stuck;
    if s.stored.Some? { StuckIff(s.stored.value, desired); }
  }

  /** From any status, and any store that is not stuck, three favourable turns end in Running. */
  lemma RunningInThree(c: Cluster, desired: StatefulSet, first: JointTurn, second: JointTurn, third: JointTurn)
    requires Reaches(c.store, desired)
    requires Favourable(first, desired) && Favourable(second, desired) && Favourable(third, desired)
    ensures Next(Next(Next(c, first), second), third).status.phase == PhaseRunning
  {
    hide Favourable, Reaches, Remaining;
    var one := Next(c, first);
    if c.status.phase == PhaseNone {
      FirstTurn(c, first, desired);
    } else {
      FavourableTurn(c, first, desired);
    }
    FavourableTurn(one, second, desired);
    FavourableTurn(Next(one, second), third, desired);
    AtMostTwo(one.store, desired);
  }

  lemma AtMostTwo(s: Store, desired: StatefulSet)
    ensures Remaining(s, desired) <= 2
  {
  }

  lemma FirstTurn(c: Cluster, t: JointTurn, desired: StatefulSet)
    requires Favourable(t, desired) && c.status.phase == PhaseNone
    ensures Next(c, t).store == c.store && Next(c, t).status.phase != PhaseNone
  {
    NoneIsLeft(c.status, Met(c, t));
  }

  // ---------------------------------------------------------------- a stuck store

  /** The mode of every instance met is a known one. */
  ghost predicate KnownModes(turns: seq<JointTurn>) {
    forall t | t in turns && t.turn.fetch.Found? :: Plan(Defaulted(t.turn.fetch.spec)).Returned?
  }

  /** Comparing the stored StatefulSet with the desired one is a fault. */
  predicate Faulty(s: Store, desired: StatefulSet) {
    s.stored.Some? && Compare(s.stored.value, desired).Panicked?
  }

  /** Then no call writes anything, and none succeeds. */
  lemma FaultyCall(s: Store, desired: StatefulSet, f: Faults)
    requires Faulty(s, desired)
    ensures Upsert(s, desired, f).store == s && Upsert(s, desired, f).result != Returned(true)
  {
  }

  /** With a faulty store a step past None ends in a fault before it checks anything, and stores nothing. */
  lemma StuckTurn(c: Cluster, t: JointTurn)
    requires Faulty(c.store, t.desired)
    requires c.status.phase != PhaseNone && (t.turn.fetch.Found? ==> Plan(Defaulted(t.turn.fetch.spec)).Returned?)
    ensures Next(c, t) == c
  {
    hide Faulty, Upsert, Evidence, Plan;
    FaultyCall(c.store, t.desired, t.faults);
    if t.turn.fetch.Found? {
      StatefulSetCallPlanned(t.turn.fetch.spec);
      var w := Met(c, t).w;
      assert Breaks(Plan(Defaulted(t.turn.fetch.spec)).value, w.brokenCall);
    }
  }

  /**
    Where comparing faults no run changes anything once the phase has left None: the store never moves, Running is
    never stored, and a Running stored before is never taken back.
   */
  lemma {:induction false} StuckFreezes(start: Cluster, desired: StatefulSet, turns: seq<JointTurn>)
    requires KnownModes(turns) && forall t | t in turns :: t.desired == desired
    requires Faulty(start.store, desired) && start.status.phase != PhaseNone
    ensures Run(start, turns) == start
  {
    hide Faulty, Next, Plan;
    if turns != [] {
      var front, last := turns[..|turns| - 1], turns[|turns| - 1];
      assert last in turns;
      StuckFreezes(start, desired, front);
      StuckTurn(start, last);
    }
  }

  /** Created with a claim and no storage class, and left so: the resource is frozen. */
  lemma ClassUnsetFreezes(status: Status, desired: StatefulSet, next: nat, turns: seq<JointTurn>)
    requires desired.containers != [] && desired.claims != [] && desired.claims[0].storageClass.None?
    requires KnownModes(turns) && (forall t | t in turns :: t.desired == desired) && status.phase != PhaseNone
    ensures var created := Cluster(status, Upsert(Store(None, next), desired, NO_FAULTS).store);
      Run(created, turns) == created
  {
    StuckFreezes(Cluster(status, Upsert(Store(None, next), desired, NO_FAULTS).store), desired, turns);
  }

  /** And so it is if the class is given later. */
  lemma ClassSetLaterFreezes(status: Status, first: StatefulSet, class_: string, next: nat, turns: seq<JointTurn>)
    requires first.containers != [] && first.claims != [] && first.claims[0].storageClass.None?
    requires KnownModes(turns) && status.phase != PhaseNone
    requires forall t | t in turns ::
      t.desired == first.(claims := first.claims[0 := first.claims[0].(storageClass := Some(class_))])
    ensures var created := Cluster(status, Upsert(Store(None, next), first, NO_FAULTS).store);
      Run(created, turns) == created
  {
    var desired := first.(claims := first.claims[0 := first.claims[0].(storageClass := Some(class_))]);
    StuckFreezes(Cluster(status, Upsert(Store(None, next), first, NO_FAULTS).store), desired, turns);
  }

  // ---------------------------------------------------------------- exactly when Running can be reached

  /** Where comparing faults, the store never moves, whatever the modes, and Running is not reached. */
  lemma {:induction false} FaultyNeverRuns(start: Cluster, desired: StatefulSet, turns: seq<JointTurn>)
    requires Faulty(start.store, desired) && forall t | t in turns :: t.desired == desired
    requires start.status.phase != PhaseRunning
    ensures Run(start, turns).store == start.store && Run(start, turns).status.phase != PhaseRunning
  {
    hide Faulty, Met, TurnStep, After, Upsert, Evidence, EnsuresPass;
    if turns != [] {
      var front, last := turns[..|turns| - 1], turns[|turns| - 1];
      assert last in turns;
      FaultyNeverRuns(start, desired, front);
      var c := Run(start, front);
      FaultyCall(c.store, desired, last.faults);
      if After(c.status, Met(c, last)).phase == PhaseRunning {
        RunningStored(c.status, Met(c, last));
        if TurnStep(c.status, Met(c, last)).written.Some? {
          RunningNeedsWrite(c, last);
        }
      }
    }
  }

  lemma RunningNeedsWrite(c: Cluster, t: JointTurn)
    requires StoresRunning(TurnStep(c.status, Met(c, t)))
    ensures Upsert(c.store, t.desired, t.faults).result == Returned(true)
    ensures var stored := Next(c, t).store.stored; stored.Some? && stored.value.replicas.Some?
  {
    hide Evidence, Step, Upsert;
    var m := Met(c, t);
    StepOkIff(c.status, m.fetch.spec, m.fetch.created, m.w);
    StatefulSetCallPlanned(m.fetch.spec);
    EvidenceSees(m.fetch.spec, m.w);
  }

  /** Without desired replicas Running is not reached either: no StatefulSet then has the resource's. */
  lemma {:induction false} NoReplicasNeverRuns(start: Cluster, desired: StatefulSet, turns: seq<JointTurn>)
    requires desired.replicas.None? && forall t | t in turns :: t.desired == desired
    requires start.status.phase != PhaseRunning
    ensures Run(start, turns).status.phase != PhaseRunning
  {
    hide Met, TurnStep, After, Upsert, Evidence, EnsuresPass;
    if turns != [] {
      var front, last := turns[..|turns| - 1], turns[|turns| - 1];
      assert last in turns;
      NoReplicasNeverRuns(start, desired, front);
      var c := Run(start, front);
      if After(c.status, Met(c, last)).phase == PhaseRunning {
        RunningStored(c.status, Met(c, last));
        if TurnStep(c.status, Met(c, last)).written.Some? {
          RunningNeedsWrite(c, last);
          RunningLeavesAgreement(c, last);
        }
      }
    }
  }

  /** Past None, a favourable turn whose call succeeds and leaves the desired replicas stores Running. */
  lemma FavourableRuns(c: Cluster, t: JointTurn, desired: StatefulSet)
    requires Favourable(t, desired) && c.status.phase != PhaseNone
    requires var e := Upsert(c.store, desired, NO_FAULTS);
      e.result == Returned(true) && e.store.stored.Some? && e.store.stored.value.replicas == desired.replicas
    ensures Next(c, t).status.phase == PhaseRunning
  {
    hide Evidence, Step, Upsert, Plan;
    var m := Met(c, t);
    assert m.w == t.turn.w.(sts := Some(m.fetch.spec.replicas));
    StepOkIff(c.status, m.fetch.spec, m.fetch.created, m.w);
  }

  /** Without failures, and where comparing does not fault, one call leaves the desired replicas, or deletes. */
  lemma OneCall(s: Store, desired: StatefulSet)
    requires !Faulty(s, desired)
    ensures var e := Upsert(s, desired, NO_FAULTS);
      && e.result == Returned(true)
      && (e.store.stored.Some? ==> e.store.stored.value.replicas == desired.replicas)
      && (s.stored.None? ==> e.store.stored.Some?)
  {
  }

  lemma DeletingTurn(c: Cluster, t: JointTurn, desired: StatefulSet)
    requires Favourable(t, desired) && c.status.phase != PhaseNone && !Faulty(c.store, desired)
    ensures Next(c, t).store == Upsert(c.store, desired, NO_FAULTS).store && Next(c, t).status.phase != PhaseNone
  {
    hide Evidence, Step, Upsert, Plan;
    NoneIsLeft(c.status, Met(c, t));
  }

  /** Past None, two favourable turns are enough, however usable the desired object is. */
  lemma RunningInTwo(c: Cluster, t: JointTurn, desired: StatefulSet)
    requires Favourable(t, desired) && c.status.phase != PhaseNone && !Faulty(c.store, desired)
    ensures Next(c, t).status.phase == PhaseRunning || Next(Next(c, t), t).status.phase == PhaseRunning
  {
    hide Favourable, Faulty, Upsert;
    OneCall(c.store, desired);
    if Upsert(c.store, desired, NO_FAULTS).store.stored.Some? {
      FavourableRuns(c, t, desired);
    } else {
      DeletingTurn(c, t, desired);
      var n := Next(c, t);
      NothingFaulty(n.store, desired);
      OneCall(n.store, desired);
      FavourableRuns(n, t, desired);
    }
  }

  lemma NothingFaulty(s: Store, desired: StatefulSet)
    requires s.stored.None?
    ensures !Faulty(s, desired)
  {
  }

  lemma {:induction false} LeadersOfNothing(pods: seq<Pod>)
    requires forall p | p in pods :: p.view.Some? && forall s | s in p.view.value :: s.leader == ""
    ensures forall l | l in AllLeaders(pods) :: l == ""
  {
    if pods != [] {
      LeadersOfNothing(pods[..|pods| - 1]);
      assert pods[|pods| - 1] in pods;
    }
  }

  lemma {:induction false} AllReady(pods: seq<Pod>)
    requires forall p | p in pods :: IsReady(p.conditions)
    ensures ReadyPods(pods) == pods
  {
    hide IsReady;
    if pods != [] {
      AllReady(pods[..|pods| - 1]);
      assert pods == pods[..|pods| - 1] + [pods[|pods| - 1]];
    }
  }

  /** A pod that is ready and lists `n` live servers. */
  function GoodPod(n: nat): Pod {
    Pod("p", "", "", [PodCondition("Ready", "True")], Some(seq(n, _ => Server("UP", "", ""))))
  }

  lemma SomeFavourable(desired: StatefulSet) returns (t: JointTurn)
    requires desired.replicas.Some?
    ensures Favourable(t, desired)
  {
    var n := if desired.replicas.value < 0 then 0 else desired.replicas.value;
    var pods := seq(n, _ => GoodPod(n));
    var spec := Spec("standalone", desired.replicas, "", "embedded", "");
    var w := World(None, Some(desired.replicas), Some(pods), Clock(0, 0), 0, true);
    t := JointTurn(Turn(Found(0, spec), w), desired, NO_FAULTS);
    AllReady(pods);
    LeadersOfNothing(pods);
    assert Ready(w) == pods;
    assert forall i | 0 <= i < |AllLeaders(pods)| :: AllLeaders(pods)[i] in AllLeaders(pods);
    assert AllUp(pods, desired.replicas.value);
    assert Evidence(spec, w);
  }

  /**
    With one desired object, some run of turns ends in Running exactly when the phase is Running already, or the object
    asks for a number of replicas and comparing the stored one with it, if there is one, does not fault.
   */
  lemma RunningReachableIff(start: Cluster, desired: StatefulSet)
    ensures (exists turns: seq<JointTurn> ::
               (forall t | t in turns :: t.desired == desired) && Run(start, turns).status.phase == PhaseRunning)
        <==> start.status.phase == PhaseRunning || (desired.replicas.Some? && !Faulty(start.store, desired))
  {
    hide Faulty, Favourable;
    if start.status.phase == PhaseRunning {
      assert Run(start, []).status.phase == PhaseRunning;
    } else if desired.replicas.Some? && !Faulty(start.store, desired) {
      var turns := RunTo(start, desired);
    } else {
      forall turns: seq<JointTurn> | forall t | t in turns :: t.desired == desired
        ensures Run(start, turns).status.phase != PhaseRunning
      {
        if desired.replicas.None? {
          NoReplicasNeverRuns(start, desired, turns);
        } else {
          FaultyNeverRuns(start, desired, turns);
        }
      }
    }
  }

  lemma RunTo(start: Cluster, desired: StatefulSet) returns (turns: seq<JointTurn>)
    requires desired.replicas.Some? && !Faulty(start.store, desired)
    ensures (forall t | t in turns :: t.desired == desired) && Run(start, turns).status.phase == PhaseRunning
  {
    hide Faulty, Next;
    var t := SomeFavourable(desired);
    var c, before := start, [];
    if start.status.phase == PhaseNone {
      FirstTurn(start, t, desired);
      c, before := Next(start, t), [t];
      OneMore(start, [], t);
    }
    RunningInTwo(c, t, desired);
    OneMore(start, before, t);
    OneMore(start, before + [t], t);
    turns := if Next(c, t).status.phase == PhaseRunning then before + [t] else before + [t] + [t];
  }

  lemma OneMore(start: Cluster, turns: seq<JointTurn>, t: JointTurn)
    ensures Run(start, turns + [t]) == Next(Run(start, turns), t)
  {
    assert (turns + [t])[..|turns|] == turns;
  }
}
