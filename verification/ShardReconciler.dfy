/** The APIShard reconciler in the form of its source: an object whose status fields and
    condition list the steps of a pass update one after the other. */
module ShardReconciler {
  import opened Prelude
  import opened Conditions
  import opened ShardStatus
  import Aggregation
  import CrdSync

  /** The in-memory APIShard of a pass, and the status the API server stores for it. */
  class APIShard {
    const generation: int
    var phase: Phase
    var message: string
    var connection: Option<string>
    var endpoint: string
    var registered: seq<string>
    var conditions: seq<Condition>
    var observedGeneration: int
    var stored: Status

    function Current(): Status
      reads this
    {
      Status(phase, message, connection, endpoint, registered, conditions, observedGeneration)
    }

    /** The object as r.Get returns it. */
    constructor (generation: int, stored: Status)
      ensures this.generation == generation && this.stored == stored && Current() == stored
    {
      this.generation, this.stored := generation, stored;
      phase, message, connection, endpoint := stored.phase, stored.message, stored.connection, stored.endpoint;
      registered, conditions, observedGeneration := stored.registered, stored.conditions, stored.observedGeneration;
    }

    /** r.Status().Update, accepted. */
    method UpdateStatus()
      modifies this`stored
      ensures stored == Current()
    {
      stored := Status(phase, message, connection, endpoint, registered, conditions, observedGeneration);
    }

    method SetCondition(kind: ConditionType, v: Verdict, now: nat)
      modifies this`conditions
      ensures Current() == Mark(old(Current()), kind, v, generation, now)
    {
      conditions := Set(conditions, kind, v, generation, now);
    }

    method RemoveCondition(kind: ConditionType)
      modifies this`conditions
      ensures Current() == Unmark(old(Current()), kind)
    {
      conditions := Remove(conditions, kind);
    }

    /** setErrorAndRequeue. */
    method SetErrorAndRequeue(error: string, now: nat)
      modifies this
      ensures Current() == stored == RecordError(old(Current()), error, generation, now)
    {
      phase := Error;
      message := error;
      observedGeneration := generation;
      SetCondition(Reconciled, Verdict(IsFalse, ReconcileError, error), now);
      UpdateStatus();
    }

    /** reconcileCRDConflicts. */
    method ReconcileCRDConflicts(run: ConflictRun, now: nat)
      modifies this`conditions
      ensures Current() == ConflictStep(run, old(Current()), generation, now)
    {
      if run.ListingFailed? { return; }
      if run.SyncRefused? {
        SetCondition(CRDConflict, Verdict(IsTrue, CRDSyncFailed, run.message + "; sync failed: " + run.error), now);
        return;
      }
      if run.SyncDone? {
        SetCondition(CRDConflict,
                     Verdict(IsTrue, CRDsSyncedToSecondary, run.message + "; CRDs synced to secondary"), now);
        return;
      }
      SetCondition(CRDConflict, Verdict(IsFalse, NoConflicts, "No conflicting CRDs detected on primary"), now);
    }

    /** aggregateSubCRStatus. */
    method AggregateSubCRStatus(env: PassEnv, now: nat)
      modifies this`conditions
      ensures Current() == SubReportStep(env, old(Current()), generation, now)
    {
      if env.namespaceSync.Missing? { return; }
      if env.namespaceSync.Reported? { SetCondition(NamespaceSyncReady, env.namespaceSync.verdict, now); }
      if env.webhookSync.Missing? { return; }
      if env.webhookSync.Reported? { SetCondition(WebhookSyncReady, env.webhookSync.verdict, now); }
    }

    /** checkAPIServiceAvailability. */
    method CheckAPIServiceAvailability(env: PassEnv, now: nat) returns (requeue: nat, error: Option<string>)
      modifies this`phase, this`conditions
      ensures match GateStep(env, old(Current()), generation, now)
              case Broken(e) => error == Some(e) && requeue == 0 && Current() == old(Current())
              case Going(s, n) => error == None && requeue == n && Current() == s
    {
      var conflict := VerdictOf(conditions, CRDConflict);
      if conflict.Some? && conflict.value.truth.IsTrue? && conflict.value.reason == CRDSyncFailed {
        phase := Provisioning;
        return RETRY_SECONDS, None;
      }
      if !(conflict.Some? && conflict.value.truth.IsTrue? && conflict.value.reason == CRDsSyncedToSecondary) {
        RemoveCondition(APIServicesRegistered);
        return 0, None;
      }
      if env.availability.ListError? {
        return 0, Some("check APIService availability: " + env.availability.error);
      }
      if !env.availability.available {
        phase := Provisioning;
        SetCondition(APIServicesRegistered, Verdict(IsFalse, APIServicesNotAvailable, env.availability.detail), now);
        return RETRY_SECONDS, None;
      }
      SetCondition(APIServicesRegistered,
                   Verdict(IsTrue, AllAvailable, "All APIServices are available via aggregation"), now);
      return 0, None;
    }

    /** updateHealthStatus. */
    method UpdateHealthStatus(env: PassEnv, now: nat) returns (requeue: nat, error: Option<string>)
      modifies this`phase, this`conditions, this`endpoint
      ensures match HealthStep(env, old(Current()), generation, now)
              case Broken(e) => error == Some(e) && requeue == 0
              case Going(s, n) => error == None && requeue == n && Current() == s
    {
      hide Set, Remove, Find;
      if env.deployments.Unreadable? { return 0, Some(env.deployments.error); }
      if !env.deployments.healthy {
        phase := Provisioning;
        SetCondition(SecondaryHealthy,
                     Verdict(IsFalse, DeploymentNotReady, "Secondary API server is not yet ready"), now);
        var conflict := VerdictOf(conditions, CRDConflict);
        if conflict.Some? && conflict.value.truth.IsTrue? && conflict.value.reason == CRDsSyncedToSecondary {
          SetCondition(APIServicesRegistered,
                       Verdict(IsFalse, SecondaryUnhealthy,
                               "Cannot verify APIService availability while secondary is unhealthy"), now);
        }
        return RETRY_SECONDS, None;
      }
      SetCondition(SecondaryHealthy, Verdict(IsTrue, DeploymentAvailable, "Secondary API server is healthy"), now);
      endpoint := env.endpoint;
      if env.authVerified { AggregateSubCRStatus(env, now); }
      requeue, error := CheckAPIServiceAvailability(env, now);
      if error.Some? || requeue > 0 { return; }
      phase := Ready;
    }

    /** The status updates of the steps before registration, and the first error among them. */
    method Provision(env: PassEnv, now: nat) returns (error: Option<string>)
      modifies this`conditions, this`connection
      ensures Current() == ProvisionStep(env, old(Current()), generation, now)
      ensures error == ProvisionError(env)
    {
      if env.storage.report.Some? { SetCondition(StorageReady, env.storage.report.value, now); }
      if env.storage.failure.Some? { return env.storage.failure; }
      if env.monitoring.None? { RemoveCondition(MonitoringDegraded); }
      else { SetCondition(MonitoringDegraded, env.monitoring.value, now); }
      if env.early.Some? { return env.early; }
      if env.admin.AdminFailed? { return Some(env.admin.error); }
      if env.admin.AdminWritten? { connection := Some(env.admin.connection); }
      if env.late.Some? { return env.late; }
      return env.tlsSecret;
    }

    /** Reconcile from the registered APIServices on. */
    method Finish(env: PassEnv, desired: seq<string>, now: nat) returns (requeue: nat, error: Option<string>)
      modifies this
      ensures match FinishStep(env, old(Current()), desired, generation, now)
              case Broken(e) => error == Some(e) && requeue == 0 && stored == old(stored)
              case Going(s, n) => error == None && requeue == n && stored == Current() == s
    {
      hide Set, Remove, Find, HealthStep, ConflictStep;
      registered := desired;
      ReconcileCRDConflicts(env.conflict, now);
      requeue, error := UpdateHealthStatus(env, now);
      if error.Some? { return 0, error; }
      message := "";
      observedGeneration := generation;
      SetCondition(Reconciled, Verdict(IsTrue, ReconcileSucceeded, "All resources reconciled successfully"), now);
      UpdateStatus();
    }

    /** Reconcile on a live shard that has its finalizer, every status write accepted. */
    method Reconcile(env: PassEnv, desired: seq<string>, registration: Option<string>, now: nat)
      returns (requeue: nat, error: Option<string>)
      requires Current() == stored
      modifies this
      ensures PassResult(stored, requeue, error) == Pass(env, old(stored), desired, registration, generation, now)
      // what a caller can rely on: no silent stall, and a status that means what it says
      ensures error.None? ==> Coherent(stored) && stored.registered == desired
      ensures error.None? ==> (requeue == 0 <==> stored.phase.Ready?) && (requeue > 0 <==> stored.phase.Provisioning?)
      ensures Coherent(old(stored)) ==> Coherent(stored)
      // no failed step goes unreported
      ensures error.None? <==>
                && env.namespace.None? && env.storage.failure.None? && env.early.None? && !env.admin.AdminFailed?
                && env.late.None? && env.tlsSecret.None? && registration.None? && !CutShort(env, old(stored))
    {
      hide Set, Remove, Find, FinishStep, ProvisionStep, RecordError, Coherent, CutShort;
      NoSilentStall(env, stored, desired, registration, generation, now);
      PassErrors(env, stored, desired, registration, generation, now);
      if Coherent(stored) { PassCoherent(env, stored, desired, registration, generation, now); }
      if env.namespace.Some? {
        SetErrorAndRequeue(env.namespace.value, now);
        return 0, env.namespace;
      }
      if phase == Unset {
        phase := Provisioning;
        UpdateStatus();
      }
      error := Provision(env, now);
      if error.None? { error := registration; }
      if error.Some? {
        SetErrorAndRequeue(error.value, now);
        return 0, error;
      }
      requeue, error := Finish(env, desired, now);
    }
  }

  /** aggregation.Reconcile, then CheckAvailability on what the aggregator reported by the
      time of the check. A positive check after a successful registration covers every
      desired APIService. */
  method RegisterAndCheck(
    r: Aggregation.Registrant, groups: seq<Aggregation.APIGroup>, previous: seq<string>,
    live: map<string, Aggregation.APIService>, answers: nat -> Outcome,
    reported: map<string, seq<Aggregation.ServiceCondition>>)
    returns (now: map<string, Aggregation.APIService>, registered: Option<seq<string>>, available: bool, detail: string)
    ensures registered.Some? ==> registered.value == Aggregation.DesiredNames(groups)
    ensures forall n :: n in now && n in reported ==> now[n].conditions == reported[n]
    ensures registered.Some? && available ==>
              forall n :: n in Aggregation.DesiredNames(groups) ==>
                Aggregation.Registered(r, n, now) && Aggregation.IsAvailable(now[n])
  {
    hide Aggregation.DesiredNames, Aggregation.IsAvailable;
    var applied, calls;
    applied, calls, registered := Aggregation.Reconcile(r, groups, previous, live, answers);
    now := map n | n in applied :: if n in reported then applied[n].(conditions := reported[n]) else applied[n];
    var services := ListAll(now);
    available, detail := Aggregation.CheckAvailability(services, r.uid);
    forall n | registered.Some? && available && n in Aggregation.DesiredNames(groups)
      ensures Aggregation.Registered(r, n, now) && Aggregation.IsAvailable(now[n])
    {
      assert Aggregation.Registered(r, n, applied);
      var i :| 0 <= i < |services| && services[i] == (n, now[n]);
      assert r.uid in services[i].1.owners;
    }
  }

  /** What a successful listing can lead to: no conflict exactly when no primary CRD is in an
      aggregated group. */
  predicate Answers(groups: seq<Aggregation.APIGroup>, primary: map<string, CrdSync.CRD>, run: ConflictRun) {
    !run.ListingFailed? && (run.Clear? <==> forall n :: n in primary ==> !CrdSync.InGroups(primary[n], groups))
  }

  /** The conflict handling of a pass: what DetectAndSync answers, or nothing when the CRDs
      of the primary could not be listed. */
  method HandleConflicts(groups: seq<Aggregation.APIGroup>, primary: map<string, CrdSync.CRD>,
                         secondary: map<string, CrdSync.CRD>, listed: bool, clientError: Option<string>,
                         found: nat -> bool, applies: nat -> Outcome)
    returns (now: map<string, CrdSync.CRD>, run: ConflictRun)
    ensures !listed ==> run == ListingFailed && now == secondary
    ensures listed ==> Answers(groups, primary, run)
    ensures listed && run.SyncDone? ==>
              forall n :: n in primary && CrdSync.InGroups(primary[n], groups) ==>
                n in now && now[n] == CrdSync.Image(primary[n])
  {
    if !listed { return secondary, ListingFailed; }
    ghost var names;
    now, run, names := CrdSync.DetectAndSync(groups, primary, secondary, clientError, found, applies);
  }

  /** Registration, conflict handling and the availability gate of one undisturbed pass,
      over the clusters themselves. If the pass ends Ready, its conflict listing succeeded
      and conflicts were found, every primary CRD in an aggregated group was applied to the
      secondary in transformed form, and every desired APIService is there, owned by the
      shard and available. If the listing failed, the CRDs on the secondary are as before. */
  method RegisterSyncAndGate(
    r: Aggregation.Registrant, groups: seq<Aggregation.APIGroup>, live: map<string, Aggregation.APIService>,
    primary: map<string, CrdSync.CRD>, secondary: map<string, CrdSync.CRD>, listed: bool,
    clientError: Option<string>, registering: nat -> Outcome, found: nat -> bool, applies: nat -> Outcome,
    reported: map<string, seq<Aggregation.ServiceCondition>>,
    env: PassEnv, s: Status, generation: int, now: nat)
    returns (live': map<string, Aggregation.APIService>, secondary': map<string, CrdSync.CRD>, result: StepResult)
    ensures
      listed && result.Going? && result.status.phase.Ready?
      && (exists n :: n in primary && CrdSync.InGroups(primary[n], groups)) ==>
        && (forall n :: n in primary && CrdSync.InGroups(primary[n], groups) ==>
              n in secondary' && secondary'[n] == CrdSync.Image(primary[n]))
        && (forall n :: n in Aggregation.DesiredNames(groups) ==>
              Aggregation.Registered(r, n, live') && Aggregation.IsAvailable(live'[n]))
    ensures !listed ==> secondary' == secondary
    // a failed listing can let a pass become Ready on what an earlier one recorded
    ensures !listed && result.Going? ==>
              (result.status.phase.Ready? ==>
                 env.deployments == Observed(true) && !ConflictIs(s, CRDSyncFailed))
    ensures !listed && result.Going? && env.deployments == Observed(true)
            && !ConflictIs(s, CRDSyncFailed) && !ConflictIs(s, CRDsSyncedToSecondary) ==>
              result.status.phase.Ready?
  {
    hide FinishStep, Aggregation.DesiredNames, Aggregation.Registered, Aggregation.IsAvailable, CrdSync.Image,
         CrdSync.InGroups, ConflictIs;
    var registered, available, detail, run;
    live', registered, available, detail := RegisterAndCheck(r, groups, s.registered, live, registering, reported);
    secondary' := secondary;
    if registered.None? {
      return live', secondary', Broken("applying or sweeping APIServices failed");
    }
    secondary', run := HandleConflicts(groups, primary, secondary, listed, clientError, found, applies);
    var answered := env.(conflict := run, availability := Checked(available, detail));
    result := FinishStep(answered, s, registered.value, generation, now);
    ReadyRestsOn(answered, s, registered.value, generation, now);
  }

  /** The pass in which the first listing fails although the primary has a CRD of an
      aggregated group: it ends Ready, says nothing of a conflict and asks for no retry. After
      any successful listing it could have ended Ready only with the CRDs synced and every
      APIService confirmed. */
  lemma FailedListingHidesConflict(env: PassEnv, s: Status, desired: seq<string>, generation: int, now: nat,
                                   groups: seq<Aggregation.APIGroup>, primary: map<string, CrdSync.CRD>, name: string)
    requires name in primary && CrdSync.InGroups(primary[name], groups)
    requires env.conflict == ListingFailed && env.deployments == Observed(true)
    requires Find(s.conditions, CRDConflict).None?
    ensures var r := FinishStep(env, s, desired, generation, now);
            && r.Going? && r.status.phase.Ready? && r.requeue == 0
            && Find(r.status.conditions, CRDConflict).None?
    ensures forall run :: Answers(groups, primary, run) ==>
              var r := FinishStep(env.(conflict := run), s, desired, generation, now);
              (r.Going? && r.status.phase.Ready? <==> run.SyncDone? && Confirmed(env))
  {
    hide FinishStep;
    ReadyRestsOn(env, s, desired, generation, now);
    FinishCoherent(env, s, desired, generation, now);
    FinishConflict(env, s, desired, generation, now);
    forall run | Answers(groups, primary, run)
      ensures var r := FinishStep(env.(conflict := run), s, desired, generation, now);
              r.Going? && r.status.phase.Ready? <==> run.SyncDone? && Confirmed(env)
    {
      ReadyRestsOn(env.(conflict := run), s, desired, generation, now);
    }
  }
}
