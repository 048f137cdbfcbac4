/** The APIShard status as one reconcile pass computes it. Every API call whose
    effect is not followed elsewhere appears as the answer it gave, in `PassEnv`;
    the answers are arbitrary, so a statement about all environments is a statement
    about all combinations of failures. */
module ShardStatus {
  import opened Prelude
  import opened Conditions

  datatype Phase = Unset | Provisioning | Ready | Error

  datatype Status = Status(
    phase: Phase,
    message: string,
    connection: Option<string>,
    endpoint: string,
    registered: seq<string>,
    conditions: seq<Condition>,
    observedGeneration: int)

  const RETRY_SECONDS: nat := 10

  // ----- answers of the environment --------------------------------------

  /** reconcileStorage: the StorageReady verdict it recorded, and its error. */
  datatype StorageRun = StorageRun(report: Option<Verdict>, failure: Option<string>)

  /** reconcileAdminKubeconfig: failed, secrets not ready yet, or the secret was written. */
  datatype AdminRun = AdminFailed(error: string) | AdminPending | AdminWritten(connection: string)

  /** DetectCRDConflicts followed by syncCRDsToSecondary. */
  datatype ConflictRun =
    | ListingFailed
    | Clear
    | SyncRefused(message: string, error: string)
    | SyncDone(message: string)

  /** checkDeploymentHealth. */
  datatype Deployments = Unreadable(error: string) | Observed(healthy: bool)

  /** The Ready condition of a NamespaceSync or WebhookSync object. */
  datatype SubReport = Missing | Silent | Reported(verdict: Verdict)

  /** CheckAvailability. */
  datatype Availability = ListError(error: string) | Checked(available: bool, detail: string)

  datatype PassEnv = PassEnv(
    namespace: Option<string>,       // error of ensureNamespace
    storage: StorageRun,
    monitoring: Option<Verdict>,     // None: storage monitoring is switched off
    early: Option<string>,           // first error from cert-manager resources to the request-header CA
    admin: AdminRun,
    late: Option<string>,            // first error of the secondary and metrics steps
    tlsSecret: Option<string>,       // error of reading the TLS secret
    conflict: ConflictRun,
    deployments: Deployments,
    endpoint: string,
    authVerified: bool,
    namespaceSync: SubReport,
    webhookSync: SubReport,
    availability: Availability)

  // ----- the steps of a pass ----------------------------------------------

  function Mark(s: Status, kind: ConditionType, v: Verdict, generation: int, now: nat): Status {
    s.(conditions := Set(s.conditions, kind, v, generation, now))
  }

  function Unmark(s: Status, kind: ConditionType): Status {
    s.(conditions := Remove(s.conditions, kind))
  }

  /** The first status write: a fresh object leaves the empty phase. */
  function Admit(s: Status): Status {
    if s.phase.Unset? then s.(phase := Provisioning) else s
  }

  /** setErrorAndRequeue. */
  function RecordError(s: Status, error: string, generation: int, now: nat): Status {
    Mark(s.(phase := Error, message := error, observedGeneration := generation),
         Reconciled, Verdict(IsFalse, ReconcileError, error), generation, now)
  }

  function StorageStep(env: PassEnv, s: Status, generation: int, now: nat): Status {
    var reported := if env.storage.report.None? then s
                    else Mark(s, StorageReady, env.storage.report.value, generation, now);
    if env.storage.failure.Some? then reported
    else if env.monitoring.None? then Unmark(reported, MonitoringDegraded)
    else Mark(reported, MonitoringDegraded, env.monitoring.value, generation, now)
  }

  /** The first error between the storage step and the registration of APIServices. */
  function ProvisionError(env: PassEnv): Option<string> {
    if env.storage.failure.Some? then env.storage.failure
    else if env.early.Some? then env.early
    else if env.admin.AdminFailed? then Some(env.admin.error)
    else if env.late.Some? then env.late
    else env.tlsSecret
  }

  /** Everything a pass records before it registers APIServices. */
  function ProvisionStep(env: PassEnv, s: Status, generation: int, now: nat): Status {
    var stored := StorageStep(env, s, generation, now);
    if env.storage.failure.None? && env.early.None? && env.admin.AdminWritten?
    then stored.(connection := Some(env.admin.connection))
    else stored
  }

  /** reconcileCRDConflicts: a failed listing keeps whatever was recorded before. */
  function ConflictStep(run: ConflictRun, s: Status, generation: int, now: nat): Status {
    match run
    case ListingFailed => s
    case Clear =>
      Mark(s, CRDConflict, Verdict(IsFalse, NoConflicts, "No conflicting CRDs detected on primary"), generation, now)
    case SyncRefused(message, error) =>
      Mark(s, CRDConflict, Verdict(IsTrue, CRDSyncFailed, message + "; sync failed: " + error), generation, now)
    case SyncDone(message) =>
      Mark(s, CRDConflict, Verdict(IsTrue, CRDsSyncedToSecondary, message + "; CRDs synced to secondary"),
           generation, now)
  }

  predicate ConflictIs(s: Status, reason: Reason) {
    var v := VerdictOf(s.conditions, CRDConflict);
    v.Some? && v.value.truth.IsTrue? && v.value.reason == reason
  }

  /** aggregateSubCRStatus: stops at the first object it cannot read. */
  function SubReportStep(env: PassEnv, s: Status, generation: int, now: nat): Status {
    if env.namespaceSync.Missing? then s
    else
      var first := if env.namespaceSync.Reported?
                   then Mark(s, NamespaceSyncReady, env.namespaceSync.verdict, generation, now) else s;
      if env.webhookSync.Reported?
      then Mark(first, WebhookSyncReady, env.webhookSync.verdict, generation, now) else first
  }

  /** What a step hands back to Reconcile: an error, or a status and a requeue delay. */
  datatype StepResult = Broken(error: string) | Going(status: Status, requeue: nat)

  /** checkAPIServiceAvailability. */
  function GateStep(env: PassEnv, s: Status, generation: int, now: nat): StepResult {
    if ConflictIs(s, CRDSyncFailed) then
      Going(s.(phase := Provisioning), RETRY_SECONDS)
    else if !ConflictIs(s, CRDsSyncedToSecondary) then
      Going(Unmark(s, APIServicesRegistered), 0)
    else match env.availability
      case ListError(error) => Broken("check APIService availability: " + error)
      case Checked(available, detail) =>
        if !available then
          Going(Mark(s.(phase := Provisioning), APIServicesRegistered,
                     Verdict(IsFalse, APIServicesNotAvailable, detail), generation, now), RETRY_SECONDS)
        else
          Going(Mark(s, APIServicesRegistered,
                     Verdict(IsTrue, AllAvailable, "All APIServices are available via aggregation"),
                     generation, now), 0)
  }

  /** updateHealthStatus while a deployment is not ready. */
  function DownStep(s: Status, generation: int, now: nat): Status {
    var down := Mark(s.(phase := Provisioning), SecondaryHealthy,
                     Verdict(IsFalse, DeploymentNotReady, "Secondary API server is not yet ready"), generation, now);
    if ConflictIs(down, CRDsSyncedToSecondary)
    then Mark(down, APIServicesRegistered,
              Verdict(IsFalse, SecondaryUnhealthy,
                      "Cannot verify APIService availability while secondary is unhealthy"),
              generation, now)
    else down
  }

  /** updateHealthStatus up to the availability gate, once the deployments are ready. */
  function UpStep(env: PassEnv, s: Status, generation: int, now: nat): Status {
    var up := Mark(s, SecondaryHealthy,
                   Verdict(IsTrue, DeploymentAvailable, "Secondary API server is healthy"), generation, now)
              .(endpoint := env.endpoint);
    if env.authVerified then SubReportStep(env, up, generation, now) else up
  }

  /** updateHealthStatus. */
  function HealthStep(env: PassEnv, s: Status, generation: int, now: nat): StepResult {
    match env.deployments
    case Unreadable(error) => Broken(error)
    case Observed(false) => Going(DownStep(s, generation, now), RETRY_SECONDS)
    case Observed(true) =>
      match GateStep(env, UpStep(env, s, generation, now), generation, now)
      case Broken(error) => Broken(error)
      case Going(gated, requeue) =>
        if requeue > 0 then Going(gated, requeue) else Going(gated.(phase := Ready), 0)
  }

  /** The last lines of Reconcile before its final status write. */
  function Conclude(s: Status, generation: int, now: nat): Status {
    Mark(s.(message := "", observedGeneration := generation),
         Reconciled, Verdict(IsTrue, ReconcileSucceeded, "All resources reconciled successfully"), generation, now)
  }

  /** From the registered APIServices to the status of the final write. */
  function FinishStep(env: PassEnv, s: Status, desired: seq<string>, generation: int, now: nat): StepResult {
    match HealthStep(env, ConflictStep(env.conflict, s.(registered := desired), generation, now), generation, now)
    case Broken(error) => Broken(error)
    case Going(gated, requeue) => Going(Conclude(gated, generation, now), requeue)
  }

  // ----- one undisturbed pass ---------------------------------------------

  /** What an undisturbed pass leaves persisted and what it returns. */
  datatype PassResult = PassResult(persisted: Status, requeue: nat, error: Option<string>)

  /** A pass on a live, non-deleting shard with its finalizer, every status write
      accepted. `registration` is the error of aggregation.Reconcile, if any. */
  function Pass(env: PassEnv, s: Status, desired: seq<string>, registration: Option<string>,
                generation: int, now: nat): PassResult
  {
    if env.namespace.Some? then
      PassResult(RecordError(s, env.namespace.value, generation, now), 0, env.namespace)
    else
      var admitted := Admit(s);
      var provisioned := ProvisionStep(env, admitted, generation, now);
      var error := if ProvisionError(env).Some? then ProvisionError(env) else registration;
      if error.Some? then
        PassResult(RecordError(provisioned, error.value, generation, now), 0, error)
      else
        match FinishStep(env, provisioned, desired, generation, now)
        case Broken(e) => PassResult(admitted, 0, Some(e))
        case Going(final, requeue) => PassResult(final, requeue, None)
  }

  // ----- what every persisted status says -----------------------------------

  predicate Reports(s: Status, kind: ConditionType, truth: Truth) {
    var v := VerdictOf(s.conditions, kind);
    v.Some? && v.value.truth == truth
  }

  /** The CRDs the shard took over are served: none failed to sync, and once they are
      on the secondary the aggregator has confirmed every APIService. */
  predicate Served(s: Status) {
    && !ConflictIs(s, CRDSyncFailed)
    && (ConflictIs(s, CRDsSyncedToSecondary) ==>
          Reports(s, APIServicesRegistered, IsTrue)
          && VerdictOf(s.conditions, APIServicesRegistered).value.reason == AllAvailable)
  }

  /** The meaning of a persisted status, phase by phase. */
  predicate Coherent(s: Status) {
    && (s.phase.Error? <==> Reports(s, Reconciled, IsFalse))
    && (s.phase.Ready? ==>
          Reports(s, Reconciled, IsTrue) && Reports(s, SecondaryHealthy, IsTrue) && s.message == "" && Served(s))
  }

  lemma RecordErrorCoherent(s: Status, error: string, generation: int, now: nat)
    ensures var r := RecordError(s, error, generation, now);
            Coherent(r) && r.phase.Error? && r.registered == s.registered
  {
  }

  lemma GateSound(env: PassEnv, s: Status, generation: int, now: nat)
    ensures var r := GateStep(env, s, generation, now);
            r.Going? ==>
              && (forall k :: k != APIServicesRegistered ==> Find(r.status.conditions, k) == Find(s.conditions, k))
              && r.status == s.(phase := r.status.phase, conditions := r.status.conditions)
              && (r.requeue > 0 ==> r.status.phase.Provisioning?)
              && (r.requeue == 0 ==> Served(r.status))
  {
    hide Set, Remove, Find;
  }

  /** A health check touches nothing but the phase, the endpoint and its own conditions. */
  predicate HealthKind(kind: ConditionType) {
    kind.SecondaryHealthy? || kind.APIServicesRegistered? || kind.NamespaceSyncReady? || kind.WebhookSyncReady?
  }

  lemma SubReportSound(env: PassEnv, s: Status, generation: int, now: nat)
    ensures var r := SubReportStep(env, s, generation, now);
            && r == s.(conditions := r.conditions)
            && forall k: ConditionType :: !k.NamespaceSyncReady? && !k.WebhookSyncReady? ==>
                  Find(r.conditions, k) == Find(s.conditions, k)
  {
    hide Set, Remove, Find;
  }

  lemma DownSound(s: Status, generation: int, now: nat)
    ensures var r := DownStep(s, generation, now);
            && r == s.(phase := Provisioning, conditions := r.conditions)
            && forall k :: !HealthKind(k) ==> Find(r.conditions, k) == Find(s.conditions, k)
  {
    hide Set, Remove, Find;
  }

  lemma UpSound(env: PassEnv, s: Status, generation: int, now: nat)
    ensures var r := UpStep(env, s, generation, now);
            && r == s.(endpoint := r.endpoint, conditions := r.conditions)
            && (forall k :: !HealthKind(k) ==> Find(r.conditions, k) == Find(s.conditions, k))
            && Reports(r, SecondaryHealthy, IsTrue)
  {
    hide Set, Remove, Find, SubReportStep;
    SubReportSound(env,
                   Mark(s, SecondaryHealthy, Verdict(IsTrue, DeploymentAvailable, "Secondary API server is healthy"),
                        generation, now)
                   .(endpoint := env.endpoint), generation, now);
  }

  lemma HealthSound(env: PassEnv, s: Status, generation: int, now: nat)
    ensures var r := HealthStep(env, s, generation, now);
            r.Going? ==>
              && r.status == s.(phase := r.status.phase, endpoint := r.status.endpoint,
                                 conditions := r.status.conditions)
              && (forall k :: !HealthKind(k) ==> Find(r.status.conditions, k) == Find(s.conditions, k))
              && (r.requeue > 0 <==> r.status.phase.Provisioning?)
              && (r.requeue == 0 <==> r.status.phase.Ready?)
              && (r.status.phase.Ready? ==> Reports(r.status, SecondaryHealthy, IsTrue) && Served(r.status))
  {
    hide Set, Remove, Find, GateStep, UpStep, DownStep;
    DownSound(s, generation, now);
    UpSound(env, s, generation, now);
    GateSound(env, UpStep(env, s, generation, now), generation, now);
  }

  /** Every status a pass can write last is coherent, whatever the answers of the
      environment and whatever the status before; and the requeue delay agrees with it. */
  lemma FinishCoherent(env: PassEnv, s: Status, desired: seq<string>, generation: int, now: nat)
    ensures var r := FinishStep(env, s, desired, generation, now);
            r.Going? ==> Coherent(r.status) && r.status.registered == desired
                         && (r.requeue > 0 <==> r.status.phase.Provisioning?)
                         && (r.requeue == 0 <==> r.status.phase.Ready?)
  {
    hide Set, Remove, Find, HealthStep;
    HealthSound(env, ConflictStep(env.conflict, s.(registered := desired), generation, now), generation, now);
  }

  /** The aggregator confirmed every APIService of the shard. */
  predicate Confirmed(env: PassEnv) {
    env.availability.Checked? && env.availability.available
  }

  /** Whether the conflict handling lets a pass become Ready. When the listing failed, the
      code goes by what the last successful one recorded. */
  predicate ConflictSettled(env: PassEnv, s: Status) {
    match env.conflict
    case Clear => true
    case SyncRefused(_, _) => false
    case SyncDone(_) => Confirmed(env)
    case ListingFailed => !ConflictIs(s, CRDSyncFailed) && (ConflictIs(s, CRDsSyncedToSecondary) ==> Confirmed(env))
  }

  /** What a final write of Ready rests on, exactly: healthy deployments and a settled
      conflict. */
  lemma ReadyRestsOn(env: PassEnv, s: Status, desired: seq<string>, generation: int, now: nat)
    ensures var r := FinishStep(env, s, desired, generation, now);
            r.Going? && r.status.phase.Ready? <==> env.deployments == Observed(true) && ConflictSettled(env, s)
  {
    hide Set, Remove, Find, UpStep, DownStep;
    var detected := ConflictStep(env.conflict, s.(registered := desired), generation, now);
    UpSound(env, detected, generation, now);
    DownSound(detected, generation, now);
  }

  /** The conflict verdict of the final write is the one the conflict handling recorded. */
  lemma FinishConflict(env: PassEnv, s: Status, desired: seq<string>, generation: int, now: nat)
    ensures var r := FinishStep(env, s, desired, generation, now);
            r.Going? ==>
              Find(r.status.conditions, CRDConflict)
              == Find(ConflictStep(env.conflict, s, generation, now).conditions, CRDConflict)
  {
    hide Set, Remove, Find, HealthStep;
    HealthSound(env, ConflictStep(env.conflict, s.(registered := desired), generation, now), generation, now);
  }

  /** A pass never turns a coherent status into another kind. */
  lemma PassCoherent(env: PassEnv, s: Status, desired: seq<string>, registration: Option<string>,
                     generation: int, now: nat)
    requires Coherent(s)
    ensures Coherent(Pass(env, s, desired, registration, generation, now).persisted)
  {
    hide Set, Remove, Find, FinishStep, ProvisionStep, ProvisionError, RecordError;
    var admitted := Admit(s);
    var provisioned := ProvisionStep(env, admitted, generation, now);
    forall error { RecordErrorCoherent(s, error, generation, now); }
    forall error { RecordErrorCoherent(provisioned, error, generation, now); }
    FinishCoherent(env, provisioned, desired, generation, now);
  }

  /** The health step is cut short: the deployments could not be read, or the APIServices
      could not be listed although the gate needs them. */
  predicate CutShort(env: PassEnv, s: Status) {
    || env.deployments.Unreadable?
    || (&& env.deployments == Observed(true) && env.availability.ListError?
        && (env.conflict.SyncDone? || (env.conflict.ListingFailed? && ConflictIs(s, CRDsSyncedToSecondary))))
  }

  lemma FinishBroken(env: PassEnv, s: Status, desired: seq<string>, generation: int, now: nat)
    ensures FinishStep(env, s, desired, generation, now).Broken? <==> CutShort(env, s)
  {
    hide Set, Remove, Find, HealthStep;
    HealthBroken(env, ConflictStep(env.conflict, s.(registered := desired), generation, now), generation, now);
  }

  /** The pass returned this error and persisted it as phase Error with its text. */
  predicate Recorded(r: PassResult, error: Option<string>, s: Status, generation: int) {
    && error.Some? && r.error == error && r.requeue == 0
    && r.persisted.phase.Error? && r.persisted.message == error.value
    && r.persisted.observedGeneration == generation && r.persisted.registered == s.registered
    && Says(r.persisted.conditions, Reconciled, Verdict(IsFalse, ReconcileError, error.value), generation)
  }

  lemma RecordErrorSays(s: Status, error: string, generation: int, now: nat)
    ensures var r := RecordError(s, error, generation, now);
            && r == s.(phase := Error, message := error, observedGeneration := generation, conditions := r.conditions)
            && Says(r.conditions, Reconciled, Verdict(IsFalse, ReconcileError, error), generation)
            && forall k :: k != Reconciled ==> Find(r.conditions, k) == Find(s.conditions, k)
  {
    hide Set, Find;
  }

  /** Which errors a pass returns and persists: the first failure in the order of the steps.
      Only an error of the health step leaves the status as the pass found it. */
  lemma PassErrors(env: PassEnv, s: Status, desired: seq<string>, registration: Option<string>,
                   generation: int, now: nat)
    ensures var r := Pass(env, s, desired, registration, generation, now);
            if env.namespace.Some? then Recorded(r, env.namespace, s, generation)
            else if env.storage.failure.Some? then Recorded(r, env.storage.failure, s, generation)
            else if env.early.Some? then Recorded(r, env.early, s, generation)
            else if env.admin.AdminFailed? then Recorded(r, Some(env.admin.error), s, generation)
            else if env.late.Some? then Recorded(r, env.late, s, generation)
            else if env.tlsSecret.Some? then Recorded(r, env.tlsSecret, s, generation)
            else if registration.Some? then Recorded(r, registration, s, generation)
            else if CutShort(env, s) then
              && r.requeue == 0
              && r.persisted == (if s.phase.Unset? then s.(phase := Provisioning) else s)
              && r.error == Some(if env.deployments.Unreadable? then env.deployments.error
                                 else "check APIService availability: " + env.availability.error)
            else r.error.None?
  {
    hide Set, Remove, Find, HealthStep, ProvisionStep, RecordError;
    var admitted := Admit(s);
    var provisioned := ProvisionStep(env, admitted, generation, now);
    ProvisionSound(env, admitted, generation, now);
    FinishBroken(env, provisioned, desired, generation, now);
    var detected := ConflictStep(env.conflict, provisioned.(registered := desired), generation, now);
    HealthBroken(env, detected, generation, now);
    if env.namespace.Some? {
      RecordErrorSays(s, env.namespace.value, generation, now);
    } else {
      var error := if ProvisionError(env).Some? then ProvisionError(env) else registration;
      if error.Some? { RecordErrorSays(provisioned, error.value, generation, now); }
    }
  }

  /** The verdict of the conflict handling. */
  function ConflictVerdict(env: PassEnv, s: Status): Option<Verdict> {
    match env.conflict
    case ListingFailed => VerdictOf(s.conditions, CRDConflict)
    case Clear => Some(Verdict(IsFalse, NoConflicts, "No conflicting CRDs detected on primary"))
    case SyncRefused(message, error) => Some(Verdict(IsTrue, CRDSyncFailed, message + "; sync failed: " + error))
    case SyncDone(message) => Some(Verdict(IsTrue, CRDsSyncedToSecondary, message + "; CRDs synced to secondary"))
  }

  /** The condition is as it was, or, if `written`, says `v` for this generation. */
  predicate Entry(before: seq<Condition>, after: seq<Condition>, kind: ConditionType, written: Option<Verdict>,
                  generation: int)
  {
    if written.Some? then Says(after, kind, written.value, generation) else Find(after, kind) == Find(before, kind)
  }

  /** The condition has this truth value and reason, for this generation. */
  predicate Rules(after: seq<Condition>, kind: ConditionType, truth: Truth, reason: Reason, generation: int) {
    var c := Find(after, kind);
    c.Some? && c.value.verdict.truth == truth && c.value.verdict.reason == reason && c.value.observed == generation
  }

  lemma MarkRules(s: Status, kind: ConditionType, v: Verdict, generation: int, now: nat)
    ensures var r := Mark(s, kind, v, generation, now);
            && r == s.(conditions := r.conditions)
            && Rules(r.conditions, kind, v.truth, v.reason, generation)
            && forall k :: k != kind ==> Find(r.conditions, k) == Find(s.conditions, k)
  {
    hide Set, Find;
  }

  /** What a health check records while a deployment is not ready. */
  lemma DownRecords(s: Status, generation: int, now: nat)
    ensures var r := DownStep(s, generation, now);
            && Rules(r.conditions, SecondaryHealthy, IsFalse, DeploymentNotReady, generation)
            && (if ConflictIs(s, CRDsSyncedToSecondary)
                then Rules(r.conditions, APIServicesRegistered, IsFalse, SecondaryUnhealthy, generation)
                else Find(r.conditions, APIServicesRegistered) == Find(s.conditions, APIServicesRegistered))
            && r.phase.Provisioning?
  {
    hide Mark, Find;
    var unready := Verdict(IsFalse, DeploymentNotReady, "Secondary API server is not yet ready");
    var unverified :=
      Verdict(IsFalse, SecondaryUnhealthy, "Cannot verify APIService availability while secondary is unhealthy");
    var start := s.(phase := Provisioning);
    MarkRules(start, SecondaryHealthy, unready, generation, now);
    MarkRules(Mark(start, SecondaryHealthy, unready, generation, now),
              APIServicesRegistered, unverified, generation, now);
  }

  /** What it records of healthy deployments, and of the sync objects once the secondary
      accepts the operator's credentials. */
  lemma UpRecords(env: PassEnv, s: Status, generation: int, now: nat)
    ensures var r := UpStep(env, s, generation, now);
            && Rules(r.conditions, SecondaryHealthy, IsTrue, DeploymentAvailable, generation)
            && SyncEntries(env, s.conditions, r.conditions, generation)
            && Find(r.conditions, APIServicesRegistered) == Find(s.conditions, APIServicesRegistered)
            && r.endpoint == env.endpoint
  {
    hide Set, Remove, Find;
  }

  /** The reports of the two sync objects are under their own conditions: the namespaces' if
      it could be read and says something, the webhooks' likewise if the first could be read. */
  predicate SyncEntries(env: PassEnv, before: seq<Condition>, after: seq<Condition>, generation: int) {
    && Entry(before, after, NamespaceSyncReady,
             if env.authVerified && env.namespaceSync.Reported? then Some(env.namespaceSync.verdict) else None,
             generation)
    && Entry(before, after, WebhookSyncReady,
             if env.authVerified && !env.namespaceSync.Missing? && env.webhookSync.Reported?
             then Some(env.webhookSync.verdict) else None, generation)
  }

  /** The text of a negative availability check. */
  function DetailOf(env: PassEnv): string {
    match env.availability
    case ListError(_) => ""
    case Checked(_, detail) => detail
  }

  /** What the gate records of the APIServices, and what it asks for. */
  lemma GateRecords(env: PassEnv, s: Status, generation: int, now: nat)
    ensures var r := GateStep(env, s, generation, now);
            r.Going? ==>
              var after := r.status.conditions;
              if ConflictIs(s, CRDSyncFailed) then
                Find(after, APIServicesRegistered) == Find(s.conditions, APIServicesRegistered) && r.requeue == 10
              else if !ConflictIs(s, CRDsSyncedToSecondary) then
                Find(after, APIServicesRegistered).None? && r.requeue == 0
              else if Confirmed(env) then
                Rules(after, APIServicesRegistered, IsTrue, AllAvailable, generation) && r.requeue == 0
              else
                && Rules(after, APIServicesRegistered, IsFalse, APIServicesNotAvailable, generation)
                && Find(after, APIServicesRegistered).value.verdict.message == DetailOf(env)
                && r.requeue == 10
  {
    hide Set, Remove, Find;
  }

  lemma HealthRecords(env: PassEnv, s: Status, generation: int, now: nat)
    requires HealthStep(env, s, generation, now).Going?
    ensures var r := HealthStep(env, s, generation, now);
            if env.deployments == Observed(true) then
              && r.status.endpoint == env.endpoint && r.requeue in {0, 10}
              && Rules(r.status.conditions, SecondaryHealthy, IsTrue, DeploymentAvailable, generation)
              && SyncEntries(env, s.conditions, r.status.conditions, generation)
            else
              && r.status.endpoint == s.endpoint && r.requeue == 10
              && Rules(r.status.conditions, SecondaryHealthy, IsFalse, DeploymentNotReady, generation)
              && Find(r.status.conditions, NamespaceSyncReady) == Find(s.conditions, NamespaceSyncReady)
              && Find(r.status.conditions, WebhookSyncReady) == Find(s.conditions, WebhookSyncReady)
  {
    hide Set, Remove, Find, UpStep, DownStep, GateStep, ConflictIs;
    DownKeeps(s, generation, now);
    DownRecords(s, generation, now);
    UpRecords(env, s, generation, now);
    GateRecords(env, UpStep(env, s, generation, now), generation, now);
    GateSound(env, UpStep(env, s, generation, now), generation, now);
  }

  lemma DownKeeps(s: Status, generation: int, now: nat)
    ensures var r := DownStep(s, generation, now);
            && r.endpoint == s.endpoint
            && forall k :: k != SecondaryHealthy && k != APIServicesRegistered ==>
                 Find(r.conditions, k) == Find(s.conditions, k)
  {
    hide Set, Remove, Find;
  }

  lemma ConcludeSays(s: Status, generation: int, now: nat)
    ensures var r := Conclude(s, generation, now);
            && r == s.(message := "", observedGeneration := generation, conditions := r.conditions)
            && Rules(r.conditions, Reconciled, IsTrue, ReconcileSucceeded, generation)
            && forall k :: k != Reconciled ==> Find(r.conditions, k) == Find(s.conditions, k)
  {
    hide Set, Find;
  }

  /** The last status of a pass that reached its end: what each step saw is under its own
      condition, and nothing else has changed. */
  lemma FinishRecords(env: PassEnv, s: Status, desired: seq<string>, generation: int, now: nat)
    requires FinishStep(env, s, desired, generation, now).Going?
    ensures var r := FinishStep(env, s, desired, generation, now);
            var up := env.deployments == Observed(true);
            && r.status.endpoint == (if up then env.endpoint else s.endpoint)
            && r.status.connection == s.connection && r.status.registered == desired
            && r.status.message == "" && r.status.observedGeneration == generation
            && r.requeue == (if up && ConflictSettled(env, s) then 0 else 10)
            && r.status.phase == (if up && ConflictSettled(env, s) then Ready else Provisioning)
            && Rules(r.status.conditions, Reconciled, IsTrue, ReconcileSucceeded, generation)
            && (up ==> Rules(r.status.conditions, SecondaryHealthy, IsTrue, DeploymentAvailable, generation))
            && (!up ==> Rules(r.status.conditions, SecondaryHealthy, IsFalse, DeploymentNotReady, generation))
            && SyncEntries(if up then env else env.(authVerified := false),
                           s.conditions, r.status.conditions, generation)
            && Find(r.status.conditions, StorageReady) == Find(s.conditions, StorageReady)
            && Find(r.status.conditions, MonitoringDegraded) == Find(s.conditions, MonitoringDegraded)
  {
    hide Set, Remove, Find, HealthStep, ConflictStep, Conclude, ConflictSettled;
    var detected := ConflictStep(env.conflict, s.(registered := desired), generation, now);
    ConflictSound(env.conflict, s.(registered := desired), generation, now);
    HealthRecords(env, detected, generation, now);
    HealthSound(env, detected, generation, now);
    ReadyRestsOn(env, s, desired, generation, now);
    ConcludeSays(HealthStep(env, detected, generation, now).status, generation, now);
  }

  lemma ConflictSays(env: PassEnv, s: Status, generation: int, now: nat)
    ensures VerdictOf(ConflictStep(env.conflict, s, generation, now).conditions, CRDConflict) == ConflictVerdict(env, s)
  {
    hide Set, Find;
  }

  /** Whether the conflict handling recorded this reason. */
  predicate Concluded(env: PassEnv, s: Status, reason: Reason) {
    var v := ConflictVerdict(env, s);
    v.Some? && v.value.truth.IsTrue? && v.value.reason == reason
  }

  /** What a pass reports about CRDs and APIServices, exactly. */
  lemma FinishReportsServices(env: PassEnv, s: Status, desired: seq<string>, generation: int, now: nat)
    requires FinishStep(env, s, desired, generation, now).Going?
    ensures var after := FinishStep(env, s, desired, generation, now).status.conditions;
            && VerdictOf(after, CRDConflict) == ConflictVerdict(env, s)
            && if Concluded(env, s, CRDsSyncedToSecondary) then
                 if env.deployments != Observed(true) then
                   Rules(after, APIServicesRegistered, IsFalse, SecondaryUnhealthy, generation)
                 else if Confirmed(env) then
                   Rules(after, APIServicesRegistered, IsTrue, AllAvailable, generation)
                 else
                   && Rules(after, APIServicesRegistered, IsFalse, APIServicesNotAvailable, generation)
                   && Find(after, APIServicesRegistered).value.verdict.message == DetailOf(env)
               else if env.deployments == Observed(true) && !Concluded(env, s, CRDSyncFailed) then
                 Find(after, APIServicesRegistered).None?
               else Find(after, APIServicesRegistered) == Find(s.conditions, APIServicesRegistered)
  {
    hide Set, Remove, Find, UpStep, DownStep, GateStep, ConflictStep, Conclude, ConflictVerdict;
    var detected := ConflictStep(env.conflict, s.(registered := desired), generation, now);
    ConflictSound(env.conflict, s.(registered := desired), generation, now);
    ConflictSays(env, s.(registered := desired), generation, now);
    SameConflict(env, s, desired);
    DownRecords(detected, generation, now);
    DownKeeps(detected, generation, now);
    var up := UpStep(env, detected, generation, now);
    UpRecords(env, detected, generation, now);
    UpSound(env, detected, generation, now);
    GateRecords(env, up, generation, now);
    GateSound(env, up, generation, now);
    ConcludeSays(HealthStep(env, detected, generation, now).status, generation, now);
  }

  lemma SameConflict(env: PassEnv, s: Status, desired: seq<string>)
    ensures ConflictVerdict(env, s.(registered := desired)) == ConflictVerdict(env, s)
  {
  }

  /** What the steps before registration record. */
  lemma ProvisionRecords(env: PassEnv, s: Status, generation: int, now: nat)
    requires env.storage.failure.None?
    ensures var r := ProvisionStep(env, s, generation, now);
            && Entry(s.conditions, r.conditions, StorageReady, env.storage.report, generation)
            && (if env.monitoring.None? then Find(r.conditions, MonitoringDegraded).None?
                else Says(r.conditions, MonitoringDegraded, env.monitoring.value, generation))
            && r.connection == (if env.early.None? && env.admin.AdminWritten? then Some(env.admin.connection)
                                else s.connection)
  {
    hide Set, Remove, Find;
  }

  /** The status of a pass without an error says what the pass saw, condition by condition. */
  lemma PassRecords(env: PassEnv, s: Status, desired: seq<string>, registration: Option<string>,
                    generation: int, now: nat)
    requires Pass(env, s, desired, registration, generation, now).error.None?
    ensures var r := Pass(env, s, desired, registration, generation, now);
            var up := env.deployments == Observed(true);
            && Entry(s.conditions, r.persisted.conditions, StorageReady, env.storage.report, generation)
            && (if env.monitoring.None? then Find(r.persisted.conditions, MonitoringDegraded).None?
                else Says(r.persisted.conditions, MonitoringDegraded, env.monitoring.value, generation))
            && VerdictOf(r.persisted.conditions, CRDConflict) == ConflictVerdict(env, s)
            && SyncEntries(if up then env else env.(authVerified := false),
                           s.conditions, r.persisted.conditions, generation)
            && r.persisted.endpoint == (if up then env.endpoint else s.endpoint)
            && r.persisted.connection == (if env.admin.AdminWritten? then Some(env.admin.connection) else s.connection)
            && r.persisted.phase == (if up && ConflictSettled(env, s) then Ready else Provisioning)
            && r.requeue == (if up && ConflictSettled(env, s) then 0 else 10)
            && r.persisted.message == "" && r.persisted.observedGeneration == generation
            && r.persisted.registered == desired
  {
    hide Set, Remove, Find, FinishStep, ProvisionStep, RecordError;
    var admitted := Admit(s);
    var provisioned := ProvisionStep(env, admitted, generation, now);
    PassErrors(env, s, desired, registration, generation, now);
    ProvisionSound(env, admitted, generation, now);
    ProvisionRecords(env, admitted, generation, now);
    FinishRecords(env, provisioned, desired, generation, now);
    FinishReportsServices(env, provisioned, desired, generation, now);
  }

  /** No silent stall: a pass that returns neither an error nor a delay has persisted
      Ready, and among error-free passes a delay goes exactly with Provisioning. */
  lemma NoSilentStall(env: PassEnv, s: Status, desired: seq<string>, registration: Option<string>,
                      generation: int, now: nat)
    ensures var r := Pass(env, s, desired, registration, generation, now);
            r.error.None? ==>
              && (r.requeue == 0 <==> r.persisted.phase.Ready?)
              && (r.requeue > 0 <==> r.persisted.phase.Provisioning?)
              && Coherent(r.persisted)
              && r.persisted.registered == desired
  {
    hide Set, Remove, Find, FinishStep, ProvisionStep, RecordError;
    FinishCoherent(env, ProvisionStep(env, Admit(s), generation, now), desired, generation, now);
  }

  // ----- idempotence -------------------------------------------------------

  /** Equal except for what Conclude and RecordError write. */
  predicate SameReports(a: Status, b: Status) {
    && b == a.(phase := b.phase, message := b.message, observedGeneration := b.observedGeneration,
               conditions := b.conditions)
    && forall k :: k != Reconciled ==> Find(a.conditions, k) == Find(b.conditions, k)
  }

  lemma GateFixed(env: PassEnv, s: Status, x: Status, generation: int, now: nat, later: nat)
    requires var r := GateStep(env, s, generation, now);
             && r.Going? && SameReports(r.status, x)
             && (r.requeue > 0 ==> x.phase.Provisioning?)
    ensures GateStep(env, x, generation, later) == Going(x, GateStep(env, s, generation, now).requeue)
  {
    hide Set, Remove, Find;
  }

  lemma SubReportFixed(env: PassEnv, s: Status, x: Status, generation: int, now: nat, later: nat)
    requires forall k: ConditionType :: k.NamespaceSyncReady? || k.WebhookSyncReady? ==>
               Find(x.conditions, k) == Find(SubReportStep(env, s, generation, now).conditions, k)
    ensures SubReportStep(env, x, generation, later) == x
  {
    hide Set, Remove, Find;
  }

  lemma DownFixed(s: Status, x: Status, generation: int, now: nat, later: nat)
    requires SameReports(DownStep(s, generation, now), x) && x.phase.Provisioning?
    ensures DownStep(x, generation, later) == x
  {
    hide Set, Remove, Find;
  }

  lemma UpFixed(env: PassEnv, s: Status, x: Status, generation: int, now: nat, later: nat)
    requires var up := UpStep(env, s, generation, now);
             && up.endpoint == x.endpoint
             && forall k :: HealthKind(k) && k != APIServicesRegistered ==>
                   Find(x.conditions, k) == Find(up.conditions, k)
    ensures UpStep(env, x, generation, later) == x
  {
    hide Set, Remove, Find, SubReportStep;
    var up := Mark(s, SecondaryHealthy, Verdict(IsTrue, DeploymentAvailable, "Secondary API server is healthy"),
         generation, now)
              .(endpoint := env.endpoint);
    SubReportSound(env, up, generation, now);
    if env.authVerified { SubReportFixed(env, up, x, generation, now, later); }
  }

  lemma HealthFixed(env: PassEnv, s: Status, x: Status, generation: int, now: nat, later: nat)
    requires var r := HealthStep(env, s, generation, now);
             r.Going? && SameReports(r.status, x) && x.phase == r.status.phase
    ensures HealthStep(env, x, generation, later) == Going(x, HealthStep(env, s, generation, now).requeue)
  {
    hide Set, Remove, Find, GateStep, UpStep, DownStep;
    if env.deployments.Observed? && env.deployments.healthy {
      var up := UpStep(env, s, generation, now);
      GateSound(env, up, generation, now);
      UpFixed(env, s, x, generation, now, later);
      GateFixed(env, up, x, generation, now, later);
    } else {
      DownSound(s, generation, now);
      DownFixed(s, x, generation, now, later);
    }
  }

  lemma ProvisionSound(env: PassEnv, s: Status, generation: int, now: nat)
    ensures var r := ProvisionStep(env, s, generation, now);
            && r == s.(connection := r.connection, conditions := r.conditions)
            && forall k: ConditionType :: !k.StorageReady? && !k.MonitoringDegraded? ==>
                  Find(r.conditions, k) == Find(s.conditions, k)
  {
    hide Set, Remove, Find;
  }

  lemma ProvisionFixed(env: PassEnv, s: Status, x: Status, generation: int, now: nat, later: nat)
    requires forall k: ConditionType :: k.StorageReady? || k.MonitoringDegraded? ==>
               Find(x.conditions, k) == Find(ProvisionStep(env, s, generation, now).conditions, k)
    requires x.connection == ProvisionStep(env, s, generation, now).connection
    ensures ProvisionStep(env, x, generation, later) == x
  {
    hide Set, Remove, Find;
  }

  lemma ConflictFixed(run: ConflictRun, s: Status, x: Status, generation: int, now: nat, later: nat)
    requires Find(x.conditions, CRDConflict) == Find(ConflictStep(run, s, generation, now).conditions, CRDConflict)
    ensures ConflictStep(run, x, generation, later) == x
  {
    hide Set, Remove, Find;
  }

  lemma FinishFixed(env: PassEnv, s: Status, desired: seq<string>, generation: int, now: nat, later: nat)
    ensures var r := FinishStep(env, s, desired, generation, now);
            r.Going? ==>
              && FinishStep(env, r.status, desired, generation, later) == r
              && r.status.connection == s.connection
              && forall k: ConditionType :: k.StorageReady? || k.MonitoringDegraded? ==>
                   Find(r.status.conditions, k) == Find(s.conditions, k)
  {
    hide Set, Remove, Find, HealthStep, ConflictStep;
    var start := s.(registered := desired);
    var detected := ConflictStep(env.conflict, start, generation, now);
    assert detected == start.(conditions := detected.conditions)
           && forall k :: k != CRDConflict ==> Find(detected.conditions, k) == Find(s.conditions, k) by {
      ConflictSound(env.conflict, start, generation, now);
    }
    HealthSound(env, detected, generation, now);
    if HealthStep(env, detected, generation, now).Going? {
      var final := Conclude(HealthStep(env, detected, generation, now).status, generation, now);
      ConflictFixed(env.conflict, start, final, generation, now, later);
      HealthFixed(env, detected, final, generation, now, later);
    }
  }

  lemma ConflictSound(run: ConflictRun, s: Status, generation: int, now: nat)
    ensures var r := ConflictStep(run, s, generation, now);
            && r == s.(conditions := r.conditions)
            && forall k :: k != CRDConflict ==> Find(r.conditions, k) == Find(s.conditions, k)
  {
    hide Set, Remove, Find;
  }

  /** Idempotence: in a fixed environment a second pass, at any later time, persists
      exactly what the first one persisted, transition times included, and returns the
      same, whichever error, unhealthy, sync-failed, gated or ready path is taken. */
  lemma PassIdempotent(env: PassEnv, s: Status, desired: seq<string>, registration: Option<string>,
                       generation: int, now: nat, later: nat)
    ensures var first := Pass(env, s, desired, registration, generation, now);
            Pass(env, first.persisted, desired, registration, generation, later) == first
  {
    hide Set, Remove, Find, ProvisionStep, FinishStep;
    var first := Pass(env, s, desired, registration, generation, now);
    if env.namespace.None? {
      var admitted := Admit(s);
      var provisioned := ProvisionStep(env, admitted, generation, now);
      ProvisionSound(env, admitted, generation, now);
      if ProvisionError(env).None? && registration.None? {
        if FinishStep(env, provisioned, desired, generation, now).Going? {
          FinishFixed(env, provisioned, desired, generation, now, later);
          FinishCoherent(env, provisioned, desired, generation, now);
          ProvisionFixed(env, admitted, first.persisted, generation, now, later);
        } else {
          BrokenAgain(env, admitted, provisioned, desired, generation, now, later);
        }
      } else {
        ProvisionFixed(env, admitted, first.persisted, generation, now, later);
      }
    }
  }

  /** The one way a healthy pass is cut short, read off the CRDConflict verdict. */
  lemma HealthBroken(env: PassEnv, s: Status, generation: int, now: nat)
    ensures var r := HealthStep(env, s, generation, now);
            match env.deployments
            case Unreadable(error) => r == Broken(error)
            case Observed(healthy) =>
              if healthy && ConflictIs(s, CRDsSyncedToSecondary) && env.availability.ListError?
              then r == Broken("check APIService availability: " + env.availability.error)
              else r.Going?
  {
    hide Set, Remove, Find, UpStep, DownStep;
    UpSound(env, s, generation, now);
  }

  /** A pass cut short by a health error is cut short again, starting from the status it left. */
  lemma BrokenAgain(env: PassEnv, admitted: Status, provisioned: Status, desired: seq<string>,
                    generation: int, now: nat, later: nat)
    requires provisioned == ProvisionStep(env, admitted, generation, now)
    requires FinishStep(env, provisioned, desired, generation, now).Broken?
    ensures FinishStep(env, ProvisionStep(env, admitted, generation, later), desired, generation, later)
            == FinishStep(env, provisioned, desired, generation, now)
  {
    hide Set, Remove, Find, ProvisionStep, HealthStep;
    ProvisionSound(env, admitted, generation, now);
    ProvisionSound(env, admitted, generation, later);
    var again := ProvisionStep(env, admitted, generation, later);
    HealthBroken(env, ConflictStep(env.conflict, provisioned.(registered := desired), generation, now),
                 generation, now);
    HealthBroken(env, ConflictStep(env.conflict, again.(registered := desired), generation, later), generation, later);
  }
}
