/** The APIShard controller as a machine over API calls. A pass is a sequence of calls;
    each call gets an answer, and between any two calls the spec may be edited, the
    deletion timestamp may be set, an APIService may vanish, or the operator may crash.
    What is persisted (`shard`, `live`) and what a pass holds in memory (`worker`) are
    separate, and status and finalizer writes are conditional on the resource version. */
module ShardRuns {
  import opened Prelude
  import opened ShardStatus
  import opened Aggregation

  datatype Shard = Shard(
    version: nat, generation: int, deleting: bool, finalizer: bool, groups: seq<APIGroup>, status: Status)

  /** What the last pass told the controller runtime. */
  datatype Return = Fresh | Failed | Crashed | Removed | Finished(requeue: nat, groups: seq<APIGroup>)

  /** Where the reconcile worker stands; `mem` is the object it holds in memory. */
  datatype Worker =
    | Idle(last: Return)
    | Cleaning(mem: Shard, next: nat, found: bool)  // deleting registered APIServices before removal
    | Unlocking(mem: Shard)                         // about to remove the finalizer
    | Adopting(mem: Shard)                          // about to add the finalizer
    | Opening(mem: Shard)                           // about to ensure the target namespace
    | Admitting(mem: Shard)                         // about to write the first phase
    | Building(mem: Shard)                      // about to run the steps up to the TLS secret
    | Applying(mem: Shard, next: nat)               // applying desired APIServices
    | Sweeping(mem: Shard, next: nat, found: bool)  // deleting orphaned APIServices
    | Failing(mem: Shard)                           // about to write the error status
    | Closing(mem: Shard, requeue: nat)             // about to write the final status

  /** What happened so far. `recent` are the names the running pass applied, `untracked`
      those applied by passes whose registered list never got persisted, `vanished` the
      names removed by others since the running pass began. */
  datatype History = History(
    applied: set<string>, listed: set<string>, deleted: set<string>,
    recent: set<string>, untracked: set<string>, vanished: set<string>)

  datatype World = World(shard: Option<Shard>, live: set<string>, worker: Worker, past: History)

  datatype Answer = Answer(outcome: Outcome, error: string, env: PassEnv, now: nat)

  datatype Event =
    | EditSpec(groups: seq<APIGroup>)
    | MarkDeleted
    | Vanish(name: string)
    | Crash
    | Call(answer: Answer)

  // ----- steps -----------------------------------------------------------------

  function RegisteredNames(w: World): set<string> {
    if w.shard.None? then {} else ToSet(w.shard.value.status.registered)
  }

  /** A pass ends without having persisted a registered list. */
  function Stop(w: World, last: Return): World {
    w.(worker := Idle(last),
       past := w.past.(untracked := w.past.untracked + (w.past.recent - RegisteredNames(w)), recent := {}))
  }

  /** Status().Update: accepted only if nobody wrote since `mem` was read. */
  predicate Accepted(w: World, mem: Shard, outcome: Outcome) {
    w.shard.Some? && w.shard.value.version == mem.version && outcome.Effective()
  }

  function Persist(w: World, mem: Shard): World
    requires w.shard.Some?
  {
    w.(shard := Some(w.shard.value.(version := mem.version + 1, status := mem.status)),
       past := w.past.(listed := w.past.listed + ToSet(mem.status.registered)))
  }

  function Fail(mem: Shard, error: string, now: nat): Worker {
    Failing(mem.(status := RecordError(mem.status, error, mem.generation, now)))
  }

  function BeginStep(w: World, a: Answer): World {
    if !a.outcome.Done? then Stop(w, Failed)
    else if w.shard.None? then Stop(w, Removed)
    else
      var mem := w.shard.value;
      var start := w.(past := w.past.(vanished := {}));
      if mem.deleting then
        if mem.finalizer then start.(worker := Cleaning(mem, 0, false)) else Stop(start, Removed)
      else start.(worker := if mem.finalizer then Opening(mem) else Adopting(mem))
  }

  function CleanStep(w: World, a: Answer, mem: Shard, next: nat, found: bool): World {
    if next >= |mem.status.registered| then w.(worker := Unlocking(mem))
    else
      var name := mem.status.registered[next];
      if !found then
        if !a.outcome.Done? then Stop(w, Failed)
        else if name in w.live then w.(worker := Cleaning(mem, next, true))
        else w.(worker := Cleaning(mem, next + 1, false))
      else
        // a name that vanished since the Get answers NotFound, which does not count as an error
        var hit := if a.outcome.Effective() && name in w.live
                   then w.(live := w.live - {name}, past := w.past.(deleted := w.past.deleted + {name})) else w;
        if a.outcome.Done? then hit.(worker := Cleaning(mem, next + 1, false)) else Stop(hit, Failed)
  }

  /** The update without the finalizer lets the API server drop the object. */
  function UnlockStep(w: World, a: Answer, mem: Shard): World {
    if Accepted(w, mem, a.outcome)
    then Stop(w, if a.outcome.Done? then Removed else Failed).(shard := None)
    else Stop(w, Failed)
  }

  /** The finalizer patch carries no resource version; it fails on an object that is
      being deleted, and its response refreshes the object in memory. */
  function AdoptStep(w: World, a: Answer): World {
    if w.shard.None? || w.shard.value.deleting || !a.outcome.Effective() then Stop(w, Failed)
    else
      var held := w.shard.value.(version := w.shard.value.version + 1, finalizer := true);
      var kept := w.(shard := Some(held));
      if a.outcome.Done? then kept.(worker := Opening(held)) else Stop(kept, Failed)
  }

  function OpenStep(w: World, a: Answer, mem: Shard): World {
    w.(worker := if a.env.namespace.Some? then Fail(mem, a.env.namespace.value, a.now) else Admitting(mem))
  }

  function AdmitStep(w: World, a: Answer, mem: Shard): World {
    if !mem.status.phase.Unset? then w.(worker := Building(mem))
    else
      var admitted := mem.(status := Admit(mem.status));
      if !Accepted(w, mem, a.outcome) then Stop(w, Failed)
      else
        var kept := Persist(w, admitted);
        if a.outcome.Done? then kept.(worker := Building(admitted.(version := mem.version + 1))) else Stop(kept, Failed)
  }

  function ProvisionCall(w: World, a: Answer, mem: Shard): World {
    var done := mem.(status := ProvisionStep(a.env, mem.status, mem.generation, a.now));
    var error := ProvisionError(a.env);
    w.(worker := if error.Some? then Fail(done, error.value, a.now) else Applying(done, 0))
  }

  function ApplyStep(w: World, a: Answer, mem: Shard, next: nat): World {
    var desired := DesiredNames(mem.groups);
    if next >= |desired| then w.(worker := Sweeping(mem, 0, false))
    else
      var name := desired[next];
      var hit := if !a.outcome.Effective() then w
                 else w.(live := w.live + {name},
                         past := w.past.(applied := w.past.applied + {name}, recent := w.past.recent + {name},
                                         vanished := w.past.vanished - {name}));
      hit.(worker := if a.outcome.Done? then Applying(mem, next + 1) else Fail(mem, a.error, a.now))
  }

  function FinishCall(w: World, a: Answer, mem: Shard): World {
    match FinishStep(a.env, mem.status, DesiredNames(mem.groups), mem.generation, a.now)
    case Broken(_) => Stop(w, Failed)
    case Going(final, requeue) => w.(worker := Closing(mem.(status := final), requeue))
  }

  function SweepStep(w: World, a: Answer, mem: Shard, next: nat, found: bool): World {
    if next >= |mem.status.registered| then FinishCall(w, a, mem)
    else
      var name := mem.status.registered[next];
      if name in DesiredNames(mem.groups) then w.(worker := Sweeping(mem, next + 1, false))
      else if !found then
        if !a.outcome.Done? then w.(worker := Fail(mem, a.error, a.now))
        else w.(worker := if name in w.live then Sweeping(mem, next, true) else Sweeping(mem, next + 1, false))
      else if name !in w.live then w.(worker := Fail(mem, a.error, a.now))
      else
        var hit := if a.outcome.Effective()
                   then w.(live := w.live - {name}, past := w.past.(deleted := w.past.deleted + {name})) else w;
        hit.(worker := if a.outcome.Done? then Sweeping(mem, next + 1, false) else Fail(mem, a.error, a.now))
  }

  function FailStep(w: World, a: Answer, mem: Shard): World {
    Stop(if Accepted(w, mem, a.outcome) then Persist(w, mem) else w, Failed)
  }

  function CloseStep(w: World, a: Answer, mem: Shard, requeue: nat): World {
    if !Accepted(w, mem, a.outcome) then Stop(w, Failed)
    else
      var kept := Persist(w, mem);
      kept.(worker := Idle(if a.outcome.Done? then Finished(requeue, mem.groups) else Failed),
            past := kept.past.(untracked := kept.past.untracked - ToSet(mem.status.registered), recent := {}))
  }

  function CallStep(w: World, a: Answer): World {
    match w.worker
    case Idle(_) => BeginStep(w, a)
    case Cleaning(mem, next, found) => CleanStep(w, a, mem, next, found)
    case Unlocking(mem) => UnlockStep(w, a, mem)
    case Adopting(_) => AdoptStep(w, a)
    case Opening(mem) => OpenStep(w, a, mem)
    case Admitting(mem) => AdmitStep(w, a, mem)
    case Building(mem) => ProvisionCall(w, a, mem)
    case Applying(mem, next) => ApplyStep(w, a, mem, next)
    case Sweeping(mem, next, found) => SweepStep(w, a, mem, next, found)
    case Failing(mem) => FailStep(w, a, mem)
    case Closing(mem, requeue) => CloseStep(w, a, mem, requeue)
  }

  function Next(w: World, e: Event): World {
    match e
    case EditSpec(groups) =>
      if w.shard.None? then w
      else
        var s := w.shard.value;
        w.(shard := Some(s.(version := s.version + 1, generation := s.generation + 1, groups := groups)))
    case MarkDeleted =>
      if w.shard.None? then w
      else
        var s := w.shard.value;
        w.(shard := if s.finalizer then Some(s.(version := s.version + 1, deleting := true)) else None)
    case Vanish(name) =>
      w.(live := w.live - {name}, past := w.past.(vanished := w.past.vanished + {name}))
    case Crash => Stop(w, Crashed)
    case Call(a) => CallStep(w, a)
  }

  function Run(w: World, events: seq<Event>): World
    decreases |events|
  {
    if events == [] then w else Run(Next(w, events[0]), events[1..])
  }

  /** A shard the user has just created. */
  function Created(groups: seq<APIGroup>): World {
    World(Some(Shard(0, 1, false, false, groups, Status(Unset, "", None, "", [], [], 0))),
          {}, Idle(Fresh), History({}, {}, {}, {}, {}, {}))
  }

  // ----- the invariant ---------------------------------------------------------

  /** The worker's copy agrees with the stored object as long as the version does. */
  predicate InSync(w: World, mem: Shard) {
    && w.shard.Some?
    && mem.version <= w.shard.value.version
    && (mem.version == w.shard.value.version ==>
          mem.groups == w.shard.value.groups && mem.status.registered == w.shard.value.status.registered)
  }

  /** Operator deletions come from persisted lists, and those from earlier applies. */
  predicate Provenance(w: World) {
    && w.past.deleted <= w.past.listed <= w.past.applied
    && RegisteredNames(w) <= w.past.listed
    && w.live <= w.past.applied
    && w.past.recent <= w.past.applied
  }

  /** Everything live is in the persisted list, was applied by the running pass, or was
      applied by a pass whose list got lost. */
  predicate Tracked(w: World) {
    w.live <= RegisteredNames(w) + w.past.recent + w.past.untracked
  }

  /** A live pass beyond the finalizer. */
  predicate Underway(w: World, mem: Shard) {
    && InSync(w, mem) && w.shard.value.finalizer
    && ToSet(mem.status.registered) <= w.past.listed
    && w.past.recent <= ToSet(DesiredNames(mem.groups))
  }

  /** The first `n` desired names were applied in this pass. */
  predicate AppliedUpTo(w: World, mem: Shard, n: nat) {
    && n <= |DesiredNames(mem.groups)|
    && ToSet(DesiredNames(mem.groups)[..n]) <= w.past.recent
    && ToSet(DesiredNames(mem.groups)[..n]) <= w.live + w.past.vanished
  }

  predicate SweptUpTo(w: World, mem: Shard, registered: seq<string>, n: nat) {
    && n <= |registered|
    && forall i :: 0 <= i < n ==> registered[i] in DesiredNames(mem.groups) || registered[i] !in w.live
  }

  predicate WorkerInv(w: World) {
    match w.worker
    case Idle(last) =>
      && w.past.recent == {}
      && (last.Finished? ==>
            && w.shard.Some? && w.shard.value.finalizer
            && w.shard.value.status.registered == DesiredNames(last.groups)
            && RegisteredNames(w) <= w.live + w.past.vanished
            && w.live <= RegisteredNames(w) + w.past.untracked
            && (last.requeue == 0 <==> w.shard.value.status.phase.Ready?)
            && (last.requeue > 0 <==> w.shard.value.status.phase.Provisioning?))
    case Cleaning(mem, next, found) =>
      && w.past.recent == {} && InSync(w, mem) && w.shard.value.finalizer && mem.deleting
      && ToSet(mem.status.registered) <= w.past.listed
      && next <= |mem.status.registered|
      && (forall i :: 0 <= i < next ==> mem.status.registered[i] !in w.live)
      && (found ==> next < |mem.status.registered|)
    case Unlocking(mem) =>
      && w.past.recent == {} && InSync(w, mem) && w.shard.value.finalizer
      && ToSet(mem.status.registered) !! w.live
    case Adopting(_) => w.past.recent == {}
    case Opening(mem) =>
      Underway(w, mem) && w.past.recent == {}
      && (mem.version == w.shard.value.version ==> mem.status == w.shard.value.status)
    case Admitting(mem) =>
      Underway(w, mem) && w.past.recent == {}
      && (mem.version == w.shard.value.version ==> mem.status == w.shard.value.status)
    case Building(mem) => Underway(w, mem) && w.past.recent == {}
    case Applying(mem, next) => Underway(w, mem) && AppliedUpTo(w, mem, next)
    case Sweeping(mem, next, found) =>
      && Underway(w, mem) && AppliedUpTo(w, mem, |DesiredNames(mem.groups)|)
      && SweptUpTo(w, mem, mem.status.registered, next)
      && (found ==> next < |mem.status.registered|)
    case Failing(mem) => Underway(w, mem) && Coherent(mem.status)
    case Closing(mem, requeue) =>
      && w.shard.Some? && w.shard.value.finalizer && mem.version <= w.shard.value.version
      && w.past.recent <= ToSet(DesiredNames(mem.groups))
      && AppliedUpTo(w, mem, |DesiredNames(mem.groups)|)
      && mem.status.registered == DesiredNames(mem.groups)
      && Coherent(mem.status)
      && (requeue == 0 <==> mem.status.phase.Ready?) && (requeue > 0 <==> mem.status.phase.Provisioning?)
      && (mem.version == w.shard.value.version ==>
            && mem.groups == w.shard.value.groups
            && RegisteredNames(w) * w.live <= ToSet(DesiredNames(mem.groups)))
  }

  predicate Inv(w: World) {
    && Provenance(w)
    && Tracked(w)
    && (w.shard.Some? ==> Coherent(w.shard.value.status))
    && (w.shard.Some? && !w.shard.value.finalizer ==> w.past.applied == {})
    && WorkerInv(w)
  }

  // ----- every step keeps it -----------------------------------------------------

  lemma StopKeeps(w: World, last: Return)
    requires Provenance(w) && Tracked(w) && !last.Finished?
    requires w.shard.Some? ==> Coherent(w.shard.value.status)
    requires w.shard.Some? && !w.shard.value.finalizer ==> w.past.applied == {}
    ensures Inv(Stop(w, last))
  {
    hide Coherent, DesiredNames;
  }

  lemma BeginKeeps(w: World, a: Answer)
    requires Inv(w) && w.worker.Idle?
    ensures Inv(BeginStep(w, a))
  {
    hide Coherent, DesiredNames;
  }

  lemma CleanKeeps(w: World, a: Answer)
    requires Inv(w) && w.worker.Cleaning?
    ensures Inv(CleanStep(w, a, w.worker.mem, w.worker.next, w.worker.found))
  {
    hide Coherent, DesiredNames;
  }

  lemma UnlockKeeps(w: World, a: Answer)
    requires Inv(w) && w.worker.Unlocking?
    ensures Inv(UnlockStep(w, a, w.worker.mem))
  {
    hide Coherent, DesiredNames;
    if !Accepted(w, w.worker.mem, a.outcome) { StopKeeps(w, Failed); }
  }

  lemma AdoptKeeps(w: World, a: Answer)
    requires Inv(w) && w.worker.Adopting?
    ensures Inv(AdoptStep(w, a))
  {
    hide Coherent, DesiredNames;
  }

  lemma OpenKeeps(w: World, a: Answer)
    requires Inv(w) && w.worker.Opening?
    ensures Inv(OpenStep(w, a, w.worker.mem))
  {
    hide DesiredNames;
  }

  lemma AdmitKeeps(w: World, a: Answer)
    requires Inv(w) && w.worker.Admitting?
    ensures Inv(AdmitStep(w, a, w.worker.mem))
  {
    hide DesiredNames;
  }

  lemma ProvisionKeeps(w: World, a: Answer)
    requires Inv(w) && w.worker.Building?
    ensures Inv(ProvisionCall(w, a, w.worker.mem))
  {
    hide DesiredNames, ProvisionStep, RecordError;
    var mem := w.worker.mem;
    ProvisionSound(a.env, mem.status, mem.generation, a.now);
    if ProvisionError(a.env).Some? {
      RecordErrorCoherent(ProvisionStep(a.env, mem.status, mem.generation, a.now),
                          ProvisionError(a.env).value, mem.generation, a.now);
    }
  }

  lemma ApplyKeeps(w: World, a: Answer)
    requires Inv(w) && w.worker.Applying?
    ensures Inv(ApplyStep(w, a, w.worker.mem, w.worker.next))
  {
    hide DesiredNames, RecordError, Coherent;
    var desired := DesiredNames(w.worker.mem.groups);
    if w.worker.next < |desired| {
      assert desired[..w.worker.next + 1] == desired[..w.worker.next] + [desired[w.worker.next]];
      assert ToSet(desired[..w.worker.next + 1]) == ToSet(desired[..w.worker.next]) + {desired[w.worker.next]};
    }
    RecordErrorCoherent(w.worker.mem.status, a.error, w.worker.mem.generation, a.now);
  }

  lemma SweepKeeps(w: World, a: Answer)
    requires Inv(w) && w.worker.Sweeping?
    ensures Inv(SweepStep(w, a, w.worker.mem, w.worker.next, w.worker.found))
  {
    hide DesiredNames, RecordError, Coherent, FinishStep;
    var mem := w.worker.mem;
    RecordErrorCoherent(mem.status, a.error, mem.generation, a.now);
    FinishCoherent(a.env, mem.status, DesiredNames(mem.groups), mem.generation, a.now);
  }

  lemma FailKeeps(w: World, a: Answer)
    requires Inv(w) && w.worker.Failing?
    ensures Inv(FailStep(w, a, w.worker.mem))
  {
    hide DesiredNames, Coherent, Stop, WorkerInv;
    FailingKnows(w);
    StopKeeps(if Accepted(w, w.worker.mem, a.outcome) then Persist(w, w.worker.mem) else w, Failed);
  }

  lemma FailingKnows(w: World)
    requires Inv(w) && w.worker.Failing?
    ensures Underway(w, w.worker.mem) && Coherent(w.worker.mem.status)
  {
    hide DesiredNames, Coherent;
  }

  lemma CloseKeeps(w: World, a: Answer)
    requires Inv(w) && w.worker.Closing?
    ensures Inv(CloseStep(w, a, w.worker.mem, w.worker.requeue))
  {
    hide DesiredNames, Coherent;
  }

  lemma CallKeeps(w: World, a: Answer)
    requires Inv(w)
    ensures Inv(CallStep(w, a))
  {
    hide Inv;
    match w.worker
    case Idle(_) => BeginKeeps(w, a);
    case Cleaning(_, _, _) => CleanKeeps(w, a);
    case Unlocking(_) => UnlockKeeps(w, a);
    case Adopting(_) => AdoptKeeps(w, a);
    case Opening(_) => OpenKeeps(w, a);
    case Admitting(_) => AdmitKeeps(w, a);
    case Building(_) => ProvisionKeeps(w, a);
    case Applying(_, _) => ApplyKeeps(w, a);
    case Sweeping(_, _, _) => SweepKeeps(w, a);
    case Failing(_) => FailKeeps(w, a);
    case Closing(_, _) => CloseKeeps(w, a);
  }

  lemma EnvironmentKeeps(w: World, e: Event)
    requires Inv(w) && !e.Call?
    ensures Inv(Next(w, e))
  {
    hide DesiredNames, Coherent;
  }

  // ----- theorems over whole runs ----------------------------------------------------

  lemma {:induction false} RunKeeps(w: World, events: seq<Event>)
    requires Inv(w)
    ensures Inv(Run(w, events))
    decreases |events|
  {
    hide Inv;
    if events != [] {
      if events[0].Call? { CallKeeps(w, events[0].answer); } else { EnvironmentKeeps(w, events[0]); }
      RunKeeps(Next(w, events[0]), events[1..]);
    }
  }

  lemma CreatedInv(groups: seq<APIGroup>)
    ensures Inv(Created(groups))
  {
  }

  /** In every run, with failures and crashes at any call: what is live is in the
      persisted list, was applied by the running pass, or was applied by a pass whose
      list got lost; once the shard is gone only the last kind is left; and a pass that
      finished left exactly the desired names, but for lost and vanished ones. */
  lemma RunTracks(groups: seq<APIGroup>, events: seq<Event>)
    ensures var w := Run(Created(groups), events);
            && w.live <= RegisteredNames(w) + w.past.recent + w.past.untracked
            && (w.shard.None? ==> w.live <= w.past.untracked)
            && (w.shard.None? && w.past.untracked == {} ==> w.live == {})
            && (w.worker.Idle? && w.worker.last.Finished? ==>
                  var desired := ToSet(DesiredNames(w.worker.last.groups));
                  && desired <= w.live + w.past.vanished
                  && w.live <= desired + w.past.untracked
                  && (w.past.untracked == {} && w.past.vanished == {} ==> w.live == desired))
  {
    hide Coherent, DesiredNames;
    CreatedInv(groups);
    RunKeeps(Created(groups), events);
  }

  /** Every persisted status of every run is coherent, and a pass that came back without
      an error persisted Ready or asked to be called again. */
  lemma RunCoherent(groups: seq<APIGroup>, events: seq<Event>)
    ensures var w := Run(Created(groups), events);
            && (w.shard.Some? ==> Coherent(w.shard.value.status))
            && (w.worker.Idle? && w.worker.last.Finished? ==>
                  && w.shard.Some?
                  && (w.worker.last.requeue == 0 <==> w.shard.value.status.phase.Ready?)
                  && (w.worker.last.requeue > 0 <==> w.shard.value.status.phase.Provisioning?))
  {
    hide Coherent;
    CreatedInv(groups);
    RunKeeps(Created(groups), events);
  }

  /** The operator deletes an APIService only under a name some persisted list held, and
      every listed name was applied by this shard before. */
  lemma RunDeletesOnlyListed(groups: seq<APIGroup>, events: seq<Event>)
    ensures var w := Run(Created(groups), events); w.past.deleted <= w.past.listed <= w.past.applied
  {
    hide Coherent, DesiredNames;
    CreatedInv(groups);
    RunKeeps(Created(groups), events);
  }

  /** A pass finishes only on the spec that is stored at that moment. */
  lemma FinishedOnCurrentSpec(groups: seq<APIGroup>, events: seq<Event>, a: Answer)
    ensures var w := Run(Created(groups), events);
            w.worker.Closing? && CallStep(w, a).worker.last.Finished? ==>
              w.shard.Some? && CallStep(w, a).worker.last.groups == w.shard.value.groups
  {
    hide Coherent, DesiredNames;
    CreatedInv(groups);
    RunKeeps(Created(groups), events);
  }

  // ----- which answers a pass survives ----------------------------------------------------

  /** The answer fails the pass: a step reports an error, a call does not go through, or a
      status write is refused or finds that somebody wrote in between. */
  predicate Trouble(w: World, a: Answer) {
    match w.worker
    case Idle(_) => false
    case Cleaning(mem, next, _) => next < |mem.status.registered| && !a.outcome.Done?
    case Unlocking(mem) => !a.outcome.Done? || w.shard.None? || w.shard.value.version != mem.version
    case Adopting(_) => !a.outcome.Done? || w.shard.None? || w.shard.value.deleting
    case Opening(_) => a.env.namespace.Some?
    case Admitting(mem) =>
      mem.status.phase.Unset? && (!a.outcome.Done? || w.shard.None? || w.shard.value.version != mem.version)
    case Building(_) =>
      || a.env.storage.failure.Some? || a.env.early.Some? || a.env.admin.AdminFailed?
      || a.env.late.Some? || a.env.tlsSecret.Some?
    case Applying(mem, next) => next < |DesiredNames(mem.groups)| && !a.outcome.Done?
    case Sweeping(mem, next, found) =>
      if next < |mem.status.registered| then
        var name := mem.status.registered[next];
        name !in DesiredNames(mem.groups) && (!a.outcome.Done? || (found && name !in w.live))
      else CutShort(a.env, mem.status)
    case Failing(_) => true
    case Closing(mem, _) => !a.outcome.Done? || w.shard.None? || w.shard.value.version != mem.version
  }

  /** Whether a conditional write takes effect: the object is there, nobody wrote since it was
      read, and the server did not refuse. */
  predicate Lands(w: World, mem: Shard, outcome: Outcome) {
    w.shard.Some? && w.shard.value.version == mem.version && !outcome.Refused?
  }

  /** What a call does to the cluster: to the stored shard, to the live APIServices, and to
      nothing else; an ambiguous call acts like one that is done. */
  lemma CallEffects(w: World, a: Answer)
    ensures var n, acts := Next(w, Call(a)), !a.outcome.Refused?;
            match w.worker
            case Idle(_) => n.shard == w.shard && n.live == w.live
            case Opening(_) => n.shard == w.shard && n.live == w.live
            case Building(_) => n.shard == w.shard && n.live == w.live
            case Cleaning(mem, next, found) =>
              var gone := if next < |mem.status.registered| && found && acts then {mem.status.registered[next]} else {};
              n.shard == w.shard && n.live == w.live - gone && n.past.deleted == w.past.deleted + gone * w.live
            case Sweeping(mem, next, found) =>
              var due := next < |mem.status.registered| && mem.status.registered[next] !in DesiredNames(mem.groups);
              var gone := if due && found && acts then {mem.status.registered[next]} else {};
              n.shard == w.shard && n.live == w.live - gone && n.past.deleted == w.past.deleted + gone * w.live
            case Applying(mem, next) =>
              var made := if next < |DesiredNames(mem.groups)| && acts then {DesiredNames(mem.groups)[next]} else {};
              n.shard == w.shard && n.live == w.live + made && n.past.applied == w.past.applied + made
            case Unlocking(mem) => n.live == w.live && n.shard == (if Lands(w, mem, a.outcome) then None else w.shard)
            case Adopting(_) =>
              && n.live == w.live
              && n.shard == (if w.shard.Some? && !w.shard.value.deleting && acts
                             then Some(w.shard.value.(version := w.shard.value.version + 1, finalizer := true))
                             else w.shard)
            case Admitting(mem) =>
              && n.live == w.live
              && n.shard == (if mem.status.phase.Unset? && Lands(w, mem, a.outcome)
                             then Some(w.shard.value.(version := mem.version + 1,
                                                      status := mem.status.(phase := Provisioning)))
                             else w.shard)
            case Failing(mem) => n.live == w.live && n.shard == Written(w, mem, a.outcome)
            case Closing(mem, _) =>
              && n.live == w.live && n.shard == Written(w, mem, a.outcome)
              && (Lands(w, mem, a.outcome) ==>
                    n.past.untracked == w.past.untracked - ToSet(mem.status.registered) && n.past.recent == {})
  {
    hide DesiredNames, ProvisionStep, FinishStep;
  }

  function Written(w: World, mem: Shard, outcome: Outcome): Option<Shard> {
    if Lands(w, mem, outcome) then Some(w.shard.value.(version := mem.version + 1, status := mem.status)) else w.shard
  }

  /** How a pass starts: it fails if the shard cannot be read, has nothing to do if the shard is
      gone or is being deleted without the finalizer, cleans up before a deletion, and
      otherwise takes the finalizer first if it does not have it. */
  lemma BeginRules(w: World, a: Answer)
    requires w.worker.Idle?
    ensures var n := Next(w, Call(a));
            && n.worker == (if !a.outcome.Done? then Idle(Failed)
                            else if w.shard.None? then Idle(Removed)
                            else if !w.shard.value.deleting then
                              if w.shard.value.finalizer then Opening(w.shard.value) else Adopting(w.shard.value)
                            else if w.shard.value.finalizer then Cleaning(w.shard.value, 0, false) else Idle(Removed))
            && (!n.worker.Idle? ==> n.past.vanished == {})
  {
  }

  /** What happens around the calls: edits and deletion marks write a new version, a deletion
      without the finalizer removes the object, a crash loses the memory of the pass, and the
      names it applied without listing them are then untracked. */
  lemma EnvironmentRules(w: World, groups: seq<APIGroup>, name: string)
    ensures w.shard.Some? ==>
              var s := w.shard.value;
              && Next(w, EditSpec(groups))
                 == w.(shard := Some(s.(version := s.version + 1, generation := s.generation + 1, groups := groups)))
              && Next(w, MarkDeleted)
                 == w.(shard := if s.finalizer then Some(s.(version := s.version + 1, deleting := true)) else None)
    ensures w.shard.None? ==> Next(w, EditSpec(groups)) == w && Next(w, MarkDeleted) == w
    ensures Next(w, Vanish(name)).live == w.live - {name} && Next(w, Vanish(name)).shard == w.shard
    ensures name in Next(w, Vanish(name)).past.vanished
    ensures var n := Next(w, Crash);
            && n.worker == Idle(Crashed) && n.shard == w.shard && n.live == w.live && n.past.recent == {}
            && n.past.untracked == w.past.untracked + (w.past.recent - RegisteredNames(w))
  {
  }

  /** The text a failing step leaves to be recorded. */
  predicate Carries(worker: Worker, error: Option<string>) {
    && worker.Failing? && error.Some?
    && worker.mem.status.phase.Error? && worker.mem.status.message == error.value
  }

  /** A call fails a pass exactly when it is trouble; errors of the steps are then about to be
      recorded, the first one in their order. */
  lemma TroubleExact(w: World, a: Answer)
    requires !w.worker.Idle?
    ensures var n := Next(w, Call(a)).worker;
            && (Trouble(w, a) <==> n.Failing? || n == Idle(Failed))
            && (w.worker.Opening? && Trouble(w, a) ==> Carries(n, a.env.namespace))
            && (w.worker.Building? && Trouble(w, a) ==>
                  if a.env.storage.failure.Some? then Carries(n, a.env.storage.failure)
                  else if a.env.early.Some? then Carries(n, a.env.early)
                  else if a.env.admin.AdminFailed? then Carries(n, Some(a.env.admin.error))
                  else if a.env.late.Some? then Carries(n, a.env.late)
                  else Carries(n, a.env.tlsSecret))
            && (w.worker.Applying? && Trouble(w, a) ==> Carries(n, Some(a.error)))
  {
    hide DesiredNames, ProvisionStep, FinishStep;
    if w.worker.Sweeping? {
      var mem := w.worker.mem;
      FinishBroken(a.env, mem.status, DesiredNames(mem.groups), mem.generation, a.now);
    }
  }

  lemma {:induction false} FailingEnds(w: World, events: seq<Event>, k: nat)
    requires w.worker.Failing? && k <= |events|
    requires forall j :: 0 <= j < k ==> !Run(w, events[..j]).worker.Idle?
    requires Run(w, events[..k]).worker.Idle?
    ensures var last := Run(w, events[..k]).worker.last; last.Failed? || last.Crashed?
    decreases |events|
  {
    hide DesiredNames;
    assert events[..0] == [];
    assert events[..k][0] == events[0] && events[..k][1..] == events[1..][..k - 1];
    var next := Next(w, events[0]);
    if k > 1 {
      RunOne(w, events[0], []);
      assert events[..1] == [events[0]];
      assert !Run(w, events[..1]).worker.Idle?;
      forall j | 0 <= j < k - 1 ensures !Run(next, events[1..][..j]).worker.Idle? {
        assert events[..j + 1][0] == events[0] && events[..j + 1][1..] == events[1..][..j];
        assert !Run(w, events[..j + 1]).worker.Idle?;
      }
      FailingEnds(next, events[1..], k - 1);
    }
  }

  /** A pass that ran into trouble does not finish: when it is over, whatever happens in
      between, it has failed or crashed. So a pass that finished had no such answer. */
  lemma TroubledPassFails(w: World, a: Answer, later: seq<Event>, k: nat)
    requires !w.worker.Idle? && Trouble(w, a) && k <= |later|
    requires var t := Next(w, Call(a)); forall j :: 0 <= j < k ==> !Run(t, later[..j]).worker.Idle?
    requires Run(Next(w, Call(a)), later[..k]).worker.Idle?
    ensures var last := Run(Next(w, Call(a)), later[..k]).worker.last; last.Failed? || last.Crashed?
  {
    hide Trouble, DesiredNames, Next;
    TroubleExact(w, a);
    var t := Next(w, Call(a));
    assert later[..0] == [];
    if t.worker.Failing? {
      FailingEnds(t, later, k);
    } else {
      assert Run(t, later[..0]).worker.Idle?;
    }
  }

  // ----- undisturbed passes --------------------------------------------------------------

  /** `n` calls of the worker, all with the same answer and nothing in between. */
  function Repeat(w: World, a: Answer, n: nat): World
    decreases n
  {
    if n == 0 then w else Repeat(CallStep(w, a), a, n - 1)
  }

  function Calls(a: Answer, n: nat): seq<Event> {
    seq(n, _ => Call(a))
  }

  lemma {:induction false} RepeatIsRun(w: World, a: Answer, n: nat)
    ensures Repeat(w, a, n) == Run(w, Calls(a, n))
    decreases n
  {
    hide CallStep;
    if n > 0 {
      RepeatIsRun(CallStep(w, a), a, n - 1);
      assert Calls(a, n)[1..] == Calls(a, n - 1) && Calls(a, n)[0] == Call(a);
    }
  }

  lemma {:induction false} RunSplit(w: World, a: seq<Event>, b: seq<Event>)
    ensures Run(w, a + b) == Run(Run(w, a), b)
    decreases |a|
  {
    hide Next;
    if a == [] {
      assert a + b == b;
    } else {
      assert (a + b)[0] == a[0] && (a + b)[1..] == a[1..] + b;
      RunSplit(Next(w, a[0]), a[1..], b);
    }
  }

  lemma {:induction false} RepeatSum(w: World, a: Answer, m: nat, n: nat)
    ensures Repeat(w, a, m + n) == Repeat(Repeat(w, a, m), a, n)
    decreases m
  {
    hide CallStep;
    if m > 0 { RepeatSum(CallStep(w, a), a, m - 1, n); }
  }

  lemma {:induction false} CleanAll(w: World, a: Answer) returns (n: nat)
    requires w.worker.Cleaning? && w.worker.next <= |w.worker.mem.status.registered| && !w.worker.found
    requires a.outcome.Done?
    ensures var end, mem := Repeat(w, a, n), w.worker.mem;
            && end.worker == Unlocking(mem) && end.shard == w.shard && end.past.recent == w.past.recent
            && end.live == w.live - ToSet(mem.status.registered[w.worker.next..])
    decreases |w.worker.mem.status.registered| - w.worker.next
  {
    var mem, next := w.worker.mem, w.worker.next;
    if next == |mem.status.registered| {
      n := 1;
      assert Repeat(w, a, 1) == Repeat(CallStep(w, a), a, 0);
    } else {
      var name := mem.status.registered[next];
      var steps := if name in w.live then 2 else 1;
      var after := Repeat(w, a, steps);
      assert CallStep(w, a) == CleanStep(w, a, mem, next, false);
      assert Repeat(w, a, 1) == Repeat(CallStep(w, a), a, 0);
      assert name in w.live ==> Repeat(w, a, 2) == Repeat(CallStep(w, a), a, 1) == CallStep(CallStep(w, a), a);
      assert after.worker == Cleaning(mem, next + 1, false) && after.live == w.live - {name}
             && after.shard == w.shard && after.past.recent == w.past.recent;
      var rest := CleanAll(after, a);
      n := steps + rest;
      RepeatSum(w, a, steps, rest);
      assert mem.status.registered[next..] == [name] + mem.status.registered[next + 1..];
    }
  }

  /** An undisturbed deletion pass removes the shard and exactly the registered names:
      nothing is left behind if and only if everything live was in the persisted list. */
  lemma DeletionPassExact(w: World, a: Answer) returns (n: nat)
    requires w.worker.Idle? && w.shard.Some? && w.shard.value.deleting && w.shard.value.finalizer
    requires a.outcome.Done?
    ensures var end := Run(w, Calls(a, n));
            && end.shard.None? && end.worker == Idle(Removed)
            && end.live == w.live - RegisteredNames(w)
            && (end.live == {} <==> w.live <= RegisteredNames(w))
  {
    var started := CallStep(w, a);
    assert Repeat(w, a, 1) == Repeat(started, a, 0);
    var cleaning := CleanAll(started, a);
    var unlocked := Repeat(started, a, cleaning);
    assert Repeat(unlocked, a, 1) == Repeat(CallStep(unlocked, a), a, 0);
    RepeatSum(started, a, cleaning, 1);
    n := 1 + (cleaning + 1);
    assert Repeat(w, a, n) == Repeat(started, a, cleaning + 1);
    RepeatIsRun(w, a, n);
    var registered := w.shard.value.status.registered;
    assert registered[0..] == registered;
    forall x | w.live - RegisteredNames(w) == {} && x in w.live ensures x in RegisteredNames(w) {
      assert x !in w.live - RegisteredNames(w);
    }
  }

  lemma {:induction false} ApplyAll(w: World, a: Answer) returns (n: nat)
    requires w.worker.Applying? && w.worker.next <= |DesiredNames(w.worker.mem.groups)|
    requires a.outcome.Done?
    ensures var end, mem := Repeat(w, a, n), w.worker.mem;
            && end.worker == Sweeping(mem, 0, false) && end.shard == w.shard
            && end.live == w.live + ToSet(DesiredNames(mem.groups)[w.worker.next..])
    decreases |DesiredNames(w.worker.mem.groups)| - w.worker.next
  {
    hide DesiredNames;
    var mem, next := w.worker.mem, w.worker.next;
    var desired := DesiredNames(mem.groups);
    var after := CallStep(w, a);
    assert Repeat(w, a, 1) == Repeat(after, a, 0);
    if next == |desired| {
      n := 1;
    } else {
      var rest := ApplyAll(after, a);
      n := 1 + rest;
      assert Repeat(w, a, n) == Repeat(after, a, rest);
      assert desired[next..] == [desired[next]] + desired[next + 1..];
    }
  }

  lemma {:induction false} SweepAll(w: World, a: Answer) returns (n: nat)
    requires w.worker.Sweeping? && w.worker.next <= |w.worker.mem.status.registered| && !w.worker.found
    requires a.outcome.Done?
    ensures var end, mem := Repeat(w, a, n), w.worker.mem;
            && end.worker == Sweeping(mem, |mem.status.registered|, false) && end.shard == w.shard
            && end.live == w.live - (ToSet(mem.status.registered[w.worker.next..]) - ToSet(DesiredNames(mem.groups)))
    decreases |w.worker.mem.status.registered| - w.worker.next
  {
    hide DesiredNames;
    var mem, next := w.worker.mem, w.worker.next;
    if next == |mem.status.registered| {
      n := 0;
    } else {
      var name := mem.status.registered[next];
      var kept := name in DesiredNames(mem.groups);
      var steps := if name in w.live && !kept then 2 else 1;
      var first := CallStep(w, a);
      assert first == SweepStep(w, a, mem, next, false);
      assert Repeat(w, a, 1) == Repeat(first, a, 0);
      assert steps == 2 ==> Repeat(w, a, 2) == Repeat(first, a, 1) == CallStep(first, a);
      var after := Repeat(w, a, steps);
      assert after.worker == Sweeping(mem, next + 1, false) && after.shard == w.shard
             && after.live == if kept then w.live else w.live - {name};
      var rest := SweepAll(after, a);
      n := steps + rest;
      RepeatSum(w, a, steps, rest);
      assert mem.status.registered[next..] == [name] + mem.status.registered[next + 1..];
    }
  }

  // ----- registration under any pattern of answers ----------------------------------------

  predicate AllCalls(events: seq<Event>) {
    forall e :: e in events ==> e.Call?
  }

  /** The calls of the apply loop, answered by `answers` from the k-th on. */
  lemma {:induction false} ApplyFollows(w: World, a: Answer, answers: nat -> Outcome, k: nat)
    returns (events: seq<Event>)
    requires w.worker.Applying? && w.worker.next <= |DesiredNames(w.worker.mem.groups)|
    ensures AllCalls(events)
    ensures var end, mem := Run(w, events), w.worker.mem;
            var named := ApplyNames(DesiredNames(mem.groups)[w.worker.next..], w.live, answers, k);
            && end.live == named.live && end.shard == w.shard
            && end.worker == (if named.ok then Sweeping(mem, 0, false) else Fail(mem, a.error, a.now))
    decreases |DesiredNames(w.worker.mem.groups)| - w.worker.next
  {
    hide DesiredNames, RecordError;
    var mem, next := w.worker.mem, w.worker.next;
    var desired := DesiredNames(mem.groups);
    var first := Call(a.(outcome := answers(k)));
    var after := Next(w, first);
    if next == |desired| {
      events := [first];
      RunOne(w, first, []);
    } else {
      assert desired[next..][0] == desired[next] && desired[next..][1..] == desired[next + 1..];
      var rest: seq<Event> := [];
      if answers(k).Done? { rest := ApplyFollows(after, a, answers, k + 1); }
      events := [first] + rest;
      RunOne(w, first, rest);
    }
  }

  lemma RunOne(w: World, e: Event, rest: seq<Event>)
    ensures Run(w, [e] + rest) == Run(Next(w, e), rest)
    ensures rest == [] ==> Run(w, [e]) == Next(w, e)
  {
    hide Next;
    assert ([e] + rest)[1..] == rest && [e][1..] == [];
  }

  /** The calls of the orphan sweep. */
  lemma {:induction false} SweepFollows(w: World, a: Answer, answers: nat -> Outcome, k: nat)
    returns (events: seq<Event>)
    requires w.worker.Sweeping? && w.worker.next <= |w.worker.mem.status.registered| && !w.worker.found
    ensures AllCalls(events)
    ensures var end, mem := Run(w, events), w.worker.mem;
            var named := SweepNames(mem.status.registered[w.worker.next..], ToSet(DesiredNames(mem.groups)),
                                    w.live, answers, k);
            && end.live == named.live && end.shard == w.shard
            && end.worker == (if named.ok then Sweeping(mem, |mem.status.registered|, false)
                              else Fail(mem, a.error, a.now))
    decreases |w.worker.mem.status.registered| - w.worker.next
  {
    hide DesiredNames, RecordError;
    var mem, next := w.worker.mem, w.worker.next;
    var previous, desired := mem.status.registered, ToSet(DesiredNames(mem.groups));
    events := [];
    if next < |previous| {
      var name := previous[next];
      assert previous[next..][0] == name && previous[next..][1..] == previous[next + 1..];
      var first := Call(a.(outcome := answers(k)));
      var got := Next(w, first);
      var rest: seq<Event> := [];
      if name in desired {
        rest := SweepFollows(got, a, answers, k);
      } else if answers(k).Done? && name !in w.live {
        rest := SweepFollows(got, a, answers, k + 1);
      } else if answers(k).Done? {
        var second := Call(a.(outcome := answers(k + 1)));
        var deleted := Next(got, second);
        var more: seq<Event> := [];
        if answers(k + 1).Done? { more := SweepFollows(deleted, a, answers, k + 2); }
        rest := [second] + more;
        RunOne(got, second, more);
      }
      events := [first] + rest;
      RunOne(w, first, rest);
    }
  }

  /** The machine makes the calls of aggregation.Reconcile: under every pattern of answers,
      undisturbed, it leaves live what the method leaves live, and goes on to finish or to
      record an error as the method succeeds or fails. */
  lemma RegistrationFollows(w: World, a: Answer, answers: nat -> Outcome) returns (events: seq<Event>)
    requires w.worker.Applying? && w.worker.next == 0
    ensures AllCalls(events)
    ensures var end, mem := Run(w, events), w.worker.mem;
            var named := ReconcileNames(DesiredNames(mem.groups), mem.status.registered, w.live, answers);
            && end.live == named.live && end.shard == w.shard
            && end.worker == (if named.ok then Sweeping(mem, |mem.status.registered|, false)
                              else Fail(mem, a.error, a.now))
  {
    hide DesiredNames, RecordError, Next, Run;
    var mem := w.worker.mem;
    var desired := DesiredNames(mem.groups);
    assert desired[0..] == desired && mem.status.registered[0..] == mem.status.registered;
    events := ApplyFollows(w, a, answers, 0);
    var applied := ApplyNames(desired, w.live, answers, 0);
    if applied.ok {
      var sweep := SweepFollows(Run(w, events), a, answers, applied.calls);
      RunSplit(w, events, sweep);
      events := events + sweep;
    }
  }

  /** The end of a pass once the sweep is through. */
  lemma FinishFollows(w: World, a: Answer) returns (n: nat)
    requires w.worker.Sweeping? && w.worker.next == |w.worker.mem.status.registered| && !w.worker.found
    requires w.shard.Some? && w.shard.value.version == w.worker.mem.version && a.outcome.Done?
    ensures var end, mem := Run(w, Calls(a, n)), w.worker.mem;
            && end.live == w.live
            && match FinishStep(a.env, mem.status, DesiredNames(mem.groups), mem.generation, a.now)
               case Broken(_) => end.shard == w.shard && end.worker == Idle(Failed)
               case Going(final, requeue) =>
                 && end.shard == Some(w.shard.value.(version := mem.version + 1, status := final))
                 && end.worker == Idle(Finished(requeue, mem.groups))
  {
    hide DesiredNames, FinishStep;
    var mem := w.worker.mem;
    var finished := CallStep(w, a);
    assert finished == FinishCall(w, a, mem);
    assert Repeat(w, a, 1) == Repeat(finished, a, 0);
    assert Repeat(w, a, 2) == Repeat(finished, a, 1) == Repeat(CallStep(finished, a), a, 0);
    n := if FinishStep(a.env, mem.status, DesiredNames(mem.groups), mem.generation, a.now).Broken? then 1 else 2;
    RepeatIsRun(w, a, n);
  }

  /** The part of an undisturbed pass after provisioning. */
  lemma RegisterAndFinish(w: World, a: Answer) returns (n: nat)
    requires w.worker.Applying? && w.worker.next == 0 && a.outcome.Done?
    requires w.shard.Some? && w.shard.value.version == w.worker.mem.version
    ensures var end, mem := Repeat(w, a, n), w.worker.mem;
            var desired := DesiredNames(mem.groups);
            && end.live == (w.live - ToSet(mem.status.registered)) + ToSet(desired)
            && match FinishStep(a.env, mem.status, desired, mem.generation, a.now)
               case Broken(_) => end.shard == w.shard && end.worker == Idle(Failed)
               case Going(final, requeue) =>
                 && end.shard == Some(w.shard.value.(version := mem.version + 1, status := final))
                 && end.worker == Idle(Finished(requeue, mem.groups))
  {
    hide DesiredNames, FinishStep, CallStep, Run;
    var mem := w.worker.mem;
    var desired := DesiredNames(mem.groups);
    assert desired[0..] == desired && mem.status.registered[0..] == mem.status.registered;
    var applies := ApplyAll(w, a);
    var applied := Repeat(w, a, applies);
    var sweeps := SweepAll(applied, a);
    var swept := Repeat(applied, a, sweeps);
    RepeatSum(w, a, applies, sweeps);
    var last := FinishFollows(swept, a);
    RepeatIsRun(swept, a, last);
    RepeatSum(w, a, applies + sweeps, last);
    n := applies + sweeps + last;
  }

  /** Refinement: the calls of an undisturbed pass persist exactly what `Pass` computes
      and return what it returns, and unless the pass failed before registering they
      leave live what was not registered before, plus the desired names. */
  lemma PassRefined(w: World, a: Answer) returns (n: nat)
    requires w.worker.Idle? && w.shard.Some? && !w.shard.value.deleting && w.shard.value.finalizer
    requires a.outcome.Done?
    ensures var s, end := w.shard.value, Run(w, Calls(a, n));
            var pass := Pass(a.env, s.status, DesiredNames(s.groups), None, s.generation, a.now);
            && end.worker.Idle? && end.shard.Some?
            && end.shard.value == s.(version := end.shard.value.version, status := pass.persisted)
            && end.worker.last == (if pass.error.None? then Finished(pass.requeue, s.groups) else Failed)
            && end.live == (if a.env.namespace.Some? || ProvisionError(a.env).Some? then w.live
                            else (w.live - RegisteredNames(w)) + ToSet(DesiredNames(s.groups)))
  {
    hide DesiredNames, FinishStep, ProvisionStep, RecordError;
    var s := w.shard.value;
    var opening := CallStep(w, a);
    var ready := CallStep(opening, a);
    assert Repeat(w, a, 2) == Repeat(opening, a, 1) == Repeat(ready, a, 0);
    if a.env.namespace.Some? {
      n := 3;
      assert Repeat(ready, a, 1) == Repeat(CallStep(ready, a), a, 0);
      RepeatSum(w, a, 2, 1);
    } else {
      var admitted := CallStep(ready, a);
      var built := CallStep(admitted, a);
      assert Repeat(ready, a, 2) == Repeat(admitted, a, 1) == Repeat(built, a, 0);
      RepeatSum(w, a, 2, 2);
      ProvisionSound(a.env, Admit(s.status), s.generation, a.now);
      if ProvisionError(a.env).Some? {
        n := 5;
        assert Repeat(built, a, 1) == Repeat(CallStep(built, a), a, 0);
        RepeatSum(w, a, 4, 1);
      } else {
        var rest := RegisterAndFinish(built, a);
        RepeatSum(w, a, 4, rest);
        n := 4 + rest;
      }
    }
    RepeatIsRun(w, a, n);
  }

  /** A pass that gets as far as registering: four calls, with the first status write done. */
  lemma ReachesRegistration(w: World, a: Answer)
    requires w.worker.Idle? && w.shard.Some? && !w.shard.value.deleting && w.shard.value.finalizer
    requires a.outcome.Done? && a.env.namespace.None? && ProvisionError(a.env).None?
    ensures var s, built := w.shard.value, Run(w, Calls(a, 4));
            && built.worker.Applying? && built.worker.next == 0 && built.live == w.live
            && var mem := built.worker.mem;
            && mem == s.(version := mem.version, status := ProvisionStep(a.env, Admit(s.status), s.generation, a.now))
            && mem.status.registered == s.status.registered
            && built.shard == Some(s.(version := mem.version, status := Admit(s.status)))
  {
    hide DesiredNames, ProvisionStep;
    var s := w.shard.value;
    var opening := CallStep(w, a);
    var ready := CallStep(opening, a);
    var admitted := CallStep(ready, a);
    var built := CallStep(admitted, a);
    assert Repeat(w, a, 2) == Repeat(opening, a, 1) == Repeat(ready, a, 0);
    assert Repeat(ready, a, 2) == Repeat(admitted, a, 1) == Repeat(built, a, 0);
    RepeatSum(w, a, 2, 2);
    RepeatIsRun(w, a, 4);
    ProvisionSound(a.env, Admit(s.status), s.generation, a.now);
  }

  /** The error status of a failed registration, written. */
  lemma ErrorFollows(w: World, a: Answer)
    requires w.worker.Failing? && w.shard.Some? && w.shard.value.version == w.worker.mem.version && a.outcome.Done?
    ensures var end, mem := Run(w, Calls(a, 1)), w.worker.mem;
            && end.live == w.live && end.worker == Idle(Failed)
            && end.shard == Some(w.shard.value.(version := mem.version + 1, status := mem.status))
  {
    assert Repeat(w, a, 1) == Repeat(CallStep(w, a), a, 0);
    RepeatIsRun(w, a, 1);
  }

  /** Refinement for every pattern of answers to the registration calls, all other calls
      answered by `a`: the machine persists and returns what `Pass` gives for the outcome of
      the registration, and leaves live what the registration leaves live. */
  lemma PassFollows(w: World, a: Answer, answers: nat -> Outcome) returns (events: seq<Event>)
    requires w.worker.Idle? && w.shard.Some? && !w.shard.value.deleting && w.shard.value.finalizer
    requires a.outcome.Done?
    ensures AllCalls(events)
    ensures var s, end := w.shard.value, Run(w, events);
            var named := ReconcileNames(DesiredNames(s.groups), s.status.registered, w.live, answers);
            var registration := if named.ok then None else Some(a.error);
            var pass := Pass(a.env, s.status, DesiredNames(s.groups), registration, s.generation, a.now);
            && end.worker.Idle? && end.shard.Some?
            && end.shard.value == s.(version := end.shard.value.version, status := pass.persisted)
            && end.worker.last == (if pass.error.None? then Finished(pass.requeue, s.groups) else Failed)
            && end.live == (if a.env.namespace.Some? || ProvisionError(a.env).Some? then w.live else named.live)
  {
    hide DesiredNames, FinishStep, ProvisionStep, RecordError, Next, ReconcileNames, CallStep, ProvisionError, Run;
    var s := w.shard.value;
    if a.env.namespace.Some? || ProvisionError(a.env).Some? {
      var n := PassRefined(w, a);
      return Calls(a, n);
    }
    ReachesRegistration(w, a);
    var built := Run(w, Calls(a, 4));
    var register := RegistrationFollows(built, a, answers);
    var registered := Run(built, register);
    RunSplit(w, Calls(a, 4), register);
    var last: seq<Event>;
    if registered.worker.Failing? {
      last := Calls(a, 1);
      ErrorFollows(registered, a);
    } else {
      var n := FinishFollows(registered, a);
      last := Calls(a, n);
    }
    RunSplit(w, Calls(a, 4) + register, last);
    events := Calls(a, 4) + register + last;
  }

  /** A pass keeps the registered list or replaces it by the desired names. */
  lemma PassRegistered(env: PassEnv, s: Status, desired: seq<string>, registration: Option<string>,
                       generation: int, now: nat)
    ensures var r := Pass(env, s, desired, registration, generation, now);
            r.persisted.registered == if r.error.None? then desired else s.registered
  {
    hide FinishStep, ProvisionStep, RecordError;
    ProvisionSound(env, Admit(s), generation, now);
    forall x, error { RecordErrorCoherent(x, error, generation, now); }
    FinishCoherent(env, ProvisionStep(env, Admit(s), generation, now), desired, generation, now);
  }

  /** The controller settles: after one undisturbed pass, another one in the same
      environment, at any later time, writes the status that is already stored and leaves the
      APIServices as they are. */
  lemma SecondPassSettles(w: World, a: Answer, later: nat) returns (m: nat, n: nat)
    requires w.worker.Idle? && w.shard.Some? && !w.shard.value.deleting && w.shard.value.finalizer
    requires a.outcome.Done?
    ensures var one := Run(w, Calls(a, m));
            var two := Run(one, Calls(a.(now := later), n));
            && one.shard.Some? && two.shard.Some? && one.worker.Idle? && two.worker.Idle?
            && two.shard.value.status == one.shard.value.status
            && two.worker == one.worker && two.live == one.live
  {
    hide DesiredNames, FinishStep, ProvisionStep, RecordError, CallStep, Pass, Run, Calls;
    m := PassRefined(w, a);
    n := PassRefined(Run(w, Calls(a, m)), a.(now := later));
    var s := w.shard.value;
    PassIdempotent(a.env, s.status, DesiredNames(s.groups), None, s.generation, a.now, later);
    PassRegistered(a.env, s.status, DesiredNames(s.groups), None, s.generation, a.now);
  }

  // ----- the naive claim fails -----------------------------------------------------------

  /** Every call is accepted and nothing is wrong with the environment. */
  const CALM := Answer(Done, "", PassEnv(None, StorageRun(None, None), None, None, AdminPending, None, None,
                                         Clear, Observed(true), "", false, Missing, Missing, Checked(true, "")), 0)

  lemma FirstPassApplies(groups: seq<APIGroup>)
    ensures var w := Repeat(Created(groups), CALM, 5);
            && w.worker.Applying? && w.worker.mem.groups == groups && w.worker.next == 0
            && w.shard.Some? && w.shard.value.finalizer && w.shard.value.status.registered == []
  {
    hide DesiredNames, ProvisionStep;
    var w0 := Created(groups);
    var w1 := CallStep(w0, CALM);
    var w2 := CallStep(w1, CALM);
    var w3 := CallStep(w2, CALM);
    var w4 := CallStep(w3, CALM);
    assert w4.worker.Building?;
    assert Repeat(w0, CALM, 5) == Repeat(w1, CALM, 4) == Repeat(w2, CALM, 3)
        == Repeat(w3, CALM, 2) == Repeat(w4, CALM, 1)
        == Repeat(CallStep(w4, CALM), CALM, 0);
  }

  /** A live name that no list and no spec in sight mentions. */
  predicate Stray(w: World, name: string) {
    && name in w.live && name !in RegisteredNames(w)
    && (w.shard.Some? ==> name !in DesiredNames(w.shard.value.groups))
    && (!w.worker.Idle? ==>
          name !in w.worker.mem.status.registered && name !in DesiredNames(w.worker.mem.groups))
  }

  /** The event neither removes the name from outside nor asks for it again. */
  predicate Ignores(e: Event, name: string) {
    e != Vanish(name) && (e.EditSpec? ==> name !in DesiredNames(e.groups))
  }

  lemma StrayStep(w: World, e: Event, name: string)
    requires Stray(w, name) && Ignores(e, name)
    ensures Stray(Next(w, e), name)
  {
    hide DesiredNames, FinishStep, ProvisionStep, RecordError;
    if e.Call? && !w.worker.Idle? {
      var a, mem := e.answer, w.worker.mem;
      ProvisionSound(a.env, mem.status, mem.generation, a.now);
      FinishCoherent(a.env, mem.status, DesiredNames(mem.groups), mem.generation, a.now);
      forall s, error { RecordErrorCoherent(s, error, mem.generation, a.now); }
    }
  }

  /** A stray name stays: the operator never deletes it again, in any continuation in which
      nobody else removes it and no edit asks for it. */
  lemma {:induction false} StrayStays(w: World, events: seq<Event>, name: string)
    requires Stray(w, name) && forall e :: e in events ==> Ignores(e, name)
    ensures Stray(Run(w, events), name)
    decreases |events|
  {
    hide Next, Stray, Ignores;
    if events != [] {
      StrayStep(w, events[0], name);
      StrayStays(Next(w, events[0]), events[1..], name);
    }
  }

  /** For every spec that asks for an APIService there is a run, in which the operator
      crashes after its first apply and the user then deletes the shard, that leaves the
      shard gone and that APIService live, for good unless somebody else removes it. */
  lemma CrashLeaks(groups: seq<APIGroup>) returns (n: nat)
    requires DesiredNames(groups) != []
    ensures var name := DesiredNames(groups)[0];
            var end := Run(Created(groups), Calls(CALM, 6) + [Crash, MarkDeleted] + Calls(CALM, n));
            && end.shard.None? && Stray(end, name)
            && forall more :: (forall e :: e in more ==> Ignores(e, name)) ==> name in Run(end, more).live
  {
    hide DesiredNames, Calls;
    var name, start := DesiredNames(groups)[0], Created(groups);
    var before := Repeat(start, CALM, 5);
    FirstPassApplies(groups);
    RepeatSum(start, CALM, 5, 1);
    var applied := CallStep(before, CALM);
    assert Repeat(before, CALM, 1) == Repeat(applied, CALM, 0);
    RepeatIsRun(start, CALM, 6);
    var marked := Next(Next(applied, Crash), MarkDeleted);
    assert [Crash, MarkDeleted][1..] == [MarkDeleted];
    assert Run(applied, [Crash, MarkDeleted]) == Run(Next(applied, Crash), [MarkDeleted]) == marked;
    n := DeletionPassExact(marked, CALM);
    RunSplit(start, Calls(CALM, 6), [Crash, MarkDeleted]);
    RunSplit(start, Calls(CALM, 6) + [Crash, MarkDeleted], Calls(CALM, n));
    var end := Run(marked, Calls(CALM, n));
    forall more | forall e :: e in more ==> Ignores(e, name) ensures name in Run(end, more).live {
      StrayStays(end, more, name);
    }
  }
}
