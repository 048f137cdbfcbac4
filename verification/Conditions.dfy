/** Status conditions as the Kubernetes `meta` helpers keep them: an ordered list
    in which a condition is found by its type, replaced in place, and dated by the
    last change of its status. */
module Conditions {
  import opened Prelude

  datatype ConditionType =
    | Reconciled
    | SecondaryHealthy
    | CRDConflict
    | APIServicesRegistered
    | NamespaceSyncReady
    | WebhookSyncReady
    | StorageReady
    | MonitoringDegraded

  /** The reasons the APIShard reconciler writes, and those it copies from elsewhere. */
  datatype Reason =
    | ReconcileError
    | ReconcileSucceeded
    | NoConflicts
    | CRDSyncFailed
    | CRDsSyncedToSecondary
    | DeploymentNotReady
    | DeploymentAvailable
    | SecondaryUnhealthy
    | APIServicesNotAvailable
    | AllAvailable
    | Copied(text: string)

  /** The part of a condition its writer chooses. */
  datatype Verdict = Verdict(truth: Truth, reason: Reason, message: string)

  datatype Condition = Condition(kind: ConditionType, verdict: Verdict, observed: int, since: nat)

  /** meta.FindStatusCondition: the first condition of that type. */
  function Find(cs: seq<Condition>, kind: ConditionType): (r: Option<Condition>) {
    if cs == [] then None
    else if cs[0].kind == kind then Some(cs[0])
    else Find(cs[1..], kind)
  }

  /** What Find returns is in the list, of that type, with none of the type before it. */
  lemma {:induction false} FindExact(cs: seq<Condition>, kind: ConditionType)
    ensures Find(cs, kind).None? <==> forall i :: 0 <= i < |cs| ==> cs[i].kind != kind
    ensures forall i :: 0 <= i < |cs| && cs[i].kind == kind && (forall j :: 0 <= j < i ==> cs[j].kind != kind) ==>
              Find(cs, kind) == Some(cs[i])
  {
    if cs != [] && cs[0].kind != kind {
      FindExact(cs[1..], kind);
      forall i | 0 <= i < |cs| && cs[i].kind == kind && (forall j :: 0 <= j < i ==> cs[j].kind != kind)
        ensures Find(cs, kind) == Some(cs[i])
      {
        assert cs[1..][i - 1] == cs[i];
        assert forall j :: 0 <= j < i - 1 ==> cs[1..][j] == cs[j + 1];
      }
      if Find(cs, kind).None? {
        forall i | 0 <= i < |cs| ensures cs[i].kind != kind {
          if i > 0 { assert cs[1..][i - 1] == cs[i]; }
        }
      }
    }
  }

  /** The verdict last recorded for a type, if any. */
  function VerdictOf(cs: seq<Condition>, kind: ConditionType): Option<Verdict> {
    match Find(cs, kind)
    case None => None
    case Some(c) => Some(c.verdict)
  }

  /** The list already says `v` about `kind`, for this generation. */
  predicate Says(cs: seq<Condition>, kind: ConditionType, v: Verdict, observed: int) {
    var c := Find(cs, kind);
    c.Some? && c.value.verdict == v && c.value.observed == observed
  }

  /** meta.SetStatusCondition. The transition time moves only when the status does,
      so setting what is already said changes nothing at any later time. */
  function Set(cs: seq<Condition>, kind: ConditionType, v: Verdict, observed: int, now: nat): (r: seq<Condition>)
    ensures var was := Find(cs, kind);
            var since := if was.Some? && was.value.verdict.truth == v.truth then was.value.since else now;
            Find(r, kind) == Some(Condition(kind, v, observed, since))
    ensures forall k :: k != kind ==> Find(r, k) == Find(cs, k)
    ensures Says(cs, kind, v, observed) ==> r == cs
  {
    if cs == [] then
      [Condition(kind, v, observed, now)]
    else if cs[0].kind == kind then
      var since := if cs[0].verdict.truth == v.truth then cs[0].since else now;
      [Condition(kind, v, observed, since)] + cs[1..]
    else
      var rest := Set(cs[1..], kind, v, observed, now);
      assert ([cs[0]] + rest)[1..] == rest;
      [cs[0]] + rest
  }

  /** meta.RemoveStatusCondition: every condition of that type goes, the rest keep their order. */
  function Remove(cs: seq<Condition>, kind: ConditionType): (r: seq<Condition>)
    ensures Find(r, kind) == None
    ensures forall k :: k != kind ==> Find(r, k) == Find(cs, k)
    ensures Find(cs, kind) == None ==> r == cs
  {
    if cs == [] then
      []
    else
      var rest := Remove(cs[1..], kind);
      if cs[0].kind == kind then rest
      else
        assert ([cs[0]] + rest)[1..] == rest;
        [cs[0]] + rest
  }
}
