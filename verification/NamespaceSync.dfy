/** NamespaceSync: mirroring selected namespaces to the secondary, call by call. */
module NamespaceSync {
  import opened Prelude

  /** A label map; None is Go's nil map. */
  type Labels = Option<map<string, string>>

  datatype Namespace = Namespace(name: string, labels: Labels)

  /** Never deleted from the secondary. */
  function System(): set<string> {
    {"kube-system", "kube-public", "kube-node-lease", "default"}
  }

  const NAME_LABEL := "kubernetes.io/metadata.name"

  /** The labels a created namespace gets. */
  function Copied(labels: Labels): Labels {
    if labels.None? then None else Some(labels.value - {NAME_LABEL})
  }

  /** filterLabels. */
  method FilterLabels(src: Labels) returns (filtered: Labels)
    ensures filtered == Copied(src)
    ensures src.None? <==> filtered.None?
    ensures src.Some? ==>
              forall k :: (k in filtered.value <==> k in src.value && k != "kubernetes.io/metadata.name")
                          && (k in filtered.value ==> filtered.value[k] == src.value[k])
  {
    if src.None? { return None; }
    var result: map<string, string> := map[];
    var rest := src.value.Keys;
    while rest != {}
      invariant rest <= src.value.Keys
      invariant result == map k | k in src.value.Keys - rest && k != NAME_LABEL :: src.value[k]
      decreases rest
    {
      var k :| k in rest;
      rest := rest - {k};
      if k == NAME_LABEL { continue; }
      result := result[k := src.value[k]];
    }
    assert result == src.value - {NAME_LABEL};
    return Some(result);
  }

  /** The namespaces that should be on the secondary: selected and not excluded. */
  function Desired(primary: seq<Namespace>, excluded: set<string>): set<string> {
    set ns | ns in primary && ns.name !in excluded :: ns.name
  }

  /** Where a pass is heading: the desired namespaces, and the system ones it leaves alone. */
  function Target(primary: seq<Namespace>, excluded: set<string>, before: set<string>): set<string> {
    Desired(primary, excluded) + System() * before
  }

  /** The names on which the secondary and the target disagree. */
  function Diff(target: set<string>, now: set<string>): set<string> {
    (target - now) + (now - target)
  }

  /** Along a pass the difference only ever shrinks. */
  ghost predicate Shrinking(target: set<string>, trace: seq<set<string>>) {
    forall i, j :: 0 <= i <= j < |trace| ==> Diff(target, trace[j]) <= Diff(target, trace[i])
  }

  lemma ShrinkingAppend(target: set<string>, trace: seq<set<string>>, now: set<string>)
    requires Shrinking(target, trace) && trace != []
    requires Diff(target, now) <= Diff(target, trace[|trace| - 1])
    ensures Shrinking(target, trace + [now])
  {
    var longer := trace + [now];
    forall i, j | 0 <= i <= j < |longer| ensures Diff(target, longer[j]) <= Diff(target, longer[i]) {
      if j == |trace| && i < j {
        assert Diff(target, trace[|trace| - 1]) <= Diff(target, trace[i]);
      }
    }
  }

  /** Existing namespaces keep their labels, new ones carry the filtered labels of a
      desired primary namespace. */
  ghost predicate LabelsOk(primary: seq<Namespace>, before: map<string, Labels>, now: map<string, Labels>) {
    forall n :: n in now ==>
      if n in before then now[n] == before[n]
      else exists ns :: ns in primary && ns.name == n && now[n] == Copied(ns.labels)
  }

  /** Labels are not refreshed: after a pass a selected namespace has its filtered labels
      exactly when it was missing before or had them already. */
  lemma LabelsExact(primary: seq<Namespace>, before: map<string, Labels>, now: map<string, Labels>, ns: Namespace)
    requires forall i, j :: 0 <= i < j < |primary| ==> primary[i].name != primary[j].name
    requires LabelsOk(primary, before, now) && ns in primary && ns.name in now
    ensures now[ns.name] == Copied(ns.labels) <==> (ns.name in before ==> before[ns.name] == Copied(ns.labels))
  {
  }

  lemma LabelsStart(primary: seq<Namespace>, before: map<string, Labels>)
    ensures LabelsOk(primary, before, before)
  {
  }

  lemma LabelsAdd(primary: seq<Namespace>, before: map<string, Labels>, now: map<string, Labels>, ns: Namespace)
    requires LabelsOk(primary, before, now) && ns in primary && ns.name !in before
    ensures LabelsOk(primary, before, now[ns.name := Copied(ns.labels)])
  {
  }

  lemma ShrinkingStart(target: set<string>, now: set<string>)
    ensures Shrinking(target, [now])
  {
  }

  /** The create loop. `failed` are the names whose creation was reported as an error. */
  method CreateMissing(primary: seq<Namespace>, excluded: set<string>, before: map<string, Labels>,
                       answers: nat -> Outcome)
    returns (now: map<string, Labels>, failed: seq<string>, writes: nat, ghost trace: seq<set<string>>)
    ensures before.Keys <= now.Keys <= before.Keys + Desired(primary, excluded)
    ensures forall n :: n in Desired(primary, excluded) && n !in now ==> n in failed
    ensures LabelsOk(primary, before, now)
    ensures Desired(primary, excluded) <= before.Keys ==> writes == 0 && now == before && failed == []
    ensures trace != [] && trace[0] == before.Keys && trace[|trace| - 1] == now.Keys
    ensures forall target :: Desired(primary, excluded) <= target ==> Shrinking(target, trace)
    ensures |failed| == Failures(answers, 0, writes)
    // a write that is not refused takes effect, whatever it answers, and a refused one does not
    ensures (forall k: nat :: k < writes ==> !answers(k).Refused?) ==> Desired(primary, excluded) <= now.Keys
    ensures (forall k: nat :: k < writes ==> answers(k).Refused?) ==> now == before
  {
    hide LabelsOk, Shrinking;
    LabelsStart(primary, before);
    forall target ensures Shrinking(target, [before.Keys]) { ShrinkingStart(target, before.Keys); }
    now, failed, writes, trace := before, [], 0, [before.Keys];
    for i := 0 to |primary|
      invariant before.Keys <= now.Keys <= before.Keys + Desired(primary, excluded)
      invariant forall n :: n in Desired(primary[..i], excluded) && n !in now ==> n in failed
      invariant LabelsOk(primary, before, now)
      invariant Desired(primary, excluded) <= before.Keys ==> writes == 0 && now == before && failed == []
      invariant trace != [] && trace[0] == before.Keys && trace[|trace| - 1] == now.Keys
      invariant forall target :: Desired(primary, excluded) <= target ==> Shrinking(target, trace)
      invariant |failed| == Failures(answers, 0, writes)
      invariant (forall k: nat :: k < writes ==> !answers(k).Refused?) ==> Desired(primary[..i], excluded) <= now.Keys
      invariant (forall k: nat :: k < writes ==> answers(k).Refused?) ==> now == before
    {
      var ns := primary[i];
      assert primary[..i + 1] == primary[..i] + [ns];
      if ns.name in excluded || ns.name in before { continue; }
      assert ns.name in Desired(primary, excluded);
      var labels := FilterLabels(ns.labels);
      var answer := answers(writes);
      if answer.Effective() && ns.name !in now {
        LabelsAdd(primary, before, now, ns);
        now := now[ns.name := labels];
      }
      writes := writes + 1;
      if !answer.Done? { failed := failed + [ns.name]; }
      forall target | Desired(primary, excluded) <= target ensures Shrinking(target, trace + [now.Keys]) {
        ShrinkingAppend(target, trace, now.Keys);
      }
      trace := trace + [now.Keys];
    }
    assert primary[..|primary|] == primary;
  }

  /** The delete loop, over the listing taken at the start of the pass. */
  method DeleteOrphans(listed: seq<string>, desired: set<string>, before: map<string, Labels>,
                       answers: nat -> Outcome, start: nat)
    returns (now: map<string, Labels>, failed: seq<string>, writes: nat, ghost trace: seq<set<string>>)
    ensures start <= writes
    ensures forall n :: n in now ==> n in before && now[n] == before[n]
    ensures forall n :: n in before && n !in now ==> n !in desired && n !in System()
    ensures forall n :: n in listed && n in now && n !in desired && n !in System() ==> n in failed
    ensures ToSet(listed) <= desired + System() ==> writes == start && now == before && failed == []
    ensures trace != [] && trace[0] == before.Keys && trace[|trace| - 1] == now.Keys
    ensures forall target :: target <= desired + System() ==> Shrinking(target, trace)
    ensures |failed| == Failures(answers, start, writes)
    ensures (forall k: nat :: start <= k < writes ==> !answers(k).Refused?) ==>
              forall n :: n in listed && n in now ==> n in desired || n in System()
    ensures (forall k: nat :: start <= k < writes ==> answers(k).Refused?) ==> now == before
  {
    hide System;
    now, failed, writes, trace := before, [], start, [before.Keys];
    for i := 0 to |listed|
      invariant start <= writes
      invariant forall n :: n in now ==> n in before && now[n] == before[n]
      invariant forall n :: n in before && n !in now ==> n !in desired && n !in System()
      invariant forall n :: n in listed[..i] && n in now && n !in desired && n !in System() ==> n in failed
      invariant ToSet(listed) <= desired + System() ==> writes == start && now == before && failed == []
      invariant trace != [] && trace[0] == before.Keys && trace[|trace| - 1] == now.Keys
      invariant forall target :: target <= desired + System() ==> Shrinking(target, trace)
      invariant |failed| == Failures(answers, start, writes)
      invariant (forall k: nat :: start <= k < writes ==> !answers(k).Refused?) ==>
                  forall n :: n in listed[..i] && n in now ==> n in desired || n in System()
      invariant (forall k: nat :: start <= k < writes ==> answers(k).Refused?) ==> now == before
    {
      var name := listed[i];
      assert name in ToSet(listed);
      if name in desired || name in System() { continue; }
      var answer := answers(writes);
      if answer.Effective() {
        now := now - {name};
      }
      writes := writes + 1;
      if !answer.Done? { failed := failed + [name]; }
      forall target | target <= desired + System() ensures Shrinking(target, trace + [now.Keys]) {
        ShrinkingAppend(target, trace, now.Keys);
      }
      trace := trace + [now.Keys];
    }
  }

  // ----- a whole pass ------------------------------------------------------------

  /** What happened before the two loops could start. */
  datatype Preparation = ClientFailed | SelectorInvalid | PrimaryListFailed | SecondaryListFailed | Prepared

  /** The Ready condition a pass sets; Unwritten when it returns before touching the status. */
  datatype Report = Unwritten | SecondaryUnavailable | SyncErrors(count: nat) | SyncComplete(count: nat)

  /** The loop that fills desiredNames. */
  method CollectDesired(primary: seq<Namespace>, excluded: set<string>) returns (desired: set<string>)
    ensures desired == Desired(primary, excluded)
  {
    desired := {};
    for i := 0 to |primary|
      invariant desired == Desired(primary[..i], excluded)
    {
      assert primary[..i + 1] == primary[..i] + [primary[i]];
      if primary[i].name in excluded { continue; }
      desired := desired + {primary[i].name};
    }
    assert primary[..|primary|] == primary;
  }

  /** Where a pass with `errors` errors ended up. */
  ghost predicate Settled(target: set<string>, secondary: map<string, Labels>, now: map<string, Labels>,
                          writes: nat, errors: seq<string>) {
    // every recorded error accounts for at most one name that is still wrong
    && |Diff(target, now.Keys)| <= |errors|
    && (errors == [] ==> now.Keys == target)
    // a secondary already on target is left alone
    && (secondary.Keys == target ==> writes == 0 && now == secondary && errors == [])
  }

  /** Only desired names appear, and only names neither desired nor kept disappear. */
  predicate Moved(before: set<string>, now: set<string>, desired: set<string>, kept: set<string>) {
    && (forall n :: n in now && n !in before ==> n in desired)
    && (forall n :: n in before && n !in now ==> n !in desired && n !in kept)
  }

  /** Some selected namespace has this name, and the name is not excluded. */
  predicate Selected(name: string, primary: seq<Namespace>, excludeNamespaces: seq<string>) {
    (exists i :: 0 <= i < |primary| && primary[i].name == name) && name !in excludeNamespaces
  }

  lemma DesiredExact(primary: seq<Namespace>, excludeNamespaces: seq<string>, name: string)
    ensures name in Desired(primary, ToSet(excludeNamespaces)) <==> Selected(name, primary, excludeNamespaces)
  {
  }

  /** The namespaces every cluster has. */
  predicate Reserved(name: string) {
    name == "kube-system" || name == "kube-public" || name == "kube-node-lease" || name == "default"
  }

  lemma SystemExact(name: string)
    ensures name in System() <==> Reserved(name)
  {
  }

  /** The two loops of a pass. */
  method Mirror(primary: seq<Namespace>, excluded: set<string>, desired: set<string>, secondary: map<string, Labels>,
                answers: nat -> Outcome)
    returns (now: map<string, Labels>, writes: nat, errors: seq<string>, ghost trace: seq<set<string>>)
    requires desired == Desired(primary, excluded)
    ensures Settled(Target(primary, excluded, secondary.Keys), secondary, now, writes, errors)
    ensures trace != [] && trace[0] == secondary.Keys && trace[|trace| - 1] == now.Keys
    ensures Shrinking(Target(primary, excluded, secondary.Keys), trace)
    ensures LabelsOk(primary, secondary, now)
    ensures System() * secondary.Keys <= now.Keys
    ensures |errors| == Failures(answers, 0, writes)
    ensures Moved(secondary.Keys, now.Keys, desired, System())
    ensures (forall k: nat :: k < writes ==> !answers(k).Refused?) ==>
              now.Keys == Target(primary, excluded, secondary.Keys)
    ensures (forall k: nat :: k < writes ==> answers(k).Refused?) ==> now == secondary
  {
    hide System, Diff, Shrinking, LabelsOk, Desired;
    var listed := ListNames(secondary);
    var created, uncreated, undeleted;
    ghost var up, down;
    created, uncreated, writes, up := CreateMissing(primary, excluded, secondary, answers);
    var used := writes;
    now, undeleted, writes, down := DeleteOrphans(listed, desired, created, answers, used);
    errors := uncreated + undeleted;
    FailuresJoin(answers, 0, used, writes);
    Accounted(desired, System(), secondary.Keys, created.Keys, now.Keys, errors);
    LabelsSurvive(primary, secondary, created, now);
    trace := up + down;
    Joined(Target(primary, excluded, secondary.Keys), up, down);
  }

  /** Reconcile. `answers(k)` is how the k-th write to the secondary went. */
  method Reconcile(preparation: Preparation, primary: seq<Namespace>, excludeNamespaces: seq<string>,
                   secondary: map<string, Labels>, answers: nat -> Outcome)
    returns (now: map<string, Labels>, writes: nat, report: Report, synced: nat, ghost trace: seq<set<string>>)
    ensures !preparation.Prepared? ==>
              && now == secondary && writes == 0 && synced == 0
              && report == (if preparation.ClientFailed? || preparation.SecondaryListFailed? then SecondaryUnavailable
                            else Unwritten)
    ensures preparation.Prepared? ==>
              var target := Target(primary, ToSet(excludeNamespaces), secondary.Keys);
              var distance := |Diff(target, now.Keys)|;
              && synced == |Desired(primary, ToSet(excludeNamespaces))|
              // every recorded error accounts for at most one name that is still wrong
              && ((report.SyncErrors? && 0 < report.count && distance <= report.count)
                  || (report == SyncComplete(synced) && now.Keys == target))
              // a secondary already on target is left alone, and found ready
              && (secondary.Keys == target ==> writes == 0 && now == secondary && report == SyncComplete(synced))
              // no write ever moves the secondary away from the target
              && trace != [] && trace[0] == secondary.Keys && trace[|trace| - 1] == now.Keys && Shrinking(target, trace)
              && LabelsOk(primary, secondary, now)
              // every write that was answered with an error is counted
              && (if report.SyncErrors? then report.count else 0) == Failures(answers, 0, writes)
              // what counts for the secondary is whether a write took effect, not what it answered
              && ((forall k: nat :: k < writes ==> !answers(k).Refused?) ==> now.Keys == target)
              && ((forall k: nat :: k < writes ==> answers(k).Refused?) ==> now == secondary)
    // only selected names that are not excluded appear; only names neither selected nor reserved disappear
    ensures forall n :: n in now && n !in secondary ==> Selected(n, primary, excludeNamespaces)
    ensures forall n :: n in secondary && n !in now ==> !Selected(n, primary, excludeNamespaces) && !Reserved(n)
    // a complete pass leaves exactly the selected names and the reserved ones that were there
    ensures report.SyncComplete? ==>
              forall n :: n in now <==> Selected(n, primary, excludeNamespaces) || (Reserved(n) && n in secondary)
  {
    hide System, Diff, Shrinking, LabelsOk, Target, Desired, Selected, Reserved;
    forall n ensures n in Desired(primary, ToSet(excludeNamespaces)) <==> Selected(n, primary, excludeNamespaces) {
      DesiredExact(primary, excludeNamespaces, n);
    }
    forall n ensures n in System() <==> Reserved(n) { SystemExact(n); }
    forall n ensures n in Target(primary, ToSet(excludeNamespaces), secondary.Keys) <==>
                     Selected(n, primary, excludeNamespaces) || (Reserved(n) && n in secondary)
    {
      TargetAt(primary, excludeNamespaces, secondary.Keys, n);
    }
    now, writes, synced, trace := secondary, 0, 0, [secondary.Keys];
    match preparation {
      case ClientFailed => report := SecondaryUnavailable; return;
      case SelectorInvalid => report := Unwritten; return;
      case PrimaryListFailed => report := Unwritten; return;
      case SecondaryListFailed => report := SecondaryUnavailable; return;
      case Prepared =>
    }
    var excluded := ToSet(excludeNamespaces);
    var desired := CollectDesired(primary, excluded);
    var errors;
    now, writes, errors, trace := Mirror(primary, excluded, desired, secondary, answers);
    synced := |desired|;
    report := if |errors| > 0 then SyncErrors(|errors|) else SyncComplete(synced);
  }

  lemma TargetAt(primary: seq<Namespace>, excludeNamespaces: seq<string>, before: set<string>, name: string)
    ensures name in Target(primary, ToSet(excludeNamespaces), before) <==>
            Selected(name, primary, excludeNamespaces) || (Reserved(name) && name in before)
  {
    DesiredExact(primary, excludeNamespaces, name);
    SystemExact(name);
  }

  /** Deleting namespaces keeps the labels of the others. */
  lemma LabelsSurvive(primary: seq<Namespace>, before: map<string, Labels>,
                      created: map<string, Labels>, now: map<string, Labels>)
    requires LabelsOk(primary, before, created)
    requires forall n :: n in now ==> n in created && now[n] == created[n]
    ensures LabelsOk(primary, before, now)
  {
  }

  /** Every name still wrong after a pass is among the recorded errors. */
  lemma Accounted(desired: set<string>, system: set<string>, before: set<string>, created: set<string>,
                  now: set<string>, errors: seq<string>)
    requires before <= created <= before + desired
    requires forall n :: n in desired && n !in created ==> n in errors
    requires now <= created
    requires forall n :: n in created && n !in now ==> n !in desired && n !in system
    requires forall n :: n in before && n in now && n !in desired && n !in system ==> n in errors
    ensures var target := desired + system * before;
            && |Diff(target, now)| <= |errors|
            && (errors == [] ==> now == target)
  {
    var target := desired + system * before;
    assert Diff(target, now) <= ToSet(errors);
    SubsetSize(Diff(target, now), ToSet(errors));
    ToSetSize(errors);
    if errors == [] {
      forall n ensures n in now <==> n in target { assert n !in Diff(target, now); }
    }
  }

  lemma Joined(target: set<string>, up: seq<set<string>>, down: seq<set<string>>)
    requires Shrinking(target, up) && Shrinking(target, down) && up != [] && down != []
    requires up[|up| - 1] == down[0]
    ensures Shrinking(target, up + down)
  {
    var trace := up + down;
    forall i, j | 0 <= i <= j < |trace| ensures Diff(target, trace[j]) <= Diff(target, trace[i]) {
      if i < |up| <= j {
        assert Diff(target, down[j - |up|]) <= Diff(target, down[0]);
        assert Diff(target, up[|up| - 1]) <= Diff(target, up[i]);
      }
    }
  }

  lemma TargetStable(primary: seq<Namespace>, excluded: set<string>, before: set<string>)
    ensures Target(primary, excluded, Target(primary, excluded, before)) == Target(primary, excluded, before)
  {
    hide Desired, System;
  }

  /** A pass that ends Ready is a fixpoint: the next one, over the same primary, reports
      the same and writes nothing. */
  method PassTwice(primary: seq<Namespace>, excludeNamespaces: seq<string>, secondary: map<string, Labels>,
                   answers: nat -> Outcome, later: nat -> Outcome)
    returns (first: Report, once: map<string, Labels>, second: Report, twice: map<string, Labels>, writes: nat)
    ensures first.SyncComplete? ==> second == first && twice == once && writes == 0
  {
    hide System, Diff, Shrinking, LabelsOk, Desired, Target;
    var unused, synced;
    ghost var trace;
    TargetStable(primary, ToSet(excludeNamespaces), secondary.Keys);
    once, unused, first, synced, trace := Reconcile(Prepared, primary, excludeNamespaces, secondary, answers);
    twice, writes, second, synced, trace := Reconcile(Prepared, primary, excludeNamespaces, once, later);
  }
}
