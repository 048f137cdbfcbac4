/** WebhookSync: mirroring the webhook configurations of selected API groups, with their
    service references rewritten to URLs. The source has the code once for validating
    and once for mutating configurations; the two copies differ only in fields that they
    pass through (`rest` here), so the model has it once and a pass runs it twice. */
module WebhookSync {
  import opened Prelude
  import opened ServiceUrl
  import opened Decimals

  datatype Rule = Rule(apiGroups: seq<string>, rest: string)
  datatype Webhook = Webhook(name: string, clientConfig: ClientConfig, rules: seq<Rule>, rest: string)

  /** What is mirrored of a configuration, and the cluster metadata that is not. */
  datatype Content = Content(labels: map<string, string>, annotations: map<string, string>, webhooks: seq<Webhook>)
  datatype Source = Source(content: Content, clusterMetadata: string)

  // ----- selection and transformation -------------------------------------------

  predicate Targets(w: Webhook, groups: set<string>) {
    exists j, k :: 0 <= j < |w.rules| && 0 <= k < |w.rules[j].apiGroups|
                   && (w.rules[j].apiGroups[k] in groups || w.rules[j].apiGroups[k] == "*")
  }

  /** Some rule targets one of the groups, or all groups. */
  predicate AnyTargets(webhooks: seq<Webhook>, groups: set<string>) {
    exists i :: 0 <= i < |webhooks| && Targets(webhooks[i], groups)
  }

  predicate Matches(c: Content, groups: set<string>) {
    AnyTargets(c.webhooks, groups)
  }

  /** shouldSyncValidatingWebhook and shouldSyncMutatingWebhook. */
  method ShouldSync(webhooks: seq<Webhook>, groups: set<string>) returns (yes: bool)
    ensures yes <==> AnyTargets(webhooks, groups)
    ensures yes <==>
              exists i, j, k :: 0 <= i < |webhooks| && 0 <= j < |webhooks[i].rules|
                && 0 <= k < |webhooks[i].rules[j].apiGroups|
                && (webhooks[i].rules[j].apiGroups[k] in groups || webhooks[i].rules[j].apiGroups[k] == "*")
  {
    for i := 0 to |webhooks|
      invariant forall h :: 0 <= h < i ==> !Targets(webhooks[h], groups)
    {
      var w := webhooks[i];
      for j := 0 to |w.rules|
        invariant forall h, k :: 0 <= h < j && 0 <= k < |w.rules[h].apiGroups| ==>
                    w.rules[h].apiGroups[k] !in groups && w.rules[h].apiGroups[k] != "*"
      {
        for k := 0 to |w.rules[j].apiGroups|
          invariant forall h :: 0 <= h < k ==> w.rules[j].apiGroups[h] !in groups && w.rules[j].apiGroups[h] != "*"
        {
          var group := w.rules[j].apiGroups[k];
          if group in groups || group == "*" { return true; }
        }
      }
    }
    return false;
  }

  function Readdressed(w: Webhook): Webhook {
    w.(clientConfig := Rewrite(w.clientConfig))
  }

  /** The configuration as the secondary gets it: everything else and the order kept. */
  function Image(c: Content): Content {
    c.(webhooks := seq(|c.webhooks|, i requires 0 <= i < |c.webhooks| => Readdressed(c.webhooks[i])))
  }

  /** transformValidatingWebhook and transformMutatingWebhook: a copy whose webhooks are
      then changed in place. */
  method Transform(src: Source) returns (result: Source)
    ensures result == Source(Image(src.content), "")
  {
    var webhooks := src.content.webhooks;
    for i := 0 to |webhooks|
      invariant |webhooks| == |src.content.webhooks|
      invariant forall j :: 0 <= j < i ==> webhooks[j] == Readdressed(src.content.webhooks[j])
      invariant forall j :: i <= j < |webhooks| ==> webhooks[j] == src.content.webhooks[j]
    {
      var config := webhooks[i].clientConfig;
      if config.service.Some? {
        var ref := config.service.value;
        var authority := ref.name + "." + ref.namespace + ".svc" + ":" + PrintInt(ServicePort(ref.port));
        var url := "https://" + authority + ServicePath(ref.path);
        webhooks := webhooks[i := webhooks[i].(clientConfig := config.(url := Some(url), service := None))];
      }
    }
    result := Source(src.content.(webhooks := webhooks), "");
  }

  predicate Addressable(config: ClientConfig) {
    config.service.Some? ==> Printable(Resolve(config.service.value))
  }

  /** The rewrite is idempotent, keeps every webhook at its place with its name, rules and
      other fields, replaces its service by a URL and keeps its CA bundle, keeps the selection,
      and keeps the endpoint of every webhook whose service address is printable, and of no
      other. */
  lemma ImageKeepsMeaning(c: Content, groups: set<string>)
    ensures Image(Image(c)) == Image(c)
    ensures Image(c) == c.(webhooks := Image(c).webhooks) && |Image(c).webhooks| == |c.webhooks|
    ensures Matches(Image(c), groups) <==> Matches(c, groups)
    ensures forall i :: 0 <= i < |c.webhooks| ==>
              var before, after := c.webhooks[i], Image(c).webhooks[i];
              && after == before.(clientConfig := after.clientConfig)
              && OnlyAddressed(before.clientConfig, after.clientConfig)
              && (Meaning(after.clientConfig) == Meaning(before.clientConfig) <==> Addressable(before.clientConfig))
  {
    hide Meaning, Printable, Resolve, Print, OnlyAddressed;
    forall i | 0 <= i < |c.webhooks|
      ensures OnlyAddressed(c.webhooks[i].clientConfig, Image(c).webhooks[i].clientConfig)
      ensures Targets(Image(c).webhooks[i], groups) <==> Targets(c.webhooks[i], groups)
      ensures Meaning(Image(c).webhooks[i].clientConfig) == Meaning(c.webhooks[i].clientConfig)
              <==> Addressable(c.webhooks[i].clientConfig)
    {
      RewriteKeepsMeaning(c.webhooks[i].clientConfig);
      assert Image(c).webhooks[i].rules == c.webhooks[i].rules;
    }
    if Matches(Image(c), groups) {
      var i :| 0 <= i < |Image(c).webhooks| && Targets(Image(c).webhooks[i], groups);
      assert Targets(c.webhooks[i], groups);
    }
  }

  // ----- one kind of configuration ------------------------------------------------

  type Store = map<string, Content>

  /** What the secondary should hold. */
  function Wanted(primary: map<string, Source>, groups: set<string>): Store {
    map n | n in primary && Matches(primary[n].content, groups) :: Image(primary[n].content)
  }

  /** Some rule of some webhook names one of the groups, or all groups. */
  predicate Chosen(c: Content, apiGroups: seq<string>) {
    exists i, j, k :: 0 <= i < |c.webhooks| && 0 <= j < |c.webhooks[i].rules|
      && 0 <= k < |c.webhooks[i].rules[j].apiGroups|
      && (c.webhooks[i].rules[j].apiGroups[k] in apiGroups || c.webhooks[i].rules[j].apiGroups[k] == "*")
  }

  /** What should be on the secondary: exactly the configurations with a rule for one of the
      groups or for all. */
  lemma WantedExact(primary: map<string, Source>, apiGroups: seq<string>, name: string)
    ensures name in Wanted(primary, ToSet(apiGroups)) <==> name in primary && Chosen(primary[name].content, apiGroups)
  {
    if name in primary {
      var c := primary[name].content;
      if Matches(c, ToSet(apiGroups)) {
        var i :| 0 <= i < |c.webhooks| && Targets(c.webhooks[i], ToSet(apiGroups));
        var j, k :| 0 <= j < |c.webhooks[i].rules| && 0 <= k < |c.webhooks[i].rules[j].apiGroups|
          && (c.webhooks[i].rules[j].apiGroups[k] in ToSet(apiGroups) || c.webhooks[i].rules[j].apiGroups[k] == "*");
      }
      if Chosen(c, apiGroups) {
        var i, j, k :| 0 <= i < |c.webhooks| && 0 <= j < |c.webhooks[i].rules|
          && 0 <= k < |c.webhooks[i].rules[j].apiGroups|
          && (c.webhooks[i].rules[j].apiGroups[k] in apiGroups || c.webhooks[i].rules[j].apiGroups[k] == "*");
        assert Targets(c.webhooks[i], ToSet(apiGroups));
      }
    }
  }

  lemma WantedChosen(primary: map<string, Source>, apiGroups: seq<string>)
    ensures forall n ::
              n in Wanted(primary, ToSet(apiGroups)) <==> n in primary && Chosen(primary[n].content, apiGroups)
  {
    hide Chosen, Wanted;
    forall n ensures n in Wanted(primary, ToSet(apiGroups)) <==> n in primary && Chosen(primary[n].content, apiGroups) {
      WantedExact(primary, apiGroups, n);
    }
  }

  /** The sync loop between two configurations: what is on the secondary, the names that
      went through, those that did not, and the number of calls so far. */
  datatype Loop = Loop(now: Store, synced: set<string>, errors: seq<string>, calls: nat)

  /** A Get, then a Create or an Update; both must be done for the name to count as synced. */
  predicate WentThrough(answers: nat -> Outcome, k: nat) {
    answers(k).Done? && answers(k + 1).Done?
  }

  function SyncStep(l: Loop, name: string, image: Content, answers: nat -> Outcome): Loop {
    var written := answers(l.calls).Done? && answers(l.calls + 1).Effective();
    Loop(if written then l.now[name := image] else l.now,
         if WentThrough(answers, l.calls) then l.synced + {name} else l.synced,
         if WentThrough(answers, l.calls) then l.errors else l.errors + [name],
         if answers(l.calls).Done? then l.calls + 2 else l.calls + 1)
  }

  /** The loop over a listing. */
  function SyncLoop(names: seq<string>, wanted: Store, secondary: Store, answers: nat -> Outcome): Loop {
    if names == [] then Loop(secondary, {}, [], 0)
    else
      var name := names[|names| - 1];
      var l := SyncLoop(names[..|names| - 1], wanted, secondary, answers);
      if name in wanted then SyncStep(l, name, wanted[name], answers) else l
  }

  /** One iteration of the sync loop: a Get, then a Create when it found nothing or an
      Update of webhooks, labels and annotations when it did. */
  method SyncOne(name: string, source: Source, l: Loop, answers: nat -> Outcome) returns (after: Loop)
    ensures after == SyncStep(l, name, Image(source.content), answers)
  {
    var transformed := Transform(source);
    after := l.(calls := l.calls + 1);
    if !answers(l.calls).Done? { return after.(errors := l.errors + [name]); }
    if answers(after.calls).Effective() {
      after := after.(now := l.now[name := transformed.content]);
    }
    if !answers(after.calls).Done? { return after.(errors := l.errors + [name], calls := after.calls + 1); }
    after := after.(synced := l.synced + {name}, calls := after.calls + 1);
  }

  /** Between iterations: the wanted configurations seen so far are split into synced and failed. */
  ghost predicate Progress(wanted: Store, secondary: Store, l: Loop, seen: seq<string>, answers: nat -> Outcome) {
    && (forall n :: n in l.synced || n in l.errors <==> n in wanted && n in seen)
    && (forall n :: n in l.synced ==> n !in l.errors && n in l.now && l.now[n] == wanted[n])
    && (forall n :: n in secondary ==> n in l.now && (n !in wanted ==> l.now[n] == secondary[n]))
    && (forall n :: n in l.now ==> n in secondary || n in wanted)
    && Distinct(l.errors)
    && |l.errors| == Failures(answers, 0, l.calls)
  }

  lemma ProgressStep(wanted: Store, secondary: Store, l: Loop, seen: seq<string>, name: string, answers: nat -> Outcome)
    requires Progress(wanted, secondary, l, seen, answers) && name in wanted && name !in seen
    ensures Progress(wanted, secondary, SyncStep(l, name, wanted[name], answers), seen + [name], answers)
  {
  }

  lemma {:induction false} LoopProgress(names: seq<string>, wanted: Store, secondary: Store, answers: nat -> Outcome)
    requires Distinct(names)
    ensures Progress(wanted, secondary, SyncLoop(names, wanted, secondary, answers), names, answers)
  {
    hide SyncStep;
    if names != [] {
      var seen, name := names[..|names| - 1], names[|names| - 1];
      var l := SyncLoop(seen, wanted, secondary, answers);
      LoopProgress(seen, wanted, secondary, answers);
      assert names == seen + [name];
      if name in wanted { ProgressStep(wanted, secondary, l, seen, name, answers); }
    }
  }

  lemma WantedAt(primary: map<string, Source>, groups: set<string>, name: string)
    requires name in primary
    ensures var wanted := Wanted(primary, groups);
            && (name in wanted <==> AnyTargets(primary[name].content.webhooks, groups))
            && (name in wanted ==> wanted[name] == Image(primary[name].content))
  {
  }

  /** The sync loop. Only what went through without an error is in `synced`. */
  method SyncAll(primary: map<string, Source>, groups: set<string>, secondary: Store, answers: nat -> Outcome)
    returns (l: Loop, count: nat, ghost names: seq<string>)
    ensures Distinct(names) && forall n :: n in names <==> n in primary
    ensures l == SyncLoop(names, Wanted(primary, groups), secondary, answers)
    ensures Progress(Wanted(primary, groups), secondary, l, names, answers)
    ensures count == |l.synced|
  {
    hide Image, AnyTargets, Progress, Wanted, SyncStep;
    var listed := ListNames(primary);
    l, count := Loop(secondary, {}, [], 0), 0;
    ghost var wanted := Wanted(primary, groups);
    for i := 0 to |listed|
      invariant l == SyncLoop(listed[..i], wanted, secondary, answers)
      invariant count == |l.synced|
    {
      var name := listed[i];
      ghost var seen := listed[..i];
      assert listed[..i + 1] == seen + [name] && (seen + [name])[..i] == seen;
      assert name in listed;
      WantedAt(primary, groups, name);
      var yes := ShouldSync(primary[name].content.webhooks, groups);
      if !yes { continue; }
      LoopProgress(seen, wanted, secondary, answers);
      SyncedOnce(wanted, secondary, l, seen, name, answers);
      var after := SyncOne(name, primary[name], l, answers);
      if |after.errors| == |l.errors| { count := count + 1; }
      l := after;
    }
    names := listed[..|listed|];
    LoopProgress(names, wanted, secondary, answers);
  }

  /** One more name is synced, or one more is recorded as failed. */
  lemma SyncedOnce(wanted: Store, secondary: Store, l: Loop, seen: seq<string>, name: string, answers: nat -> Outcome)
    requires Progress(wanted, secondary, l, seen, answers) && name in wanted && name !in seen
    ensures var after := SyncStep(l, name, wanted[name], answers);
            if |after.errors| == |l.errors| then |after.synced| == |l.synced| + 1 else after.synced == l.synced
  {
  }

  /** A sweep between two deletions; `ok` turns false at the first failing call and ends it. */
  datatype Sweep = Sweep(now: Store, ok: bool, calls: nat)

  function SweepLoop(items: seq<string>, current: set<string>, before: Store, answers: nat -> Outcome): Sweep {
    if items == [] then Sweep(before, answers(0).Done?, 1)
    else
      var item := items[|items| - 1];
      var s := SweepLoop(items[..|items| - 1], current, before, answers);
      if !s.ok || item in current then s
      else Sweep(if answers(s.calls).Effective() then s.now - {item} else s.now, answers(s.calls).Done?, s.calls + 1)
  }

  /** What a sweep over any listing does. */
  lemma {:induction false} SweepExact(items: seq<string>, current: set<string>, before: Store, answers: nat -> Outcome)
    ensures var s := SweepLoop(items, current, before, answers);
            && (forall n :: n in s.now ==> n in before && s.now[n] == before[n])
            && (forall n :: n in before && n !in s.now ==> n !in current)
            && (s.ok ==> forall n :: n in before ==> (n in s.now <==> n in current || n !in items))
            && 1 <= s.calls && (s.ok <==> forall k: nat :: k < s.calls ==> answers(k).Done?)
  {
    if items != [] {
      var seen, item := items[..|items| - 1], items[|items| - 1];
      SweepExact(seen, current, before, answers);
      assert items == seen + [item];
    }
  }

  /** deleteStaleValidating and deleteStaleMutating: everything not in `current` goes; the
      first failing call ends the sweep. */
  method DeleteStale(before: Store, current: set<string>, answers: nat -> Outcome)
    returns (now: Store, ok: bool, calls: nat, ghost items: seq<string>)
    ensures forall n :: n in items <==> n in before
    ensures Sweep(now, ok, calls) == SweepLoop(items, current, before, answers)
    ensures ok <==> forall k: nat :: k < calls ==> answers(k).Done?
    ensures forall n :: n in now ==> n in before && now[n] == before[n]
    ensures forall n :: n in before && n in current ==> n in now
    ensures ok ==> forall n :: n in now <==> n in before && n in current
  {
    var listed := ListNames(before);
    now, ok, items := before, answers(0).Done?, listed;
    calls := 1;
    for i := 0 to |listed|
      invariant Sweep(now, ok, calls) == SweepLoop(listed[..i], current, before, answers)
    {
      assert listed[..i + 1] == listed[..i] + [listed[i]] && listed[..i + 1][..i] == listed[..i];
      if !ok { continue; }
      if listed[i] !in current {
        if answers(calls).Effective() {
          now := now - {listed[i]};
        }
        ok := answers(calls).Done?;
        calls := calls + 1;
      }
    }
    assert listed[..|listed|] == listed;
    SweepExact(listed, current, before, answers);
  }

  // ----- a whole pass ----------------------------------------------------------------

  /** The answers to the calls of a pass, loop by loop. */
  datatype Answers = Answers(
    listValidating: bool, listMutating: bool,
    validating: nat -> Outcome, mutating: nat -> Outcome,
    sweepValidating: nat -> Outcome, sweepMutating: nat -> Outcome)

  datatype Report =
    | Unwritten | SecondaryUnavailable | SyncErrors(count: nat) | SyncComplete(validating: nat, mutating: nat)

  /** Everything in the store is up to date. */
  predicate Current(store: Store, wanted: Store) {
    forall n :: n in store ==> n in wanted && store[n] == wanted[n]
  }

  /** Name by name: what is left after a completed sweep. */
  lemma SweptAt(wanted: Store, secondary: Store, l: Loop, names: seq<string>, answers: nat -> Outcome,
                now: Store, n: string)
    requires Progress(wanted, secondary, l, names, answers)
    requires forall n :: n in wanted ==> n in names
    requires forall n :: n in now ==> n in l.now && now[n] == l.now[n]
    requires forall n :: n in now <==> n in l.now && n in l.synced
    ensures n in now <==> n in l.synced
    ensures n in now ==> n in wanted && now[n] == wanted[n]
    ensures n in wanted && n !in now <==> n in l.errors
  {
  }

  /** What the sync loop and a completed sweep of one kind add up to: what is left is up to
      date, and what is missing is exactly what failed. */
  lemma KindSwept(wanted: Store, secondary: Store, l: Loop, names: seq<string>, answers: nat -> Outcome, now: Store)
    requires Progress(wanted, secondary, l, names, answers)
    requires forall n :: n in wanted ==> n in names
    requires forall n :: n in now ==> n in l.now && now[n] == l.now[n]
    requires forall n :: n in now <==> n in l.now && n in l.synced
    ensures Current(now, wanted) && now.Keys == l.synced
    ensures wanted.Keys - now.Keys == ToSet(l.errors)
    ensures |wanted.Keys - now.Keys| == |l.errors|
    ensures now == wanted <==> l.errors == []
  {
    hide Progress, Current, Distinct;
    ErrorsDistinct(wanted, secondary, l, names, answers);
    forall n
      ensures n in now <==> n in l.synced
      ensures n in now ==> n in wanted && now[n] == wanted[n]
      ensures n in wanted && n !in now <==> n in l.errors
    {
      SweptAt(wanted, secondary, l, names, answers, now, n);
    }
    StoresDiffer(wanted, now, l.synced, l.errors);
  }

  /** Two stores that differ exactly by the recorded names. */
  lemma StoresDiffer(wanted: Store, now: Store, synced: set<string>, errors: seq<string>)
    requires Distinct(errors)
    requires forall n :: n in now <==> n in synced
    requires forall n :: n in now ==> n in wanted && now[n] == wanted[n]
    requires forall n :: n in wanted && n !in now <==> n in errors
    ensures Current(now, wanted) && now.Keys == synced
    ensures wanted.Keys - now.Keys == ToSet(errors) && |wanted.Keys - now.Keys| == |errors|
    ensures now == wanted <==> errors == []
  {
    ToSetDistinct(errors);
    hide Distinct;
    assert now.Keys == synced;
    assert wanted.Keys - now.Keys == ToSet(errors);
    if errors != [] {
      assert errors[0] in errors;
    } else {
      assert now.Keys == wanted.Keys;
    }
  }

  lemma LoopFailures(wanted: Store, secondary: Store, l: Loop, names: seq<string>, answers: nat -> Outcome)
    requires Progress(wanted, secondary, l, names, answers)
    ensures |l.errors| == Failures(answers, 0, l.calls)
  {
  }

  lemma ErrorsDistinct(wanted: Store, secondary: Store, l: Loop, names: seq<string>, answers: nat -> Outcome)
    requires Progress(wanted, secondary, l, names, answers)
    ensures Distinct(l.errors)
  {
  }

  // ----- a failed sync followed by a sweep -----------------------------------------------

  /** Sync loop and sweep for one kind, over the listings `names` and `items`. */
  function KindPass(names: seq<string>, items: seq<string>, wanted: Store, secondary: Store,
                    answers: nat -> Outcome, sweeping: nat -> Outcome): Sweep {
    var l := SyncLoop(names, wanted, secondary, answers);
    SweepLoop(items, l.synced, l.now, sweeping)
  }

  /** The number of the Get for the i-th listed configuration. */
  function GetOf(names: seq<string>, i: nat, wanted: Store, secondary: Store, answers: nat -> Outcome): nat
    requires i < |names|
  {
    SyncLoop(names[..i], wanted, secondary, answers).calls
  }

  lemma {:induction false} SyncedExact(names: seq<string>, i: nat, wanted: Store, secondary: Store,
                         answers: nat -> Outcome)
    requires Distinct(names) && i < |names| && names[i] in wanted
    ensures names[i] in SyncLoop(names, wanted, secondary, answers).synced
            <==> WentThrough(answers, GetOf(names, i, wanted, secondary, answers))
  {
    hide WentThrough;
    var seen := names[..|names| - 1];
    LoopProgress(seen, wanted, secondary, answers);
    if i < |seen| {
      SyncedExact(seen, i, wanted, secondary, answers);
      assert seen[..i] == names[..i];
    } else {
      assert names[i] !in seen && seen == names[..i];
    }
  }

  /** After a completed sweep a wanted configuration is on the secondary exactly when its own
      Get and write went through in this pass: a copy that was up to date before, but could
      not be read or written again, is removed. */
  lemma FailedIsRemoved(names: seq<string>, items: seq<string>, wanted: Store, secondary: Store,
                        answers: nat -> Outcome, sweeping: nat -> Outcome, i: nat)
    requires Distinct(names) && i < |names| && names[i] in wanted
    requires forall n :: n in items <==> n in SyncLoop(names, wanted, secondary, answers).now
    ensures var end := KindPass(names, items, wanted, secondary, answers, sweeping);
            var get := GetOf(names, i, wanted, secondary, answers);
            end.ok ==> (names[i] in end.now <==> answers(get).Done? && answers(get + 1).Done?)
  {
    hide SyncLoop, SweepLoop, GetOf;
    var l := SyncLoop(names, wanted, secondary, answers);
    LoopProgress(names, wanted, secondary, answers);
    SyncedExact(names, i, wanted, secondary, answers);
    SweepExact(items, l.synced, l.now, sweeping);
  }

  /** The smallest such pass: one configuration, already as wanted, whose Get or Update did
      not go through; the sweep then empties the secondary. */
  lemma UpToDateLost(name: string, image: Content, answers: nat -> Outcome, sweeping: nat -> Outcome)
    requires !WentThrough(answers, 0)
    requires sweeping(0).Done? && sweeping(1).Done?
    ensures var store: Store := map[name := image];
            KindPass([name], [name], store, store, answers, sweeping) == Sweep(map[], true, 2)
  {
    var store: Store := map[name := image];
    var listed := [name];
    assert listed[..0] == [];
    var l := SyncLoop(listed, store, store, answers);
    assert SyncLoop(listed[..0], store, store, answers) == Loop(store, {}, [], 0);
    assert l == SyncStep(Loop(store, {}, [], 0), name, image, answers);
    assert l.now == store && l.synced == {};
    assert SweepLoop(listed[..0], {}, store, sweeping) == Sweep(store, true, 1);
    assert store - {name} == map[];
  }

  // ----- the pass -------------------------------------------------------------------------

  lemma WantedIsPrimary(primary: map<string, Source>, groups: set<string>)
    ensures Wanted(primary, groups).Keys <= primary.Keys
  {
  }

  /** Reconcile, after the object was read. Whenever both sweeps complete, nothing outdated is
      left, the number of recorded errors is the number of missing configurations, and the
      report is Ready exactly when the secondary is the image of the matching primary
      configurations; Ready is never reported otherwise, and carries the sizes of its halves. */
  method Reconcile(clientOk: bool, apiGroups: seq<string>,
                   validating: map<string, Source>, mutating: map<string, Source>,
                   secondaryValidating: Store, secondaryMutating: Store, a: Answers)
    returns (v: Store, m: Store, report: Report, swept: bool, callsV: nat, callsM: nat, okV: bool, okM: bool)
    ensures !clientOk ==> report == SecondaryUnavailable && v == secondaryValidating && m == secondaryMutating
    ensures clientOk && !a.listValidating ==>
              report == Unwritten && v == secondaryValidating && m == secondaryMutating
    ensures clientOk && a.listValidating && !a.listMutating ==> report == Unwritten && m == secondaryMutating
    // every call of a loop that was answered with an error counts once, and so does an unfinished sweep
    ensures clientOk && a.listValidating && a.listMutating ==>
              var errors := Failures(a.validating, 0, callsV) + Failures(a.mutating, 0, callsM)
                            + (if okV then 0 else 1) + (if okM then 0 else 1);
              && swept == (okV && okM)
              && (if errors > 0 then report == SyncErrors(errors) else report.SyncComplete?)
    ensures var wantedV, wantedM := Wanted(validating, ToSet(apiGroups)), Wanted(mutating, ToSet(apiGroups));
            && (report.SyncComplete? ==>
                  swept && report.validating == |wantedV.Keys| && report.mutating == |wantedM.Keys|)
            && (swept ==>
                  && Current(v, wantedV) && Current(m, wantedM)
                  && (v == wantedV && m == wantedM <==> report.SyncComplete?)
                  && (report.SyncComplete? ==>
                        && (forall n :: n in v <==> n in validating && Chosen(validating[n].content, apiGroups))
                        && (forall n :: n in m <==> n in mutating && Chosen(mutating[n].content, apiGroups)))
                  && (!report.SyncComplete? ==>
                        report.SyncErrors? && report.count == |wantedV.Keys - v.Keys| + |wantedM.Keys - m.Keys|))
  {
    hide Wanted, Current, Progress, SyncLoop, SweepLoop, Chosen, Failures;
    WantedChosen(validating, apiGroups);
    WantedChosen(mutating, apiGroups);
    v, m, swept, callsV, callsM, okV, okM := secondaryValidating, secondaryMutating, false, 0, 0, false, false;
    if !clientOk { report := SecondaryUnavailable; return; }
    var groups := ToSet(apiGroups);
    if !a.listValidating { report := Unwritten; return; }
    ghost var namesV, namesM, itemsV, itemsM;
    var loopV, countV;
    loopV, countV, namesV := SyncAll(validating, groups, v, a.validating);
    v := loopV.now;
    if !a.listMutating { report := Unwritten; return; }
    var loopM, countM;
    loopM, countM, namesM := SyncAll(mutating, groups, m, a.mutating);
    callsV, callsM := loopV.calls, loopM.calls;
    LoopFailures(Wanted(validating, groups), secondaryValidating, loopV, namesV, a.validating);
    LoopFailures(Wanted(mutating, groups), secondaryMutating, loopM, namesM, a.mutating);
    var sweptV, sweptM;
    v, okV, sweptV, itemsV := DeleteStale(v, loopV.synced, a.sweepValidating);
    m, okM, sweptM, itemsM := DeleteStale(loopM.now, loopM.synced, a.sweepMutating);
    swept := okV && okM;
    var errors := |loopV.errors| + |loopM.errors| + (if okV then 0 else 1) + (if okM then 0 else 1);
    report := if errors > 0 then SyncErrors(errors) else SyncComplete(countV, countM);
    if swept {
      WantedIsPrimary(validating, groups);
      WantedIsPrimary(mutating, groups);
      KindSwept(Wanted(validating, groups), secondaryValidating, loopV, namesV, a.validating, v);
      KindSwept(Wanted(mutating, groups), secondaryMutating, loopM, namesM, a.mutating, m);
    }
  }
}
