/** Registration of APIServices on the primary: names, the apply-then-sweep pass over
    the status-tracked list, and the availability check. */
module Aggregation {
  import opened Prelude

  datatype APIGroup = APIGroup(group: string, versions: seq<string>)

  datatype ServiceCondition = ServiceCondition(kind: string, status: Truth, message: string)

  datatype APIService = APIService(
    group: string, version: string, backend: string, caBundle: seq<bv8>, insecure: bool,
    owners: seq<string>, conditions: seq<ServiceCondition>)

  // ----- names ---------------------------------------------------------------

  function ServiceName(version: string, group: string): string {
    version + "." + group
  }

  function VersionNames(versions: seq<string>, group: string): seq<string> {
    if versions == [] then [] else [ServiceName(versions[0], group)] + VersionNames(versions[1..], group)
  }

  /** The names a spec asks for, group by group and version by version. */
  function DesiredNames(groups: seq<APIGroup>): seq<string> {
    if groups == [] then [] else VersionNames(groups[0].versions, groups[0].group) + DesiredNames(groups[1..])
  }

  lemma {:induction false} VersionNamesAppend(versions: seq<string>, v: string, group: string)
    ensures VersionNames(versions + [v], group) == VersionNames(versions, group) + [ServiceName(v, group)]
  {
    if versions == [] {
      assert versions + [v] == [v];
    } else {
      assert (versions + [v])[1..] == versions[1..] + [v];
      VersionNamesAppend(versions[1..], v, group);
    }
  }

  lemma {:induction false} DesiredNamesAppend(groups: seq<APIGroup>, g: APIGroup)
    ensures DesiredNames(groups + [g]) == DesiredNames(groups) + VersionNames(g.versions, g.group)
  {
    if groups == [] {
      assert groups + [g] == [g];
    } else {
      assert (groups + [g])[1..] == groups[1..] + [g];
      DesiredNamesAppend(groups[1..], g);
    }
  }

  /** A name is desired exactly when it is `<version>.<group>` for a version of a group. */
  lemma {:induction false} DesiredNamesExact(groups: seq<APIGroup>, name: string)
    ensures name in DesiredNames(groups) <==>
            exists i, j :: 0 <= i < |groups| && 0 <= j < |groups[i].versions|
                           && name == groups[i].versions[j] + "." + groups[i].group
  {
    if groups != [] {
      DesiredNamesExact(groups[1..], name);
      VersionNamesExact(groups[0].versions, groups[0].group, name);
      if name in DesiredNames(groups[1..]) {
        var i, j :| 0 <= i < |groups[1..]| && 0 <= j < |groups[1..][i].versions|
                    && name == groups[1..][i].versions[j] + "." + groups[1..][i].group;
        assert groups[i + 1] == groups[1..][i];
      }
      if i, j :| 0 <= i < |groups| && 0 <= j < |groups[i].versions|
                 && name == groups[i].versions[j] + "." + groups[i].group {
        if i > 0 { assert groups[1..][i - 1] == groups[i]; }
      }
    }
  }

  lemma {:induction false} VersionNamesExact(versions: seq<string>, group: string, name: string)
    ensures name in VersionNames(versions, group) <==>
            exists j :: 0 <= j < |versions| && name == versions[j] + "." + group
  {
    if versions != [] {
      VersionNamesExact(versions[1..], group, name);
      if name in VersionNames(versions[1..], group) {
        var j :| 0 <= j < |versions[1..]| && name == versions[1..][j] + "." + group;
        assert versions[j + 1] == versions[1..][j];
      }
      if j :| 0 <= j < |versions| && name == versions[j] + "." + group {
        if j > 0 { assert versions[1..][j - 1] == versions[j]; }
      }
    }
  }

  /** desiredAPIServiceNames. */
  method DesiredAPIServiceNames(groups: seq<APIGroup>) returns (names: seq<string>)
    ensures names == DesiredNames(groups)
  {
    names := [];
    for i := 0 to |groups|
      invariant names == DesiredNames(groups[..i])
    {
      var g := groups[i];
      var before := names;
      for j := 0 to |g.versions|
        invariant names == before + VersionNames(g.versions[..j], g.group)
      {
        names := names + [ServiceName(g.versions[j], g.group)];
        VersionNamesAppend(g.versions[..j], g.versions[j], g.group);
        assert g.versions[..j] + [g.versions[j]] == g.versions[..j + 1];
      }
      assert g.versions[..|g.versions|] == g.versions;
      DesiredNamesAppend(groups[..i], g);
      assert groups[..i] + [g] == groups[..i + 1];
    }
    assert groups[..|groups|] == groups;
  }

  /** Two pairs with dot-free versions share a name only if they are equal. */
  lemma {:induction false} ServiceNameInjective(v: string, g: string, v': string, g': string)
    requires '.' !in v && '.' !in v'
    requires ServiceName(v, g) == ServiceName(v', g')
    ensures v == v' && g == g'
  {
    var a, b := ServiceName(v, g), ServiceName(v', g');
    assert a[|v|] == '.' && b[|v'|] == '.';
    assert |v| == |v'|;
    assert v == a[..|v|] && v' == b[..|v'|];
    assert g == a[|v| + 1..] && g' == b[|v'| + 1..];
  }

  /** The first dot of a string that has one. */
  lemma {:induction false} SplitAtDot(s: string) returns (k: nat)
    requires '.' in s
    ensures k < |s| && s[k] == '.' && '.' !in s[..k]
  {
    if s[0] == '.' {
      k := 0;
    } else {
      var rest := SplitAtDot(s[1..]);
      k := rest + 1;
      assert s[..k] == [s[0]] + s[1..][..rest];
    }
  }

  /** A pair is determined by its name, among pairs with dot-free versions, exactly
      when its own version has no dot. */
  lemma ServiceNameDetermines(v: string, g: string)
    ensures (forall v', g' :: '.' !in v' && ServiceName(v', g') == ServiceName(v, g) ==> v' == v && g' == g)
            <==> '.' !in v
  {
    if '.' !in v {
      forall v', g' | '.' !in v' && ServiceName(v', g') == ServiceName(v, g)
        ensures v' == v && g' == g
      {
        ServiceNameInjective(v', g', v, g);
      }
    } else {
      var k := SplitAtDot(v);
      var g' := v[k + 1..] + "." + g;
      assert ServiceName(v[..k], g') == ServiceName(v, g);
      assert v[..k] != v;
    }
  }

  // ----- apply, then sweep -------------------------------------------------------

  /** What registration needs to know about the shard. */
  datatype Registrant = Registrant(uid: string, backend: string, caBundle: seq<bv8>)

  /** Server-side apply of one APIService: the applied fields are forced, the owner is
      added, the status is left to the aggregator. */
  function Applied(r: Registrant, group: string, version: string, live: map<string, APIService>): APIService {
    var name := ServiceName(version, group);
    var owners := if name in live then live[name].owners else [];
    APIService(group, version, r.backend, r.caBundle, r.caBundle == [],
               if r.uid in owners then owners else owners + [r.uid],
               if name in live then live[name].conditions else [])
  }

  /** The service under `name` is the one the shard wants there. */
  predicate Registered(r: Registrant, name: string, live: map<string, APIService>) {
    && name in live
    && ServiceName(live[name].version, live[name].group) == name
    && live[name].backend == r.backend
    && live[name].caBundle == r.caBundle
    && live[name].insecure == (r.caBundle == [])
    && r.uid in live[name].owners
  }

  lemma {:induction false} VersionNamesHas(versions: seq<string>, group: string, j: nat)
    requires j < |versions|
    ensures ServiceName(versions[j], group) in VersionNames(versions, group)
  {
    if j > 0 { VersionNamesHas(versions[1..], group, j - 1); }
  }

  lemma {:induction false} DesiredNamesHas(groups: seq<APIGroup>, i: nat, j: nat)
    requires i < |groups| && j < |groups[i].versions|
    ensures ServiceName(groups[i].versions[j], groups[i].group) in DesiredNames(groups)
  {
    if i == 0 { VersionNamesHas(groups[0].versions, groups[0].group, j); }
    else { DesiredNamesHas(groups[1..], i - 1, j); }
  }

  /** `now` is `live` after some desired services were applied. */
  ghost predicate Grown(desired: seq<string>, live: map<string, APIService>, now: map<string, APIService>) {
    && live.Keys <= now.Keys <= live.Keys + ToSet(desired)
    && (forall n :: n in live && n !in desired ==> now[n] == live[n])
    && (forall n :: n in live ==> now[n].conditions == live[n].conditions)
    && (forall n, uid :: n in live && uid in live[n].owners ==> uid in now[n].owners)
  }

  ghost predicate AllRegistered(r: Registrant, names: seq<string>, live: map<string, APIService>) {
    forall n :: n in names ==> Registered(r, n, live)
  }

  lemma ApplyOne(r: Registrant, group: string, version: string, desired: seq<string>, names: seq<string>,
                 live: map<string, APIService>, now: map<string, APIService>)
    requires Grown(desired, live, now) && ServiceName(version, group) in desired && AllRegistered(r, names, now)
    ensures var next := now[ServiceName(version, group) := Applied(r, group, version, now)];
            Grown(desired, live, next) && AllRegistered(r, names + [ServiceName(version, group)], next)
  {
    var name := ServiceName(version, group);
    var next := now[name := Applied(r, group, version, now)];
    forall n | n in names + [name] ensures Registered(r, n, next) {
      if n != name { assert n in names; }
    }
  }

  // ----- the calls of a registration, by name ------------------------------------------

  /** Which names are live after some calls, how many calls were made, and whether the last
      one went through. */
  datatype Progress = Progress(live: set<string>, calls: nat, ok: bool)

  /** One apply per desired name, up to the first that does not go through. */
  function ApplyNames(desired: seq<string>, live: set<string>, answers: nat -> Outcome, k: nat): Progress {
    if desired == [] then Progress(live, k, true)
    else
      var now := if answers(k).Effective() then live + {desired[0]} else live;
      if answers(k).Done? then ApplyNames(desired[1..], now, answers, k + 1) else Progress(now, k + 1, false)
  }

  /** A Get for every name that is no longer desired, and a Delete when it found something. */
  function SweepNames(previous: seq<string>, desired: set<string>, live: set<string>,
                      answers: nat -> Outcome, k: nat): Progress
  {
    if previous == [] then Progress(live, k, true)
    else if previous[0] in desired then SweepNames(previous[1..], desired, live, answers, k)
    else if !answers(k).Done? then Progress(live, k + 1, false)
    else if previous[0] !in live then SweepNames(previous[1..], desired, live, answers, k + 1)
    else
      var now := if answers(k + 1).Effective() then live - {previous[0]} else live;
      if answers(k + 1).Done? then SweepNames(previous[1..], desired, now, answers, k + 2)
      else Progress(now, k + 2, false)
  }

  /** aggregation.Reconcile, by name. */
  function ReconcileNames(desired: seq<string>, previous: seq<string>, live: set<string>,
                          answers: nat -> Outcome): Progress
  {
    var applied := ApplyNames(desired, live, answers, 0);
    if !applied.ok then applied
    else SweepNames(previous, ToSet(desired), applied.live, answers, applied.calls)
  }

  // ----- the loops -----------------------------------------------------------------------

  /** The names still to be applied when the loops stand at group `i` and version `j`. */
  function Remaining(groups: seq<APIGroup>, i: nat, j: nat): seq<string>
    requires i < |groups| && j <= |groups[i].versions|
  {
    VersionNames(groups[i].versions[j..], groups[i].group) + DesiredNames(groups[i + 1..])
  }

  lemma RemainingSteps(groups: seq<APIGroup>, i: nat, j: nat)
    requires i < |groups| && j <= |groups[i].versions|
    ensures DesiredNames(groups[i..]) == Remaining(groups, i, 0)
    ensures j < |groups[i].versions| ==>
              Remaining(groups, i, j)
              == [ServiceName(groups[i].versions[j], groups[i].group)] + Remaining(groups, i, j + 1)
    ensures j == |groups[i].versions| ==> Remaining(groups, i, j) == DesiredNames(groups[i + 1..])
  {
    hide ServiceName;
    var versions := groups[i].versions;
    assert groups[i..][0] == groups[i] && groups[i..][1..] == groups[i + 1..] && versions[0..] == versions;
    if j < |versions| { assert versions[j..][0] == versions[j] && versions[j..][1..] == versions[j + 1..]; }
  }

  lemma ApplyNamesStep(name: string, rest: seq<string>, live: set<string>, answers: nat -> Outcome, k: nat)
    ensures var now := if answers(k).Effective() then live + {name} else live;
            ApplyNames([name] + rest, live, answers, k) ==
            if answers(k).Done? then ApplyNames(rest, now, answers, k + 1) else Progress(now, k + 1, false)
  {
    assert ([name] + rest)[1..] == rest;
  }

  /** The apply loop. `answers(k)` is how the k-th API call of the pass went. */
  method ApplyDesired(r: Registrant, groups: seq<APIGroup>, live: map<string, APIService>, answers: nat -> Outcome)
    returns (now: map<string, APIService>, calls: nat, ok: bool)
    ensures Progress(now.Keys, calls, ok) == ApplyNames(DesiredNames(groups), live.Keys, answers, 0)
    ensures ok <==> forall k: nat :: k < calls ==> answers(k).Done?
    ensures Grown(DesiredNames(groups), live, now)
    ensures ok ==> AllRegistered(r, DesiredNames(groups), now)
  {
    hide Registered, Applied, ServiceName, Grown, AllRegistered, ApplyNames, Remaining, DesiredNames, VersionNames;
    ghost var desired := DesiredNames(groups);
    ghost var end := ApplyNames(desired, live.Keys, answers, 0);
    now, calls, ok := live, 0, true;
    GrownStart(r, groups, live);
    assert groups[0..] == groups;
    for i := 0 to |groups|
      invariant ok && forall k: nat :: k < calls ==> answers(k).Done?
      invariant end == ApplyNames(DesiredNames(groups[i..]), now.Keys, answers, calls)
      invariant Grown(desired, live, now)
      invariant AllRegistered(r, DesiredNames(groups[..i]), now)
    {
      var g := groups[i];
      ghost var before := DesiredNames(groups[..i]);
      RemainingSteps(groups, i, 0);
      NamesSoFar(groups, i, 0);
      for j := 0 to |g.versions|
        invariant ok && forall k: nat :: k < calls ==> answers(k).Done?
        invariant end == ApplyNames(Remaining(groups, i, j), now.Keys, answers, calls)
        invariant Grown(desired, live, now)
        invariant AllRegistered(r, before + VersionNames(g.versions[..j], g.group), now)
      {
        ghost var names := before + VersionNames(g.versions[..j], g.group);
        var name := ServiceName(g.versions[j], g.group);
        RemainingSteps(groups, i, j);
        ApplyNamesStep(name, Remaining(groups, i, j + 1), now.Keys, answers, calls);
        DesiredNamesHas(groups, i, j);
        ApplyOne(r, g.group, g.versions[j], desired, names, live, now);
        NamesSoFar(groups, i, j);
        ghost var keys := now.Keys;
        if answers(calls).Effective() {
          now := now[name := Applied(r, g.group, g.versions[j], now)];
          assert now.Keys == keys + {name};
        }
        calls := calls + 1;
        if !answers(calls - 1).Done? {
          ok := false;
          return;
        }
      }
      RemainingSteps(groups, i, |g.versions|);
      NamesSoFar(groups, i, |g.versions|);
    }
    assert groups[..|groups|] == groups && groups[|groups|..] == [];
    NothingLeft(now.Keys, answers, calls);
  }

  lemma GrownStart(r: Registrant, groups: seq<APIGroup>, live: map<string, APIService>)
    ensures Grown(DesiredNames(groups), live, live) && AllRegistered(r, DesiredNames(groups[..0]), live)
  {
  }

  lemma NothingLeft(live: set<string>, answers: nat -> Outcome, k: nat)
    ensures ApplyNames(DesiredNames([]), live, answers, k) == Progress(live, k, true)
  {
  }

  /** The names applied so far grow by one per version. */
  lemma NamesSoFar(groups: seq<APIGroup>, i: nat, j: nat)
    requires i < |groups| && j <= |groups[i].versions|
    ensures var g, before := groups[i], DesiredNames(groups[..i]);
            && before + VersionNames(g.versions[..0], g.group) == before
            && (j < |g.versions| ==>
                  before + VersionNames(g.versions[..j], g.group) + [ServiceName(g.versions[j], g.group)]
                  == before + VersionNames(g.versions[..j + 1], g.group))
            && (j == |g.versions| ==> before + VersionNames(g.versions[..j], g.group) == DesiredNames(groups[..i + 1]))
  {
    hide ServiceName;
    var g := groups[i];
    assert g.versions[..0] == [];
    if j < |g.versions| {
      VersionNamesAppend(g.versions[..j], g.versions[j], g.group);
      assert g.versions[..j] + [g.versions[j]] == g.versions[..j + 1];
    } else {
      assert g.versions[..j] == g.versions;
      DesiredNamesAppend(groups[..i], g);
      assert groups[..i] + [g] == groups[..i + 1];
    }
  }

  /** The orphan sweep: one Get, and one Delete when it found something, for every name
      that was registered and is no longer desired. */
  method DeleteOrphans(previous: seq<string>, desired: set<string>, live: map<string, APIService>,
                       answers: nat -> Outcome, start: nat)
    returns (now: map<string, APIService>, calls: nat, ok: bool)
    ensures Progress(now.Keys, calls, ok) == SweepNames(previous, desired, live.Keys, answers, start)
    ensures start <= calls
    ensures ok <==> forall k: nat :: start <= k < calls ==> answers(k).Done?
    ensures forall n :: n in now ==> n in live && now[n] == live[n]
    ensures forall n :: n in live && n !in now ==> n in previous && n !in desired
    ensures ok ==> forall n :: n in previous && n !in desired ==> n !in now
  {
    now, calls, ok := live, start, true;
    ghost var end := SweepNames(previous, desired, live.Keys, answers, start);
    assert previous[0..] == previous;
    for i := 0 to |previous|
      invariant start <= calls && ok
      invariant end == SweepNames(previous[i..], desired, now.Keys, answers, calls)
      invariant forall k: nat :: start <= k < calls ==> answers(k).Done?
      invariant forall n :: n in now ==> n in live && now[n] == live[n]
      invariant forall n :: n in live && n !in now ==> n in previous && n !in desired
      invariant forall n :: n in previous[..i] && n !in desired ==> n !in now
    {
      var name := previous[i];
      assert previous[i..][0] == name && previous[i..][1..] == previous[i + 1..];
      if name in desired { continue; }
      calls := calls + 1;
      if !answers(calls - 1).Done? {
        ok := false;
        return;
      }
      if name !in now { continue; }
      if answers(calls).Effective() {
        now := now - {name};
      }
      calls := calls + 1;
      if !answers(calls - 1).Done? {
        ok := false;
        return;
      }
    }
    assert previous[|previous|..] == [];
  }

  /** aggregation.Reconcile. It succeeds exactly when every call it made went through,
      and then the names it knows of are live exactly when desired; on any path it
      deletes nothing but previously registered names and creates nothing but desired ones. */
  method Reconcile(r: Registrant, groups: seq<APIGroup>, previous: seq<string>,
                   live: map<string, APIService>, answers: nat -> Outcome)
    returns (now: map<string, APIService>, calls: nat, registered: Option<seq<string>>)
    ensures Progress(now.Keys, calls, registered.Some?)
            == ReconcileNames(DesiredNames(groups), previous, live.Keys, answers)
    ensures registered.Some? <==> forall k: nat :: k < calls ==> answers(k).Done?
    ensures registered.Some? ==>
              && registered.value == DesiredNames(groups)
              && now.Keys == (live.Keys - ToSet(previous)) + ToSet(DesiredNames(groups))
              && forall n :: n in DesiredNames(groups) ==> Registered(r, n, now)
    // a registered service is addressed at the shard's backend, trusts its CA, and is owned by it
    ensures registered.Some? ==>
              forall n :: n in DesiredNames(groups) ==>
                && n in now && n == now[n].version + "." + now[n].group
                && now[n].backend == r.backend && now[n].caBundle == r.caBundle
                && (now[n].insecure <==> r.caBundle == []) && r.uid in now[n].owners
    // nobody loses ownership
    ensures forall n, uid :: n in live && n in now && uid in live[n].owners ==> uid in now[n].owners
    ensures live.Keys - (ToSet(previous) - ToSet(DesiredNames(groups))) <= now.Keys
    ensures now.Keys <= live.Keys + ToSet(DesiredNames(groups))
    ensures forall n :: n in live && n in now && n !in DesiredNames(groups) ==> now[n] == live[n]
    ensures forall n :: n in live && n in now ==> now[n].conditions == live[n].conditions
  {
    hide DesiredNames, ApplyNames, SweepNames;
    var desired := DesiredAPIServiceNames(groups);
    var applied, ok;
    applied, calls, ok := ApplyDesired(r, groups, live, answers);
    if !ok { return applied, calls, None; }
    var used := calls;
    now, calls, ok := DeleteOrphans(previous, ToSet(desired), applied, answers, used);
    registered := if ok then Some(desired) else None;
  }

  // ----- availability ----------------------------------------------------------------

  const AVAILABLE := "Available"

  /** The first Available condition, the one both the check and the watch predicate read. */
  function AvailableCondition(cs: seq<ServiceCondition>): Option<ServiceCondition> {
    if cs == [] then None
    else if cs[0].kind == AVAILABLE then Some(cs[0])
    else AvailableCondition(cs[1..])
  }

  predicate IsAvailable(s: APIService) {
    var c := AvailableCondition(s.conditions);
    c.Some? && c.value.status.IsTrue?
  }

  lemma {:induction false} AvailableSkips(cs: seq<ServiceCondition>, j: nat)
    requires j <= |cs| && forall i :: 0 <= i < j ==> cs[i].kind != AVAILABLE
    ensures AvailableCondition(cs) == AvailableCondition(cs[j..])
  {
    if j > 0 {
      AvailableSkips(cs[1..], j - 1);
      assert cs[1..][j - 1..] == cs[j..];
    }
  }

  /** The first condition of type Available has status True. */
  predicate SaysAvailable(cs: seq<ServiceCondition>) {
    exists j :: 0 <= j < |cs| && cs[j].kind == "Available" && cs[j].status == IsTrue
                && forall k :: 0 <= k < j ==> cs[k].kind != "Available"
  }

  lemma AvailableExact(cs: seq<ServiceCondition>)
    ensures (AvailableCondition(cs).Some? && AvailableCondition(cs).value.status.IsTrue?) <==> SaysAvailable(cs)
    ensures AvailableCondition(cs).None? <==> forall k :: 0 <= k < |cs| ==> cs[k].kind != "Available"
  {
    if j :| 0 <= j < |cs| && cs[j].kind == "Available" && forall k :: 0 <= k < j ==> cs[k].kind != "Available" {
      AvailableSkips(cs, j);
      if i :| 0 <= i < |cs| && cs[i].kind == "Available" && cs[i].status == IsTrue
              && forall k :: 0 <= k < i ==> cs[k].kind != "Available" {
        assert i == j;
      }
    } else {
      FirstAvailable(cs);
      AvailableSkips(cs, |cs|);
    }
  }

  lemma {:induction false} FirstAvailable(cs: seq<ServiceCondition>)
    ensures (exists k :: 0 <= k < |cs| && cs[k].kind == "Available") ==>
              exists j :: 0 <= j < |cs| && cs[j].kind == "Available"
                          && forall k :: 0 <= k < j ==> cs[k].kind != "Available"
  {
    if cs != [] && cs[0].kind != "Available" {
      FirstAvailable(cs[1..]);
      if k :| 0 <= k < |cs| && cs[k].kind == "Available" {
        assert cs[1..][k - 1].kind == "Available";
        var j :| 0 <= j < |cs[1..]| && cs[1..][j].kind == "Available"
                 && forall k :: 0 <= k < j ==> cs[1..][k].kind != "Available";
        assert cs[j + 1].kind == "Available";
        assert forall k :: 0 <= k < j + 1 ==> k == 0 || cs[k] == cs[1..][k - 1];
      }
    }
  }

  /** The listed services of the shard, in their order. */
  function OwnedBy(services: seq<(string, APIService)>, uid: string): seq<(string, APIService)> {
    if services == [] then []
    else (if uid in services[0].1.owners then [services[0]] else []) + OwnedBy(services[1..], uid)
  }

  lemma {:induction false} OwnedAppend(services: seq<(string, APIService)>, s: (string, APIService), uid: string)
    ensures OwnedBy(services + [s], uid) == OwnedBy(services, uid) + (if uid in s.1.owners then [s] else [])
  {
    if services == [] {
      assert services + [s] == [s];
    } else {
      OwnedAppend(services[1..], s, uid);
      assert (services + [s])[0] == services[0] && (services + [s])[1..] == services[1..] + [s];
    }
  }

  lemma {:induction false} OwnedExact(services: seq<(string, APIService)>, uid: string)
    ensures forall s :: s in OwnedBy(services, uid) <==> s in services && uid in s.1.owners
  {
    if services != [] {
      OwnedExact(services[1..], uid);
      assert services == [services[0]] + services[1..];
    }
  }

  /** The first service that is not available. */
  function FirstBlocking(owned: seq<(string, APIService)>): Option<(string, APIService)> {
    if owned == [] then None
    else if !IsAvailable(owned[0].1) then Some(owned[0])
    else FirstBlocking(owned[1..])
  }

  lemma {:induction false} FirstBlockingExact(owned: seq<(string, APIService)>)
    ensures FirstBlocking(owned).None? <==> forall s :: s in owned ==> IsAvailable(s.1)
    ensures FirstBlocking(owned).Some? ==>
              FirstBlocking(owned).value in owned && !IsAvailable(FirstBlocking(owned).value.1)
  {
    if owned != [] {
      FirstBlockingExact(owned[1..]);
      assert owned == [owned[0]] + owned[1..];
    }
  }

  /** What the check says of a service that is not available. */
  function Complaint(name: string, s: APIService): string {
    match AvailableCondition(s.conditions)
    case None => "APIService " + name + " has no Available condition yet"
    case Some(c) => "APIService " + name + " not yet available: " + c.message
  }

  function Detail(owned: seq<(string, APIService)>): string {
    if owned == [] then "no APIServices owned by shard"
    else match FirstBlocking(owned)
      case None => ""
      case Some(s) => Complaint(s.0, s.1)
  }

  method Select(services: seq<(string, APIService)>, uid: string) returns (owned: seq<(string, APIService)>)
    ensures owned == OwnedBy(services, uid)
  {
    owned := [];
    for i := 0 to |services|
      invariant owned == OwnedBy(services[..i], uid)
    {
      OwnedAppend(services[..i], services[i], uid);
      assert services[..i + 1] == services[..i] + [services[i]];
      if uid in services[i].1.owners {
        owned := owned + [services[i]];
      }
    }
    assert services[..|services|] == services;
  }

  /** CheckAvailability: true exactly when the shard owns a service and the aggregator
      reports every owned one available; the text names the first one that is not. */
  method CheckAvailability(services: seq<(string, APIService)>, uid: string) returns (available: bool, detail: string)
    ensures available <==>
              && (exists i :: 0 <= i < |services| && uid in services[i].1.owners)
              && (forall i :: 0 <= i < |services| && uid in services[i].1.owners ==> IsAvailable(services[i].1))
    ensures detail == Detail(OwnedBy(services, uid))
    // available means that the first Available condition says True, and nothing less
    ensures available <==>
              && (exists i :: 0 <= i < |services| && uid in services[i].1.owners)
              && (forall i :: 0 <= i < |services| && uid in services[i].1.owners ==>
                    SaysAvailable(services[i].1.conditions))
  {
    forall i | 0 <= i < |services| ensures IsAvailable(services[i].1) <==> SaysAvailable(services[i].1.conditions) {
      AvailableExact(services[i].1.conditions);
    }
    hide IsAvailable, AvailableCondition, OwnedBy;
    var owned := Select(services, uid);
    OwnedExact(services, uid);
    if |owned| == 0 { return false, "no APIServices owned by shard"; }
    assert owned[0] in owned;
    FirstBlockingExact(owned);
    for i := 0 to |owned|
      invariant forall k :: 0 <= k < i ==> IsAvailable(owned[k].1)
    {
      var (name, svc) := owned[i];
      var verdict := Examine(svc);
      if verdict != Some(true) {
        BlockingSkips(owned, i);
        assert owned[i] in owned && FirstBlocking(owned) == Some((name, svc));
        if verdict.None? { return false, "APIService " + name + " has no Available condition yet"; }
        return false, "APIService " + name + " not yet available: " + AvailableCondition(svc.conditions).value.message;
      }
    }
    return true, "";
  }

  lemma {:induction false} BlockingSkips(owned: seq<(string, APIService)>, i: nat)
    requires i < |owned| && !IsAvailable(owned[i].1) && forall k :: 0 <= k < i ==> IsAvailable(owned[k].1)
    ensures FirstBlocking(owned) == Some(owned[i])
  {
    hide IsAvailable;
    if i > 0 { BlockingSkips(owned[1..], i - 1); }
  }

  /** The inner loop: the truth of the first Available condition, if there is one. */
  method Examine(svc: APIService) returns (available: Option<bool>)
    ensures available.None? <==> AvailableCondition(svc.conditions).None?
    ensures available == Some(true) <==> IsAvailable(svc)
  {
    for j := 0 to |svc.conditions|
      invariant forall k :: 0 <= k < j ==> svc.conditions[k].kind != AVAILABLE
    {
      var c := svc.conditions[j];
      if c.kind == AVAILABLE {
        AvailableSkips(svc.conditions, j);
        return Some(c.status.IsTrue?);
      }
    }
    AvailableSkips(svc.conditions, |svc.conditions|);
    return None;
  }
}
