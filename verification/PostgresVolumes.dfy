/** The volumes of the in-cluster PostgreSQL StatefulSet: how they are built, how a live
    StatefulSet's immutable claim templates are preserved, and what that keeps over any
    history of spec edits. */
module PostgresVolumes {
  import opened Prelude

  datatype Claim = Claim(name: string, size: int, storageClass: Option<string>)
  datatype VolumeSource = EmptyDir | FromSecret(name: string) | FromConfigMap(name: string)
  datatype Volume = Volume(name: string, source: VolumeSource)

  /** spec.storage.inCluster.persistence. */
  datatype Persistence = Persistence(size: int, storageClass: Option<string>)

  /** The volume part of a StatefulSet. */
  datatype Template = Template(claims: seq<Claim>, volumes: seq<Volume>)

  const DATA := "data"
  const TMP := "tmp"
  const TLS := "postgresql-tls"
  const INIT := "init-scripts"

  /** The volumes the container mounts. */
  const MOUNTS: seq<string> := [DATA, TMP, TLS, INIT]

  // ----- matching ---------------------------------------------------------------

  /** storageClassNamesMatch. */
  predicate ClassMatches(requested: Option<string>, live: Option<string>) {
    if requested.None? then live.None? || live.value != "" else live == requested
  }

  predicate ClaimMatches(requested: Claim, live: Claim) {
    && requested.name == live.name && requested.size == live.size
    && ClassMatches(requested.storageClass, live.storageClass)
  }

  predicate Matches(requested: seq<Claim>, live: seq<Claim>) {
    |requested| == |live| && forall i :: 0 <= i < |live| ==> ClaimMatches(requested[i], live[i])
  }

  /** VolumeClaimTemplatesMatch. */
  method VolumeClaimTemplatesMatch(requested: seq<Claim>, live: seq<Claim>) returns (yes: bool)
    ensures yes <==> Matches(requested, live)
  {
    if |requested| != |live| { return false; }
    for i := 0 to |requested|
      invariant forall j :: 0 <= j < i ==> ClaimMatches(requested[j], live[j])
    {
      if requested[i].name != live[i].name { return false; }
      if requested[i].size != live[i].size { return false; }
      if !ClassMatches(requested[i].storageClass, live[i].storageClass) { return false; }
    }
    return true;
  }

  /** What the API server may fill in when it creates a claim template. */
  function Defaulted(c: Claim, clusterDefault: string): Claim {
    if c.storageClass.None? && clusterDefault != "" then c.(storageClass := Some(clusterDefault)) else c
  }

  function AllDefaulted(cs: seq<Claim>, clusterDefault: string): seq<Claim> {
    seq(|cs|, i requires 0 <= i < |cs| => Defaulted(cs[i], clusterDefault))
  }

  /** Matching is a preorder, and defaulting stays within it. */
  lemma MatchesPreorder(a: seq<Claim>, b: seq<Claim>, c: seq<Claim>, clusterDefault: string)
    ensures Matches(a, a)
    ensures Matches(a, b) && Matches(b, c) ==> Matches(a, c)
    ensures Matches(a, AllDefaulted(a, clusterDefault))
  {
    if Matches(a, b) && Matches(b, c) {
      forall i | 0 <= i < |a| ensures ClaimMatches(a[i], c[i]) {
        assert ClaimMatches(a[i], b[i]) && ClaimMatches(b[i], c[i]);
      }
    }
  }

  // ----- building and aligning ------------------------------------------------------

  function Requested(p: Option<Persistence>): seq<Claim> {
    if p.None? then [] else [Claim(DATA, p.value.size, p.value.storageClass)]
  }

  function FixedVolumes(shard: string): seq<Volume> {
    [Volume(TMP, EmptyDir), Volume(TLS, FromSecret(shard + "-postgresql-serving-cert")),
     Volume(INIT, FromConfigMap(shard + "-postgresql-init"))]
  }

  function Built(shard: string, p: Option<Persistence>): Template {
    Template(Requested(p), (if p.None? then [Volume(DATA, EmptyDir)] else []) + FixedVolumes(shard))
  }

  predicate Names(vs: seq<Volume>, name: string) {
    exists v :: v in vs && v.name == name
  }

  predicate Claims(cs: seq<Claim>, name: string) {
    exists c :: c in cs && c.name == name
  }

  function Without(vs: seq<Volume>, cs: seq<Claim>): seq<Volume> {
    if vs == [] then [] else (if Claims(cs, vs[0].name) then [] else [vs[0]]) + Without(vs[1..], cs)
  }

  /** The emptyDir volumes whose name `taken` does not have. */
  function Missing(vs: seq<Volume>, taken: seq<Volume>): seq<Volume> {
    if vs == [] then []
    else (if vs[0].source.EmptyDir? && !Names(taken, vs[0].name) then [vs[0]] else []) + Missing(vs[1..], taken)
  }

  function Aligned(desired: Template, existing: Template): Template {
    Template(existing.claims,
             if existing.claims != [] then Without(desired.volumes, existing.claims)
             else desired.volumes + Missing(existing.volumes, desired.volumes))
  }

  lemma {:induction false} WithoutAppend(vs: seq<Volume>, v: Volume, cs: seq<Claim>)
    ensures Without(vs + [v], cs) == Without(vs, cs) + (if Claims(cs, v.name) then [] else [v])
  {
    hide Claims;
    if vs == [] {
      assert vs + [v] == [v];
    } else {
      var first: seq<Volume> := if Claims(cs, vs[0].name) then [] else [vs[0]];
      var last: seq<Volume> := if Claims(cs, v.name) then [] else [v];
      WithoutAppend(vs[1..], v, cs);
      assert (vs + [v])[0] == vs[0] && (vs + [v])[1..] == vs[1..] + [v];
      assert first + (Without(vs[1..], cs) + last) == first + Without(vs[1..], cs) + last;
    }
  }

  lemma {:induction false} MissingAppend(vs: seq<Volume>, v: Volume, taken: seq<Volume>)
    ensures Missing(vs + [v], taken)
            == Missing(vs, taken) + (if v.source.EmptyDir? && !Names(taken, v.name) then [v] else [])
  {
    hide Names;
    if vs == [] {
      assert vs + [v] == [v];
    } else {
      var first: seq<Volume> := if vs[0].source.EmptyDir? && !Names(taken, vs[0].name) then [vs[0]] else [];
      var last: seq<Volume> := if v.source.EmptyDir? && !Names(taken, v.name) then [v] else [];
      MissingAppend(vs[1..], v, taken);
      assert (vs + [v])[0] == vs[0] && (vs + [v])[1..] == vs[1..] + [v];
      assert first + (Missing(vs[1..], taken) + last) == first + Missing(vs[1..], taken) + last;
    }
  }

  /** volumeClaimTemplateNames. */
  method ClaimNames(cs: seq<Claim>) returns (names: set<string>)
    ensures forall n :: n in names <==> Claims(cs, n)
  {
    names := {};
    for i := 0 to |cs|
      invariant forall n :: n in names <==> Claims(cs[..i], n)
    {
      assert cs[..i + 1] == cs[..i] + [cs[i]];
      assert cs[i] in cs[..i + 1];
      forall n | Claims(cs[..i], n) ensures Claims(cs[..i + 1], n) {
        var c :| c in cs[..i] && c.name == n;
        assert c in cs[..i + 1];
      }
      names := names + {cs[i].name};
    }
    assert cs[..|cs|] == cs;
  }

  /** volumeNames. */
  method VolumeNames(vs: seq<Volume>) returns (names: set<string>)
    ensures forall n :: n in names <==> Names(vs, n)
  {
    names := {};
    for i := 0 to |vs|
      invariant forall n :: n in names <==> Names(vs[..i], n)
    {
      assert vs[..i + 1] == vs[..i] + [vs[i]];
      assert vs[i] in vs[..i + 1];
      forall n | Names(vs[..i], n) ensures Names(vs[..i + 1], n) {
        var v :| v in vs[..i] && v.name == n;
        assert v in vs[..i + 1];
      }
      names := names + {vs[i].name};
    }
    assert vs[..|vs|] == vs;
  }

  /** slices.DeleteFunc over the volumes. */
  method DeleteNamed(vs: seq<Volume>, cs: seq<Claim>, names: set<string>) returns (kept: seq<Volume>)
    requires forall n :: n in names <==> Claims(cs, n)
    ensures kept == Without(vs, cs)
  {
    kept := [];
    for i := 0 to |vs|
      invariant kept == Without(vs[..i], cs)
    {
      WithoutAppend(vs[..i], vs[i], cs);
      assert vs[..i + 1] == vs[..i] + [vs[i]];
      if vs[i].name !in names { kept := kept + [vs[i]]; }
    }
    assert vs[..|vs|] == vs;
  }

  /** The loop that restores emptyDir volumes of the live StatefulSet. */
  method AppendMissing(desired: seq<Volume>, live: seq<Volume>) returns (volumes: seq<Volume>)
    ensures volumes == desired + Missing(live, desired)
  {
    volumes := desired;
    var names := VolumeNames(desired);
    for i := 0 to |live|
      invariant volumes == desired + Missing(live[..i], desired)
    {
      var v := live[i];
      MissingAppend(live[..i], v, desired);
      assert live[..i + 1] == live[..i] + [v];
      if !v.source.EmptyDir? || v.name in names { continue; }
      volumes := volumes + [v];
    }
    assert live[..|live|] == live;
  }

  class StatefulSet {
    var claims: seq<Claim>
    var volumes: seq<Volume>

    function Value(): Template
      reads this
    {
      Template(claims, volumes)
    }

    /** The volume part of BuildPostgreSQLStatefulSet. */
    constructor (shard: string, p: Option<Persistence>)
      ensures Value() == Built(shard, p)
    {
      var vs: seq<Volume> := [];
      var cs: seq<Claim> := [];
      if p.Some? {
        cs := [Claim(DATA, p.value.size, p.value.storageClass)];
      } else {
        vs := [Volume(DATA, EmptyDir)];
      }
      vs := vs + [Volume(TMP, EmptyDir)];
      vs := vs + [Volume(TLS, FromSecret(shard + "-postgresql-serving-cert"))];
      vs := vs + [Volume(INIT, FromConfigMap(shard + "-postgresql-init"))];
      claims, volumes := cs, vs;
    }

    /** AlignPostgreSQLVolumeClaims, on `this` as the desired StatefulSet. */
    method Align(existing: StatefulSet)
      modifies this
      ensures Value() == Aligned(old(Value()), old(existing.Value()))
    {
      var live := existing.Value();
      claims := live.claims;
      var names := ClaimNames(live.claims);
      if |live.claims| > 0 {
        volumes := DeleteNamed(volumes, live.claims, names);
        return;
      }
      volumes := AppendMissing(volumes, live.volumes);
    }
  }

  /** preservePostgreSQLVolumeClaimTemplates, once the read of the live StatefulSet (null
      if there is none) went through; `ready` is the StorageReady verdict. */
  method PreserveVolumeClaimTemplates(desired: StatefulSet, existing: StatefulSet?) returns (ready: bool)
    modifies desired
    ensures existing == null ==> ready && desired.Value() == old(desired.Value())
    ensures existing != null ==>
              && desired.Value() == Aligned(old(desired.Value()), old(existing.Value()))
              && (ready <==> Matches(old(desired.claims), old(existing.claims)))
  {
    if existing == null { return true; }
    var requested, live := desired.claims, existing.claims;
    desired.Align(existing);
    ready := VolumeClaimTemplatesMatch(requested, live);
  }

  /** What is built from a request: a claim of the asked size and class, or an emptyDir, for the
      data; and the fixed volumes with the names of the shard. */
  lemma BuiltExact(shard: string, p: Option<Persistence>)
    ensures var t := Built(shard, p);
            var fixed := [Volume("tmp", EmptyDir),
                          Volume("postgresql-tls", FromSecret(shard + "-postgresql-serving-cert")),
                          Volume("init-scripts", FromConfigMap(shard + "-postgresql-init"))];
            && (p.Some? ==>
                  t.claims == [Claim("data", p.value.size, p.value.storageClass)] && t.volumes == fixed)
            && (p.None? ==> t.claims == [] && t.volumes == [Volume("data", EmptyDir)] + fixed)
  {
  }

  /** What an aligned StatefulSet holds: the live templates; with templates the desired volumes
      that none of them replaces, without any the desired volumes and the live emptyDir volumes
      whose name is not taken. */
  lemma AlignedMembers(desired: Template, existing: Template, v: Volume)
    ensures var t := Aligned(desired, existing);
            && t.claims == existing.claims
            && (existing.claims != [] ==>
                  (v in t.volumes <==>
                   && v in desired.volumes
                   && forall i :: 0 <= i < |existing.claims| ==> existing.claims[i].name != v.name))
            && (existing.claims == [] ==>
                  (v in t.volumes <==>
                   || v in desired.volumes
                   || (v in existing.volumes && v.source.EmptyDir?
                       && forall i :: 0 <= i < |desired.volumes| ==> desired.volumes[i].name != v.name)))
  {
    hide Without, Missing;
    WithoutMembers(desired.volumes, existing.claims, v);
    MissingMembers(existing.volumes, desired.volumes, v);
  }

  lemma {:induction false} WithoutMembers(vs: seq<Volume>, cs: seq<Claim>, v: Volume)
    ensures v in Without(vs, cs) <==> v in vs && forall i :: 0 <= i < |cs| ==> cs[i].name != v.name
  {
    if vs != [] {
      WithoutMembers(vs[1..], cs, v);
      assert vs == [vs[0]] + vs[1..];
    }
  }

  lemma {:induction false} MissingMembers(vs: seq<Volume>, taken: seq<Volume>, v: Volume)
    ensures v in Missing(vs, taken) <==>
            v in vs && v.source.EmptyDir? && forall i :: 0 <= i < |taken| ==> taken[i].name != v.name
  {
    if vs != [] {
      MissingMembers(vs[1..], taken, v);
      assert vs == [vs[0]] + vs[1..];
    }
  }

  // ----- aligning twice --------------------------------------------------------------

  lemma {:induction false} WithoutStable(vs: seq<Volume>, cs: seq<Claim>)
    ensures Without(Without(vs, cs), cs) == Without(vs, cs)
  {
    if vs != [] {
      WithoutStable(vs[1..], cs);
      if Claims(cs, vs[0].name) {
        assert Without(vs, cs) == Without(vs[1..], cs);
      } else {
        assert ([vs[0]] + Without(vs[1..], cs))[1..] == Without(vs[1..], cs);
      }
    }
  }

  lemma {:induction false} NothingMissing(vs: seq<Volume>, taken: seq<Volume>)
    requires forall v :: v in vs && v.source.EmptyDir? ==> Names(taken, v.name)
    ensures Missing(vs, taken) == []
  {
    if vs != [] {
      assert vs[0] in vs;
      NothingMissing(vs[1..], taken);
    }
  }

  lemma {:induction false} MissingFilled(vs: seq<Volume>, taken: seq<Volume>, v: Volume)
    requires v in vs && v.source.EmptyDir?
    ensures Names(taken + Missing(vs, taken), v.name)
  {
    if Names(taken, v.name) {
      var w :| w in taken && w.name == v.name;
      assert w in taken + Missing(vs, taken);
    } else if vs[0] == v {
      assert v in taken + Missing(vs, taken);
    } else {
      MissingFilled(vs[1..], taken, v);
      var w :| w in taken + Missing(vs[1..], taken) && w.name == v.name;
      assert w in taken + Missing(vs, taken);
    }
  }

  /** For any two StatefulSets, aligning again changes nothing, against the same live one
      or against the result. */
  lemma AlignStable(desired: Template, existing: Template)
    ensures var once := Aligned(desired, existing);
            Aligned(once, existing) == once && Aligned(once, once) == once
  {
    var once := Aligned(desired, existing);
    if existing.claims != [] {
      WithoutStable(desired.volumes, existing.claims);
    } else {
      forall v | v in existing.volumes && v.source.EmptyDir? ensures Names(once.volumes, v.name) {
        MissingFilled(existing.volumes, desired.volumes, v);
      }
      NothingMissing(existing.volumes, once.volumes);
      NothingMissing(once.volumes, once.volumes);
    }
  }

  // ----- histories -------------------------------------------------------------------

  /** Where claim templates come from: the request they were built from, and the storage
      class the API server filled in ("" if none). */
  datatype Origin = Origin(first: Option<Persistence>, clusterDefault: string)

  function OriginClaims(o: Origin): seq<Claim> {
    AllDefaulted(Requested(o.first), o.clusterDefault)
  }

  /** The origin after another creation: a class is filled in only where none was before. */
  function FilledIn(o: Origin, clusterDefault: string): Origin {
    if o.clusterDefault == "" then o.(clusterDefault := clusterDefault) else o
  }

  /** A pass reads the shard, then the StatefulSet, and then applies what it holds; `ready`
      is the StorageReady truth value it recorded. */
  datatype Worker =
    | Idle
    | Reading(request: Option<Persistence>)
    | Writing(request: Option<Persistence>, held: Template, origin: Origin, ready: bool)

  /** `created` are the claim templates the live StatefulSet was created with and `origin`
      where they come from; `rejected` tells whether the API server ever had to refuse a
      change of claim templates. */
  datatype World = World(
    shard: string, spec: Option<Persistence>, live: Option<Template>,
    created: seq<Claim>, origin: Origin, worker: Worker, rejected: bool)

  datatype Event =
    | Edit(spec: Option<Persistence>)
    | Vanish                                              // somebody deletes the StatefulSet
    | Crash
    | Begin                                               // the pass reads the shard
    | Read(readable: bool)                                // preservePostgreSQLVolumeClaimTemplates
    | Write(outcome: Outcome, clusterDefault: string)     // ApplyOwned

  /** The StatefulSet is read, the desired one aligned, and the request judged. */
  function ReadStep(w: World, request: Option<Persistence>): World {
    var desired := Built(w.shard, request);
    if w.live.None? then w.(worker := Writing(request, desired, Origin(request, ""), true))
    else
      var live := w.live.value;
      w.(worker := Writing(request, Aligned(desired, live), w.origin, Matches(desired.claims, live.claims)))
  }

  /** The API server's side of an apply: claim templates are set once and then immutable. */
  function Admit(w: World, t: Template, o: Origin, clusterDefault: string): World {
    if w.live.None? then
      var claims := AllDefaulted(t.claims, clusterDefault);
      w.(live := Some(t.(claims := claims)), created := claims,
         origin := FilledIn(o, clusterDefault))
    else if t.claims != w.live.value.claims then w.(rejected := true)
    else w.(live := Some(t))
  }

  function Next(w: World, e: Event): World {
    match e
    case Edit(spec) => w.(spec := spec)
    case Vanish => w.(live := None, created := [])
    case Crash => w.(worker := Idle)
    case Begin => if w.worker.Idle? then w.(worker := Reading(w.spec)) else w
    case Read(readable) =>
      if !w.worker.Reading? then w
      else if !readable then w.(worker := Idle)
      else ReadStep(w, w.worker.request)
    case Write(outcome, clusterDefault) =>
      if !w.worker.Writing? then w
      else if !outcome.Effective() then w.(worker := Idle)
      else Admit(w.(worker := Idle), w.worker.held, w.worker.origin, clusterDefault)
  }

  /** The rules of the API server and of the controller, one event at a time: templates that
      differ are refused and change nothing, a crash or a failed read ends the pass without a
      trace, and a pass begins only when none is running, with the spec of that moment. */
  lemma EventRules(w: World, t: Template, o: Origin, clusterDefault: string)
    ensures w.live.Some? && t.claims != w.live.value.claims ==>
              Admit(w, t, o, clusterDefault) == w.(rejected := true)
    ensures w.live.Some? && t.claims == w.live.value.claims ==>
              Admit(w, t, o, clusterDefault) == w.(live := Some(t))
    ensures Next(w, Crash) == w.(worker := Idle)
    ensures Next(w, Vanish).live.None? && Next(w, Vanish).created == [] && Next(w, Vanish).worker == w.worker
    ensures w.worker.Reading? ==> Next(w, Read(false)) == w.(worker := Idle)
    ensures w.worker.Idle? ==> Next(w, Begin) == w.(worker := Reading(w.spec))
    ensures !w.worker.Idle? ==> Next(w, Begin) == w
    ensures !w.worker.Reading? ==> Next(w, Read(true)) == w
    ensures !w.worker.Writing? ==> Next(w, Write(Done, clusterDefault)) == w
  {
  }

  function Run(w: World, events: seq<Event>): World
    decreases |events|
  {
    if events == [] then w else Run(Next(w, events[0]), events[1..])
  }

  function Start(shard: string, spec: Option<Persistence>): World {
    World(shard, spec, None, [], Origin(None, ""), Idle, false)
  }

  /** The shapes a live StatefulSet can take. */
  predicate Shaped(t: Template, shard: string) {
    || (|t.claims| == 1 && t.claims[0].name == DATA && t.volumes == FixedVolumes(shard))
    || (t.claims == [] && (t.volumes == [Volume(DATA, EmptyDir)] + FixedVolumes(shard)
                           || t.volumes == FixedVolumes(shard) + [Volume(DATA, EmptyDir)]))
  }

  /** What a pass is about to apply has a proper shape and a known origin, and agrees with
      the StatefulSet if that is still there. */
  predicate WorkerInv(w: World) {
    w.worker.Writing? ==>
      && Shaped(w.worker.held, w.shard)
      && w.worker.held.claims == OriginClaims(w.worker.origin)
      && (w.live.Some? ==> w.worker.held.claims == w.live.value.claims && w.worker.origin == w.origin)
      && (w.worker.ready ==> Matches(Requested(w.worker.request), w.worker.held.claims))
  }

  predicate Inv(w: World) {
    && !w.rejected
    && (w.live.Some? ==>
          && w.live.value.claims == w.created == OriginClaims(w.origin)
          && Shaped(w.live.value, w.shard))
    && WorkerInv(w)
  }

  lemma {:induction false} AlignKeepsFixed(shard: string, cs: seq<Claim>)
    requires |cs| == 1 && cs[0].name == DATA
    ensures Without(FixedVolumes(shard), cs) == FixedVolumes(shard)
    ensures Without([Volume(DATA, EmptyDir)] + FixedVolumes(shard), cs) == FixedVolumes(shard)
  {
    var vs := FixedVolumes(shard);
    forall n | n != DATA ensures !Claims(cs, n) {}
    assert Claims(cs, DATA) by { assert cs[0] in cs; }
    assert Without(vs[3..], cs) == [] && Without(vs[2..], cs) == [vs[2]] by { assert vs[2..][1..] == vs[3..]; }
    assert Without(vs[1..], cs) == [vs[1], vs[2]] by { assert vs[1..][1..] == vs[2..]; }
    assert Without(vs, cs) == vs;
    assert ([Volume(DATA, EmptyDir)] + vs)[1..] == vs;
  }

  lemma MissingData(shard: string, live: seq<Volume>)
    requires live == [Volume(DATA, EmptyDir)] + FixedVolumes(shard)
             || live == FixedVolumes(shard) + [Volume(DATA, EmptyDir)]
    ensures Missing(live, FixedVolumes(shard)) == [Volume(DATA, EmptyDir)]
    ensures Missing(live, [Volume(DATA, EmptyDir)] + FixedVolumes(shard)) == []
  {
    var data, vs := Volume(DATA, EmptyDir), FixedVolumes(shard);
    assert vs[0] in vs && !Names(vs, DATA);
    NothingMissing(vs, vs);
    if live == [data] + vs {
      assert live[1..] == vs;
    } else {
      MissingAppend(vs, data, vs);
    }
    var all := [data] + vs;
    assert data in all && vs[0] in all;
    forall v | v in live && v.source.EmptyDir? ensures Names(all, v.name) { assert v in all; }
    NothingMissing(live, all);
  }

  /** A second defaulting fills in only what the first left open. */
  lemma DefaultedTwice(o: Origin, clusterDefault: string)
    ensures AllDefaulted(OriginClaims(o), clusterDefault)
            == OriginClaims(FilledIn(o, clusterDefault))
  {
  }

  lemma BuiltShaped(shard: string, p: Option<Persistence>)
    ensures Shaped(Built(shard, p), shard)
    ensures Built(shard, p).claims == OriginClaims(Origin(p, ""))
  {
    assert [] + FixedVolumes(shard) == FixedVolumes(shard);
  }

  lemma AlignedShaped(shard: string, p: Option<Persistence>, live: Template)
    requires Shaped(live, shard)
    ensures Shaped(Aligned(Built(shard, p), live), shard)
  {
    hide Missing, Without;
    var fixed, data := FixedVolumes(shard), [Volume(DATA, EmptyDir)];
    assert [] + fixed == fixed && fixed + [] == fixed && data + fixed + [] == data + fixed;
    if live.claims == [] {
      MissingData(shard, live.volumes);
    } else {
      AlignKeepsFixed(shard, live.claims);
    }
  }

  lemma StepKeeps(w: World, e: Event)
    requires Inv(w)
    ensures Inv(Next(w, e))
  {
    hide Aligned, Built, Shaped, AllDefaulted, Matches;
    if e.Read? && w.worker.Reading? && e.readable {
      ReadKeeps(w);
    } else if e.Write? && w.worker.Writing? {
      DefaultedTwice(w.worker.origin, e.clusterDefault);
      if w.live.None? { DefaultedShaped(w.worker.held, w.shard, e.clusterDefault); }
    }
  }

  lemma ReadKeeps(w: World)
    requires Inv(w) && w.worker.Reading?
    ensures Inv(ReadStep(w, w.worker.request))
  {
    hide Shaped, AllDefaulted, Missing, Without;
    BuiltShaped(w.shard, w.worker.request);
    MatchesPreorder(Requested(w.worker.request), [], [], "");
    if w.live.Some? { AlignedShaped(w.shard, w.worker.request, w.live.value); }
  }

  lemma DefaultedShaped(t: Template, shard: string, clusterDefault: string)
    requires Shaped(t, shard)
    ensures Shaped(t.(claims := AllDefaulted(t.claims, clusterDefault)), shard)
  {
  }

  lemma {:induction false} RunKeeps(w: World, events: seq<Event>)
    requires Inv(w)
    ensures Inv(Run(w, events)) && Run(w, events).shard == w.shard
    decreases |events|
  {
    hide Inv;
    if events != [] {
      StepKeeps(w, events[0]);
      RunKeeps(Next(w, events[0]), events[1..]);
    }
  }

  /** How many volumes, and how many claims, carry a name. */
  function VolumeCount(vs: seq<Volume>, name: string): nat {
    if vs == [] then 0 else (if vs[0].name == name then 1 else 0) + VolumeCount(vs[1..], name)
  }

  function ClaimCount(cs: seq<Claim>, name: string): nat {
    if cs == [] then 0 else (if cs[0].name == name then 1 else 0) + ClaimCount(cs[1..], name)
  }

  lemma {:induction false} VolumeCountConcat(a: seq<Volume>, b: seq<Volume>, name: string)
    ensures VolumeCount(a + b, name) == VolumeCount(a, name) + VolumeCount(b, name)
  {
    if a == [] { assert a + b == b; }
    else { assert (a + b)[1..] == a[1..] + b; VolumeCountConcat(a[1..], b, name); }
  }

  lemma FixedCount(shard: string, name: string)
    ensures VolumeCount(FixedVolumes(shard), name) == if name in {TMP, TLS, INIT} then 1 else 0
  {
    var vs := FixedVolumes(shard);
    assert vs[1..][1..] == vs[2..] && vs[2..][1..] == vs[3..] && vs[3..] == [];
    assert VolumeCount(vs[2..], name) == if name == INIT then 1 else 0;
    assert VolumeCount(vs[1..], name) == if name == INIT || name == TLS then 1 else 0;
  }

  /** A shaped StatefulSet backs every mount exactly once, by a claim or by a volume. */
  lemma ShapedBacks(t: Template, shard: string, name: string)
    requires Shaped(t, shard)
    ensures VolumeCount(t.volumes, name) + ClaimCount(t.claims, name) == if name in MOUNTS then 1 else 0
    ensures ClaimCount(t.claims, DATA) == 1 <==> Volume(DATA, EmptyDir) !in t.volumes
  {
    var data: seq<Volume> := [Volume(DATA, EmptyDir)];
    FixedCount(shard, name);
    assert data[1..] == [];
    VolumeCountConcat(data, FixedVolumes(shard), name);
    VolumeCountConcat(FixedVolumes(shard), data, name);
    if t.claims != [] { assert t.claims[1..] == []; }
    else { assert data[0] in t.volumes; }
  }

  /** Over every history of spec edits, passes with failing or ambiguous calls, and outside
      deletions: no apply is ever refused for changing claim templates, the live ones are
      those of the creation, every volume name is unique, each mount (data included) is
      backed by exactly one claim or volume, and aligning the StatefulSet with itself
      changes nothing. */
  lemma HistoryPreserves(shard: string, spec: Option<Persistence>, events: seq<Event>)
    ensures var w := Run(Start(shard, spec), events);
            && !w.rejected
            && (w.live.Some? ==>
                  && w.live.value.claims == w.created
                  && Aligned(w.live.value, w.live.value) == w.live.value
                  && (forall name :: VolumeCount(w.live.value.volumes, name) <= 1)
                  && (forall name :: name in MOUNTS ==>
                        VolumeCount(w.live.value.volumes, name) + ClaimCount(w.live.value.claims, name) == 1))
  {
    hide VolumeCount, ClaimCount, Missing, Without;
    RunKeeps(Start(shard, spec), events);
    var w := Run(Start(shard, spec), events);
    if w.live.Some? {
      forall name ensures VolumeCount(w.live.value.volumes, name) + ClaimCount(w.live.value.claims, name)
                          == if name in MOUNTS then 1 else 0
      {
        ShapedBacks(w.live.value, shard, name);
      }
      ShapedStable(w.live.value, shard);
    }
  }

  lemma ShapedStable(t: Template, shard: string)
    requires Shaped(t, shard)
    ensures Aligned(t, t) == t
  {
    if t.claims != [] {
      AlignKeepsFixed(shard, t.claims);
    } else {
      forall v | v in t.volumes ensures Names(t.volumes, v.name) {}
      NothingMissing(t.volumes, t.volumes);
    }
  }

  /** A request keeps to the one that templates come from: same kind of storage, same size,
      and the class that was asked for or filled in, or none where dynamic provisioning was
      not switched off. */
  predicate Keeps(request: Option<Persistence>, o: Origin) {
    && (o.first.None? <==> request.None?)
    && (o.first.Some? && request.Some? ==>
          var live := if o.first.value.storageClass.None? && o.clusterDefault != "" then Some(o.clusterDefault)
                      else o.first.value.storageClass;
          && request.value.size == o.first.value.size
          && (request.value.storageClass == live || (request.value.storageClass.None? && live != Some(""))))
  }

  lemma MatchesCreation(request: Option<Persistence>, o: Origin)
    ensures Matches(Requested(request), OriginClaims(o)) <==> Keeps(request, o)
  {
    if o.first.Some? && request.Some? {
      var live := OriginClaims(o);
      assert |live| == 1 && live[0] == Defaulted(Requested(o.first)[0], o.clusterDefault);
      assert Matches(Requested(request), live) <==> ClaimMatches(Requested(request)[0], live[0]);
    }
  }

  /** After any history, with edits, deletions and crashes between any two steps of a pass:
      the read judges a live StatefulSet ready exactly when the request of the pass keeps to
      the request that StatefulSet descends from, and a missing one always; in that case what
      it holds comes from its own request. */
  lemma PassJudges(shard: string, spec: Option<Persistence>, events: seq<Event>)
    ensures var w := Run(Start(shard, spec), events);
            w.worker.Reading? ==>
              var after := Next(w, Read(true)).worker;
              && after.Writing? && after.request == w.worker.request
              && (after.ready <==> (w.live.Some? ==> Keeps(w.worker.request, w.origin)))
              && after.origin == (if w.live.Some? then w.origin else Origin(w.worker.request, ""))
  {
    hide Aligned, Keeps, Matches, AllDefaulted;
    RunKeeps(Start(shard, spec), events);
    var w := Run(Start(shard, spec), events);
    if w.worker.Reading? { MatchesCreation(w.worker.request, w.origin); }
  }

  /** What a pass judged ready is true of what its apply leaves, even if the StatefulSet
      vanished in between; an apply that takes effect leaves the volumes the pass holds, and
      never changes templates that are there. */
  lemma JudgedHolds(shard: string, spec: Option<Persistence>, events: seq<Event>,
                    outcome: Outcome, clusterDefault: string)
    ensures var w := Run(Start(shard, spec), events);
            w.worker.Writing? ==>
              var after := Next(w, Write(outcome, clusterDefault));
              && after.worker.Idle? && after.spec == w.spec
              && (!outcome.Effective() ==> after.live == w.live)
              && (outcome.Effective() ==> after.live.Some? && after.live.value.volumes == w.worker.held.volumes)
              && (w.live.Some? ==> after.live.Some? && after.live.value.claims == w.live.value.claims)
              && (after.live.Some? && w.worker.ready ==> Matches(Requested(w.worker.request), after.live.value.claims))
  {
    hide Matches, AllDefaulted, Shaped;
    RunKeeps(Start(shard, spec), events);
    var w := Run(Start(shard, spec), events);
    if w.worker.Writing? {
      var held := w.worker.held.claims;
      MatchesPreorder(held, [], [], clusterDefault);
      MatchesPreorder(Requested(w.worker.request), held, AllDefaulted(held, clusterDefault), "");
    }
  }

  /** An apply that creates leaves templates that match the request of its pass exactly when
      that request keeps to the origin of what the pass holds; with its own request as origin,
      which is so when nothing was there at the read, it always does. */
  lemma CreationFits(shard: string, spec: Option<Persistence>, events: seq<Event>, outcome: Outcome,
                     clusterDefault: string)
    requires outcome.Effective()
    ensures var w := Run(Start(shard, spec), events);
            w.worker.Writing? && w.live.None? ==>
              var after := Next(w, Write(outcome, clusterDefault));
              && after.live.Some?
              && (Matches(Requested(w.worker.request), after.live.value.claims)
                  <==> Keeps(w.worker.request, FilledIn(w.worker.origin, clusterDefault)))
    ensures forall request :: Keeps(request, Origin(request, clusterDefault))
  {
    hide Matches, AllDefaulted, Shaped, Keeps, FilledIn;
    RunKeeps(Start(shard, spec), events);
    var w := Run(Start(shard, spec), events);
    if w.worker.Writing? {
      DefaultedTwice(w.worker.origin, clusterDefault);
      MatchesCreation(w.worker.request, FilledIn(w.worker.origin, clusterDefault));
    }
    forall request ensures Keeps(request, Origin(request, clusterDefault)) {
      MatchesPreorder(Requested(request), [], [], clusterDefault);
      MatchesCreation(request, Origin(request, clusterDefault));
    }
  }

  /** A StatefulSet that vanishes between read and apply comes back with the templates it
      had: for any two requests, the second one does not take effect although nothing was
      there when it was applied. */
  lemma VanishedComesBack(shard: string, first: Option<Persistence>, request: Option<Persistence>)
    ensures var w := Run(Start(shard, first),
                         [Begin, Read(true), Write(Done, ""),
                          Edit(request), Begin, Read(true), Vanish, Write(Done, "")]);
            && w.live.Some? && w.spec == request
            && w.live.value.claims == Requested(first)
  {
    hide Aligned, Built, Matches;
    var one := Next(Next(Next(Start(shard, first), Begin), Read(true)), Write(Done, ""));
    var two := Next(Next(Next(Next(one, Edit(request)), Begin), Read(true)), Vanish);
    RunEight(Start(shard, first), Begin, Read(true), Write(Done, ""),
             Edit(request), Begin, Read(true), Vanish, Write(Done, ""));
    BuiltShaped(shard, first);
    assert AllDefaulted(Requested(first), "") == Requested(first);
    assert one.live.Some? && one.live.value.claims == Requested(first);
    AlignedClaims(Built(shard, request), one.live.value);
    assert two.worker.Writing? && two.live.None? && two.worker.held.claims == Requested(first);
  }

  lemma AlignedClaims(desired: Template, existing: Template)
    ensures Aligned(desired, existing).claims == existing.claims
  {
  }

  lemma RunEight(w: World, a: Event, b: Event, c: Event, d: Event, e: Event, f: Event, g: Event, h: Event)
    ensures Run(w, [a, b, c, d, e, f, g, h])
            == Next(Next(Next(Next(Next(Next(Next(Next(w, a), b), c), d), e), f), g), h)
  {
    hide Next, Run;
    RunFour(w, a, b, c, d, [e, f, g, h]);
    RunFour(Next(Next(Next(Next(w, a), b), c), d), e, f, g, h, []);
    assert [a, b, c, d, e, f, g, h] == [a, b, c, d] + [e, f, g, h] && [e, f, g, h] == [e, f, g, h] + [];
    RunNone(Next(Next(Next(Next(Next(Next(Next(Next(w, a), b), c), d), e), f), g), h));
  }

  lemma RunFour(w: World, a: Event, b: Event, c: Event, d: Event, rest: seq<Event>)
    ensures Run(w, [a, b, c, d] + rest) == Run(Next(Next(Next(Next(w, a), b), c), d), rest)
  {
    hide Next, Run;
    var bcd, cd := [b, c, d] + rest, [c, d] + rest;
    assert [a, b, c, d] + rest == [a] + bcd && bcd == [b] + cd && cd == [c] + ([d] + rest);
    RunFirst(w, a, bcd);
    RunFirst(Next(w, a), b, cd);
    RunFirst(Next(Next(w, a), b), c, [d] + rest);
    RunFirst(Next(Next(Next(w, a), b), c), d, rest);
  }

  lemma RunNone(w: World)
    ensures Run(w, []) == w
  {
  }

  lemma RunFirst(w: World, e: Event, rest: seq<Event>)
    ensures Run(w, [e] + rest) == Run(Next(w, e), rest)
  {
    assert ([e] + rest)[1..] == rest;
  }
}
