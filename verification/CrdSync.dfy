/** Conflicting CRDs: detection on the primary, the copy to the secondary, and what a
    pass that ends Ready has therefore done. */
module CrdSync {
  import opened Prelude
  import opened ShardStatus
  import opened Aggregation
  import opened ServiceUrl
  import opened Decimals

  datatype WebhookConversion = WebhookConversion(clientConfig: Option<ClientConfig>, reviewVersions: seq<string>)
  datatype Strategy = NoneConverter | WebhookConverter
  datatype Conversion = Conversion(strategy: Strategy, webhook: Option<WebhookConversion>)
  datatype CrdSpec = CrdSpec(group: string, conversion: Option<Conversion>, rest: string)
  datatype Metadata = Metadata(labels: map<string, string>, annotations: map<string, string>, serverFields: string)
  datatype CRD = CRD(metadata: Metadata, spec: CrdSpec)

  // ----- detection -------------------------------------------------------------

  /** The names of the CRDs in an aggregated group, in listing order. */
  function Conflicting(crds: seq<(string, CRD)>, groups: set<string>): seq<string> {
    if crds == [] then []
    else (if crds[0].1.spec.group in groups then [crds[0].0] else []) + Conflicting(crds[1..], groups)
  }

  lemma {:induction false} ConflictingAppend(crds: seq<(string, CRD)>, c: (string, CRD), groups: set<string>)
    ensures Conflicting(crds + [c], groups)
            == Conflicting(crds, groups) + (if c.1.spec.group in groups then [c.0] else [])
  {
    if crds == [] {
      assert crds + [c] == [c];
    } else {
      assert (crds + [c])[1..] == crds[1..] + [c];
      ConflictingAppend(crds[1..], c, groups);
    }
  }

  /** Every CRD of an aggregated group is reported, and nothing else is. */
  lemma {:induction false} ConflictingExact(crds: seq<(string, CRD)>, groups: set<string>, name: string)
    ensures name in Conflicting(crds, groups)
            <==> exists i :: 0 <= i < |crds| && crds[i].0 == name && crds[i].1.spec.group in groups
  {
    if crds != [] {
      ConflictingExact(crds[1..], groups, name);
      if i :| 0 <= i < |crds| && crds[i].0 == name && crds[i].1.spec.group in groups {
        if i > 0 { assert crds[1..][i - 1] == crds[i]; }
      }
      if name in Conflicting(crds[1..], groups) {
        var i :| 0 <= i < |crds[1..]| && crds[1..][i].0 == name && crds[1..][i].1.spec.group in groups;
        assert crds[i + 1].0 == name;
      }
    }
  }

  /** DetectCRDConflicts, once the listing succeeded. */
  method DetectCRDConflicts(groups: seq<APIGroup>, crds: seq<(string, CRD)>) returns (conflicting: seq<string>)
    ensures conflicting == Conflicting(crds, set g | g in groups :: g.group)
  {
    var names: seq<string> := [];
    for i := 0 to |groups|
      invariant |names| == i && forall j :: 0 <= j < i ==> names[j] == groups[j].group
    {
      names := names + [groups[i].group];
    }
    var aggregated := ToSet(names);
    assert aggregated == set g | g in groups :: g.group by {
      forall g | g in groups ensures g.group in aggregated {
        var j :| 0 <= j < |groups| && groups[j] == g;
        assert names[j] == g.group;
      }
    }
    conflicting := [];
    for i := 0 to |crds|
      invariant conflicting == Conflicting(crds[..i], aggregated)
    {
      if crds[i].1.spec.group in aggregated {
        conflicting := conflicting + [crds[i].0];
      }
      ConflictingAppend(crds[..i], crds[i], aggregated);
      assert crds[..i] + [crds[i]] == crds[..i + 1];
    }
    assert crds[..|crds|] == crds;
  }

  // ----- the copy ------------------------------------------------------------------

  /** The conversion as the secondary must see it. */
  function Converted(c: Option<Conversion>): Option<Conversion> {
    match c
    case Some(Conversion(WebhookConverter, Some(WebhookConversion(Some(config), versions)))) =>
      Some(Conversion(WebhookConverter, Some(WebhookConversion(Some(Rewrite(config)), versions))))
    case _ => c
  }

  /** The copy of a CRD that is applied to the secondary: labels, annotations and spec,
      with the conversion webhook addressed by URL. */
  function Image(crd: CRD): CRD {
    CRD(crd.metadata.(serverFields := ""), crd.spec.(conversion := Converted(crd.spec.conversion)))
  }

  /** The object syncCRDsToSecondary builds and then changes in place. */
  class CrdCopy {
    var metadata: Metadata
    var spec: CrdSpec

    constructor (source: CRD)
      ensures metadata == source.metadata.(serverFields := "") && spec == source.spec
    {
      metadata, spec := source.metadata.(serverFields := ""), source.spec;
    }

    /** transformCRDConversion. */
    method TransformConversion()
      modifies this`spec
      ensures spec == old(spec).(conversion := Converted(old(spec).conversion))
    {
      if spec.conversion.None? { return; }
      var conversion := spec.conversion.value;
      if conversion.strategy != WebhookConverter { return; }
      if conversion.webhook.None? || conversion.webhook.value.clientConfig.None? { return; }
      var config := conversion.webhook.value.clientConfig.value;
      if config.service.None? { return; }
      var ref := config.service.value;
      var port := 443;
      if ref.port.Some? { port := ref.port.value; }
      var path := "";
      if ref.path.Some? { path := ref.path.value; }
      var url := "https://" + (ref.name + "." + ref.namespace + ".svc" + ":" + PrintInt(port)) + path;
      config := config.(url := Some(url), service := None);
      var webhook := conversion.webhook.value.(clientConfig := Some(config));
      spec := spec.(conversion := Some(conversion.(webhook := Some(webhook))));
    }
  }

  /** The client of a conversion webhook, if the conversion uses one. */
  function Client(c: Option<Conversion>): Option<ClientConfig> {
    if c.None? || c.value.strategy != WebhookConverter || c.value.webhook.None? then None
    else c.value.webhook.value.clientConfig
  }

  /** The copy is a fixpoint of the rewrite. It keeps labels, annotations and the spec with its
      group, leaves a conversion without a webhook client alone, and of one with a client
      replaces the service by a URL; the client then means what it meant exactly when its
      service address is printable. */
  lemma ImageKeepsMeaning(crd: CRD)
    ensures Image(Image(crd)) == Image(crd)
    ensures var copied := Image(crd);
            && copied.metadata.labels == crd.metadata.labels && copied.metadata.annotations == crd.metadata.annotations
            && copied.spec == crd.spec.(conversion := copied.spec.conversion)
            && match Client(crd.spec.conversion)
               case None => copied.spec.conversion == crd.spec.conversion
               case Some(before) =>
                 && Client(copied.spec.conversion).Some?
                 && var after := Client(copied.spec.conversion).value;
                 && copied.spec.conversion == Some(crd.spec.conversion.value.(
                      webhook := Some(crd.spec.conversion.value.webhook.value.(clientConfig := Some(after)))))
                 && OnlyAddressed(before, after)
                 && (Meaning(after) == Meaning(before)
                     <==> (before.service.Some? ==> Printable(Resolve(before.service.value))))
  {
    if Client(crd.spec.conversion).Some? {
      RewriteKeepsMeaning(Client(crd.spec.conversion).value);
    }
  }

  /** `now` differs from `before` only in images of the named CRDs. */
  ghost predicate Mirrored(names: seq<string>, primary: map<string, CRD>, before: map<string, CRD>,
                           now: map<string, CRD>)
  {
    && before.Keys <= now.Keys
    && forall n :: n in now ==>
         || (n in before && now[n] == before[n])
         || (n in names && n in primary && now[n] == Image(primary[n]))
  }

  /** The copy that goes to the secondary. */
  method CopyOf(crd: CRD) returns (copied: CRD)
    ensures copied == Image(crd)
  {
    var copy := new CrdCopy(crd);
    copy.TransformConversion();
    copied := CRD(copy.metadata, copy.spec);
  }

  /** Whether the i-th CRD was read, and its apply answered without an error. */
  predicate Synced(names: seq<string>, primary: map<string, CRD>, found: nat -> bool, applies: nat -> Outcome, i: nat)
    requires i < |names|
  {
    found(i) && names[i] in primary && applies(i).Done?
  }

  /** The loop of syncCRDsToSecondary: a failing CRD is recorded and the others go on. Each CRD
      takes a read of the primary, `found(i)`, and, when found, an apply, `applies(i)`. */
  method SyncCrds(names: seq<string>, primary: map<string, CRD>, secondary: map<string, CRD>,
                  found: nat -> bool, applies: nat -> Outcome)
    returns (now: map<string, CRD>, errors: seq<string>)
    ensures Mirrored(names, primary, secondary, now)
    // exactly the names that did not go through are recorded
    ensures forall n :: n in errors <==> exists i :: 0 <= i < |names| && names[i] == n
                                                     && !Synced(names, primary, found, applies, i)
    // an apply that is not refused takes effect, whatever it answers
    ensures forall i :: 0 <= i < |names| && found(i) && names[i] in primary && !applies(i).Refused? ==>
              names[i] in now && now[names[i]] == Image(primary[names[i]])
    ensures (forall i :: 0 <= i < |names| ==> !(found(i) && names[i] in primary && !applies(i).Refused?)) ==>
              now == secondary
  {
    hide Image;
    now, errors := secondary, [];
    for i := 0 to |names|
      invariant Mirrored(names, primary, secondary, now)
      invariant forall n :: n in errors <==> exists j :: 0 <= j < i && names[j] == n
                                                         && !Synced(names, primary, found, applies, j)
      invariant forall j :: 0 <= j < i && found(j) && names[j] in primary && !applies(j).Refused? ==>
                  names[j] in now && now[names[j]] == Image(primary[names[j]])
      invariant (forall j :: 0 <= j < i ==> !(found(j) && names[j] in primary && !applies(j).Refused?)) ==>
                  now == secondary
    {
      var name := names[i];
      if !found(i) || name !in primary {
        errors := errors + [name];
        continue;
      }
      var copied := CopyOf(primary[name]);
      if applies(i).Effective() {
        now := now[name := copied];
      }
      if !applies(i).Done? {
        errors := errors + [name];
        continue;
      }
    }
  }

  function Join(parts: seq<string>, separator: string): string {
    if parts == [] then "" else if |parts| == 1 then parts[0] else parts[0] + separator + Join(parts[1..], separator)
  }

  predicate InGroups(crd: CRD, groups: seq<APIGroup>) {
    exists g :: g in groups && g.group == crd.spec.group
  }

  /** DetectCRDConflicts and syncCRDsToSecondary after a successful listing. `clientError`
      is what kept the sync from getting a client for the secondary. The result is Clear
      exactly when no primary CRD is in an aggregated group; otherwise the sync succeeds exactly
      when there is a client and every CRD is read and applied, and then every such CRD is on
      the secondary in transformed form. */
  method DetectAndSync(groups: seq<APIGroup>, primary: map<string, CRD>, secondary: map<string, CRD>,
                       clientError: Option<string>, found: nat -> bool, applies: nat -> Outcome)
    returns (now: map<string, CRD>, run: ConflictRun, ghost names: seq<string>)
    ensures !run.ListingFailed?
    ensures forall n :: n in names <==> n in primary && InGroups(primary[n], groups)
    ensures run.Clear? <==> forall n :: n in primary ==> !InGroups(primary[n], groups)
    ensures !run.Clear? ==>
              && run.message == "CRDs on primary conflict with aggregation: " + Join(names, ", ")
              && (run.SyncDone? <==>
                    clientError.None? && forall i :: 0 <= i < |names| ==> found(i) && applies(i).Done?)
              && (clientError.Some? ==> run == SyncRefused(run.message, clientError.value))
    ensures run.Clear? || clientError.Some? ==> now == secondary
    ensures run.SyncDone? ==>
              forall n :: n in primary && InGroups(primary[n], groups) ==> n in now && now[n] == Image(primary[n])
    ensures forall n :: n in secondary && (n in primary ==> !InGroups(primary[n], groups)) ==>
              n in now && now[n] == secondary[n]
  {
    hide Image, InGroups, Synced, Join;
    var conflicting := FindConflicts(groups, primary);
    names := conflicting;
    now := secondary;
    if conflicting == [] { return secondary, Clear, names; }
    assert conflicting[0] in conflicting;
    var message := "CRDs on primary conflict with aggregation: " + Join(conflicting, ", ");
    if clientError.Some? { return secondary, SyncRefused(message, clientError.value), names; }
    var errors;
    now, errors := SyncCrds(conflicting, primary, secondary, found, applies);
    AllSynced(conflicting, primary, found, applies, now, errors);
    run := if errors == [] then SyncDone(message) else SyncRefused(message, Join(errors, "\n"));
  }

  /** The names of the primary CRDs in aggregated groups. */
  method FindConflicts(groups: seq<APIGroup>, primary: map<string, CRD>) returns (names: seq<string>)
    ensures forall n :: n in names <==> n in primary && InGroups(primary[n], groups)
  {
    var crds := ListAll(primary);
    names := DetectCRDConflicts(groups, crds);
    forall n ensures n in names <==> n in primary && InGroups(primary[n], groups) {
      ConflictingExact(crds, set g | g in groups :: g.group, n);
      if n in primary { var i :| 0 <= i < |crds| && crds[i] == (n, primary[n]); }
    }
  }

  /** No error means that every CRD was read and applied. */
  lemma AllSynced(names: seq<string>, primary: map<string, CRD>, found: nat -> bool, applies: nat -> Outcome,
                  now: map<string, CRD>, errors: seq<string>)
    requires forall n :: n in names ==> n in primary
    requires forall n :: n in errors <==> exists i :: 0 <= i < |names| && names[i] == n
                                                      && !Synced(names, primary, found, applies, i)
    requires forall i :: 0 <= i < |names| && found(i) && names[i] in primary && !applies(i).Refused? ==>
               names[i] in now && now[names[i]] == Image(primary[names[i]])
    ensures errors == [] <==> forall i :: 0 <= i < |names| ==> found(i) && applies(i).Done?
    ensures errors == [] ==> forall n :: n in names ==> n in now && now[n] == Image(primary[n])
  {
    hide Image;
    forall i | 0 <= i < |names| ensures names[i] in primary { assert names[i] in names; }
    if errors != [] {
      assert errors[0] in errors;
      var i :| 0 <= i < |names| && names[i] == errors[0] && !Synced(names, primary, found, applies, i);
      assert !(found(i) && applies(i).Done?);
    } else {
      forall i | 0 <= i < |names| ensures found(i) && applies(i).Done? {
        assert names[i] !in errors;
      }
    }
  }
}
