/** The watch predicates that drop update events, and the proof that no dropped event
    changes what the reconciler would compute. */
module WatchPredicates {
  import opened Prelude
  import opened Aggregation

  datatype Meta = Meta(generation: int, labels: map<string, string>, annotations: map<string, string>)

  datatype ReplicaCounts = ReplicaCounts(replicas: int, ready: int, available: int, updated: int)

  /** A watched object; `other` stands for the fields no predicate and no verdict reads. */
  datatype Object =
    | Deployment(meta: Meta, owners: seq<string>, counts: ReplicaCounts, other: string)
    | StatefulSet(meta: Meta, owners: seq<string>, counts: ReplicaCounts, other: string)
    | Registration(meta: Meta, service: APIService)
    | Unrelated(meta: Meta, owners: seq<string>, other: string)

  function OwnerReferences(o: Object): seq<string> {
    if o.Registration? then o.service.owners else o.owners
  }

  // ----- the predicates -----------------------------------------------------------

  predicate GenerationOrMetadataChanged(before: Object, after: Object) {
    || before.meta.generation != after.meta.generation
    || OwnerReferences(before) != OwnerReferences(after)
    || before.meta.labels != after.meta.labels
    || before.meta.annotations != after.meta.annotations
  }

  function ExtractReplicaCounts(o: Object): (ReplicaCounts, bool) {
    match o
    case Deployment(_, _, counts, _) => (counts, true)
    case StatefulSet(_, _, counts, _) => (counts, true)
    case _ => (ReplicaCounts(0, 0, 0, 0), false)
  }

  /** DeploymentReadinessPredicate and StatefulSetReadinessPredicate, on updates. */
  predicate ReadinessUpdate(before: Option<Object>, after: Option<Object>) {
    if before.None? || after.None? then true
    else if GenerationOrMetadataChanged(before.value, after.value) then true
    else if !ExtractReplicaCounts(before.value).1 then true
    else ExtractReplicaCounts(before.value).0 != ExtractReplicaCounts(after.value).0
  }

  /** apiServiceAvailableStatus; None is Go's empty string. */
  function AvailableStatus(o: Object): Option<Truth> {
    if !o.Registration? then None
    else match AvailableCondition(o.service.conditions)
      case None => None
      case Some(c) => Some(c.status)
  }

  /** APIServiceAvailabilityPredicate, on updates. */
  predicate AvailabilityUpdate(before: Option<Object>, after: Option<Object>) {
    if before.None? || after.None? then true
    else if GenerationOrMetadataChanged(before.value, after.value) then true
    else AvailableStatus(before.value) != AvailableStatus(after.value)
  }

  // ----- the cluster and its events ---------------------------------------------------

  type Cluster = map<string, Object>

  datatype Event = Create(key: string, item: Object) | Update(key: string, item: Object) | Delete(key: string)

  predicate SameKind(a: Object, b: Object) {
    && (a.Deployment? <==> b.Deployment?) && (a.StatefulSet? <==> b.StatefulSet?)
    && (a.Registration? <==> b.Registration?)
  }

  /** An update replaces an object by one of its kind; anything else is no event. */
  function Apply(c: Cluster, e: Event): Cluster {
    match e
    case Create(key, item) => if key in c then c else c[key := item]
    case Update(key, item) => if key in c && SameKind(c[key], item) then c[key := item] else c
    case Delete(key) => c - {key}
  }

  /** Does the event reach the reconciler? Creations and deletions always do. */
  predicate Delivered(c: Cluster, e: Event) {
    match e
    case Update(key, item) =>
      if key !in c then true
      else if item.Registration? then AvailabilityUpdate(Some(c[key]), Some(item))
      else if item.Deployment? || item.StatefulSet? then ReadinessUpdate(Some(c[key]), Some(item))
      else true
    case _ => true
  }

  function Run(c: Cluster, events: seq<Event>): Cluster
    decreases |events|
  {
    if events == [] then c else Run(Apply(c, events[0]), events[1..])
  }

  /** The cluster as the reconciler last got to see it: right after the last delivered
      event, or `mark` if there was none. */
  function LastDelivered(c: Cluster, events: seq<Event>, mark: Cluster): Cluster
    decreases |events|
  {
    if events == [] then mark
    else
      var next := Apply(c, events[0]);
      LastDelivered(next, events[1..], if Delivered(c, events[0]) then next else mark)
  }

  // ----- what the reconciler computes ---------------------------------------------------

  predicate Ready(counts: ReplicaCounts) {
    counts.ready > 0 && counts.ready == counts.replicas
  }

  /** Workloads of a shard; `database` is present for in-cluster PostgreSQL. */
  datatype Workloads = Workloads(kine: string, secondary: string, database: Option<string>)

  predicate IsDeployment(c: Cluster, key: string) { key in c && c[key].Deployment? }
  predicate IsStatefulSet(c: Cluster, key: string) { key in c && c[key].StatefulSet? }

  predicate Readable(c: Cluster, w: Workloads) {
    && IsDeployment(c, w.kine) && IsDeployment(c, w.secondary)
    && (w.database.Some? ==> IsStatefulSet(c, w.database.value))
  }

  function Keys(w: Workloads): set<string> {
    {w.kine, w.secondary} + (if w.database.Some? then {w.database.value} else {})
  }

  /** The verdict on the workloads: none if one of them cannot be read, otherwise whether
      every one of them has replicas and all of them ready. */
  function Health(c: Cluster, w: Workloads): Option<bool> {
    if !Readable(c, w) then None
    else Some(forall key :: key in Keys(w) ==> Ready(c[key].counts))
  }

  predicate Owned(c: Cluster, key: string, uid: string) {
    key in c && c[key].Registration? && uid in c[key].service.owners
  }

  /** The verdict of CheckAvailability. */
  predicate AllAvailable(c: Cluster, uid: string) {
    && (exists k :: k in c && Owned(c, k, uid))
    && (forall k :: k in c && Owned(c, k, uid) ==> IsAvailable(c[k].service))
  }

  /** The APIServices as a List returns them, `order` being the order of the listing. */
  function Listing(c: Cluster, order: seq<string>): seq<(string, APIService)> {
    if order == [] then []
    else
      (if order[0] in c && c[order[0]].Registration? then [(order[0], c[order[0]].service)] else [])
      + Listing(c, order[1..])
  }

  /** The text that CheckAvailability returns, and that reaches the shard's status. */
  function StatusDetail(c: Cluster, order: seq<string>, uid: string): string {
    Detail(OwnedBy(Listing(c, order), uid))
  }

  lemma {:induction false} ListingOf(c: Cluster, order: seq<string>, listed: seq<(string, APIService)>)
    requires |order| == |listed|
    requires forall i :: 0 <= i < |listed| ==>
               && order[i] == listed[i].0 && order[i] in c
               && c[order[i]].Registration? && c[order[i]].service == listed[i].1
    ensures Listing(c, order) == listed
  {
    if order != [] { ListingOf(c, order[1..], listed[1..]); }
  }

  /** CheckAvailability on the APIServices listed from the cluster gives that verdict and
      that text. */
  method CheckAPIServices(c: Cluster, uid: string)
    returns (available: bool, detail: string, ghost order: seq<string>)
    ensures available <==> AllAvailable(c, uid)
    ensures Distinct(order) && (forall k :: k in order <==> k in c && c[k].Registration?)
    ensures detail == StatusDetail(c, order, uid)
  {
    hide AvailableCondition, IsAvailable, Detail, OwnedBy;
    var services := map k | k in c && c[k].Registration? :: c[k].service;
    var listed := ListAll(services);
    available, detail := CheckAvailability(listed, uid);
    order := seq(|listed|, i requires 0 <= i < |listed| => listed[i].0);
    ListingOf(c, order, listed);
    forall k | k in services
      ensures exists i :: 0 <= i < |listed| && listed[i] == (k, services[k]) && order[i] == k
    {
      assert (k, services[k]) in listed;
      var i :| 0 <= i < |listed| && listed[i] == (k, services[k]);
      assert order[i] == k;
    }
    assert forall k :: k in services <==> k in c && c[k].Registration?;
    assert forall i :: 0 <= i < |listed| && uid in listed[i].1.owners ==>
             Owned(c, listed[i].0, uid) && listed[i].1 == c[listed[i].0].service;
    assert forall k :: k in c && Owned(c, k, uid) ==> k in services;
  }

  /** checkDeploymentHealth. */
  method CheckDeploymentHealth(c: Cluster, w: Workloads) returns (healthy: Option<bool>)
    ensures healthy == Health(c, w)
    // no verdict exactly when a workload is missing or of another kind
    ensures healthy.None? <==>
              || !IsDeployment(c, w.kine) || !IsDeployment(c, w.secondary)
              || (w.database.Some? && !IsStatefulSet(c, w.database.value))
    // healthy exactly when every workload has replicas and all of them are ready
    ensures healthy == Some(true) <==>
              Readable(c, w) && forall key :: key in Keys(w) ==> 0 < c[key].counts.ready == c[key].counts.replicas
  {
    if w.kine !in c || !c[w.kine].Deployment? { return None; }
    if w.secondary !in c || !c[w.secondary].Deployment? { return None; }
    var kine, secondary := c[w.kine].counts, c[w.secondary].counts;
    var kineReady := kine.ready > 0 && kine.ready == kine.replicas;
    var secondaryReady := secondary.ready > 0 && secondary.ready == secondary.replicas;
    if w.database.Some? {
      if w.database.value !in c || !c[w.database.value].StatefulSet? { return None; }
      var database := c[w.database.value].counts;
      return Some(kineReady && secondaryReady && database.ready > 0 && database.ready == database.replicas);
    }
    return Some(kineReady && secondaryReady);
  }

  // ----- no lost wake-up ------------------------------------------------------------------

  /** The predicates compare everything the verdicts read. */
  lemma DroppedAgrees(c: Cluster, e: Event)
    requires !Delivered(c, e)
    ensures var n := Apply(c, e);
            && n.Keys == c.Keys
            && forall k :: k in c ==>
                 && SameKind(n[k], c[k]) && OwnerReferences(n[k]) == OwnerReferences(c[k])
                 && AvailableStatus(n[k]) == AvailableStatus(c[k])
                 && ExtractReplicaCounts(n[k]) == ExtractReplicaCounts(c[k])
  {
    hide AvailableCondition;
    assert SameKind(c[e.key], e.item) ==> Apply(c, e) == c[e.key := e.item];
  }

  lemma DroppedKeepsHealth(c: Cluster, n: Cluster, w: Workloads)
    requires n.Keys == c.Keys
    requires forall k :: k in c ==> SameKind(n[k], c[k]) && ExtractReplicaCounts(n[k]) == ExtractReplicaCounts(c[k])
    ensures Health(n, w) == Health(c, w)
  {
    if Readable(c, w) {
      forall key | key in Keys(w) ensures n[key].counts == c[key].counts {
        assert ExtractReplicaCounts(n[key]) == ExtractReplicaCounts(c[key]);
      }
    }
  }

  lemma DroppedKeepsVerdicts(c: Cluster, e: Event, w: Workloads, uid: string)
    requires !Delivered(c, e)
    ensures Health(Apply(c, e), w) == Health(c, w)
    ensures AllAvailable(Apply(c, e), uid) <==> AllAvailable(c, uid)
  {
    hide Apply, Delivered, AvailableCondition;
    DroppedAgrees(c, e);
    var n := Apply(c, e);
    DroppedKeepsHealth(c, n, w);
    assert forall k :: k in c ==> (Owned(n, k, uid) <==> Owned(c, k, uid));
    if AllAvailable(c, uid) {
      var k :| k in c && Owned(c, k, uid);
      assert Owned(n, k, uid);
    }
    if AllAvailable(n, uid) {
      var k :| k in n && Owned(n, k, uid);
      assert Owned(c, k, uid);
    }
  }

  lemma {:induction false} VerdictsSince(c: Cluster, events: seq<Event>, mark: Cluster, w: Workloads, uid: string)
    requires Health(c, w) == Health(mark, w) && (AllAvailable(c, uid) <==> AllAvailable(mark, uid))
    ensures Health(Run(c, events), w) == Health(LastDelivered(c, events, mark), w)
    ensures AllAvailable(Run(c, events), uid) <==> AllAvailable(LastDelivered(c, events, mark), uid)
    decreases |events|
  {
    hide Apply, Delivered, Health, AllAvailable;
    if events != [] {
      var next := Apply(c, events[0]);
      if Delivered(c, events[0]) {
        VerdictsSince(next, events[1..], next, w, uid);
      } else {
        DroppedKeepsVerdicts(c, events[0], w, uid);
        VerdictsSince(next, events[1..], mark, w, uid);
      }
    }
  }

  /** No lost wake-up: after any sequence of events the two verdicts are those of the
      cluster the reconciler was last told about. */
  lemma NoLostWakeUp(c: Cluster, events: seq<Event>, w: Workloads, uid: string)
    ensures Health(Run(c, events), w) == Health(LastDelivered(c, events, c), w)
    ensures AllAvailable(Run(c, events), uid) <==> AllAvailable(LastDelivered(c, events, c), uid)
  {
    VerdictsSince(c, events, c, w, uid);
  }

  // ----- what is dropped ------------------------------------------------------------------

  /** Two objects that differ at most in what no predicate reads: the remaining status of a
      workload, and of an APIService everything but its owners and its availability. */
  predicate SameButStatus(a: Object, b: Object) {
    && a.meta.generation == b.meta.generation
    && a.meta.labels == b.meta.labels && a.meta.annotations == b.meta.annotations
    && match (a, b)
       case (Deployment(_, x, m, _), Deployment(_, y, n, _)) => x == y && m == n
       case (StatefulSet(_, x, m, _), StatefulSet(_, y, n, _)) => x == y && m == n
       case (Registration(_, x), Registration(_, y)) =>
         && x.owners == y.owners
         && (AvailableCondition(x.conditions).Some? <==> AvailableCondition(y.conditions).Some?)
         && (AvailableCondition(x.conditions).Some? ==>
               AvailableCondition(x.conditions).value.status == AvailableCondition(y.conditions).value.status)
       case _ => false
  }

  /** Exactly which updates are dropped: those of a Deployment, a StatefulSet or an APIService
      that change neither generation, labels, annotations or owners, nor a replica count, nor
      the status of the Available condition. */
  lemma DroppedExact(c: Cluster, key: string, item: Object)
    requires key in c && SameKind(c[key], item)
    ensures !Delivered(c, Update(key, item)) <==> SameButStatus(c[key], item)
  {
    hide AvailableCondition;
  }

  predicate MetaKept(a: Object, b: Object) {
    && a.meta.generation == b.meta.generation
    && a.meta.labels == b.meta.labels && a.meta.annotations == b.meta.annotations
    && OwnerReferences(a) == OwnerReferences(b)
  }

  /** The readiness predicates on any pair: dropped only if both objects are there, the first
      is a workload, and its replica counts are those of the second, an object of another kind
      counting as none. */
  lemma ReadinessExact(before: Option<Object>, after: Option<Object>)
    ensures !ReadinessUpdate(before, after) <==>
            && before.Some? && after.Some? && MetaKept(before.value, after.value)
            && (before.value.Deployment? || before.value.StatefulSet?)
            && before.value.counts == (if after.value.Deployment? || after.value.StatefulSet? then after.value.counts
                                       else ReplicaCounts(0, 0, 0, 0))
  {
  }

  /** The availability predicate on any pair. */
  lemma AvailabilityExact(before: Option<Object>, after: Option<Object>)
    ensures !AvailabilityUpdate(before, after) <==>
            && before.Some? && after.Some? && MetaKept(before.value, after.value)
            && AvailableStatus(before.value) == AvailableStatus(after.value)
    ensures before.Some? && !before.value.Registration? ==> AvailableStatus(before.value).None?
  {
    hide AvailableCondition;
  }

  /** Metadata of every object, and kind, are those of the cluster last delivered. */
  predicate SameMeta(a: Cluster, b: Cluster) {
    && a.Keys == b.Keys
    && forall k :: k in a ==> a[k].meta == b[k].meta && OwnerReferences(a[k]) == OwnerReferences(b[k])
  }

  lemma DroppedKeepsMeta(c: Cluster, e: Event)
    requires !Delivered(c, e)
    ensures SameMeta(Apply(c, e), c)
  {
    hide AvailableCondition;
    if SameKind(c[e.key], e.item) {
      assert c[e.key].meta == e.item.meta;
    }
  }

  lemma {:induction false} MetaSince(c: Cluster, events: seq<Event>, mark: Cluster)
    requires SameMeta(c, mark)
    ensures SameMeta(Run(c, events), LastDelivered(c, events, mark))
    decreases |events|
  {
    hide Apply, Delivered;
    if events != [] {
      var next := Apply(c, events[0]);
      if Delivered(c, events[0]) {
        MetaSince(next, events[1..], next);
      } else {
        DroppedKeepsMeta(c, events[0]);
        MetaSince(next, events[1..], mark);
      }
    }
  }

  /** No edit goes unseen: after any sequence of events the generation, labels, annotations and
      owners of every object are those at the last delivered event. */
  lemma NoMissedEdit(c: Cluster, events: seq<Event>)
    ensures SameMeta(Run(c, events), LastDelivered(c, events, c))
  {
    MetaSince(c, events, c);
  }

  // ----- the text of the verdict ----------------------------------------------------------

  /** Services that the predicates cannot tell apart. */
  predicate Alike(a: (string, APIService), b: (string, APIService)) {
    && a.0 == b.0 && a.1.owners == b.1.owners
    && (AvailableCondition(a.1.conditions).Some? <==> AvailableCondition(b.1.conditions).Some?)
    && (IsAvailable(a.1) <==> IsAvailable(b.1))
  }

  predicate AllAlike(a: seq<(string, APIService)>, b: seq<(string, APIService)>) {
    |a| == |b| && forall i :: 0 <= i < |a| ==> Alike(a[i], b[i])
  }

  lemma {:induction false} OwnedAlike(a: seq<(string, APIService)>, b: seq<(string, APIService)>, uid: string)
    requires AllAlike(a, b)
    ensures AllAlike(OwnedBy(a, uid), OwnedBy(b, uid))
    decreases |a|
  {
    hide IsAvailable, AvailableCondition;
    if a != [] { OwnedAlike(a[1..], b[1..], uid); }
  }

  lemma {:induction false} BlockingAlike(a: seq<(string, APIService)>, b: seq<(string, APIService)>)
    requires AllAlike(a, b)
    ensures FirstBlocking(a).None? <==> FirstBlocking(b).None?
    ensures FirstBlocking(a).Some? ==> Alike(FirstBlocking(a).value, FirstBlocking(b).value)
    decreases |a|
  {
    hide IsAvailable, AvailableCondition;
    if a != [] { BlockingAlike(a[1..], b[1..]); }
  }

  lemma {:induction false} ListingAlike(c: Cluster, n: Cluster, order: seq<string>)
    requires n.Keys == c.Keys
    requires forall k :: k in c ==>
               && SameKind(n[k], c[k]) && OwnerReferences(n[k]) == OwnerReferences(c[k])
               && AvailableStatus(n[k]) == AvailableStatus(c[k])
    ensures AllAlike(Listing(c, order), Listing(n, order))
  {
    hide AvailableCondition;
    if order != [] { ListingAlike(c, n, order[1..]); }
  }

  /** The owned service whose complaint the status carries. */
  function Blocking(c: Cluster, order: seq<string>, uid: string): Option<(string, APIService)> {
    FirstBlocking(OwnedBy(Listing(c, order), uid))
  }

  /** The first owned service that is not available says why, in its Available condition. */
  predicate Explained(c: Cluster, order: seq<string>, uid: string) {
    var s := Blocking(c, order, uid);
    s.Some? && AvailableCondition(s.value.1.conditions).Some?
  }

  /** After a dropped update the same service blocks, with a condition or without. */
  lemma DroppedBlocking(c: Cluster, e: Event, order: seq<string>, uid: string)
    requires !Delivered(c, e)
    ensures var n := Apply(c, e);
            && AllAlike(OwnedBy(Listing(c, order), uid), OwnedBy(Listing(n, order), uid))
            && (Blocking(c, order, uid).None? <==> Blocking(n, order, uid).None?)
            && (Blocking(c, order, uid).Some? ==> Alike(Blocking(c, order, uid).value, Blocking(n, order, uid).value))
            && (Explained(c, order, uid) <==> Explained(n, order, uid))
  {
    hide Apply, Delivered, AvailableCondition, IsAvailable, Listing, OwnedBy, FirstBlocking;
    var n := Apply(c, e);
    DroppedAgrees(c, e);
    ListingAlike(c, n, order);
    OwnedAlike(Listing(c, order), Listing(n, order), uid);
    BlockingAlike(OwnedBy(Listing(c, order), uid), OwnedBy(Listing(n, order), uid));
  }

  lemma {:induction false} ListingFrom(c: Cluster, order: seq<string>, s: (string, APIService))
    requires s in Listing(c, order)
    ensures s.0 in c && c[s.0].Registration? && c[s.0].service == s.1
  {
    if s in Listing(c, order[1..]) { ListingFrom(c, order[1..], s); }
  }

  lemma BlockingFrom(c: Cluster, order: seq<string>, uid: string)
    requires Blocking(c, order, uid).Some?
    ensures var s := Blocking(c, order, uid).value;
            && s.0 in c && c[s.0].Registration? && c[s.0].service == s.1
            && uid in s.1.owners && !IsAvailable(s.1)
  {
    hide Listing, OwnedBy, FirstBlocking, IsAvailable;
    FirstBlockingExact(OwnedBy(Listing(c, order), uid));
    OwnedExact(Listing(c, order), uid);
    ListingFrom(c, order, Blocking(c, order, uid).value);
  }

  /** A service that is not available can get any other message in a dropped update. */
  lemma MessageChanges(c: Cluster, key: string, message: string) returns (item: Object)
    requires key in c && c[key].Registration? && AvailableCondition(c[key].service.conditions).Some?
    ensures !Delivered(c, Update(key, item)) && Apply(c, Update(key, item)) == c[key := item]
    ensures item.Registration? && AvailableCondition(item.service.conditions).Some?
    ensures AvailableCondition(item.service.conditions).value.message == message
  {
    var was := AvailableCondition(c[key].service.conditions).value;
    AvailableKind(c[key].service.conditions);
    var conditions := [was.(message := message)];
    assert AvailableCondition(conditions) == Some(conditions[0]);
    item := c[key].(service := c[key].service.(conditions := conditions));
  }

  lemma {:induction false} AvailableKind(cs: seq<ServiceCondition>)
    ensures AvailableCondition(cs).Some? ==> AvailableCondition(cs).value.kind == AVAILABLE
  {
    if cs != [] { AvailableKind(cs[1..]); }
  }

  lemma DroppedKeepsDetail(c: Cluster, e: Event, order: seq<string>, uid: string)
    requires !Delivered(c, e) && !Explained(c, order, uid)
    ensures StatusDetail(Apply(c, e), order, uid) == StatusDetail(c, order, uid)
  {
    hide Apply, Delivered, AvailableCondition, IsAvailable, Listing, OwnedBy, FirstBlocking;
    DroppedBlocking(c, e, order, uid);
  }

  /** The text in the status goes stale: if an owned service holds the shard up with a message
      of its own, some dropped update changes what the check says. */
  lemma ReasonMayGoStale(c: Cluster, order: seq<string>, uid: string) returns (e: Event)
    requires Explained(c, order, uid)
    ensures !Delivered(c, e) && StatusDetail(Apply(c, e), order, uid) != StatusDetail(c, order, uid)
  {
    hide AvailableCondition, IsAvailable, Listing, OwnedBy, FirstBlocking, Delivered, Apply;
    var s := Blocking(c, order, uid).value;
    BlockingFrom(c, order, uid);
    var message := AvailableCondition(s.1.conditions).value.message;
    var item := MessageChanges(c, s.0, message + "!");
    e := Update(s.0, item);
    DroppedBlocking(c, e, order, uid);
    var n := Apply(c, e);
    BlockingFrom(n, order, uid);
    var before, after := Complaint(s.0, s.1), Complaint(s.0, item.service);
    assert |after| == |before| + 1;
  }

  /** What the check says is safe from dropped updates exactly when no owned service holds the
      shard up with a message of its own: none is owned, all are available, or the first that
      is not has no Available condition. */
  lemma DetailExact(c: Cluster, order: seq<string>, uid: string)
    ensures (forall e :: !Delivered(c, e) ==> StatusDetail(Apply(c, e), order, uid) == StatusDetail(c, order, uid))
            <==> !Explained(c, order, uid)
  {
    hide Delivered, Apply, StatusDetail, Explained;
    if Explained(c, order, uid) {
      var e := ReasonMayGoStale(c, order, uid);
    } else {
      forall e | !Delivered(c, e) ensures StatusDetail(Apply(c, e), order, uid) == StatusDetail(c, order, uid) {
        DroppedKeepsDetail(c, e, order, uid);
      }
    }
  }

  /** Both clusters make the check say the same, unless a service explains itself in both. */
  predicate SaysSame(c: Cluster, mark: Cluster, order: seq<string>, uid: string) {
    && (Explained(c, order, uid) <==> Explained(mark, order, uid))
    && (!Explained(mark, order, uid) ==> StatusDetail(c, order, uid) == StatusDetail(mark, order, uid))
  }

  lemma {:induction false} DetailSince(c: Cluster, events: seq<Event>, mark: Cluster, order: seq<string>, uid: string)
    requires SaysSame(c, mark, order, uid)
    ensures SaysSame(Run(c, events), LastDelivered(c, events, mark), order, uid)
    decreases |events|
  {
    hide Apply, Delivered, StatusDetail, Explained;
    if events != [] {
      var next := Apply(c, events[0]);
      if Delivered(c, events[0]) {
        DetailSince(next, events[1..], next, order, uid);
      } else {
        DroppedBlocking(c, events[0], order, uid);
        if !Explained(c, order, uid) { DroppedKeepsDetail(c, events[0], order, uid); }
        DetailSince(next, events[1..], mark, order, uid);
      }
    }
  }

  /** After any sequence of events the text is the one of the last delivered event, unless an
      owned service held the shard up with a message of its own then. */
  lemma DetailKept(c: Cluster, events: seq<Event>, order: seq<string>, uid: string)
    ensures SaysSame(Run(c, events), LastDelivered(c, events, c), order, uid)
  {
    DetailSince(c, events, c, order, uid);
  }
}
