/** ClientProvider: the cache of clients for secondary API servers. First the object as
    one caller sees it, then any number of threads interleaving at every lock operation
    and every access to the map. */
module ClientCache {
  import opened Prelude
  import opened Fingerprint

  /** A client, and the configuration it was built from (none for an injected one). */
  datatype Client = Client(id: nat, config: Option<ClientConfig>)

  datatype Entry = Entry(client: Client, host: string, mark: Bytes, pinned: bool)

  /** The test GetOrCreate makes, before and after it takes the write lock. */
  predicate Usable(e: Entry, cfg: ClientConfig, mark: Bytes) {
    e.pinned || (e.host == cfg.host && e.mark == mark)
  }

  predicate Hit(clients: map<string, Entry>, key: string, cfg: ClientConfig, mark: Bytes) {
    key in clients && Usable(clients[key], cfg, mark)
  }

  function NewEntry(client: Client, cfg: ClientConfig, mark: Bytes): Entry {
    Entry(client, cfg.host, mark, false)
  }

  /** An entry not pinned holds a client built for its host and fingerprint. */
  predicate Sound(hash: Bytes -> Bytes, e: Entry) {
    !e.pinned ==>
      && e.client.config.Some?
      && e.client.config.value.host == e.host && hash(Serialise(e.client.config.value)) == e.mark
  }

  /** A client built for the host and the fingerprint of a configuration. */
  predicate BuiltFor(hash: Bytes -> Bytes, client: Client, cfg: ClientConfig) {
    && client.config.Some?
    && client.config.value.host == cfg.host && hash(Serialise(client.config.value)) == hash(Serialise(cfg))
  }

  /** With an injective hash a NUL-free configuration is the only one with its fingerprint. */
  lemma BuiltForExact(hash: Bytes -> Bytes, cfg: ClientConfig)
    requires Injective(hash) && NulFree(cfg)
    ensures forall client :: BuiltFor(hash, client, cfg) ==> client.config == Some(cfg)
  {
    forall client | BuiltFor(hash, client, cfg) ensures client.config == Some(cfg) {
      assert Serialise(client.config.value) == Serialise(cfg);
      NulFreeUnique(cfg, client.config.value);
    }
  }

  // ----- the object ------------------------------------------------------------

  class ClientProvider {
    const hash: Bytes -> Bytes
    var clients: map<string, Entry>
    var built: nat

    ghost predicate Valid()
      reads this
    {
      forall k :: k in clients ==> Sound(hash, clients[k])
    }

    constructor (hash: Bytes -> Bytes)
      ensures Valid() && clients == map[] && built == 0 && this.hash == hash
    {
      this.hash, clients, built := hash, map[], 0;
    }

    /** GetOrCreate; `refused` is the error of client.New, should it be reached. The
        client is the pinned one or was built for the same host and fingerprint; nothing
        is built on a hit, nothing is cached on a failure, other keys are untouched. */
    method GetOrCreate(key: string, cfg: ClientConfig, refused: bool) returns (client: Option<Client>)
      requires Valid()
      modifies this
      ensures Valid()
      ensures Hit(old(clients), key, cfg, hash(Serialise(cfg))) ==>
                client == Some(old(clients)[key].client) && clients == old(clients) && built == old(built)
      ensures !Hit(old(clients), key, cfg, hash(Serialise(cfg))) ==>
                && (client.None? <==> refused)
                && (refused ==> clients == old(clients))
                && (client.Some? ==>
                      && client.value == Client(old(built), Some(cfg)) && built == old(built) + 1
                      && clients == old(clients)[key := NewEntry(client.value, cfg, hash(Serialise(cfg)))])
      ensures client.Some? ==>
                Hit(clients, key, cfg, hash(Serialise(cfg))) && clients[key].client == client.value
      // what Valid() is for: the caller gets a pinned client or one made for what it asked for
      ensures client.Some? ==> clients[key].pinned || BuiltFor(hash, client.value, cfg)
      ensures client.Some? && Injective(hash) && NulFree(cfg) ==>
                clients[key].pinned || client.value.config == Some(cfg)
    {
      if Injective(hash) && NulFree(cfg) { BuiltForExact(hash, cfg); }
      var mark := hash(Serialise(cfg));
      if key in clients && Usable(clients[key], cfg, mark) { return Some(clients[key].client); }
      if refused { return None; }
      var c := Client(built, Some(cfg));
      built := built + 1;
      clients := clients[key := NewEntry(c, cfg, mark)];
      return Some(c);
    }

    /** InjectClientForTest: from then on every caller of the key gets this client. */
    method InjectClientForTest(key: string, client: Client)
      requires Valid()
      modifies this`clients
      ensures Valid()
      ensures clients == old(clients)[key := Entry(client, "", [], true)]
      ensures forall cfg: ClientConfig :: Hit(clients, key, cfg, hash(Serialise(cfg)))
    {
      clients := clients[key := Entry(client, "", [], true)];
    }

    /** Invalidate: the next caller of the key gets a new client. */
    method Invalidate(key: string)
      requires Valid()
      modifies this`clients
      ensures Valid()
      ensures clients == old(clients) - {key}
      ensures forall cfg: ClientConfig :: !Hit(clients, key, cfg, hash(Serialise(cfg)))
    {
      clients := clients - {key};
    }
  }

  // ----- threads ---------------------------------------------------------------------

  datatype Op = Get(key: string, cfg: ClientConfig) | Inject(key: string, client: Client) | Drop(key: string)

  datatype Thread =
    | Outside
    | Arrived(op: Op)                                  // GetOrCreate before RLock
    | Reading(op: Op)                                  // holds the read lock
    | Looked(op: Op, seen: Option<Entry>)              // released it, about to test what it saw
    | Waiting(op: Op)                                  // before Lock
    | Writing(op: Op)                                  // holds the write lock
    | Missed(op: Op)                                   // holds it, tested again, about to build
    | Built(op: Op, client: Client)                    // holds it, about to store
    | Returned(op: Op, client: Client)
    | Finished(op: Op)                                 // failed, or an operation without a result

  /** `made` lists the clients built so far with the key they were built for, `injected`
      those handed in from outside. */
  datatype State = State(
    clients: map<string, Entry>, writer: Option<nat>, readers: set<nat>,
    threads: map<nat, Thread>, made: seq<(string, Client)>, injected: set<(string, Client)>)

  datatype Event = Start(thread: nat, op: Op) | Step(thread: nat, refused: bool)

  const EMPTY := State(map[], None, {}, map[], [], {})

  function At(s: State, t: nat): Thread {
    if t in s.threads then s.threads[t] else Outside
  }

  function Go(s: State, t: nat, to: Thread): State {
    s.(threads := s.threads[t := to])
  }

  predicate Resting(thread: Thread) {
    thread.Outside? || thread.Returned? || thread.Finished?
  }

  predicate Holds(thread: Thread) {
    thread.Writing? || thread.Missed? || thread.Built?
  }

  function Release(s: State, t: nat, to: Thread): State {
    Go(s, t, to).(writer := None)
  }

  /** One step of thread `t`; a thread that finds the lock taken stays where it is. */
  function StepThread(hash: Bytes -> Bytes, s: State, t: nat, refused: bool): State {
    match At(s, t)
    case Arrived(op) =>
      if s.writer.Some? then s else Go(s, t, Reading(op)).(readers := s.readers + {t})
    case Reading(op) =>
      Go(s, t, Looked(op, if op.key in s.clients then Some(s.clients[op.key]) else None)).(readers := s.readers - {t})
    case Looked(Get(key, cfg), seen) =>
      if seen.Some? && Usable(seen.value, cfg, hash(Serialise(cfg)))
      then Go(s, t, Returned(Get(key, cfg), seen.value.client))
      else Go(s, t, Waiting(Get(key, cfg)))
    case Waiting(op) =>
      if s.writer.Some? || s.readers != {} then s else Go(s, t, Writing(op)).(writer := Some(t))
    case Writing(Get(key, cfg)) =>
      if Hit(s.clients, key, cfg, hash(Serialise(cfg)))
      then Release(s, t, Returned(Get(key, cfg), s.clients[key].client))
      else Go(s, t, Missed(Get(key, cfg)))
    case Writing(Inject(key, client)) =>
      Release(s, t, Finished(Inject(key, client)))
      .(clients := s.clients[key := Entry(client, "", [], true)], injected := s.injected + {(key, client)})
    case Writing(Drop(key)) =>
      Release(s, t, Finished(Drop(key))).(clients := s.clients - {key})
    case Missed(Get(key, cfg)) =>
      if refused then Release(s, t, Finished(Get(key, cfg)))
      else
        var client := Client(|s.made|, Some(cfg));
        Go(s, t, Built(Get(key, cfg), client)).(made := s.made + [(key, client)])
    case Built(Get(key, cfg), client) =>
      Release(s, t, Returned(Get(key, cfg), client))
        .(clients := s.clients[key := NewEntry(client, cfg, hash(Serialise(cfg)))])
    case _ => s
  }

  function Next(hash: Bytes -> Bytes, s: State, e: Event): State {
    match e
    case Start(t, op) =>
      if !Resting(At(s, t)) then s else Go(s, t, if op.Get? then Arrived(op) else Waiting(op))
    case Step(t, refused) => StepThread(hash, s, t, refused)
  }

  function Run(hash: Bytes -> Bytes, s: State, events: seq<Event>): State
    decreases |events|
  {
    if events == [] then s else Run(hash, Next(hash, s, events[0]), events[1..])
  }

  // ----- the invariant -----------------------------------------------------------------

  /** The lock excludes: one holder at most, and no reader beside it. */
  ghost predicate Locked(s: State) {
    && (forall t: nat :: Holds(At(s, t)) <==> s.writer == Some(t))
    && (forall t: nat :: At(s, t).Reading? <==> t in s.readers)
    && (s.writer.Some? ==> s.readers == {})
  }

  /** The entry a client handed out for `key` and `cfg` may come from. */
  ghost predicate Proper(hash: Bytes -> Bytes, s: State, key: string, cfg: ClientConfig, client: Client) {
    (key, client) in s.injected || BuiltFor(hash, client, cfg)
  }

  ghost predicate EntryOk(hash: Bytes -> Bytes, s: State, key: string, e: Entry) {
    Sound(hash, e) && (e.pinned ==> (key, e.client) in s.injected)
  }

  /** What is known about a thread from where it stands. */
  ghost predicate ThreadOk(hash: Bytes -> Bytes, s: State, thread: Thread) {
    match thread
    case Arrived(op) => op.Get?
    case Reading(op) => op.Get?
    case Looked(op, seen) => op.Get? && (seen.Some? ==> EntryOk(hash, s, op.key, seen.value))
    case Missed(op) => op.Get? && !Hit(s.clients, op.key, op.cfg, hash(Serialise(op.cfg)))
    case Built(op, client) =>
      op.Get? && !Hit(s.clients, op.key, op.cfg, hash(Serialise(op.cfg))) && client.config == Some(op.cfg)
    case Returned(op, client) => op.Get? && Proper(hash, s, op.key, op.cfg, client)
    case _ => true
  }

  ghost predicate Inv(hash: Bytes -> Bytes, s: State) {
    && Locked(s)
    && (forall k :: k in s.clients ==> EntryOk(hash, s, k, s.clients[k]))
    && (forall t :: t in s.threads ==> ThreadOk(hash, s, s.threads[t]))
  }

  lemma StepLocked(hash: Bytes -> Bytes, s: State, e: Event)
    requires Locked(s)
    ensures Locked(Next(hash, s, e))
  {
    hide Usable, Hit, Serialise;
  }

  lemma OthersStay(hash: Bytes -> Bytes, s: State, e: Event, n: State)
    requires n == Next(hash, s, e)
    ensures forall t :: t in n.threads && t != e.thread ==> t in s.threads && n.threads[t] == s.threads[t]
  {
    hide Serialise, Usable, Hit, NewEntry, Holds, Resting;
  }

  lemma EntriesKeep(hash: Bytes -> Bytes, s: State, e: Event)
    requires Inv(hash, s)
    ensures var n := Next(hash, s, e);
            s.injected <= n.injected && forall k :: k in n.clients ==> EntryOk(hash, n, k, n.clients[k])
  {
    hide Serialise, Locked;
    if e.thread in s.threads { assert ThreadOk(hash, s, s.threads[e.thread]); }
  }

  lemma StepperOk(hash: Bytes -> Bytes, s: State, e: Event)
    requires Inv(hash, s)
    ensures var n := Next(hash, s, e); e.thread in n.threads ==> ThreadOk(hash, n, n.threads[e.thread])
  {
    hide Serialise, Locked;
    if e.thread in s.threads { assert ThreadOk(hash, s, s.threads[e.thread]); }
  }

  /** Only the holder of the write lock changes the map, so the others' knowledge stays. */
  lemma BystanderOk(hash: Bytes -> Bytes, s: State, e: Event, t: nat)
    requires Inv(hash, s) && t != e.thread
    ensures var n := Next(hash, s, e); t in n.threads ==> ThreadOk(hash, n, n.threads[t])
  {
    hide Serialise, Usable;
    var n := Next(hash, s, e);
    OthersStay(hash, s, e, n);
    if t in n.threads {
      assert ThreadOk(hash, s, s.threads[t]);
      if Holds(At(s, t)) { assert n.clients == s.clients; }
    }
  }

  lemma StepKeeps(hash: Bytes -> Bytes, s: State, e: Event)
    requires Inv(hash, s)
    ensures Inv(hash, Next(hash, s, e))
  {
    hide Next, ThreadOk, EntryOk, Locked;
    StepLocked(hash, s, e);
    EntriesKeep(hash, s, e);
    StepperOk(hash, s, e);
    forall t: nat | t != e.thread { BystanderOk(hash, s, e, t); }
  }

  lemma {:induction false} RunKeeps(hash: Bytes -> Bytes, s: State, events: seq<Event>)
    requires Inv(hash, s)
    ensures Inv(hash, Run(hash, s, events))
    decreases |events|
  {
    hide Inv, Next;
    if events != [] {
      StepKeeps(hash, s, events[0]);
      RunKeeps(hash, Next(hash, s, events[0]), events[1..]);
    }
  }

  // ----- theorems over all interleavings ---------------------------------------------------

  /** For any number of threads and any interleaving, a returned client is an injected
      one or was built from a configuration with the caller's host and fingerprint; with
      an injective hash and NUL-free credentials, from the caller's very configuration. */
  lemma ReturnsProper(hash: Bytes -> Bytes, events: seq<Event>, t: nat)
    ensures var s := Run(hash, EMPTY, events);
            At(s, t).Returned? ==>
              && At(s, t).op.Get?
              && Proper(hash, s, At(s, t).op.key, At(s, t).op.cfg, At(s, t).client)
              && (Injective(hash) && NulFree(At(s, t).op.cfg) ==>
                    (At(s, t).op.key, At(s, t).client) in s.injected || At(s, t).client.config == Some(At(s, t).op.cfg))
  {
    RunKeeps(hash, EMPTY, events);
    var s := Run(hash, EMPTY, events);
    if At(s, t).Returned? {
      assert ThreadOk(hash, s, s.threads[t]);
      var op, client := At(s, t).op, At(s, t).client;
      if Injective(hash) && NulFree(op.cfg) && (op.key, client) !in s.injected {
        NulFreeUnique(op.cfg, client.config.value);
      }
    }
  }

  /** What the holder of the write lock does to the map, and to no other key: an invalidation
      removes the entry, an injection pins its client, a build stores what was built, and a
      refused build or a late hit leaves the map alone. */
  lemma WritesExact(hash: Bytes -> Bytes, s: State, t: nat, refused: bool)
    requires Holds(At(s, t))
    ensures var n, thread := Next(hash, s, Step(t, refused)), At(s, t);
            && (forall k :: k != thread.op.key ==> (k in n.clients <==> k in s.clients))
            && (forall k :: k != thread.op.key && k in s.clients ==> n.clients[k] == s.clients[k])
            && (thread.Writing? && thread.op.Drop? ==> thread.op.key !in n.clients)
            && (thread.Writing? && thread.op.Inject? ==>
                  && thread.op.key in n.clients
                  && n.clients[thread.op.key] == Entry(thread.op.client, "", [], true)
                  && (thread.op.key, thread.op.client) in n.injected)
            && (thread.Built? && thread.op.Get? ==>
                  && thread.op.key in n.clients && !n.clients[thread.op.key].pinned
                  && n.clients[thread.op.key].client == thread.client
                  && n.clients[thread.op.key].host == thread.op.cfg.host
                  && n.clients[thread.op.key].mark == hash(Serialise(thread.op.cfg)))
            && ((thread.Missed? || (thread.Writing? && thread.op.Get?)) ==> n.clients == s.clients)
            && (thread.Missed? && thread.op.Get? && refused ==> n.made == s.made && At(n, t) == Finished(thread.op))
            && (thread.Missed? && thread.op.Get? && !refused ==> |n.made| == |s.made| + 1)
  {
    hide Serialise;
  }

  /** Over every run: once an invalidation is through, the entry is gone. */
  lemma DroppedIsGone(hash: Bytes -> Bytes, events: seq<Event>, t: nat, key: string)
    ensures var s := Run(hash, EMPTY, events);
            At(s, t) == Writing(Drop(key)) ==>
              var n := Next(hash, s, Step(t, false));
              key !in n.clients && At(n, t) == Finished(Drop(key)) && n.writer.None?
  {
    hide Run;
    var s := Run(hash, EMPTY, events);
    if At(s, t) == Writing(Drop(key)) { WritesExact(hash, s, t, false); }
  }

  /** A step changes a pinned entry only if it injects under that key or drops it. */
  lemma PinnedStays(hash: Bytes -> Bytes, events: seq<Event>, e: Event, key: string)
    ensures var s := Run(hash, EMPTY, events);
            key in s.clients && s.clients[key].pinned ==>
              var n := Next(hash, s, e);
              || (key in n.clients && n.clients[key] == s.clients[key])
              || (e.Step? && At(s, e.thread).Writing? && !At(s, e.thread).op.Get? && At(s, e.thread).op.key == key)
  {
    RunKeeps(hash, EMPTY, events);
    var s := Run(hash, EMPTY, events);
    if e.thread in s.threads { assert ThreadOk(hash, s, s.threads[e.thread]); }
  }

  // ----- one configuration, one client -------------------------------------------------------

  /** Every operation on `key` is a GetOrCreate with `cfg`. */
  predicate Uniform(key: string, cfg: ClientConfig, op: Op) {
    op.key == key ==> op == Get(key, cfg)
  }

  function MadeFor(made: seq<(string, Client)>, key: string): seq<Client> {
    if made == [] then [] else (if made[0].0 == key then [made[0].1] else []) + MadeFor(made[1..], key)
  }

  lemma {:induction false} MadeForAppend(made: seq<(string, Client)>, m: (string, Client), key: string)
    ensures MadeFor(made + [m], key) == MadeFor(made, key) + (if m.0 == key then [m.1] else [])
  {
    if made == [] {
      assert made + [m] == [m];
    } else {
      assert (made + [m])[1..] == made[1..] + [m];
      MadeForAppend(made[1..], m, key);
    }
  }

  predicate Building(s: State, key: string) {
    s.writer.Some? && At(s, s.writer.value).Built? && At(s, s.writer.value).op.key == key
  }

  ghost predicate UniformThreads(s: State, key: string, cfg: ClientConfig) {
    forall t :: t in s.threads && !s.threads[t].Outside? ==> Uniform(key, cfg, s.threads[t].op)
  }

  /** The clients made for `key`: the cached one, or the one its builder is about to store. */
  ghost predicate OneMade(hash: Bytes -> Bytes, s: State, key: string, cfg: ClientConfig) {
    && (key in s.clients ==>
          Usable(s.clients[key], cfg, hash(Serialise(cfg)))
          && MadeFor(s.made, key) == [s.clients[key].client] && !Building(s, key))
    && (Building(s, key) ==> MadeFor(s.made, key) == [At(s, s.writer.value).client])
    && (key !in s.clients && !Building(s, key) ==> MadeFor(s.made, key) == [])
  }

  /** Whoever saw or returned a client for `key` has the cached one. */
  predicate SeenOk(clients: map<string, Entry>, key: string, thread: Thread) {
    && (thread.Looked? && thread.op.key == key && thread.seen.Some? ==>
          key in clients && thread.seen.value == clients[key])
    && (thread.Returned? && thread.op.key == key ==> key in clients && thread.client == clients[key].client)
  }

  ghost predicate OneSeen(s: State, key: string) {
    forall t :: t in s.threads ==> SeenOk(s.clients, key, s.threads[t])
  }

  ghost predicate Single(hash: Bytes -> Bytes, s: State, key: string, cfg: ClientConfig) {
    UniformThreads(s, key, cfg) && OneMade(hash, s, key, cfg) && OneSeen(s, key)
  }

  lemma CachedStays(hash: Bytes -> Bytes, s: State, e: Event, key: string, cfg: ClientConfig)
    requires Inv(hash, s) && UniformThreads(s, key, cfg) && OneMade(hash, s, key, cfg)
    ensures key in s.clients ==> var n := Next(hash, s, e); key in n.clients && n.clients[key] == s.clients[key]
  {
    hide Serialise, Usable, MadeFor;
    if e.thread in s.threads { assert ThreadOk(hash, s, s.threads[e.thread]); }
  }

  /** A thread that does not hold the write lock leaves the map and the clients built alone. */
  lemma OneMadeAside(hash: Bytes -> Bytes, s: State, e: Event, key: string, cfg: ClientConfig)
    requires Inv(hash, s) && OneMade(hash, s, key, cfg)
    requires e.Start? || !Holds(At(s, e.thread))
    ensures OneMade(hash, Next(hash, s, e), key, cfg)
  {
    hide Serialise, MadeFor, Usable, ThreadOk, EntryOk;
    StepLocked(hash, s, e);
  }

  /** The holder of the lock builds at most once, and only where nothing is cached. */
  lemma OneMadeHolder(hash: Bytes -> Bytes, s: State, e: Event, key: string, cfg: ClientConfig)
    requires Inv(hash, s) && UniformThreads(s, key, cfg) && OneMade(hash, s, key, cfg)
    requires e.Step? && Holds(At(s, e.thread))
    ensures OneMade(hash, Next(hash, s, e), key, cfg)
  {
    hide Serialise, MadeFor;
    var n := Next(hash, s, e);
    assert ThreadOk(hash, s, s.threads[e.thread]);
    if |n.made| != |s.made| { MadeForAppend(s.made, n.made[|s.made|], key); }
  }

  lemma OneMadeKeeps(hash: Bytes -> Bytes, s: State, e: Event, key: string, cfg: ClientConfig)
    requires Inv(hash, s) && UniformThreads(s, key, cfg) && OneMade(hash, s, key, cfg)
    ensures OneMade(hash, Next(hash, s, e), key, cfg)
  {
    hide Inv, OneMade, Next, UniformThreads;
    if e.Step? && Holds(At(s, e.thread)) {
      OneMadeHolder(hash, s, e, key, cfg);
    } else {
      OneMadeAside(hash, s, e, key, cfg);
    }
  }

  lemma UniformKeeps(hash: Bytes -> Bytes, s: State, e: Event, key: string, cfg: ClientConfig)
    requires UniformThreads(s, key, cfg)
    requires e.Start? ==> Uniform(key, cfg, e.op)
    ensures UniformThreads(Next(hash, s, e), key, cfg)
  {
    hide Serialise, Usable, Hit, Uniform;
  }

  lemma StepperSeesCached(hash: Bytes -> Bytes, s: State, e: Event, key: string, n: State)
    requires n == Next(hash, s, e) && e.thread in n.threads
    requires e.thread in s.threads ==> SeenOk(s.clients, key, s.threads[e.thread])
    requires key in s.clients ==> key in n.clients && n.clients[key] == s.clients[key]
    ensures SeenOk(n.clients, key, n.threads[e.thread])
  {
    hide Serialise, Usable;
  }

  lemma OneSeenKeeps(hash: Bytes -> Bytes, s: State, e: Event, key: string, n: State)
    requires n == Next(hash, s, e) && OneSeen(s, key)
    requires key in s.clients ==> key in n.clients && n.clients[key] == s.clients[key]
    ensures OneSeen(n, key)
  {
    hide Next;
    OthersStay(hash, s, e, n);
    if e.thread in n.threads { StepperSeesCached(hash, s, e, key, n); }
  }

  lemma SingleKeeps(hash: Bytes -> Bytes, s: State, e: Event, key: string, cfg: ClientConfig)
    requires Inv(hash, s) && Single(hash, s, key, cfg)
    requires e.Start? ==> Uniform(key, cfg, e.op)
    ensures Single(hash, Next(hash, s, e), key, cfg)
  {
    hide Inv, OneMade, Next, OneSeen;
    OneMadeKeeps(hash, s, e, key, cfg);
    CachedStays(hash, s, e, key, cfg);
    UniformKeeps(hash, s, e, key, cfg);
    OneSeenKeeps(hash, s, e, key, Next(hash, s, e));
  }

  lemma {:induction false} RunSingle(hash: Bytes -> Bytes, s: State, events: seq<Event>, key: string, cfg: ClientConfig)
    requires Inv(hash, s) && Single(hash, s, key, cfg)
    requires forall e :: e in events && e.Start? ==> Uniform(key, cfg, e.op)
    ensures Single(hash, Run(hash, s, events), key, cfg)
    decreases |events|
  {
    hide Inv, Single, Next;
    if events != [] {
      assert events[0] in events;
      StepKeeps(hash, s, events[0]);
      SingleKeeps(hash, s, events[0], key, cfg);
      RunSingle(hash, Next(hash, s, events[0]), events[1..], key, cfg);
    }
  }

  /** If all callers of a key use one configuration and nobody injects or invalidates
      under it, at most one client is ever built for it, exactly one once somebody
      returned, and everybody gets that one. */
  lemma OneClient(hash: Bytes -> Bytes, events: seq<Event>, key: string, cfg: ClientConfig)
    requires forall e :: e in events && e.Start? ==> Uniform(key, cfg, e.op)
    ensures var s := Run(hash, EMPTY, events);
            && |MadeFor(s.made, key)| <= 1
            && forall t :: t in s.threads && s.threads[t].Returned? && s.threads[t].op.key == key ==>
                 MadeFor(s.made, key) == [s.threads[t].client]
  {
    RunSingle(hash, EMPTY, events, key, cfg);
  }

  // ----- the NUL-free condition is exact -------------------------------------------------------

  /** Thread `t` starts `op` and takes `n` steps, alone. */
  function Alone(t: nat, op: Op, n: nat): seq<Event> {
    [Start(t, op)] + seq(n, _ => Step(t, false))
  }

  function Steps(hash: Bytes -> Bytes, s: State, t: nat, n: nat): State
    decreases n
  {
    if n == 0 then s else Steps(hash, StepThread(hash, s, t, false), t, n - 1)
  }

  lemma {:induction false} StepsAreRun(hash: Bytes -> Bytes, s: State, t: nat, n: nat)
    ensures Run(hash, s, seq(n, _ => Step(t, false))) == Steps(hash, s, t, n)
    decreases n
  {
    hide StepThread;
    if n > 0 {
      assert seq(n, _ => Step(t, false))[1..] == seq(n - 1, _ => Step(t, false));
      StepsAreRun(hash, StepThread(hash, s, t, false), t, n - 1);
    }
  }

  lemma AloneRuns(hash: Bytes -> Bytes, s: State, t: nat, op: Op, n: nat)
    ensures Run(hash, s, Alone(t, op, n)) == Steps(hash, Next(hash, s, Start(t, op)), t, n)
  {
    hide Next;
    assert Alone(t, op, n)[1..] == seq(n, _ => Step(t, false));
    StepsAreRun(hash, Next(hash, s, Start(t, op)), t, n);
  }

  lemma {:induction false} RunSplit(hash: Bytes -> Bytes, s: State, a: seq<Event>, b: seq<Event>)
    ensures Run(hash, s, a + b) == Run(hash, Run(hash, s, a), b)
    decreases |a|
  {
    hide Next;
    if a == [] {
      assert a + b == b;
    } else {
      assert (a + b)[1..] == a[1..] + b;
      RunSplit(hash, Next(hash, s, a[0]), a[1..], b);
    }
  }

  /** A lone caller that finds nothing comes to wait for the write lock. */
  lemma LoneLook(hash: Bytes -> Bytes, key: string, cfg: ClientConfig)
    ensures var op := Get(key, cfg);
            Steps(hash, Next(hash, EMPTY, Start(0, op)), 0, 7)
            == Steps(hash, EMPTY.(threads := map[0 := Waiting(op)]), 0, 4)
  {
    hide Serialise;
    var op := Get(key, cfg);
    var s0 := Next(hash, EMPTY, Start(0, op));
    assert s0 == EMPTY.(threads := map[0 := Arrived(op)]);
    var s1 := StepThread(hash, s0, 0, false);
    assert s1 == EMPTY.(threads := map[0 := Reading(op)], readers := {0});
    var s2 := StepThread(hash, s1, 0, false);
    assert s2 == EMPTY.(threads := map[0 := Looked(op, None)]);
    var s3 := StepThread(hash, s2, 0, false);
    assert s3 == EMPTY.(threads := map[0 := Waiting(op)]);
    StepsFirst(hash, s0, 0, 7);
    StepsFirst(hash, s1, 0, 6);
    StepsFirst(hash, s2, 0, 5);
  }

  lemma StepsFirst(hash: Bytes -> Bytes, s: State, t: nat, n: nat)
    requires n > 0
    ensures Steps(hash, s, t, n) == Steps(hash, StepThread(hash, s, t, false), t, n - 1)
  {
    hide StepThread;
  }

  lemma LoneMiss(hash: Bytes -> Bytes, key: string, cfg: ClientConfig)
    ensures var client := Client(0, Some(cfg));
            Run(hash, EMPTY, Alone(0, Get(key, cfg), 7))
            == State(map[key := NewEntry(client, cfg, hash(Serialise(cfg)))], None, {},
                     map[0 := Returned(Get(key, cfg), client)], [(key, client)], {})
  {
    hide Serialise, Steps, Run;
    var op, client := Get(key, cfg), Client(0, Some(cfg));
    AloneRuns(hash, EMPTY, 0, op, 7);
    LoneLook(hash, key, cfg);
    var s3 := EMPTY.(threads := map[0 := Waiting(op)]);
    var s4 := StepThread(hash, s3, 0, false);
    assert s4 == EMPTY.(threads := map[0 := Writing(op)], writer := Some(0));
    var s5 := StepThread(hash, s4, 0, false);
    assert s5 == EMPTY.(threads := map[0 := Missed(op)], writer := Some(0));
    var s6 := StepThread(hash, s5, 0, false);
    assert s6 == EMPTY.(threads := map[0 := Built(op, client)], writer := Some(0), made := [(key, client)]);
    StepsFirst(hash, s3, 0, 4);
    StepsFirst(hash, s4, 0, 3);
    StepsFirst(hash, s5, 0, 2);
    StepsFirst(hash, s6, 0, 1);
    StepsNone(hash, StepThread(hash, s6, 0, false), 0);
  }

  lemma StepsNone(hash: Bytes -> Bytes, s: State, t: nat)
    ensures Steps(hash, s, t, 0) == s
  {
  }

  lemma LoneHit(hash: Bytes -> Bytes, s: State, key: string, cfg: ClientConfig)
    requires s.writer.None? && Resting(At(s, 1)) && Hit(s.clients, key, cfg, hash(Serialise(cfg)))
    ensures At(Run(hash, s, Alone(1, Get(key, cfg), 3)), 1) == Returned(Get(key, cfg), s.clients[key].client)
    ensures Run(hash, s, Alone(1, Get(key, cfg), 3)).injected == s.injected
  {
    hide Serialise;
    var op := Get(key, cfg);
    AloneRuns(hash, s, 1, op, 3);
    var s0 := Next(hash, s, Start(1, op));
    var s1 := StepThread(hash, s0, 1, false);
    var s2 := StepThread(hash, s1, 1, false);
    assert At(s2, 1) == Looked(op, Some(s.clients[key]));
    StepsFirst(hash, s0, 1, 3);
    StepsFirst(hash, s1, 1, 2);
    StepsFirst(hash, s2, 1, 1);
  }

  /** A client is what the caller would have built: the same REST configuration. */
  predicate AsBuilt(client: Client, cfg: ClientConfig) {
    client.config.Some? && Rest(client.config.value) == Rest(cfg)
  }

  /** The cache agrees with building a client directly, for a configuration and with an
      injective hash, exactly when the configuration is NUL-free: otherwise some run hands its
      caller a client that connects with another CA or another token. */
  lemma ProperExactlyIfNulFree(hash: Bytes -> Bytes, key: string, cfg: ClientConfig)
    requires Injective(hash)
    ensures (forall events, t ::
               var s := Run(hash, EMPTY, events);
               At(s, t).Returned? && At(s, t).op == Get(key, cfg) ==>
                 (key, At(s, t).client) in s.injected || At(s, t).client.config == Some(cfg))
            <==> NulFree(cfg)
    ensures (forall events, t ::
               var s := Run(hash, EMPTY, events);
               At(s, t).Returned? && At(s, t).op == Get(key, cfg) ==>
                 (key, At(s, t).client) in s.injected || AsBuilt(At(s, t).client, cfg))
            <==> NulFree(cfg)
  {
    if NulFree(cfg) {
      forall events, t ensures
        var s := Run(hash, EMPTY, events);
        At(s, t).Returned? && At(s, t).op == Get(key, cfg) ==>
          (key, At(s, t).client) in s.injected || At(s, t).client.config == Some(cfg)
      {
        ReturnsProper(hash, events, t);
      }
    } else {
      var other := NulTwin(cfg);
      var first, second := Alone(0, Get(key, other), 7), Alone(1, Get(key, cfg), 3);
      LoneMiss(hash, key, other);
      var s := Run(hash, EMPTY, first);
      LoneHit(hash, s, key, cfg);
      RunSplit(hash, EMPTY, first, second);
      var end := Run(hash, EMPTY, first + second);
      assert At(end, 1).Returned? && At(end, 1).client.config == Some(other);
    }
  }
}
