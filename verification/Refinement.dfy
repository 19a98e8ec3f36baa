/**
 The cache of keys that ImageCache works with is what the store of KeyedStore holds at its locations, on either
 backend, after the very writes that an interleaving of operations performs.
 */
module Refinement {
  import opened Wrappers
  import opened Text
  import opened Names
  import opened Manifests
  import opened StorageKeys
  import opened KeyedStore
  import opened ImageCache
  import opened PrePull
  import opened CacheWrites
  import opened Interleaving
  import Closure
  import SequentialRuns

  // ----- the writes of a play, in the order in which they are performed -----

  function Performs(s: State, a: Action): seq<CacheWrite> {
    if a.Begin? || a.task >= |s.tasks| then []
    else
      var x := Performed(s.tasks[a.task], a);
      if x.Some? then [x.value] else []
  }

  function LogOf(w: World, s: State, actions: seq<Action>): seq<CacheWrite>
    decreases |actions|
  {
    if actions == [] then [] else Performs(s, actions[0]) + LogOf(w, Next(w, s, actions[0]), actions[1..])
  }

  lemma {:induction false} CacheIsItsLog(w: World, s: State, actions: seq<Action>)
    ensures Play(w, s, actions).cache == ApplyWrites(s.cache, LogOf(w, s, actions))
    decreases |actions|
  {
    if actions != [] {
      var n := Next(w, s, actions[0]);
      CacheIsItsLog(w, n, actions[1..]);
      ApplyInTurn(s.cache, Performs(s, actions[0]), LogOf(w, n, actions[1..]));
      if Performs(s, actions[0]) != [] {
        var x := Performs(s, actions[0])[0];
        ThreeWrites(s.cache, x, x, x);
      }
    }
  }

  // ----- the same writes on the store -----

  // What a write of the cache is to the store: done, cut short, or nothing.
  function Operation(encode: string -> Bytes, x: CacheWrite): seq<KeyedStore.Op> {
    match x.fate
    case Written => [Write(x.key, if x.PutData? then x.data else encode(x.digest))]
    case CutShort(n) => [Torn(x.key, if x.PutData? then Cut(x.data, n) else encode(Cut(x.digest, n)))]
    case Lost => []
  }

  function Operations(encode: string -> Bytes, writes: seq<CacheWrite>): seq<KeyedStore.Op> {
    if writes == [] then [] else Operation(encode, writes[0]) + Operations(encode, writes[1..])
  }

  // What the cache holds under a canonical key; a mapping is stored as the bytes of its digest.
  function Value(c: Cache, encode: string -> Bytes, k: Key): Option<Bytes> {
    if !k.Tag? then Read(c, k)
    else if k in c.tags then Some(encode(c.tags[k]))
    else None
  }

  // After this log a store holds exactly the cache, for every key that interferes with no other.
  ghost predicate Logs(backend: Backend, encode: string -> Bytes, c: Cache, log: seq<KeyedStore.Op>) {
    && (forall op | op in log :: Proper(backend, op.key))
    && (forall k: Key | Proper(backend, k) :: Latest(backend, log, k) == Value(c, encode, Canon(k)))
  }

  // The write is under a proper key, and ends as it can on this backend: objects are written or not.
  predicate ProperWrite(backend: Backend, x: CacheWrite) {
    && Proper(backend, x.key) && (x.PutMapping? <==> x.key.Tag?)
    && (backend.ObjectStore? ==> !x.fate.CutShort?)
  }

  lemma SameKeyAtomic(backend: Backend, k: Key, j: Key)
    ensures Canon(k) == Canon(j) ==> Atomic(backend, k) == Atomic(backend, j)
  {
  }

  // One operation on a key, with what the cache holds afterwards.
  lemma OperationIsLogged(backend: Backend, encode: string -> Bytes, c: Cache, log: seq<KeyedStore.Op>, d: Cache, op: KeyedStore.Op)
    requires Logs(backend, encode, c, log) && Proper(backend, op.key)
    requires forall j: Key | j != Canon(op.key) :: Value(d, encode, j) == Value(c, encode, j)
    requires Value(d, encode, Canon(op.key)) == LeftBy(backend, op, op.key, Value(c, encode, Canon(op.key)))
    ensures Logs(backend, encode, d, log + [op])
  {
    var more := log + [op];
    assert more[..|log|] == log;
    forall k: Key | Proper(backend, k) ensures Latest(backend, more, k) == Value(d, encode, Canon(k)) {
      SameKeyAtomic(backend, k, op.key);
    }
  }

  lemma WriteIsLogged(backend: Backend, encode: string -> Bytes, c: Cache, log: seq<KeyedStore.Op>, x: CacheWrite)
    requires Logs(backend, encode, c, log) && ProperWrite(backend, x)
    ensures Logs(backend, encode, ApplyWrite(c, x), log + Operation(encode, x))
  {
    if x.fate.Lost? {
      assert log + [] == log;
    } else {
      ProperNeverInterferes(backend, x.key, x.key);
      OperationIsLogged(backend, encode, c, log, ApplyWrite(c, x), Operation(encode, x)[0]);
    }
  }

  lemma {:induction false} WritesAreLogged(backend: Backend, encode: string -> Bytes, c: Cache, log: seq<KeyedStore.Op>, writes: seq<CacheWrite>)
    requires Logs(backend, encode, c, log) && forall x | x in writes :: ProperWrite(backend, x)
    ensures Logs(backend, encode, ApplyWrites(c, writes), log + Operations(encode, writes))
    decreases |writes|
  {
    if writes == [] {
      assert log + [] == log;
    } else {
      assert writes[0] in writes;
      WriteIsLogged(backend, encode, c, log, writes[0]);
      WritesAreLogged(backend, encode, ApplyWrite(c, writes[0]), log + Operation(encode, writes[0]), writes[1..]);
      Regroup(log, Operation(encode, writes[0]), Operations(encode, writes[1..]));
    }
  }

  /** After such a log, reads at the locations of proper keys return what the cache holds. */
  lemma LoggedIsRead(backend: Backend, encode: string -> Bytes, c: Cache, log: seq<KeyedStore.Op>, k: Key)
    requires Logs(backend, encode, c, log) && Proper(backend, k)
    ensures Lookup(backend, Run(backend, log), k) == Value(c, encode, Canon(k))
  {
    forall op | op in log ensures !Interferes(backend, op.key, k) {
      ProperNeverInterferes(backend, op.key, k);
    }
    ReadsItsOwnLastWrite(backend, log, k);
  }

  // ----- the keys in use -----

  predicate ProperRepo(repo: Repo) {
    && IsPart(repo.registry) && IsRepository(repo.repository)
    && var n := |repo.repository|; n < 7 || repo.repository[n - 7..] != "/sha256"
  }

  predicate ProperBlob(digest: string) {
    IsPart(StripSha(digest)) && !EndsInTmp(StripSha(digest))
  }

  // The digests in every manifest make proper keys.
  ghost predicate ProperDigests(w: World) {
    forall b: Bytes | w.parse(b).Some? ::
      && (w.parse(b).value.manifests.Some? ==>
            forall e | e in w.parse(b).value.manifests.value && e.digest.Some? :: '/' !in e.digest.value)
      && (ExtractedDigests(w.parse(b).value).Some? ==>
            forall digest | digest in ExtractedDigests(w.parse(b).value).value :: ProperBlob(digest))
  }

  // A write to an object store is done or not done.
  ghost predicate FatesOf(backend: Backend, fate: Key -> Fate) {
    backend.ObjectStore? ==> forall k :: !fate(k).CutShort?
  }

  // The operation uses proper keys, and its writes end as they can on this backend.
  ghost predicate ProperOp(backend: Backend, op: Closure.Op) {
    match op
    case Pull(image, env) =>
      var parsed := ParseImageReference(image);
      ProperRepo(PrePullParse(parsed.name)) && '/' !in parsed.reference && FatesOf(backend, env.fate)
    case Get(name, reference, _, io) => ProperRepo(HandlerParse(name)) && '/' !in reference && FatesOf(backend, io.fate)
    case Head(name, reference, _, io) => ProperRepo(HandlerParse(name)) && '/' !in reference && FatesOf(backend, io.fate)
    case Download(digest, _, _) => ProperBlob(digest)
  }

  ghost predicate ProperAction(backend: Backend, a: Action) {
    a.Begin? ==> ProperOp(backend, a.op)
  }

  predicate AllProper(backend: Backend, writes: seq<CacheWrite>) {
    forall x | x in writes :: ProperWrite(backend, x)
  }

  predicate ProperBlobTask(backend: Backend, blob: BlobTask) {
    ProperBlob(blob.digest) && (blob.Storing? ==> AllProper(backend, blob.writes))
  }

  ghost predicate ProperTask(backend: Backend, w: World, t: Task) {
    && AllProper(backend, Own(t))
    && (t.Pulling? ==> ProperRepo(t.repo) && FatesOf(backend, t.env.fate) && Honest(w, t.env))
    && (t.Pulling? && t.stage.Layers? ==> forall blob | blob in t.stage.blobs :: ProperBlobTask(backend, blob))
  }

  ghost predicate ProperState(backend: Backend, w: World, s: State) {
    forall t | t in s.tasks :: ProperTask(backend, w, t)
  }

  lemma StoreWritesProper(backend: Backend, w: World, repo: Repo, reference: string, r: Response, body: Bytes, legacy: bool, fate: Key -> Fate)
    requires HashPrints(w) && ProperRepo(repo) && '/' !in reference && FatesOf(backend, fate)
    requires Success(r) && r.body == Some(body) && HonestResponse(w, reference, r)
    ensures AllProper(backend, StoreWrites(w, repo, reference, r, body, legacy, fate))
  {
  }

  lemma FetchWritesProper(backend: Backend, w: World, c: Cache, repo: Repo, reference: string, x: Exchange, io: IO)
    requires HashPrints(w) && ProperRepo(repo) && '/' !in reference && FatesOf(backend, io.fate) && HonestExchange(w, reference, x)
    ensures AllProper(backend, FetchWrites(w, c, repo, reference, x, io))
  {
    var r := Settle(x);
    if r.Ok? && r.value.body.Some? {
      StoreWritesProper(backend, w, repo, reference, r.value, r.value.body.value, true, io.fate);
    }
  }

  lemma FillWritesProper(backend: Backend, w: World, name: string, reference: string, x: Exchange, r: Option<Response>, fate: Key -> Fate)
    requires HashPrints(w) && ProperRepo(HandlerParse(name)) && '/' !in reference && FatesOf(backend, fate)
    requires HonestExchange(w, reference, x) && (r.Some? ==> Success(r.value) && HandlerResponse(x) == Ok(r.value))
    ensures AllProper(backend, FillWrites(w, name, reference, r, fate))
  {
    if r.Some? && r.value.body.Some? {
      StoreWritesProper(backend, w, HandlerParse(name), reference, r.value, r.value.body.value, false, fate);
    }
  }

  lemma {:induction false} AttemptWritesProper(backend: Backend, digest: string, env: Env, attempt: nat)
    requires ProperBlob(digest) && FatesOf(backend, env.fate) && 1 <= attempt <= ATTEMPTS
    ensures AllProper(backend, AttemptWrites(digest, env, attempt))
    decreases ATTEMPTS - attempt
  {
    if attempt < ATTEMPTS {
      AttemptWritesProper(backend, digest, env, attempt + 1);
    }
  }

  lemma StartIsProper(backend: Backend, w: World, c: Cache, op: Closure.Op)
    requires HashPrints(w) && ProperOp(backend, op) && Closure.HonestOp(w, op)
    ensures ProperTask(backend, w, Start(w, c, op))
  {
    match op
    case Pull(image, env) =>
      var q := StartQuery(op).value;
      FetchWritesProper(backend, w, c, q.repo, q.reference, q.exchange, q.io);
    case Get(name, reference, x, io) => FillWritesProper(backend, w, name, reference, x, Storable(w, x), io.fate);
    case Head(name, reference, x, io) => FillWritesProper(backend, w, name, reference, x, HeadStorable(x), io.fate);
    case Download(_, _, _) =>
  }

  lemma StartLayersProper(backend: Backend, w: World, t: Task, fetched: Bytes, image: Bytes)
    requires ProperDigests(w) && t.Pulling? && ProperTask(backend, w, t)
    ensures ProperTask(backend, w, t.(stage := StartLayers(w, fetched, image, t.env)))
  {
    var m := w.parse(image);
    if m.Some? && ExtractedDigests(m.value).Some? {
      var order := t.env.order(Elements(ExtractedDigests(m.value).value));
      forall blob | blob in AllWaiting(order) ensures ProperBlobTask(backend, blob) {
        assert blob.digest in order;
      }
    }
  }

  lemma ChooseProper(backend: Backend, w: World, c: Cache, t: Task, fetched: Bytes)
    requires HashPrints(w) && ProperDigests(w) && t.Pulling? && ProperTask(backend, w, t)
    ensures ProperTask(backend, w, t.(stage := Choose(w, c, t.repo, fetched, t.env)))
  {
    var m, digest := w.parse(fetched), SecondReference(w, fetched);
    if m.Some? && !IsIndex(m.value) {
      StartLayersProper(backend, w, t, fetched, fetched);
    } else if digest.Some? {
      ChosenIsListed(m.value.manifests.value, w.arch);
      FetchWritesProper(backend, w, c, t.repo, digest.value, t.env.manifest(1, digest.value), FetchIO(t.env, 1));
    }
  }

  lemma TaskStaysProper(backend: Backend, w: World, c: Cache, t: Task, a: Action)
    requires HashPrints(w) && ProperDigests(w) && ProperTask(backend, w, t)
    ensures ProperTask(backend, w, TaskAfter(w, c, t, a))
    ensures Performed(t, a).Some? ==> ProperWrite(backend, Performed(t, a).value)
  {
    match a
    case Proceed(_) =>
      if t.Pulling? && t.stage.Fetching? && t.stage.manifest.Ok? {
        ChooseProper(backend, w, c, t, t.stage.manifest.value);
      } else if t.Pulling? && t.stage.Choosing? && t.stage.manifest.Ok? {
        StartLayersProper(backend, w, t, t.stage.fetched, t.stage.manifest.value);
      }
    case LookBlobUp(_, j) =>
      if HasBlob(t, j) {
        assert BlobOf(t, j) in t.stage.blobs;
        AttemptWritesProper(backend, BlobOf(t, j).digest, t.env, 1);
      }
    case WriteBlob(_, j) =>
      if WritesBlob(t, j) {
        assert BlobOf(t, j) in t.stage.blobs;
      }
    case _ =>
  }

  lemma NextIsProper(backend: Backend, w: World, s: State, a: Action)
    requires HashPrints(w) && ProperDigests(w) && ProperState(backend, w, s) && ProperAction(backend, a) && HonestAction(w, a)
    ensures ProperState(backend, w, Next(w, s, a)) && AllProper(backend, Performs(s, a))
  {
    if a.Begin? {
      StartIsProper(backend, w, s.cache, a.op);
    } else if a.task < |s.tasks| {
      assert s.tasks[a.task] in s.tasks;
      TaskStaysProper(backend, w, s.cache, s.tasks[a.task], a);
    }
  }

  lemma {:induction false} LogIsProper(backend: Backend, w: World, s: State, actions: seq<Action>)
    requires HashPrints(w) && ProperDigests(w) && ProperState(backend, w, s)
    requires forall a | a in actions :: ProperAction(backend, a) && HonestAction(w, a)
    ensures AllProper(backend, LogOf(w, s, actions))
    decreases |actions|
  {
    if actions != [] {
      NextIsProper(backend, w, s, actions[0]);
      LogIsProper(backend, w, Next(w, s, actions[0]), actions[1..]);
    }
  }

  // ----- what the store holds -----

  // The store after the writes that were performed, each done, cut short or lost.
  function StoreAfter(backend: Backend, encode: string -> Bytes, w: World, actions: seq<Action>): map<string, Bytes> {
    Run(backend, Operations(encode, LogOf(w, START, actions)))
  }

  /** However operations whose names and digests make proper keys overlap, the very writes they perform, in that
      order, leave at the location of every proper key what the cache holds under it. */
  lemma PlayIsStored(backend: Backend, encode: string -> Bytes, w: World, actions: seq<Action>, k: Key)
    requires HashPrints(w) && ProperDigests(w) && Proper(backend, k)
    requires forall a | a in actions :: ProperAction(backend, a) && HonestAction(w, a)
    ensures Lookup(backend, StoreAfter(backend, encode, w, actions), k) == Value(Play(w, START, actions).cache, encode, Canon(k))
  {
    var log := LogOf(w, START, actions);
    LogIsProper(backend, w, START, actions);
    CacheIsItsLog(w, START, actions);
    assert Logs(backend, encode, EMPTY, []);
    WritesAreLogged(backend, encode, EMPTY, [], log);
    assert [] + Operations(encode, log) == Operations(encode, log);
    LoggedIsRead(backend, encode, Play(w, START, actions).cache, Operations(encode, log), k);
  }

  /** For the interleaving that runs operations one at a time, that is the cache of the run. */
  lemma RunIsStored(backend: Backend, encode: string -> Bytes, w: World, ops: seq<Closure.Op>) returns (actions: seq<Action>)
    requires HashPrints(w) && ProperDigests(w)
    requires forall op | op in ops :: ProperOp(backend, op) && Closure.HonestOp(w, op)
    ensures SequentialRuns.Begun(actions) == ops
    ensures Play(w, START, actions) == State(Closure.RunOps(w, EMPTY, ops), SequentialRuns.EndedTasks(w, ops))
    ensures forall k: Key | Proper(backend, k) ::
      Lookup(backend, StoreAfter(backend, encode, w, actions), k) == Value(Closure.RunOps(w, EMPTY, ops), encode, Canon(k))
  {
    actions := SequentialRuns.RunIsAPlay(w, ops);
    forall a | a in actions && a.Begin? ensures a.op in ops {
      SequentialRuns.AllBegun(actions, a);
    }
    forall k: Key | Proper(backend, k)
      ensures Lookup(backend, StoreAfter(backend, encode, w, actions), k) == Value(Closure.RunOps(w, EMPTY, ops), encode, Canon(k))
    {
      PlayIsStored(backend, encode, w, actions, k);
    }
  }
}
