/**
 The same operations without the assumption that they run one at a time: each first reads the cache, then does its
 writes one by one, a pull fetches, chooses and then pulls all its blobs at once, and any number of operations
 interleave.
 */
module Interleaving {
  import opened Wrappers
  import opened Text
  import opened Names
  import opened Manifests
  import opened StorageKeys
  import opened ImageCache
  import opened PrePull
  import opened Closure
  import opened CacheWrites
  import D = BlobDownload

  // A blob of a pull: not looked up yet, or with the writes it still has to do.
  datatype BlobTask =
    | Waiting(digest: string)
    | Storing(digest: string, writes: seq<CacheWrite>, result: Result<nat, PullError>)

  // A pull has looked up or been sent its first manifest, then that of the platform, then it pulls the blobs.
  datatype Stage =
    | Fetching(writes: seq<CacheWrite>, manifest: Result<Bytes, PullError>)
    | Choosing(fetched: Bytes, writes: seq<CacheWrite>, manifest: Result<Bytes, PullError>)
    | Layers(fetched: Bytes, image: Bytes, blobs: seq<BlobTask>)
    | Over(result: Result<Pulled, PullError>)

  // A request whose answer is settled, or a pull.
  datatype Task =
    | Filling(left: seq<CacheWrite>)
    | Pulling(repo: Repo, reference: string, env: Env, stage: Stage)

  datatype State = State(cache: Cache, tasks: seq<Task>)

  const START := State(EMPTY, [])

  datatype Action =
    | Begin(op: Op)
    | WriteNext(task: nat)
    | Proceed(task: nat)
    | LookBlobUp(task: nat, blob: nat)
    | WriteBlob(task: nat, blob: nat)

  function StartPull(w: World, c: Cache, repo: Repo, reference: string, env: Env): Task {
    var x, io := env.manifest(0, reference), FetchIO(env, 0);
    Pulling(repo, reference, env, Fetching(FetchWrites(w, c, repo, reference, x, io), FetchManifest(w, c, repo, reference, x, io).1))
  }

  function Start(w: World, c: Cache, op: Op): Task {
    match op
    case Pull(image, env) =>
      var parsed := ParseImageReference(image);
      StartPull(w, c, PrePullParse(parsed.name), parsed.reference, env)
    case Get(name, reference, x, io) => Filling(GetWrites(w, c, name, reference, x, io))
    case Head(name, reference, x, io) => Filling(HeadWrites(w, c, name, reference, x, io))
    case Download(digest, temp, request) => Filling(DownloadWrites(w, c, digest, temp, request))
  }

  // ----- the stages of a pull -----

  function StartLayers(w: World, fetched: Bytes, image: Bytes, env: Env): Stage {
    var m := w.parse(image);
    if m.None? then Over(Err(BadJson))
    else
      var digests := ExtractedDigests(m.value);
      if digests.None? then Over(Err(NoLayers)) else Layers(fetched, image, AllWaiting(env.order(Elements(digests.value))))
  }

  function AllWaiting(digests: seq<string>): seq<BlobTask> {
    seq(|digests|, i requires 0 <= i < |digests| => Waiting(digests[i]))
  }

  function Choose(w: World, c: Cache, repo: Repo, fetched: Bytes, env: Env): Stage {
    var m := w.parse(fetched);
    if m.None? then Over(Err(BadJson))
    else if !IsIndex(m.value) then StartLayers(w, fetched, fetched, env)
    else if m.value.manifests.None? then Over(Err(NoManifestsArray))
    else
      var digest := PrePullDigest(m.value.manifests.value, w.arch);
      if digest.None? then Over(Err(NoPlatform))
      else
        var x, io := env.manifest(1, digest.value), FetchIO(env, 1);
        Choosing(fetched, FetchWrites(w, c, repo, digest.value, x, io), FetchManifest(w, c, repo, digest.value, x, io).1)
  }

  predicate Done(blob: BlobTask) {
    blob.Storing? && blob.writes == []
  }

  function Total(blobs: seq<BlobTask>): nat {
    if blobs == [] then 0
    else
      var last := blobs[|blobs| - 1];
      Total(blobs[..|blobs| - 1]) + if last.Storing? && last.result.Ok? then last.result.value else 0
  }

  function Failures(blobs: seq<BlobTask>): nat {
    if blobs == [] then 0
    else
      var last := blobs[|blobs| - 1];
      Failures(blobs[..|blobs| - 1]) + if last.Storing? && last.result.Ok? then 0 else 1
  }

  function Finish(fetched: Bytes, image: Bytes, blobs: seq<BlobTask>): Result<Pulled, PullError> {
    if Failures(blobs) > 0 then Err(LayersFailed(Failures(blobs), |blobs|)) else Ok(Pulled(Total(blobs), fetched, image))
  }

  // A pull goes on when its writes are done, and ends when all its blobs are.
  function NextStage(w: World, c: Cache, repo: Repo, env: Env, stage: Stage): Stage {
    match stage
    case Fetching(writes, manifest) =>
      if writes != [] then stage
      else if manifest.Err? then Over(Err(manifest.error))
      else Choose(w, c, repo, manifest.value, env)
    case Choosing(fetched, writes, manifest) =>
      if writes != [] then stage
      else if manifest.Err? then Over(Err(manifest.error))
      else StartLayers(w, fetched, manifest.value, env)
    case Layers(fetched, image, blobs) =>
      if forall blob | blob in blobs :: Done(blob) then Over(Finish(fetched, image, blobs)) else stage
    case Over(_) => stage
  }

  // ----- actions -----

  // The writes a task does itself, one after the other.
  function Own(t: Task): seq<CacheWrite> {
    if t.Filling? then t.left
    else if t.stage.Fetching? || t.stage.Choosing? then t.stage.writes
    else []
  }

  function WithOwn(t: Task, writes: seq<CacheWrite>): Task {
    if t.Filling? then Filling(writes)
    else if t.stage.Fetching? || t.stage.Choosing? then t.(stage := t.stage.(writes := writes))
    else t
  }

  predicate HasBlob(t: Task, j: nat) {
    t.Pulling? && t.stage.Layers? && j < |t.stage.blobs|
  }

  function BlobOf(t: Task, j: nat): BlobTask
    requires HasBlob(t, j)
  {
    t.stage.blobs[j]
  }

  function WithBlob(t: Task, j: nat, blob: BlobTask): Task
    requires HasBlob(t, j)
  {
    t.(stage := t.stage.(blobs := t.stage.blobs[j := blob]))
  }

  predicate WritesBlob(t: Task, j: nat) {
    HasBlob(t, j) && BlobOf(t, j).Storing? && BlobOf(t, j).writes != []
  }

  // The write an action of this task does.
  function Performed(t: Task, a: Action): Option<CacheWrite> {
    match a
    case WriteNext(_) => if Own(t) != [] then Some(Own(t)[0]) else None
    case WriteBlob(_, j) => if WritesBlob(t, j) then Some(BlobOf(t, j).writes[0]) else None
    case _ => None
  }

  function CacheAfter(c: Cache, x: Option<CacheWrite>): Cache {
    if x.Some? then ApplyWrite(c, x.value) else c
  }

  function TaskAfter(w: World, c: Cache, t: Task, a: Action): Task {
    match a
    case Begin(_) => t
    case WriteNext(_) => if Own(t) != [] then WithOwn(t, Own(t)[1..]) else t
    case Proceed(_) => if t.Pulling? then t.(stage := NextStage(w, c, t.repo, t.env, t.stage)) else t
    case LookBlobUp(_, j) =>
      if HasBlob(t, j) && BlobOf(t, j).Waiting? then
        var digest := BlobOf(t, j).digest;
        WithBlob(t, j, Storing(digest, BlobWrites(c, digest, t.env), PullBlob(c, digest, t.env).1))
      else t
    case WriteBlob(_, j) =>
      if WritesBlob(t, j) then WithBlob(t, j, BlobOf(t, j).(writes := BlobOf(t, j).writes[1..])) else t
  }

  // An action that is not possible changes nothing.
  function Next(w: World, s: State, a: Action): State {
    if a.Begin? then s.(tasks := s.tasks + [Start(w, s.cache, a.op)])
    else if a.task >= |s.tasks| then s
    else
      var t := s.tasks[a.task];
      State(CacheAfter(s.cache, Performed(t, a)), s.tasks[a.task := TaskAfter(w, s.cache, t, a)])
  }

  function Play(w: World, s: State, actions: seq<Action>): State
    decreases |actions|
  {
    if actions == [] then s else Play(w, Next(w, s, actions[0]), actions[1..])
  }

  lemma {:induction false} PlayInTurn(w: World, s: State, a: seq<Action>, b: seq<Action>)
    ensures Play(w, s, a + b) == Play(w, Play(w, s, a), b)
    decreases |a|
  {
    if a == [] {
      assert a + b == b;
    } else {
      assert (a + b)[0] == a[0] && (a + b)[1..] == a[1..] + b;
      PlayInTurn(w, Next(w, s, a[0]), a[1..], b);
    }
  }

  // ----- honest upstreams -----

  // A write of a manifest by digest or of a blob is of the registry's content.
  predicate HonestWrite(w: World, x: CacheWrite) {
    match x
    case PutData(k, data, _) =>
      && !k.Tag? && !k.Chart?
      && (k.ByDigest? || k.Blob? ==> data == w.content("sha256:" + StripSha(k.digest)))
      && (k.Blob? ==> data != [])
    case PutMapping(k, _, _) => k.Tag?
  }

  // A write leaves a mapping of tag `k` to `digest` as it is.
  predicate Settled(x: CacheWrite, k: Key, digest: string) {
    x.PutMapping? && Canon(x.key) == k ==> x.digest == digest && !x.fate.CutShort?
  }

  predicate AllHonest(w: World, writes: seq<CacheWrite>) {
    forall x | x in writes :: HonestWrite(w, x)
  }

  predicate AllSettled(writes: seq<CacheWrite>, k: Key, digest: string) {
    forall x | x in writes :: Settled(x, k, digest)
  }

  // The blobs have only writes of this blob left.
  predicate BlobHonest(w: World, blob: BlobTask) {
    blob.Storing? ==> AllHonest(w, blob.writes) && forall x | x in blob.writes :: x.PutData?
  }

  ghost predicate HonestTask(w: World, t: Task) {
    && AllHonest(w, Own(t))
    && (t.Pulling? ==> Honest(w, t.env))
    && (t.Pulling? && t.stage.Layers? ==> forall blob | blob in t.stage.blobs :: BlobHonest(w, blob))
  }

  ghost predicate HonestState(w: World, s: State) {
    Contents(w, s.cache) && forall t | t in s.tasks :: HonestTask(w, t)
  }

  ghost predicate HonestAction(w: World, a: Action) {
    a.Begin? ==> HonestOp(w, a.op)
  }

  // What every other write leaves of what is cached, and of a mapping of `k` to `digest`.
  predicate Leaves(c: Cache, d: Cache, k: Key, digest: string) {
    && (forall o | o in c.objects && !o.Legacy? :: o in d.objects && d.objects[o] == c.objects[o])
    && (k in c.tags && c.tags[k] == digest ==> k in d.tags && d.tags[k] == digest)
  }

  lemma WriteLeaves(w: World, c: Cache, x: CacheWrite, k: Key, digest: string)
    requires Contents(w, c) && HonestWrite(w, x) && Settled(x, k, digest)
    ensures Contents(w, ApplyWrite(c, x)) && Leaves(c, ApplyWrite(c, x), k, digest)
  {
  }

  // ----- the writes are honest -----

  lemma StoreWritesHonest(w: World, repo: Repo, reference: string, r: Response, body: Bytes, legacy: bool, fate: Key -> Fate)
    requires HashPrints(w) && Success(r) && r.body == Some(body) && HonestResponse(w, reference, r)
    ensures AllHonest(w, StoreWrites(w, repo, reference, r, body, legacy, fate))
  {
    StripThenAdd(DigestOf(w, r, body));
  }

  lemma FetchWritesHonest(w: World, c: Cache, repo: Repo, reference: string, x: Exchange, io: IO)
    requires HashPrints(w) && HonestExchange(w, reference, x)
    ensures AllHonest(w, FetchWrites(w, c, repo, reference, x, io))
  {
    var r := Settle(x);
    if r.Ok? && r.value.body.Some? {
      StoreWritesHonest(w, repo, reference, r.value, r.value.body.value, true, io.fate);
    }
  }

  lemma FillWritesHonest(w: World, name: string, reference: string, x: Exchange, r: Option<Response>, fate: Key -> Fate)
    requires HashPrints(w) && HonestExchange(w, reference, x) && (r.Some? ==> Success(r.value) && HandlerResponse(x) == Ok(r.value))
    ensures AllHonest(w, FillWrites(w, name, reference, r, fate))
  {
    if r.Some? && r.value.body.Some? {
      StoreWritesHonest(w, HandlerParse(name), reference, r.value, r.value.body.value, false, fate);
    }
  }

  lemma {:induction false} AttemptWritesHonest(w: World, digest: string, env: Env, attempt: nat)
    requires Honest(w, env) && 1 <= attempt <= ATTEMPTS
    ensures forall x | x in AttemptWrites(digest, env, attempt) :: HonestWrite(w, x) && x.PutData? && x.key == Blob(digest)
    decreases ATTEMPTS - attempt
  {
    assert HonestBlob(w, digest, env.blob(digest, attempt));
    if attempt < ATTEMPTS {
      AttemptWritesHonest(w, digest, env, attempt + 1);
    }
  }

  lemma DownloadWritesHonest(w: World, c: Cache, op: Op)
    requires HashPrints(w) && op.Download? && HonestOp(w, op)
    ensures AllHonest(w, DownloadWrites(w, c, op.digest, op.temp, op.request))
  {
    CommittedIsContent(w, op.digest, D.Slot(op.temp, Read(c, BlobKey(op.digest))), op.request);
  }

  lemma StartIsHonest(w: World, c: Cache, op: Op)
    requires HashPrints(w) && HonestOp(w, op)
    ensures HonestTask(w, Start(w, c, op))
  {
    match op
    case Pull(image, env) =>
      var parsed := ParseImageReference(image);
      FetchWritesHonest(w, c, PrePullParse(parsed.name), parsed.reference, env.manifest(0, parsed.reference), FetchIO(env, 0));
    case Get(name, reference, x, io) => FillWritesHonest(w, name, reference, x, Storable(w, x), io.fate);
    case Head(name, reference, x, io) => FillWritesHonest(w, name, reference, x, HeadStorable(x), io.fate);
    case Download(_, _, _) => DownloadWritesHonest(w, c, op);
  }

  lemma ChooseIsHonest(w: World, c: Cache, t: Task, fetched: Bytes)
    requires HashPrints(w) && t.Pulling? && Honest(w, t.env)
    ensures HonestTask(w, t.(stage := Choose(w, c, t.repo, fetched, t.env)))
  {
    var digest := SecondReference(w, fetched);
    if digest.Some? {
      FetchWritesHonest(w, c, t.repo, digest.value, t.env.manifest(1, digest.value), FetchIO(t.env, 1));
    }
  }

  lemma TaskStaysHonest(w: World, c: Cache, t: Task, a: Action)
    requires HashPrints(w) && HonestTask(w, t)
    ensures HonestTask(w, TaskAfter(w, c, t, a))
    ensures Performed(t, a).Some? ==> HonestWrite(w, Performed(t, a).value)
  {
    match a
    case Proceed(_) =>
      if t.Pulling? && t.stage.Fetching? && t.stage.manifest.Ok? {
        ChooseIsHonest(w, c, t, t.stage.manifest.value);
      }
    case LookBlobUp(_, j) =>
      if HasBlob(t, j) {
        AttemptWritesHonest(w, BlobOf(t, j).digest, t.env, 1);
      }
    case WriteBlob(_, j) =>
      if WritesBlob(t, j) {
        assert BlobOf(t, j) in t.stage.blobs;
      }
    case _ =>
  }

  // ----- what is cached stays -----

  predicate SettledTask(t: Task, k: Key, digest: string) {
    AllSettled(Own(t), k, digest)
  }

  ghost predicate SettledState(s: State, k: Key, digest: string) {
    forall t | t in s.tasks :: SettledTask(t, k, digest)
  }

  // The action adds no write that maps `k` to another digest, or might leave it cut short.
  predicate ActionSettles(w: World, s: State, a: Action, k: Key, digest: string) {
    match a
    case Begin(op) => SettledTask(Start(w, s.cache, op), k, digest)
    case Proceed(i) => i < |s.tasks| ==> SettledTask(TaskAfter(w, s.cache, s.tasks[i], a), k, digest)
    case _ => true
  }

  predicate PlaySettles(w: World, s: State, actions: seq<Action>, k: Key, digest: string)
    decreases |actions|
  {
    actions == [] || (ActionSettles(w, s, actions[0], k, digest) && PlaySettles(w, Next(w, s, actions[0]), actions[1..], k, digest))
  }

  lemma TaskStaysSettled(w: World, c: Cache, t: Task, a: Action, k: Key, digest: string)
    requires HonestTask(w, t) && SettledTask(t, k, digest)
    requires a.Proceed? ==> SettledTask(TaskAfter(w, c, t, a), k, digest)
    ensures SettledTask(TaskAfter(w, c, t, a), k, digest)
    ensures Performed(t, a).Some? ==> Settled(Performed(t, a).value, k, digest)
  {
    if a.WriteBlob? && WritesBlob(t, a.blob) {
      assert BlobOf(t, a.blob) in t.stage.blobs && BlobOf(t, a.blob).writes[0] in BlobOf(t, a.blob).writes;
    }
  }

  // One action, whatever the other tasks have still to write.
  lemma NextLeaves(w: World, s: State, a: Action, k: Key, digest: string)
    requires HashPrints(w) && HonestState(w, s) && HonestAction(w, a)
    requires SettledState(s, k, digest) && ActionSettles(w, s, a, k, digest)
    ensures var n := Next(w, s, a);
      HonestState(w, n) && SettledState(n, k, digest) && Leaves(s.cache, n.cache, k, digest)
  {
    if a.Begin? {
      StartIsHonest(w, s.cache, a.op);
    } else if a.task < |s.tasks| {
      var t := s.tasks[a.task];
      assert t in s.tasks;
      TaskStaysHonest(w, s.cache, t, a);
      TaskStaysSettled(w, s.cache, t, a, k, digest);
      if Performed(t, a).Some? {
        WriteLeaves(w, s.cache, Performed(t, a).value, k, digest);
      }
      assert forall u | u in Next(w, s, a).tasks :: u in s.tasks || u == TaskAfter(w, s.cache, t, a);
    }
  }

  lemma {:induction false} PlayLeaves(w: World, s: State, actions: seq<Action>, k: Key, digest: string)
    requires HashPrints(w) && HonestState(w, s) && forall a | a in actions :: HonestAction(w, a)
    requires SettledState(s, k, digest) && PlaySettles(w, s, actions, k, digest)
    ensures var e := Play(w, s, actions);
      HonestState(w, e) && SettledState(e, k, digest) && Leaves(s.cache, e.cache, k, digest)
    decreases |actions|
  {
    if actions != [] {
      NextLeaves(w, s, actions[0], k, digest);
      PlayLeaves(w, Next(w, s, actions[0]), actions[1..], k, digest);
    }
  }

  // Nothing is mapped under a key that is not a tag.
  lemma NextSettlesNoTag(w: World, s: State, a: Action, k: Key)
    requires HashPrints(w) && HonestState(w, s) && HonestAction(w, a) && !k.Tag?
    ensures SettledState(s, k, "") && ActionSettles(w, s, a, k, "") && HonestState(w, Next(w, s, a))
  {
    forall t | t in s.tasks ensures SettledTask(t, k, "") {
      HonestSettlesNoTag(w, t, k);
    }
    if a.Begin? {
      StartIsHonest(w, s.cache, a.op);
      HonestSettlesNoTag(w, Start(w, s.cache, a.op), k);
    } else if a.task < |s.tasks| {
      TaskStaysHonest(w, s.cache, s.tasks[a.task], a);
      HonestSettlesNoTag(w, TaskAfter(w, s.cache, s.tasks[a.task], a), k);
    }
    NextLeaves(w, s, a, k, "");
  }

  lemma HonestSettlesNoTag(w: World, t: Task, k: Key)
    requires HonestTask(w, t) && !k.Tag?
    ensures SettledTask(t, k, "")
  {
  }

  lemma {:induction false} PlaySettlesNoTag(w: World, s: State, actions: seq<Action>, k: Key)
    requires HashPrints(w) && HonestState(w, s) && (forall a | a in actions :: HonestAction(w, a)) && !k.Tag?
    ensures SettledState(s, k, "") && PlaySettles(w, s, actions, k, "")
    decreases |actions|
  {
    if actions == [] {
      NextSettlesNoTag(w, s, Proceed(0), k);
    } else {
      NextSettlesNoTag(w, s, actions[0], k);
      PlaySettlesNoTag(w, Next(w, s, actions[0]), actions[1..], k);
    }
  }

  /** However operations overlap and whatever fails, as long as upstreams are honest no manifest by digest and no
      blob that is cached is lost or changed, and a reference that is served keeps being served the same if no
      operation under way or begun later writes another mapping for it. */
  lemma InterleavingsKeep(w: World, s: State, actions: seq<Action>, k: Key)
    requires HashPrints(w) && HonestState(w, s) && (forall a | a in actions :: HonestAction(w, a)) && Located(k)
    requires k.Tag? && ServeAt(w, s.cache, k).Some? ==>
      SettledState(s, k, s.cache.tags[k]) && PlaySettles(w, s, actions, k, s.cache.tags[k])
    ensures var e := Play(w, s, actions);
      && HonestState(w, e) && Keeps(w, s.cache, e.cache, k)
      && (ServeAt(w, s.cache, k).Some? ==> ServeAt(w, e.cache, k) == ServeAt(w, s.cache, k))
  {
    var e := Play(w, s, actions);
    if k.Tag? && ServeAt(w, s.cache, k).Some? {
      PlayLeaves(w, s, actions, k, s.cache.tags[k]);
    } else {
      var j := if k.Tag? then Blob("") else k;
      PlaySettlesNoTag(w, s, actions, j);
      PlayLeaves(w, s, actions, j, "");
    }
    if ServeAt(w, s.cache, k).Some? {
      KeptIsServed(w, s.cache, e.cache, k);
    }
  }

  // ----- what keeps a tag settled -----

  // A lookup of a reference, with what upstream would answer and what fails.
  datatype Query = Query(repo: Repo, reference: string, exchange: Exchange, io: IO)

  function StartQuery(op: Op): Option<Query> {
    match op
    case Pull(image, env) =>
      var parsed := ParseImageReference(image);
      Some(Query(PrePullParse(parsed.name), parsed.reference, env.manifest(0, parsed.reference), FetchIO(env, 0)))
    case Get(name, reference, x, io) => Some(Query(HandlerParse(name), reference, x, io))
    case Head(name, reference, x, io) => Some(Query(HandlerParse(name), reference, x, io))
    case Download(_, _, _) => None
  }

  // A pull that has a list goes on to look up the manifest of the platform.
  function NextQuery(w: World, t: Task): Option<Query> {
    if t.Pulling? && t.stage.Fetching? && t.stage.writes == [] && t.stage.manifest.Ok? then
      var digest := SecondReference(w, t.stage.manifest.value);
      if digest.Some? then Some(Query(t.repo, digest.value, t.env.manifest(1, digest.value), FetchIO(t.env, 1))) else None
    else None
  }

  // The lookup of a manifest that an action is.
  function QueryOf(w: World, s: State, a: Action): Option<Query> {
    match a
    case Begin(op) => StartQuery(op)
    case Proceed(i) => if i < |s.tasks| then NextQuery(w, s.tasks[i]) else None
    case _ => None
  }

  // No lookup of the tag that is held finds another digest upstream or is cut short writing the mapping.
  predicate PlayUnmoved(w: World, s: State, actions: seq<Action>, h: Hold)
    decreases |actions|
  {
    actions == [] ||
    (var q := QueryOf(w, s, actions[0]);
     && (q.Some? ==> LeavesMapping(w, q.value.repo, q.value.reference, q.value.exchange, q.value.io, h))
     && PlayUnmoved(w, Next(w, s, actions[0]), actions[1..], h))
  }

  // No lookup does that without being able to read what is held.
  predicate PlaySpares(w: World, s: State, actions: seq<Action>, h: Hold)
    decreases |actions|
  {
    actions == [] ||
    (var q := QueryOf(w, s, actions[0]);
     && (q.Some? ==> Spares(w, q.value.repo, q.value.reference, q.value.exchange, q.value.io, h))
     && PlaySpares(w, Next(w, s, actions[0]), actions[1..], h))
  }

  lemma StoreWritesSettled(w: World, repo: Repo, reference: string, x: Exchange, r: Response, legacy: bool, io: IO, h: Hold)
    requires h.key.Tag? && LeavesMapping(w, repo, reference, x, io, h)
    requires (x.first == Some(r) || x.retry == Some(r)) && Success(r) && r.body.Some?
    ensures AllSettled(StoreWrites(w, repo, reference, r, r.body.value, legacy, io.fate), h.key, h.digest)
  {
  }

  lemma FillSettles(w: World, name: string, reference: string, x: Exchange, io: IO, r: Option<Response>, h: Hold)
    requires h.key.Tag? && LeavesMapping(w, HandlerParse(name), reference, x, io, h)
    requires r.Some? ==> Success(r.value) && HandlerResponse(x) == Ok(r.value)
    ensures AllSettled(FillWrites(w, name, reference, r, io.fate), h.key, h.digest)
  {
    if r.Some? && r.value.body.Some? {
      StoreWritesSettled(w, HandlerParse(name), reference, x, r.value, false, io, h);
    }
  }

  lemma FetchSettles(w: World, c: Cache, repo: Repo, reference: string, x: Exchange, io: IO, h: Hold)
    requires h.key.Tag? && LeavesMapping(w, repo, reference, x, io, h)
    ensures AllSettled(FetchWrites(w, c, repo, reference, x, io), h.key, h.digest)
  {
    var r := Settle(x);
    if r.Ok? && r.value.body.Some? {
      StoreWritesSettled(w, repo, reference, x, r.value, true, io, h);
    }
  }

  lemma StartSettles(w: World, c: Cache, op: Op, h: Hold)
    requires h.key.Tag?
    requires var q := StartQuery(op); q.Some? ==> LeavesMapping(w, q.value.repo, q.value.reference, q.value.exchange, q.value.io, h)
    ensures SettledTask(Start(w, c, op), h.key, h.digest)
  {
    match op
    case Pull(image, env) =>
      var q := StartQuery(op).value;
      FetchSettles(w, c, q.repo, q.reference, q.exchange, q.io, h);
    case Get(name, reference, x, io) => FillSettles(w, name, reference, x, io, Storable(w, x), h);
    case Head(name, reference, x, io) => FillSettles(w, name, reference, x, io, HeadStorable(x), h);
    case Download(_, _, _) =>
  }

  // Only the lookup of the platform's manifest gives a pull that goes on something to write itself.
  lemma OwnAfterProceed(w: World, c: Cache, t: Task)
    requires t.Pulling?
    ensures var q := NextQuery(w, t);
      Own(t.(stage := NextStage(w, c, t.repo, t.env, t.stage))) ==
        if q.Some? then FetchWrites(w, c, q.value.repo, q.value.reference, q.value.exchange, q.value.io) else Own(t)
  {
  }

  lemma ProceedSettles(w: World, c: Cache, t: Task, a: Action, h: Hold)
    requires h.key.Tag? && a.Proceed? && SettledTask(t, h.key, h.digest)
    requires var q := NextQuery(w, t); q.Some? ==> LeavesMapping(w, q.value.repo, q.value.reference, q.value.exchange, q.value.io, h)
    ensures SettledTask(TaskAfter(w, c, t, a), h.key, h.digest)
  {
    var q := NextQuery(w, t);
    if t.Pulling? {
      OwnAfterProceed(w, c, t);
    }
    if q.Some? {
      FetchSettles(w, c, q.value.repo, q.value.reference, q.value.exchange, q.value.io, h);
    }
  }

  lemma QuerySettles(w: World, s: State, a: Action, h: Hold)
    requires h.key.Tag? && SettledState(s, h.key, h.digest)
    requires var q := QueryOf(w, s, a); q.Some? ==> LeavesMapping(w, q.value.repo, q.value.reference, q.value.exchange, q.value.io, h)
    ensures ActionSettles(w, s, a, h.key, h.digest)
  {
    if a.Begin? {
      StartSettles(w, s.cache, a.op, h);
    } else if a.Proceed? && a.task < |s.tasks| {
      ProceedSettles(w, s.cache, s.tasks[a.task], a, h);
    }
  }

  // A lookup that finds the tag served writes nothing.
  lemma SeenIsNotWritten(w: World, c: Cache, q: Query, k: Key)
    requires k.Tag? && ServeAt(w, c, k).Some? && Where(q.repo, q.reference) == k && Sees(ReadKeys(w, c, k), q.io.unreadable)
    ensures var v := Visible(c, q.io.unreadable);
      && ServeAt(w, v, Where(q.repo, q.reference)).Some? && LookupAt(v, Where(q.repo, q.reference)).Some?
      && PullLookup(v, q.repo, q.reference).Some?
  {
    SeesServed(w, c, q.io.unreadable, k);
  }

  lemma SeenSettles(w: World, s: State, a: Action, k: Key)
    requires k.Tag? && ServeAt(w, s.cache, k).Some? && QueryOf(w, s, a).Some?
    requires var q := QueryOf(w, s, a).value; Where(q.repo, q.reference) == k && Sees(ReadKeys(w, s.cache, k), q.io.unreadable)
    ensures ActionSettles(w, s, a, k, s.cache.tags[k])
  {
    SeenIsNotWritten(w, s.cache, QueryOf(w, s, a).value, k);
    if a.Proceed? {
      OwnAfterProceed(w, s.cache, s.tasks[a.task]);
    }
  }

  /** A tag stays settled if no operation that is begun on it, or goes on to it, finds it moved upstream or is cut
      short writing its mapping. */
  lemma {:induction false} UnmovedSettles(w: World, s: State, actions: seq<Action>, h: Hold)
    requires HashPrints(w) && HonestState(w, s) && forall a | a in actions :: HonestAction(w, a)
    requires h.key.Tag? && SettledState(s, h.key, h.digest) && PlayUnmoved(w, s, actions, h)
    ensures PlaySettles(w, s, actions, h.key, h.digest)
    decreases |actions|
  {
    if actions != [] {
      QuerySettles(w, s, actions[0], h);
      NextLeaves(w, s, actions[0], h.key, h.digest);
      UnmovedSettles(w, Next(w, s, actions[0]), actions[1..], h);
    }
  }

  /** While it is served, it also stays settled under operations that can read what is cached. */
  lemma {:induction false} SparingSettles(w: World, s: State, actions: seq<Action>, k: Key)
    requires HashPrints(w) && HonestState(w, s) && forall a | a in actions :: HonestAction(w, a)
    requires k.Tag? && ServeAt(w, s.cache, k).Some? && SettledState(s, k, s.cache.tags[k])
    requires PlaySpares(w, s, actions, HoldOf(w, s.cache, k))
    ensures PlaySettles(w, s, actions, k, s.cache.tags[k])
    decreases |actions|
  {
    if actions != [] {
      var a, n, h := actions[0], Next(w, s, actions[0]), HoldOf(w, s.cache, k);
      var q := QueryOf(w, s, a);
      if q.Some? && !LeavesMapping(w, q.value.repo, q.value.reference, q.value.exchange, q.value.io, h) {
        SeenSettles(w, s, a, k);
      } else {
        QuerySettles(w, s, a, h);
      }
      NextLeaves(w, s, a, k, s.cache.tags[k]);
      KeptIsServed(w, s.cache, n.cache, k);
      HeldStays(w, s.cache, n.cache, k);
      SparingSettles(w, n, actions[1..], k);
    }
  }

  // ----- uninterrupted tasks -----

  // A task by itself.
  datatype Solo = Solo(cache: Cache, task: Task)

  function Act(w: World, z: Solo, a: Action): Solo {
    Solo(CacheAfter(z.cache, Performed(z.task, a)), TaskAfter(w, z.cache, z.task, a))
  }

  function Acts(w: World, z: Solo, actions: seq<Action>): Solo
    decreases |actions|
  {
    if actions == [] then z else Acts(w, Act(w, z, actions[0]), actions[1..])
  }

  lemma {:induction false} ActsInTurn(w: World, z: Solo, a: seq<Action>, b: seq<Action>)
    ensures Acts(w, z, a + b) == Acts(w, Acts(w, z, a), b)
    decreases |a|
  {
    if a == [] {
      assert a + b == b;
    } else {
      assert (a + b)[0] == a[0] && (a + b)[1..] == a[1..] + b;
      ActsInTurn(w, Act(w, z, a[0]), a[1..], b);
    }
  }

  lemma OneAct(w: World, z: Solo, a: Action)
    ensures Acts(w, z, [a]) == Act(w, z, a)
  {
  }

  // All actions are of the task at `i`.
  ghost predicate ActsOf(actions: seq<Action>, i: nat) {
    forall a | a in actions :: !a.Begin? && a.task == i
  }

  function With(s: State, i: nat, z: Solo): State
    requires i < |s.tasks|
  {
    State(z.cache, s.tasks[i := z.task])
  }

  lemma {:induction false} ActsArePlayed(w: World, s: State, i: nat, actions: seq<Action>)
    requires i < |s.tasks| && ActsOf(actions, i)
    ensures Play(w, s, actions) == With(s, i, Acts(w, Solo(s.cache, s.tasks[i]), actions))
    decreases |actions|
  {
    if actions == [] {
      assert s.tasks[i := s.tasks[i]] == s.tasks;
    } else {
      var a := actions[0];
      assert a in actions;
      var n := Next(w, s, a);
      assert n == With(s, i, Act(w, Solo(s.cache, s.tasks[i]), a));
      ActsArePlayed(w, n, i, actions[1..]);
      var z := Acts(w, Solo(n.cache, n.tasks[i]), actions[1..]);
      assert n.tasks[i := z.task] == s.tasks[i := z.task];
    }
  }

  function Repeat(a: Action, n: nat): seq<Action> {
    seq(n, i requires 0 <= i < n => a)
  }

  // A task does all its own writes.
  lemma {:induction false} WritesAll(w: World, z: Solo, i: nat)
    ensures Acts(w, z, Repeat(WriteNext(i), |Own(z.task)|)) == Solo(ApplyWrites(z.cache, Own(z.task)), WithOwn(z.task, []))
    decreases |Own(z.task)|
  {
    var writes := Own(z.task);
    if writes != [] {
      var more, n := Repeat(WriteNext(i), |writes|), Act(w, z, WriteNext(i));
      assert n == Solo(ApplyWrite(z.cache, writes[0]), WithOwn(z.task, writes[1..])) && Own(n.task) == writes[1..];
      assert more[0] == WriteNext(i) && more[1..] == Repeat(WriteNext(i), |Own(n.task)|);
      WritesAll(w, n, i);
    }
  }

  // What a GET of a tag writes, the handler finds, whatever was written since it looked.
  lemma FillLands(w: World, c: Cache, name: string, tag: string, x: Exchange, io: IO)
    requires HashPrints(w) && HonestExchange(w, tag, x) && !IsDigest(tag) && Storable(w, x).Some? && NoFaults(io.fate)
    ensures var writes := FillWrites(w, name, tag, Storable(w, x), io.fate);
      |writes| == 2 && LookupAt(ApplyWrites(c, writes), Where(HandlerParse(name), tag)) == Storable(w, x).value.body
  {
    var r := Storable(w, x).value;
    StoreIsItsWrites(w, c, HandlerParse(name), tag, r, r.body.value, false, io.fate);
    StoredIsFound(w, c, HandlerParse(name), tag, r, r.body.value, false, io.fate);
  }

  lemma TwoBegun(w: World, a: Op, b: Op)
    ensures Play(w, START, [Begin(a), Begin(b)]) == State(EMPTY, [Start(w, EMPTY, a), Start(w, EMPTY, b)])
  {
    var one := Next(w, START, Begin(a));
    assert [Begin(a), Begin(b)][1..] == [Begin(b)];
    assert Play(w, one, [Begin(b)]) == Play(w, Next(w, one, Begin(b)), []) == Next(w, one, Begin(b));
  }

  lemma FillIsPlayed(w: World, s: State, i: nat, name: string, tag: string, x: Exchange, io: IO)
    requires HashPrints(w) && HonestExchange(w, tag, x) && !IsDigest(tag) && Storable(w, x).Some? && NoFaults(io.fate)
    requires i < |s.tasks| && s.tasks[i] == Filling(FillWrites(w, name, tag, Storable(w, x), io.fate))
    ensures var n := Play(w, s, Repeat(WriteNext(i), 2));
      LookupAt(n.cache, Where(HandlerParse(name), tag)) == Storable(w, x).value.body && n.tasks == s.tasks[i := Filling([])]
  {
    FillLands(w, s.cache, name, tag, x, io);
    WritesAll(w, Solo(s.cache, s.tasks[i]), i);
    ActsArePlayed(w, s, i, Repeat(WriteNext(i), 2));
  }

  /** The writes under way matter: of two GETs of one tag that find nothing, the one that asked upstream before the
      tag moved may write last, and then what was served anew is replaced by what is out of date. */
  lemma OvertakenFillMovesTagBack(w: World, name: string, tag: string, older: Exchange, newer: Exchange, io: IO)
    requires HashPrints(w) && HonestExchange(w, tag, older) && HonestExchange(w, tag, newer) && !IsDigest(tag)
    requires Storable(w, older).Some? && Storable(w, newer).Some? && NoFaults(io.fate)
    ensures var begun := Play(w, START, [Begin(Get(name, tag, older, io)), Begin(Get(name, tag, newer, io))]);
      var renewed := Play(w, begun, Repeat(WriteNext(1), 2));
      var k := Where(HandlerParse(name), tag);
      && LookupAt(renewed.cache, k) == Storable(w, newer).value.body
      && LookupAt(Play(w, renewed, Repeat(WriteNext(0), 2)).cache, k) == Storable(w, older).value.body
  {
    var a, b := Get(name, tag, older, io), Get(name, tag, newer, io);
    TwoBegun(w, a, b);
    var begun := State(EMPTY, [Start(w, EMPTY, a), Start(w, EMPTY, b)]);
    FillIsPlayed(w, begun, 1, name, tag, newer, io);
    FillIsPlayed(w, Play(w, begun, Repeat(WriteNext(1), 2)), 0, name, tag, older, io);
  }
}
