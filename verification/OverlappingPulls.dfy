/**
 A pull among any number of other operations that interleave with it: what it reports as pulled is served from the
 cache, and stays so.
 */
module OverlappingPulls {
  import opened Wrappers
  import opened Text
  import opened Names
  import opened Manifests
  import opened StorageKeys
  import opened ImageCache
  import opened PrePull
  import opened Closure
  import opened CacheWrites
  import opened Interleaving

  // ----- what is cached, or is still to be written -----

  predicate Fills(x: CacheWrite, o: Key) {
    x.PutData? && Canon(x.key) == o && x.fate.Written?
  }

  predicate Maps(x: CacheWrite, k: Key, digest: string) {
    x.PutMapping? && Canon(x.key) == k && x.digest == digest && x.fate.Written?
  }

  predicate Promised(c: Cache, writes: seq<CacheWrite>, o: Key) {
    o in c.objects || exists i | 0 <= i < |writes| :: Fills(writes[i], o)
  }

  predicate Mapped(c: Cache, writes: seq<CacheWrite>, k: Key, digest: string) {
    (k in c.tags && c.tags[k] == digest) || exists i | 0 <= i < |writes| :: Maps(writes[i], k, digest)
  }

  // Where the manifest of a reference is, if the reference, when it is a tag, is mapped to `digest`.
  function Source(k: Key, digest: string): (o: Key)
    requires Located(k)
    ensures o.ByDigest?
  {
    if k.ByDigest? then k else DigestKey(Repo(k.registry, k.repository), Trim(digest))
  }

  // Once these writes are done, the reference leads to `body`.
  predicate Found(w: World, c: Cache, writes: seq<CacheWrite>, k: Key, digest: string, body: Bytes)
    requires Located(k)
  {
    && Promised(c, writes, Source(k, digest))
    && body == w.content("sha256:" + Source(k, digest).digest)
    && (k.Tag? ==> Mapped(c, writes, k, digest))
  }

  lemma PromisedStays(c: Cache, d: Cache, writes: seq<CacheWrite>, o: Key, k: Key, digest: string)
    requires Leaves(c, d, k, digest) && Promised(c, writes, o) && !o.Legacy?
    ensures Promised(d, writes, o)
  {
  }

  lemma FoundStays(w: World, c: Cache, d: Cache, writes: seq<CacheWrite>, j: Key, held: string, k: Key, digest: string, body: Bytes)
    requires Located(j) && Leaves(c, d, k, digest) && Found(w, c, writes, j, held, body)
    requires j.Tag? ==> j == k && held == digest
    ensures Found(w, d, writes, j, held, body)
  {
  }

  lemma PromisedSteps(w: World, c: Cache, writes: seq<CacheWrite>, o: Key, k: Key, digest: string)
    requires Contents(w, c) && writes != [] && HonestWrite(w, writes[0]) && Settled(writes[0], k, digest)
    requires Promised(c, writes, o) && !o.Legacy?
    ensures Promised(ApplyWrite(c, writes[0]), writes[1..], o)
  {
    WriteLeaves(w, c, writes[0], k, digest);
    if o !in c.objects {
      var i :| 0 <= i < |writes| && Fills(writes[i], o);
      if i > 0 {
        assert writes[1..][i - 1] == writes[i];
      }
    }
  }

  lemma MappedSteps(w: World, c: Cache, writes: seq<CacheWrite>, k: Key, digest: string)
    requires Contents(w, c) && writes != [] && HonestWrite(w, writes[0]) && Settled(writes[0], k, digest)
    requires Mapped(c, writes, k, digest)
    ensures Mapped(ApplyWrite(c, writes[0]), writes[1..], k, digest)
  {
    WriteLeaves(w, c, writes[0], k, digest);
    if !(k in c.tags && c.tags[k] == digest) {
      var i :| 0 <= i < |writes| && Maps(writes[i], k, digest);
      if i > 0 {
        assert writes[1..][i - 1] == writes[i];
      }
    }
  }

  lemma FoundSteps(w: World, c: Cache, writes: seq<CacheWrite>, j: Key, held: string, k: Key, digest: string, body: Bytes)
    requires Located(j) && Contents(w, c) && writes != [] && HonestWrite(w, writes[0]) && Settled(writes[0], k, digest)
    requires Found(w, c, writes, j, held, body) && (j.Tag? ==> j == k && held == digest)
    ensures Found(w, ApplyWrite(c, writes[0]), writes[1..], j, held, body)
  {
    PromisedSteps(w, c, writes, Source(j, held), k, digest);
    if j.Tag? {
      MappedSteps(w, c, writes, k, digest);
    }
  }

  lemma FoundIsThere(w: World, c: Cache, k: Key, digest: string, body: Bytes)
    requires Located(k) && Contents(w, c) && Found(w, c, [], k, digest, body)
    ensures LookupAt(c, k) == Some(body)
  {
  }

  lemma ThereIsFound(w: World, c: Cache, writes: seq<CacheWrite>, k: Key, body: Bytes)
    requires Located(k) && Contents(w, c) && LookupAt(c, k) == Some(body)
    ensures Found(w, c, writes, k, if k in c.tags then c.tags[k] else "", body)
  {
  }

  // ----- one fetch -----

  // The digest a fetch finds its tag mapped to, or goes on to map it to.
  function MappedTo(w: World, c: Cache, repo: Repo, reference: string, x: Exchange, io: IO): string {
    var k, r := Where(repo, reference), Settle(x);
    if PullLookup(Visible(c, io.unreadable), repo, reference).Some? then if k in c.tags then c.tags[k] else ""
    else if r.Ok? && r.value.body.Some? then DigestOf(w, r.value, r.value.body.value)
    else ""
  }

  lemma HitIsThere(w: World, c: Cache, repo: Repo, reference: string, unreadable: Key -> bool)
    requires !SeesStaleCopy(c, repo, reference, unreadable) && PullLookup(Visible(c, unreadable), repo, reference).Some?
    ensures LookupAt(c, Where(repo, reference)) == PullLookup(Visible(c, unreadable), repo, reference)
  {
    SeenIsThere(w, c, unreadable, Where(repo, reference));
  }

  lemma StoreFinds(w: World, c: Cache, repo: Repo, reference: string, r: Response, body: Bytes, legacy: bool, fate: Key -> Fate)
    requires HashPrints(w) && Success(r) && r.body == Some(body) && HonestResponse(w, reference, r) && NoFaults(fate)
    ensures Found(w, c, StoreWrites(w, repo, reference, r, body, legacy, fate), Where(repo, reference), DigestOf(w, r, body), body)
  {
    var digest, k := DigestOf(w, r, body), Where(repo, reference);
    var writes := StoreWrites(w, repo, reference, r, body, legacy, fate);
    StripThenAdd(digest);
    DigestKeyFields(repo, digest);
    DigestKeyFields(repo, reference);
    assert Fills(writes[0], Source(k, digest));
    if !IsDigest(reference) {
      assert Maps(writes[1], k, digest);
    }
  }

  lemma FetchFinds(w: World, c: Cache, repo: Repo, reference: string, x: Exchange, io: IO)
    requires HashPrints(w) && Contents(w, c) && HonestExchange(w, reference, x) && NoFaults(io.fate)
    requires !SeesStaleCopy(c, repo, reference, io.unreadable) && FetchManifest(w, c, repo, reference, x, io).1.Ok?
    ensures Found(w, c, FetchWrites(w, c, repo, reference, x, io), Where(repo, reference), MappedTo(w, c, repo, reference, x, io),
                  FetchManifest(w, c, repo, reference, x, io).1.value)
  {
    if PullLookup(Visible(c, io.unreadable), repo, reference).Some? {
      HitIsThere(w, c, repo, reference, io.unreadable);
      ThereIsFound(w, c, [], Where(repo, reference), PullLookup(Visible(c, io.unreadable), repo, reference).value);
    } else {
      StoreFinds(w, c, repo, reference, Settle(x).value, Settle(x).value.body.value, true, io.fate);
    }
  }

  // ----- how far a pull has got -----

  // The image is what was fetched, or for a list that goes by digests, its platform's manifest.
  predicate ImageFound(w: World, c: Cache, writes: seq<CacheWrite>, repo: Repo, fetched: Bytes, image: Bytes) {
    var m := w.parse(fetched);
    && m.Some?
    && (!IsIndex(m.value) ==> image == fetched)
    && (IsIndex(m.value) && ListsByDigest(w, fetched) ==>
          var digest := SecondReference(w, fetched);
          digest.Some? && Found(w, c, writes, DigestKey(repo, digest.value), "", image))
  }

  predicate BlobFound(c: Cache, blob: BlobTask) {
    blob.Storing? && blob.result.Ok? ==> Promised(c, blob.writes, BlobKey(blob.digest))
  }

  // The blobs are all those to be pulled for the image.
  predicate BlobsOf(w: World, image: Bytes, blobs: seq<BlobTask>) {
    var m := w.parse(image);
    && m.Some? && ExtractedDigests(m.value).Some?
    && forall digest | digest in ExtractedDigests(m.value).value :: exists j | 0 <= j < |blobs| :: blobs[j].digest == digest
  }

  predicate BlobsCached(w: World, c: Cache, image: Bytes) {
    var m := w.parse(image);
    && m.Some? && ExtractedDigests(m.value).Some?
    && forall digest | digest in ExtractedDigests(m.value).value :: BlobKey(digest) in c.objects
  }

  predicate Progress(w: World, c: Cache, t: Task, digest: string)
    requires t.Pulling?
  {
    var k := Where(t.repo, t.reference);
    match t.stage
    case Fetching(writes, manifest) => manifest.Ok? ==> Found(w, c, writes, k, digest, manifest.value)
    case Choosing(fetched, writes, manifest) =>
      Found(w, c, [], k, digest, fetched) && (manifest.Ok? ==> ImageFound(w, c, writes, t.repo, fetched, manifest.value))
    case Layers(fetched, image, blobs) =>
      && Found(w, c, [], k, digest, fetched) && ImageFound(w, c, [], t.repo, fetched, image)
      && BlobsOf(w, image, blobs) && forall j | 0 <= j < |blobs| :: BlobFound(c, blobs[j])
    case Over(result) =>
      result.Ok? ==>
        && Found(w, c, [], k, digest, result.value.fetched)
        && ImageFound(w, c, [], t.repo, result.value.fetched, result.value.image)
        && BlobsCached(w, c, result.value.image)
  }

  lemma ImageFoundStays(w: World, c: Cache, d: Cache, writes: seq<CacheWrite>, repo: Repo, fetched: Bytes, image: Bytes, k: Key, digest: string)
    requires Leaves(c, d, k, digest) && ImageFound(w, c, writes, repo, fetched, image)
    ensures ImageFound(w, d, writes, repo, fetched, image)
  {
    if IsIndex(w.parse(fetched).value) && ListsByDigest(w, fetched) {
      FoundStays(w, c, d, writes, DigestKey(repo, SecondReference(w, fetched).value), "", k, digest, image);
    }
  }

  // What the others do does not set a pull back.
  lemma ProgressStays(w: World, c: Cache, d: Cache, t: Task, digest: string)
    requires t.Pulling? && Leaves(c, d, Where(t.repo, t.reference), digest) && Progress(w, c, t, digest)
    ensures Progress(w, d, t, digest)
  {
    var k := Where(t.repo, t.reference);
    match t.stage
    case Fetching(writes, manifest) =>
      if manifest.Ok? {
        FoundStays(w, c, d, writes, k, digest, k, digest, manifest.value);
      }
    case Choosing(fetched, writes, manifest) =>
      FoundStays(w, c, d, [], k, digest, k, digest, fetched);
      if manifest.Ok? {
        ImageFoundStays(w, c, d, writes, t.repo, fetched, manifest.value, k, digest);
      }
    case Layers(fetched, image, blobs) =>
      FoundStays(w, c, d, [], k, digest, k, digest, fetched);
      ImageFoundStays(w, c, d, [], t.repo, fetched, image, k, digest);
      BlobsStay(c, d, blobs, k, digest);
    case Over(result) =>
      if result.Ok? {
        FoundStays(w, c, d, [], k, digest, k, digest, result.value.fetched);
        ImageFoundStays(w, c, d, [], t.repo, result.value.fetched, result.value.image, k, digest);
      }
  }

  lemma BlobsStay(c: Cache, d: Cache, blobs: seq<BlobTask>, k: Key, digest: string)
    requires Leaves(c, d, k, digest) && forall j | 0 <= j < |blobs| :: BlobFound(c, blobs[j])
    ensures forall j | 0 <= j < |blobs| :: BlobFound(d, blobs[j])
  {
    forall j | 0 <= j < |blobs| ensures BlobFound(d, blobs[j]) {
      assert BlobFound(c, blobs[j]);
    }
  }

  // ----- the pull's own steps -----

  lemma StartLayersProgress(w: World, c: Cache, t: Task, digest: string, fetched: Bytes, image: Bytes)
    requires t.Pulling? && Honest(w, t.env)
    requires Found(w, c, [], Where(t.repo, t.reference), digest, fetched)
    requires w.parse(image).Some? ==> ImageFound(w, c, [], t.repo, fetched, image)
    ensures Progress(w, c, t.(stage := StartLayers(w, fetched, image, t.env)), digest)
  {
    var m := w.parse(image);
    if m.Some? && ExtractedDigests(m.value).Some? {
      var order := t.env.order(Elements(ExtractedDigests(m.value).value));
      var blobs := AllWaiting(order);
      forall d | d in ExtractedDigests(m.value).value ensures exists j | 0 <= j < |blobs| :: blobs[j].digest == d {
        assert d in Elements(ExtractedDigests(m.value).value);
        assert d in order;
        var j :| 0 <= j < |order| && order[j] == d;
        assert blobs[j].digest == d;
      }
    }
  }

  lemma ChooseProgress(w: World, c: Cache, t: Task, digest: string, fetched: Bytes)
    requires HashPrints(w) && Contents(w, c) && t.Pulling? && Honest(w, t.env) && NoFaults(t.env.fate)
    requires Found(w, c, [], Where(t.repo, t.reference), digest, fetched)
    ensures Progress(w, c, t.(stage := Choose(w, c, t.repo, fetched, t.env)), digest)
  {
    var m, second := w.parse(fetched), SecondReference(w, fetched);
    if m.Some? && !IsIndex(m.value) {
      StartLayersProgress(w, c, t, digest, fetched, fetched);
    } else if second.Some? && ListsByDigest(w, fetched) {
      var x, io := t.env.manifest(1, second.value), FetchIO(t.env, 1);
      ChosenIsListed(m.value.manifests.value, w.arch);
      if FetchManifest(w, c, t.repo, second.value, x, io).1.Ok? {
        FetchFinds(w, c, t.repo, second.value, x, io);
      }
    }
  }

  lemma FinishProgress(w: World, c: Cache, t: Task, digest: string)
    requires t.Pulling? && t.stage.Layers? && Progress(w, c, t, digest)
    requires forall blob | blob in t.stage.blobs :: Done(blob)
    ensures Progress(w, c, t.(stage := Over(Finish(t.stage.fetched, t.stage.image, t.stage.blobs))), digest)
  {
    var blobs := t.stage.blobs;
    if Failures(blobs) == 0 {
      NoFailures(blobs);
      forall d | d in ExtractedDigests(w.parse(t.stage.image).value).value ensures BlobKey(d) in c.objects {
        var j :| 0 <= j < |blobs| && blobs[j].digest == d;
        assert BlobFound(c, blobs[j]) && blobs[j] in blobs;
      }
    }
  }

  lemma {:induction false} NoFailures(blobs: seq<BlobTask>)
    requires Failures(blobs) == 0
    ensures forall j | 0 <= j < |blobs| :: blobs[j].Storing? && blobs[j].result.Ok?
  {
    if blobs != [] {
      NoFailures(blobs[..|blobs| - 1]);
    }
  }

  lemma ProceedProgress(w: World, c: Cache, t: Task, digest: string)
    requires HashPrints(w) && Contents(w, c) && t.Pulling? && Honest(w, t.env) && NoFaults(t.env.fate)
    requires Progress(w, c, t, digest)
    ensures Progress(w, c, t.(stage := NextStage(w, c, t.repo, t.env, t.stage)), digest)
  {
    match t.stage
    case Fetching(writes, manifest) =>
      if writes == [] && manifest.Ok? {
        ChooseProgress(w, c, t, digest, manifest.value);
      }
    case Choosing(fetched, writes, manifest) =>
      if writes == [] && manifest.Ok? {
        StartLayersProgress(w, c, t, digest, fetched, manifest.value);
      }
    case Layers(fetched, image, blobs) =>
      if forall blob | blob in blobs :: Done(blob) {
        FinishProgress(w, c, t, digest);
      }
    case Over(_) =>
  }

  lemma WriteProgress(w: World, c: Cache, t: Task, digest: string)
    requires Contents(w, c) && t.Pulling? && HonestTask(w, t) && Own(t) != []
    requires SettledTask(t, Where(t.repo, t.reference), digest) && Progress(w, c, t, digest)
    ensures Progress(w, ApplyWrite(c, Own(t)[0]), WithOwn(t, Own(t)[1..]), digest)
  {
    var k, writes := Where(t.repo, t.reference), Own(t);
    assert writes[0] in writes;
    WriteLeaves(w, c, writes[0], k, digest);
    match t.stage
    case Fetching(_, manifest) =>
      if manifest.Ok? {
        FoundSteps(w, c, writes, k, digest, k, digest, manifest.value);
      }
    case Choosing(fetched, _, manifest) =>
      FoundStays(w, c, ApplyWrite(c, writes[0]), [], k, digest, k, digest, fetched);
      if manifest.Ok? && IsIndex(w.parse(fetched).value) && ListsByDigest(w, fetched) {
        FoundSteps(w, c, writes, DigestKey(t.repo, SecondReference(w, fetched).value), "", k, digest, manifest.value);
      }
  }

  // A blob that is found, or was sent, is cached once its write is done.
  lemma {:induction false} AttemptFills(digest: string, env: Env, attempt: nat)
    requires NoFaults(env.fate) && 1 <= attempt <= ATTEMPTS
    ensures AttemptWrites(digest, env, attempt) != [] ==> Fills(AttemptWrites(digest, env, attempt)[0], BlobKey(digest))
    decreases ATTEMPTS - attempt
  {
    if attempt < ATTEMPTS {
      AttemptFills(digest, env, attempt + 1);
    }
  }

  lemma LookupProgress(c: Cache, digest: string, env: Env)
    requires NoFaults(env.fate)
    ensures BlobFound(c, Storing(digest, BlobWrites(c, digest, env), PullBlob(c, digest, env).1))
  {
    BlobIsItsWrites(c, digest, env);
    AttemptFills(digest, env, 1);
  }

  lemma LookBlobUpProgress(w: World, c: Cache, t: Task, a: Action, digest: string)
    requires t.Pulling? && NoFaults(t.env.fate) && a.LookBlobUp? && HasBlob(t, a.blob) && Progress(w, c, t, digest)
    ensures Progress(w, c, TaskAfter(w, c, t, a), digest)
  {
    if BlobOf(t, a.blob).Waiting? {
      LookupProgress(c, BlobOf(t, a.blob).digest, t.env);
      BlobSet(w, c, t, a.blob, digest, TaskAfter(w, c, t, a));
    }
  }

  lemma WriteBlobProgress(w: World, c: Cache, t: Task, a: Action, digest: string)
    requires Contents(w, c) && t.Pulling? && HonestTask(w, t) && a.WriteBlob? && WritesBlob(t, a.blob)
    requires Progress(w, c, t, digest)
    ensures Progress(w, CacheAfter(c, Performed(t, a)), TaskAfter(w, c, t, a), digest)
  {
    var k, blob := Where(t.repo, t.reference), BlobOf(t, a.blob);
    var x := blob.writes[0];
    assert blob in t.stage.blobs && BlobFound(c, blob) && x in blob.writes;
    WriteLeaves(w, c, x, k, digest);
    ProgressStays(w, c, ApplyWrite(c, x), t, digest);
    if blob.result.Ok? {
      PromisedSteps(w, c, blob.writes, BlobKey(blob.digest), k, digest);
    }
    BlobSet(w, ApplyWrite(c, x), t, a.blob, digest, TaskAfter(w, c, t, a));
  }

  lemma BlobSet(w: World, c: Cache, t: Task, j: nat, digest: string, u: Task)
    requires HasBlob(t, j) && HasBlob(u, j) && u == WithBlob(t, j, BlobOf(u, j)) && BlobOf(u, j).digest == BlobOf(t, j).digest
    requires Progress(w, c, t, digest) && BlobFound(c, BlobOf(u, j))
    ensures Progress(w, c, u, digest)
  {
    var blobs := u.stage.blobs;
    forall d | d in ExtractedDigests(w.parse(t.stage.image).value).value ensures exists i | 0 <= i < |blobs| :: blobs[i].digest == d {
      var i :| 0 <= i < |t.stage.blobs| && t.stage.blobs[i].digest == d;
      assert blobs[i].digest == d;
    }
  }

  lemma OwnProgress(w: World, c: Cache, t: Task, a: Action, digest: string)
    requires HashPrints(w) && Contents(w, c) && t.Pulling? && HonestTask(w, t) && NoFaults(t.env.fate)
    requires SettledTask(t, Where(t.repo, t.reference), digest) && Progress(w, c, t, digest)
    ensures Progress(w, CacheAfter(c, Performed(t, a)), TaskAfter(w, c, t, a), digest)
  {
    match a
    case Begin(_) =>
    case WriteNext(_) =>
      if Own(t) != [] {
        WriteProgress(w, c, t, digest);
      }
    case Proceed(_) => ProceedProgress(w, c, t, digest);
    case LookBlobUp(_, j) =>
      if HasBlob(t, j) {
        LookBlobUpProgress(w, c, t, a, digest);
      }
    case WriteBlob(_, j) =>
      if WritesBlob(t, j) {
        WriteBlobProgress(w, c, t, a, digest);
      }
  }

  // ----- the pull among the others -----

  predicate IsPull(s: State, i: nat, repo: Repo, reference: string) {
    i < |s.tasks| && s.tasks[i].Pulling? && s.tasks[i].repo == repo && s.tasks[i].reference == reference
  }

  lemma NextFollows(w: World, s: State, a: Action, i: nat, repo: Repo, reference: string, digest: string)
    requires HashPrints(w) && HonestState(w, s) && HonestAction(w, a)
    requires SettledState(s, Where(repo, reference), digest) && ActionSettles(w, s, a, Where(repo, reference), digest)
    requires IsPull(s, i, repo, reference) && NoFaults(s.tasks[i].env.fate) && Progress(w, s.cache, s.tasks[i], digest)
    ensures var n := Next(w, s, a);
      && IsPull(n, i, repo, reference) && n.tasks[i].env == s.tasks[i].env
      && Progress(w, n.cache, n.tasks[i], digest)
  {
    var t := s.tasks[i];
    assert t in s.tasks;
    if !a.Begin? && a.task == i {
      OwnProgress(w, s.cache, t, a, digest);
    } else {
      NextLeaves(w, s, a, Where(repo, reference), digest);
      ProgressStays(w, s.cache, Next(w, s, a).cache, t, digest);
    }
  }

  lemma {:induction false} PlayFollows(w: World, s: State, actions: seq<Action>, i: nat, repo: Repo, reference: string, digest: string)
    requires HashPrints(w) && HonestState(w, s) && forall a | a in actions :: HonestAction(w, a)
    requires SettledState(s, Where(repo, reference), digest) && PlaySettles(w, s, actions, Where(repo, reference), digest)
    requires IsPull(s, i, repo, reference) && NoFaults(s.tasks[i].env.fate) && Progress(w, s.cache, s.tasks[i], digest)
    ensures var e := Play(w, s, actions);
      HonestState(w, e) && IsPull(e, i, repo, reference) && Progress(w, e.cache, e.tasks[i], digest)
    decreases |actions|
  {
    if actions != [] {
      NextFollows(w, s, actions[0], i, repo, reference, digest);
      NextLeaves(w, s, actions[0], Where(repo, reference), digest);
      PlayFollows(w, Next(w, s, actions[0]), actions[1..], i, repo, reference, digest);
    }
  }

  // The task is a pull that has ended and reports this image.
  predicate Reports(s: State, i: nat, p: Pulled) {
    i < |s.tasks| && s.tasks[i].Pulling? && s.tasks[i].stage == Over(Ok(p))
  }

  lemma FoundIsServable(w: World, c: Cache, name: string, reference: string, digest: string, p: Pulled)
    requires Contents(w, c) && Standard(w, p)
    requires Found(w, c, [], Where(HandlerParse(name), reference), digest, p.fetched)
    requires ImageFound(w, c, [], HandlerParse(name), p.fetched, p.image) && BlobsCached(w, c, p.image)
    ensures Servable(w, c, name, reference, p)
  {
    var repo := HandlerParse(name);
    FoundIsThere(w, c, Where(repo, reference), digest, p.fetched);
    if IsIndex(w.parse(p.fetched).value) {
      FoundIsThere(w, c, DigestKey(repo, SecondReference(w, p.fetched).value), "", p.image);
    }
    AnswerFound(w, c, repo, reference, p);
    ExtractedAreNamed(w.parse(p.image).value);
    AllThereIsServable(w, c, name, reference, p);
  }

  // The digest the tag of a pull is mapped to, once the pull has looked it up.
  function PullsTo(w: World, c: Cache, name: string, reference: string, env: Env): string {
    if IsDigest(reference) then "" else MappedTo(w, c, HandlerParse(name), reference, env.manifest(0, reference), FetchIO(env, 0))
  }

  // The pull's own mapping write is to that digest.
  lemma PullSettles(w: World, c: Cache, name: string, reference: string, env: Env)
    requires NoFaults(env.fate)
    ensures SettledTask(StartPull(w, c, HandlerParse(name), reference, env), Where(HandlerParse(name), reference),
                        PullsTo(w, c, name, reference, env))
  {
  }

  lemma PullStarts(w: World, s: State, image: string, env: Env, name: string, reference: string)
    requires HashPrints(w) && HonestState(w, s) && Honest(w, env) && NoFaults(env.fate)
    requires ParseImageReference(image) == ImageRef(name, reference) && Agreed(name)
    requires !SeesStaleCopy(s.cache, HandlerParse(name), reference, env.unreadable(0))
    ensures var n, i := Next(w, s, Begin(Pull(image, env))), |s.tasks|;
      && HonestState(w, n) && IsPull(n, i, HandlerParse(name), reference) && n.tasks[i].env == env
      && Progress(w, n.cache, n.tasks[i], PullsTo(w, s.cache, name, reference, env))
      && n.tasks == s.tasks + [StartPull(w, s.cache, HandlerParse(name), reference, env)]
  {
    ParsersAgreeIff(name);
    StartIsHonest(w, s.cache, Pull(image, env));
    var repo, x, io := HandlerParse(name), env.manifest(0, reference), FetchIO(env, 0);
    if FetchManifest(w, s.cache, repo, reference, x, io).1.Ok? {
      FetchFinds(w, s.cache, repo, reference, x, io);
    }
  }

  /** Whatever was begun before and however the operations overlap, with honest upstreams, an image that a pull
      reports, with no write of its own failing and unless it fell for a stale legacy copy, is servable without
      upstream from then on, as long as no other operation maps its tag to another digest. */
  lemma OverlappingPullsStayServable(w: World, before: seq<Action>, image: string, env: Env, name: string, reference: string,
                                     after: seq<Action>, p: Pulled)
    requires HashPrints(w) && Honest(w, env) && NoFaults(env.fate) && forall a | a in before + after :: HonestAction(w, a)
    requires ParseImageReference(image) == ImageRef(name, reference) && Agreed(name) && Standard(w, p)
    requires var s := Play(w, START, before);
      var begun := Next(w, s, Begin(Pull(image, env)));
      && !SeesStaleCopy(s.cache, HandlerParse(name), reference, env.unreadable(0))
      && Reports(Play(w, begun, after), |s.tasks|, p)
      && (!IsDigest(reference) ==>
            var k, digest := Where(HandlerParse(name), reference), PullsTo(w, s.cache, name, reference, env);
            SettledState(s, k, digest) && PlaySettles(w, begun, after, k, digest))
    ensures Servable(w, Play(w, Next(w, Play(w, START, before), Begin(Pull(image, env))), after).cache, name, reference, p)
  {
    var s := Play(w, START, before);
    PlaySettlesNoTag(w, START, before, Blob(""));
    PlayLeaves(w, START, before, Blob(""), "");
    var repo, i, digest := HandlerParse(name), |s.tasks|, PullsTo(w, s.cache, name, reference, env);
    var begun := Next(w, s, Begin(Pull(image, env)));
    PullStarts(w, s, image, env, name, reference);
    if IsDigest(reference) {
      PlaySettlesNoTag(w, begun, after, Where(repo, reference));
    } else {
      PullSettles(w, s.cache, name, reference, env);
    }
    PlayFollows(w, begun, after, i, repo, reference, digest);
    FoundIsServable(w, Play(w, begun, after).cache, name, reference, digest, p);
  }
}
