/**
 Pre-pulling an image: its manifest, the manifest of the host's platform if that is a list, and every blob the
 manifest names.  The main result is that a pulled image is served from the cache from then on.
 */
module PrePull {
  import opened Wrappers
  import opened Text
  import opened Names
  import opened Manifests
  import opened StorageKeys
  import opened ImageCache

  datatype PullError =
    | NoMirrors | RaceFailed | NoChallenge | NoToken | RetryFailed | BadStatus(status: nat) | BodyBroken
    | BadJson | NoManifestsArray | NoPlatform | NoLayers | LayersFailed(failed: nat, total: nat)

  // What upstream answers (by call and reference, and by digest and attempt), which reads fail (of the first
  // fetch, of the second, and of the blobs), how writes end, and the order in which a set of digests is pulled.
  datatype Env = Env(manifest: (nat, string) -> Exchange, blob: (string, nat) -> Exchange,
                     unreadable: nat -> (Key -> bool), fate: Key -> Fate, order: set<string> -> seq<string>)

  // What the i-th fetch meets.
  function FetchIO(env: Env, i: nat): IO {
    IO(env.unreadable(i), env.fate)
  }

  // A pull: the bytes of all blobs, the manifest fetched, and the manifest of the image itself.
  datatype Pulled = Pulled(size: nat, fetched: Bytes, image: Bytes)

  // Unlike the handler, pre-pull fails on a 401 it cannot answer.
  function Settle(x: Exchange): Result<Response, PullError> {
    if !x.mirrors then Err(NoMirrors)
    else if x.first.None? then Err(RaceFailed)
    else if x.first.value.status == 401 then
      if !x.first.value.challenge then Err(NoChallenge)
      else if !x.token then Err(NoToken)
      else if x.retry.None? then Err(RetryFailed)
      else if !Success(x.retry.value) then Err(BadStatus(x.retry.value.status))
      else Ok(x.retry.value)
    else if !Success(x.first.value) then Err(BadStatus(x.first.value.status))
    else Ok(x.first.value)
  }

  // Pre-pull also accepts a legacy copy.
  function PullLookup(c: Cache, repo: Repo, reference: string): Option<Bytes> {
    var hit := LookupAt(c, Where(repo, reference));
    if hit.Some? || IsDigest(reference) then hit else Read(c, LegacyKey(repo, reference))
  }

  function FetchManifest(w: World, c: Cache, repo: Repo, reference: string, x: Exchange, io: IO)
    : (Cache, Result<Bytes, PullError>)
  {
    var hit := PullLookup(Visible(c, io.unreadable), repo, reference);
    if hit.Some? then (c, Ok(hit.value))
    else
      var r := Settle(x);
      if r.Err? then (c, Err(r.error))
      else if r.value.body.None? then (c, Err(BodyBroken))
      else (StoreManifest(w, c, repo, reference, r.value, r.value.body.value, true, io.fate), Ok(r.value.body.value))
  }

  // The manifest of the image: the one fetched, or the platform's if that is a list.
  function ImageManifest(w: World, c: Cache, repo: Repo, fetched: Bytes, env: Env): (Cache, Result<Bytes, PullError>) {
    var m := w.parse(fetched);
    if m.None? then (c, Err(BadJson))
    else if !IsIndex(m.value) then (c, Ok(fetched))
    else if m.value.manifests.None? then (c, Err(NoManifestsArray))
    else
      var digest := PrePullDigest(m.value.manifests.value, w.arch);
      if digest.None? then (c, Err(NoPlatform))
      else FetchManifest(w, c, repo, digest.value, env.manifest(1, digest.value), FetchIO(env, 1))
  }

  function PullBlobAttempt(c: Cache, digest: string, x: Exchange, fate: Key -> Fate): (Cache, Result<nat, PullError>) {
    var r := Settle(x);
    if r.Err? then (c, Err(r.error))
    else if r.value.body.None? then (c, Err(BodyBroken))
    else (PutObject(c, BlobKey(digest), r.value.body.value, fate), Ok(|r.value.body.value|))
  }

  const ATTEMPTS := 3

  function PullBlobFrom(c: Cache, digest: string, env: Env, attempt: nat): (Cache, Result<nat, PullError>)
    requires 1 <= attempt <= ATTEMPTS
    decreases ATTEMPTS - attempt
  {
    var (d, r) := PullBlobAttempt(c, digest, env.blob(digest, attempt), env.fate);
    if r.Ok? || attempt == ATTEMPTS then (d, r) else PullBlobFrom(d, digest, env, attempt + 1)
  }

  function PullBlob(c: Cache, digest: string, env: Env): (Cache, Result<nat, PullError>) {
    var cached := Read(Visible(c, env.unreadable(2)), BlobKey(digest));
    if cached.Some? then (c, Ok(|cached.value|)) else PullBlobFrom(c, digest, env, 1)
  }

  datatype Tally = Tally(cache: Cache, size: nat, failed: nat)

  function PullBlobs(c: Cache, digests: seq<string>, env: Env): Tally {
    if digests == [] then Tally(c, 0, 0)
    else
      var before := PullBlobs(c, digests[..|digests| - 1], env);
      var (d, r) := PullBlob(before.cache, digests[|digests| - 1], env);
      if r.Ok? then Tally(d, before.size + r.value, before.failed) else Tally(d, before.size, before.failed + 1)
  }

  function Elements(s: seq<string>): set<string> {
    set x | x in s
  }

  function PullLayers(w: World, c: Cache, fetched: Bytes, image: Bytes, env: Env): (Cache, Result<Pulled, PullError>) {
    var m := w.parse(image);
    if m.None? then (c, Err(BadJson))
    else
      var digests := ExtractedDigests(m.value);
      if digests.None? then (c, Err(NoLayers))
      else
        var order := env.order(Elements(digests.value));
        var tally := PullBlobs(c, order, env);
        (tally.cache,
         if tally.failed > 0 then Err(LayersFailed(tally.failed, |order|)) else Ok(Pulled(tally.size, fetched, image)))
  }

  function PullReference(w: World, c: Cache, repo: Repo, reference: string, env: Env): (Cache, Result<Pulled, PullError>) {
    var (d, fetched) := FetchManifest(w, c, repo, reference, env.manifest(0, reference), FetchIO(env, 0));
    if fetched.Err? then (d, Err(fetched.error))
    else
      var (e, body) := ImageManifest(w, d, repo, fetched.value, env);
      if body.Err? then (e, Err(body.error)) else PullLayers(w, e, fetched.value, body.value, env)
  }

  function PullImage(w: World, c: Cache, image: string, env: Env): (Cache, Result<Pulled, PullError>) {
    var parsed := ParseImageReference(image);
    PullReference(w, c, PrePullParse(parsed.name), parsed.reference, env)
  }

  // ----- hypotheses on the environment -----

  // Upstream serves a blob with the registry's content for its digest, which is not empty.
  predicate HonestBlobResponse(w: World, digest: string, r: Response) {
    Success(r) && r.body.Some? ==> r.body.value == w.content("sha256:" + StripSha(digest)) && r.body.value != []
  }

  predicate HonestBlob(w: World, digest: string, x: Exchange) {
    && (x.first.Some? ==> HonestBlobResponse(w, digest, x.first.value))
    && (x.retry.Some? ==> HonestBlobResponse(w, digest, x.retry.value))
  }

  ghost predicate Honest(w: World, env: Env) {
    && (forall i, reference :: HonestExchange(w, reference, env.manifest(i, reference)))
    && (forall digest, attempt :: HonestBlob(w, digest, env.blob(digest, attempt)))
    && (forall s, x :: x in env.order(s) <==> x in s)
  }

  // The digest a pull goes on to fetch when a list is what it fetched first.
  function SecondReference(w: World, fetched: Bytes): Option<string> {
    var m := w.parse(fetched);
    if m.Some? && IsIndex(m.value) && m.value.manifests.Some? then PrePullDigest(m.value.manifests.value, w.arch) else None
  }

  // The two fetches of a pull from this cache spare a hold.
  predicate PullSpares(w: World, c: Cache, repo: Repo, reference: string, env: Env, h: Hold) {
    var fetched := FetchManifest(w, c, repo, reference, env.manifest(0, reference), FetchIO(env, 0)).1;
    && Spares(w, repo, reference, env.manifest(0, reference), FetchIO(env, 0), h)
    && (fetched.Ok? ==> SecondSpares(w, repo, fetched.value, env, h))
  }

  predicate SecondSpares(w: World, repo: Repo, fetched: Bytes, env: Env, h: Hold) {
    var digest := SecondReference(w, fetched);
    digest.Some? ==> Spares(w, repo, digest.value, env.manifest(1, digest.value), FetchIO(env, 1), h)
  }

  // ----- one fetch -----

  lemma FetchKeeps(w: World, c: Cache, repo: Repo, reference: string, x: Exchange, io: IO, k: Key)
    requires HashPrints(w) && Contents(w, c) && HonestExchange(w, reference, x)
    requires k.Tag? && ServeAt(w, c, k).Some? ==> Spares(w, repo, reference, x, io, HoldOf(w, c, k))
    ensures var d := FetchManifest(w, c, repo, reference, x, io).0;
      && Contents(w, d) && Keeps(w, c, d, k) && (IsDigest(reference) ==> d.tags == c.tags)
      && (Covered(c) && NoFaults(io.fate) ==> Covered(d))
  {
    var r := Settle(x);
    if PullLookup(Visible(c, io.unreadable), repo, reference).None? && r.Ok? && r.value.body.Some? {
      FillKeeps(w, c, repo, reference, x, r.value, true, io, k);
    }
  }

  predicate LegacyOnly(c: Cache, repo: Repo, reference: string) {
    !IsDigest(reference) && LookupAt(c, Where(repo, reference)).None? && Read(c, LegacyKey(repo, reference)).Some?
  }

  // A pull sees nothing but a legacy copy, and that is not what the handler finds.
  predicate SeesStaleCopy(c: Cache, repo: Repo, reference: string, unreadable: Key -> bool) {
    && LegacyOnly(Visible(c, unreadable), repo, reference)
    && LookupAt(c, Where(repo, reference)) != Read(c, LegacyKey(repo, reference))
  }

  // What is read under `key` after a write of `body` under `written`.
  function ReadAfter(c: Cache, key: Key, written: Key, body: Bytes, fate: Key -> Fate): Option<Bytes> {
    if key == written && fate(written).Written? then Some(body) else Read(c, key)
  }

  // The mapping that is read under a tag after it was written.
  function MappingAfter(c: Cache, tag: Key, digest: string, fate: Key -> Fate): Option<string> {
    match fate(tag)
    case Written => Some(Trim(digest))
    case Lost => if tag in c.tags then Some(Trim(c.tags[tag])) else None
    case CutShort(n) => Some(Trim(Cut(digest, n)))
  }

  // What was fetched can be found again: under its digest, or for a tag, under whatever digest the mapping is left
  // at.
  predicate StoreLands(w: World, c: Cache, repo: Repo, reference: string, r: Response, body: Bytes, fate: Key -> Fate) {
    var written := DigestKey(repo, DigestOf(w, r, body));
    if IsDigest(reference) then ReadAfter(c, DigestKey(repo, reference), written, body, fate) == Some(body)
    else
      var mapped := MappingAfter(c, TagKey(repo, reference), DigestOf(w, r, body), fate);
      mapped.Some? && ReadAfter(c, DigestKey(repo, mapped.value), written, body, fate) == Some(body)
  }

  /** After a fetch that succeeds, however its writes end, the handler finds what was fetched exactly when it was
      cached and not a legacy copy the handler does not agree with, or when the writes left it to be found. */
  lemma FetchedIsFoundIff(w: World, c: Cache, repo: Repo, reference: string, x: Exchange, io: IO)
    requires FetchManifest(w, c, repo, reference, x, io).1.Ok?
    ensures var (d, body) := FetchManifest(w, c, repo, reference, x, io);
      LookupAt(d, Where(repo, reference)) == Some(body.value) <==>
        if PullLookup(Visible(c, io.unreadable), repo, reference).Some? then !SeesStaleCopy(c, repo, reference, io.unreadable)
        else StoreLands(w, c, repo, reference, Settle(x).value, body.value, io.fate)
  {
    SeenIsThere(w, c, io.unreadable, Where(repo, reference));
    if PullLookup(Visible(c, io.unreadable), repo, reference).None? {
      StoreLandsIff(w, c, repo, reference, Settle(x).value, Settle(x).value.body.value, true, io.fate);
    }
  }

  lemma ReadAfterPut(c: Cache, key: Key, written: Key, body: Bytes, fate: Key -> Fate)
    requires written.ByDigest?
    ensures Read(PutObject(c, written, body, fate), key) == ReadAfter(c, key, written, body, fate)
  {
  }

  // A mapping, and a legacy copy beside it, are written after the manifest.
  lemma LookupAfterPut(c: Cache, repo: Repo, tag: string, digest: string, body: Bytes, legacy: bool, fate: Key -> Fate)
    ensures var mapped := PutTag(c, TagKey(repo, tag), digest, fate);
      var d := if legacy then PutObject(mapped, LegacyKey(repo, tag), body, fate) else mapped;
      var after := MappingAfter(c, TagKey(repo, tag), digest, fate);
      LookupAt(d, TagKey(repo, tag)) == if after.Some? then Read(c, DigestKey(repo, after.value)) else None
  {
  }

  lemma StoreLandsIff(w: World, c: Cache, repo: Repo, reference: string, r: Response, body: Bytes, legacy: bool, fate: Key -> Fate)
    ensures LookupAt(StoreManifest(w, c, repo, reference, r, body, legacy, fate), Where(repo, reference)) == Some(body) <==>
      StoreLands(w, c, repo, reference, r, body, fate)
  {
    var written, digest := DigestKey(repo, DigestOf(w, r, body)), DigestOf(w, r, body);
    var stored := PutObject(c, written, body, fate);
    if IsDigest(reference) {
      ReadAfterPut(c, DigestKey(repo, reference), written, body, fate);
    } else {
      LookupAfterPut(stored, repo, reference, digest, body, legacy, fate);
      var mapped := MappingAfter(c, TagKey(repo, reference), digest, fate);
      assert mapped == MappingAfter(stored, TagKey(repo, reference), digest, fate);
      if mapped.Some? {
        ReadAfterPut(c, DigestKey(repo, mapped.value), written, body, fate);
      }
    }
  }

  /** Without write faults and with an honest upstream the writes always leave it to be found. */
  lemma FaultlessFetchIsFoundIff(w: World, c: Cache, repo: Repo, reference: string, x: Exchange, io: IO)
    requires HashPrints(w) && HonestExchange(w, reference, x) && NoFaults(io.fate)
    requires FetchManifest(w, c, repo, reference, x, io).1.Ok?
    ensures var (d, body) := FetchManifest(w, c, repo, reference, x, io);
      LookupAt(d, Where(repo, reference)) == Some(body.value) <==> !SeesStaleCopy(c, repo, reference, io.unreadable)
  {
    FetchedIsFoundIff(w, c, repo, reference, x, io);
    if PullLookup(Visible(c, io.unreadable), repo, reference).None? {
      assert StoreLands(w, c, repo, reference, Settle(x).value, Settle(x).value.body.value, io.fate);
    }
  }

  lemma CoveredIsNotStale(c: Cache, repo: Repo, reference: string, unreadable: Key -> bool)
    requires Covered(c) && Readable(unreadable)
    ensures !SeesStaleCopy(c, repo, reference, unreadable)
  {
    AllVisible(c, unreadable);
    if !IsDigest(reference) && LegacyKey(repo, reference) in c.objects {
      var k := LegacyKey(repo, reference);
      assert LookupAt(c, Tag(k.registry, k.repository, k.reference)).Some?;
      assert Where(repo, reference) == Tag(k.registry, k.repository, k.reference);
    }
  }

  // ----- blobs -----

  lemma AttemptKeeps(w: World, c: Cache, digest: string, x: Exchange, fate: Key -> Fate, k: Key)
    requires Contents(w, c) && HonestBlob(w, digest, x)
    ensures var (d, r) := PullBlobAttempt(c, digest, x, fate);
      && Contents(w, d) && Keeps(w, c, d, k) && d.tags == c.tags
      && (r.Err? ==> d == c)
      && (r.Ok? ==> (BlobHit(d, digest) <==> BlobHit(c, digest) || fate(BlobKey(digest)).Written?))
  {
    var r := Settle(x);
    if r.Ok? && r.value.body.Some? {
      PutBlobKeeps(w, c, digest, r.value.body.value, fate, k);
    }
  }

  lemma {:induction false} AttemptsKeep(w: World, c: Cache, digest: string, env: Env, attempt: nat, k: Key)
    requires 1 <= attempt <= ATTEMPTS
    requires Contents(w, c) && Honest(w, env)
    ensures var (d, r) := PullBlobFrom(c, digest, env, attempt);
      && Contents(w, d) && Keeps(w, c, d, k) && d.tags == c.tags
      && (r.Ok? ==> (BlobHit(d, digest) <==> BlobHit(c, digest) || env.fate(BlobKey(digest)).Written?))
    decreases ATTEMPTS - attempt
  {
    AttemptKeeps(w, c, digest, env.blob(digest, attempt), env.fate, k);
    if PullBlobAttempt(c, digest, env.blob(digest, attempt), env.fate).1.Err? && attempt < ATTEMPTS {
      AttemptsKeep(w, c, digest, env, attempt + 1, k);
    }
  }

  /** A blob pulled with success is a hit exactly if it was one before or its write did not fail: a failed write
      is not an error. */
  lemma PulledBlobHitIff(w: World, c: Cache, digest: string, env: Env, k: Key)
    requires Contents(w, c) && Honest(w, env)
    ensures var (d, r) := PullBlob(c, digest, env);
      && Contents(w, d) && Keeps(w, c, d, k) && d.tags == c.tags
      && (r.Ok? ==> (BlobHit(d, digest) <==> BlobHit(c, digest) || env.fate(BlobKey(digest)).Written?))
  {
    if Read(Visible(c, env.unreadable(2)), BlobKey(digest)).None? {
      AttemptsKeep(w, c, digest, env, 1, k);
    }
  }

  lemma {:induction false} PulledBlobsHit(w: World, c: Cache, digests: seq<string>, env: Env, k: Key)
    requires Contents(w, c) && Honest(w, env)
    ensures var tally := PullBlobs(c, digests, env);
      && Contents(w, tally.cache) && Keeps(w, c, tally.cache, k) && tally.cache.tags == c.tags
      && tally.failed <= |digests|
      && (tally.failed == 0 && NoFaults(env.fate) ==> forall d | d in digests :: BlobHit(tally.cache, d))
  {
    if digests != [] {
      var n := |digests| - 1;
      PulledBlobsHit(w, c, digests[..n], env, k);
      var before := PullBlobs(c, digests[..n], env);
      var after := PullBlob(before.cache, digests[n], env).0;
      PulledBlobHitIff(w, before.cache, digests[n], env, k);
      KeepsInTurn(w, c, before.cache, after, k);
      assert forall d | d in digests :: d in digests[..n] || d == digests[n];
      forall d | BlobHit(before.cache, d) ensures BlobHit(after, d) {
        KeptBlobsHit(w, before.cache, after, k, d);
      }
    }
  }

  // ----- the whole pull -----

  // Blobs add no legacy copies, so those there are stay covered.
  lemma {:induction false} BlobsCover(c: Cache, digests: seq<string>, env: Env)
    ensures forall k | k in PullBlobs(c, digests, env).cache.objects && k.Legacy? :: k in c.objects
  {
    if digests != [] {
      var n := |digests| - 1;
      BlobsCover(c, digests[..n], env);
      BlobCovers(PullBlobs(c, digests[..n], env).cache, digests[n], env, 1);
    }
  }

  lemma {:induction false} BlobCovers(c: Cache, digest: string, env: Env, attempt: nat)
    requires 1 <= attempt <= ATTEMPTS
    ensures forall k | k in PullBlobFrom(c, digest, env, attempt).0.objects && k.Legacy? :: k in c.objects
    decreases ATTEMPTS - attempt
  {
    var (d, r) := PullBlobAttempt(c, digest, env.blob(digest, attempt), env.fate);
    if r.Err? && attempt < ATTEMPTS {
      BlobCovers(d, digest, env, attempt + 1);
    }
  }

  lemma CoverStays(w: World, c: Cache, d: Cache, k: Key)
    requires Covered(c) && Keeps(w, c, d, k) && d.tags == c.tags
    requires forall o | o in d.objects && o.Legacy? :: o in c.objects
    ensures Covered(d)
  {
    forall o | o in d.objects && o.Legacy? ensures LookupAt(d, Tag(o.registry, o.repository, o.reference)).Some? {
      assert LookupAt(c, Tag(o.registry, o.repository, o.reference)).Some?;
    }
  }

  lemma LayersKeep(w: World, c: Cache, fetched: Bytes, image: Bytes, env: Env, k: Key)
    requires Contents(w, c) && Honest(w, env)
    ensures var (d, r) := PullLayers(w, c, fetched, image, env);
      && Contents(w, d) && Keeps(w, c, d, k) && d.tags == c.tags && (Covered(c) ==> Covered(d))
      && (r.Ok? && NoFaults(env.fate) && w.parse(image).Some? && !IsIndex(w.parse(image).value) ==>
            forall digest | digest in Named(w.parse(image).value) :: BlobHit(d, digest))
  {
    var m := w.parse(image);
    if m.Some? && ExtractedDigests(m.value).Some? {
      var digests := ExtractedDigests(m.value).value;
      var order := env.order(Elements(digests));
      PulledBlobsHit(w, c, order, env, k);
      BlobsCover(c, order, env);
      var d := PullBlobs(c, order, env).cache;
      if Covered(c) {
        CoverStays(w, c, d, k);
      }
      if !IsIndex(m.value) {
        ExtractedAreNamed(m.value);
      }
    }
  }

  lemma ImageManifestFetches(w: World, c: Cache, repo: Repo, fetched: Bytes, env: Env)
    ensures var digest := SecondReference(w, fetched);
      ImageManifest(w, c, repo, fetched, env).0 ==
        if digest.Some? then FetchManifest(w, c, repo, digest.value, env.manifest(1, digest.value), FetchIO(env, 1)).0 else c
  {
  }

  lemma ImageManifestKeeps(w: World, c: Cache, repo: Repo, fetched: Bytes, env: Env, k: Key)
    requires HashPrints(w) && Contents(w, c) && Honest(w, env)
    requires k.Tag? && ServeAt(w, c, k).Some? ==> SecondSpares(w, repo, fetched, env, HoldOf(w, c, k))
    ensures var d := ImageManifest(w, c, repo, fetched, env).0;
      && Contents(w, d) && Keeps(w, c, d, k) && (Covered(c) && NoFaults(env.fate) ==> Covered(d))
  {
    var digest := SecondReference(w, fetched);
    ImageManifestFetches(w, c, repo, fetched, env);
    if digest.Some? {
      FetchKeeps(w, c, repo, digest.value, env.manifest(1, digest.value), FetchIO(env, 1), k);
    }
  }

  /** A pull, successful or not, keeps the registry's content, all manifests and blobs that were cached, and the
      mapping of a served tag that it spares. */
  lemma PullKeeps(w: World, c: Cache, repo: Repo, reference: string, env: Env, k: Key)
    requires HashPrints(w) && Contents(w, c) && Honest(w, env)
    requires k.Tag? && ServeAt(w, c, k).Some? ==> PullSpares(w, c, repo, reference, env, HoldOf(w, c, k))
    ensures var d := PullReference(w, c, repo, reference, env).0;
      && Contents(w, d) && Keeps(w, c, d, k) && (Covered(c) && NoFaults(env.fate) ==> Covered(d))
  {
    var j := if k.Tag? && ServeAt(w, c, k).Some? then k else DigestKey(repo, reference);
    FetchKeeps(w, c, repo, reference, env.manifest(0, reference), FetchIO(env, 0), j);
    var (d, fetched) := FetchManifest(w, c, repo, reference, env.manifest(0, reference), FetchIO(env, 0));
    if fetched.Ok? {
      if j.Tag? {
        HeldStays(w, c, d, j);
      }
      ImageManifestKeeps(w, d, repo, fetched.value, env, j);
      var (e, body) := ImageManifest(w, d, repo, fetched.value, env);
      KeepsInTurn(w, c, d, e, j);
      if body.Ok? {
        LayersKeep(w, e, fetched.value, body.value, env, j);
        KeepsInTurn(w, c, e, PullLayers(w, e, fetched.value, body.value, env).0, j);
      }
    }
  }

  // The platform's digest in a list, as both sides choose it.
  function PlatformDigest(w: World, m: Manifest): Option<string> {
    if m.manifests.Some? then HandlerDigest(m.manifests.value, w.arch) else None
  }

  // A list names the platform by a sha256 digest.
  predicate ListsByDigest(w: World, fetched: Bytes) {
    var m := w.parse(fetched);
    m.Some? && IsIndex(m.value) && m.value.manifests.Some? ==>
      forall e | e in m.value.manifests.value && e.digest.Some? :: IsDigest(e.digest.value)
  }

  lemma ChosenIsListed(entries: seq<Entry>, arch: string)
    ensures PrePullDigest(entries, arch).Some? ==>
      exists e :: e in entries && e.digest == PrePullDigest(entries, arch)
  {
    var t, f := First(entries, IsTargetWithDigest(arch)), First(entries, HasDigest());
    if t.Some? {
      assert entries[t.value] in entries;
    } else if f.Some? {
      assert entries[f.value] in entries;
    }
  }

  lemma PlatformIsCached(w: World, c: Cache, repo: Repo, fetched: Bytes, env: Env)
    requires HashPrints(w) && Contents(w, c) && Honest(w, env) && NoFaults(env.fate) && ListsByDigest(w, fetched)
    requires ImageManifest(w, c, repo, fetched, env).1.Ok?
    ensures var (d, image) := ImageManifest(w, c, repo, fetched, env);
      && d.tags == c.tags
      && (IsIndex(w.parse(fetched).value) ==>
            var digest := PrePullDigest(w.parse(fetched).value.manifests.value, w.arch);
            digest.Some? && Read(d, DigestKey(repo, digest.value)) == Some(image.value))
      && (!IsIndex(w.parse(fetched).value) ==> image.value == fetched)
  {
    var m := w.parse(fetched).value;
    if IsIndex(m) {
      ChosenIsListed(m.manifests.value, w.arch);
      var digest := PrePullDigest(m.manifests.value, w.arch).value;
      FetchKeeps(w, c, repo, digest, env.manifest(1, digest), FetchIO(env, 1), DigestKey(repo, digest));
      FaultlessFetchIsFoundIff(w, c, repo, digest, env.manifest(1, digest), FetchIO(env, 1));
    }
  }

  // The body the handler answers a pulled reference with: nothing for schema 1 or for a list whose chosen entry
  // has no digest, the platform's manifest for a tagged list, and what was fetched otherwise.
  function Answer(w: World, k: Key, p: Pulled): Option<Bytes>
    requires w.parse(p.fetched).Some?
  {
    var m := w.parse(p.fetched).value;
    if IsSchema1(m) then None
    else if IsList(m) && k.Tag? then if PlatformDigest(w, m).Some? then Some(p.image) else None
    else Some(p.fetched)
  }

  function BodyAt(w: World, c: Cache, k: Key): Option<Bytes>
    requires Located(k)
  {
    var s := ServeAt(w, c, k);
    if s.Some? then Some(s.value.body) else None
  }

  // The platform's manifest is cached under the digest the list gives for it.
  predicate PlatformAt(w: World, c: Cache, repo: Repo, p: Pulled) {
    var m := w.parse(p.fetched);
    && m.Some?
    && (IsIndex(m.value) ==>
          && m.value.manifests.Some?
          && var digest := PrePullDigest(m.value.manifests.value, w.arch);
             digest.Some? && Read(c, DigestKey(repo, digest.value)) == Some(p.image))
    && (!IsIndex(m.value) ==> p.image == p.fetched)
  }

  // Every blob the image names is a hit, unless the image is itself a list.
  predicate BlobsAt(w: World, c: Cache, p: Pulled) {
    var m := w.parse(p.image);
    m.Some? && (!IsIndex(m.value) ==> forall digest | digest in Named(m.value) :: BlobHit(c, digest))
  }

  /** A pull that succeeds without a write fault leaves the handler its answer, the platform's manifest under its
      digest, and every blob the image names a hit. */
  lemma PullIsAnswered(w: World, c: Cache, repo: Repo, reference: string, env: Env, d: Cache, p: Pulled)
    requires HashPrints(w) && Contents(w, c) && Honest(w, env) && NoFaults(env.fate)
    requires !SeesStaleCopy(c, repo, reference, env.unreadable(0))
    requires PullReference(w, c, repo, reference, env) == (d, Ok(p)) && ListsByDigest(w, p.fetched)
    ensures PlatformAt(w, d, repo, p) && BlobsAt(w, d, p)
    ensures BodyAt(w, d, Where(repo, reference)) == Answer(w, Where(repo, reference), p)
  {
    var e, f := PullUnfolds(w, c, repo, reference, env, d, p);
    FetchKeeps(w, c, repo, reference, env.manifest(0, reference), FetchIO(env, 0), DigestKey(repo, reference));
    FaultlessFetchIsFoundIff(w, c, repo, reference, env.manifest(0, reference), FetchIO(env, 0));
    ImageIsAnswered(w, e, repo, reference, env, f, d, p);
  }

  lemma PullUnfolds(w: World, c: Cache, repo: Repo, reference: string, env: Env, d: Cache, p: Pulled)
    returns (e: Cache, f: Cache)
    requires PullReference(w, c, repo, reference, env) == (d, Ok(p))
    ensures FetchManifest(w, c, repo, reference, env.manifest(0, reference), FetchIO(env, 0)) == (e, Ok(p.fetched))
    ensures ImageManifest(w, e, repo, p.fetched, env) == (f, Ok(p.image))
    ensures PullLayers(w, f, p.fetched, p.image, env) == (d, Ok(p))
  {
    e := FetchManifest(w, c, repo, reference, env.manifest(0, reference), FetchIO(env, 0)).0;
    f := ImageManifest(w, e, repo, p.fetched, env).0;
  }

  // The rest of a pull, once the manifest is fetched.
  lemma ImageIsAnswered(w: World, c: Cache, repo: Repo, reference: string, env: Env, e: Cache, d: Cache, p: Pulled)
    requires HashPrints(w) && Contents(w, c) && Honest(w, env) && NoFaults(env.fate)
    requires LookupAt(c, Where(repo, reference)) == Some(p.fetched) && ListsByDigest(w, p.fetched)
    requires ImageManifest(w, c, repo, p.fetched, env) == (e, Ok(p.image))
    requires PullLayers(w, e, p.fetched, p.image, env) == (d, Ok(p))
    ensures PlatformAt(w, d, repo, p) && BlobsAt(w, d, p)
    ensures BodyAt(w, d, Where(repo, reference)) == Answer(w, Where(repo, reference), p)
  {
    var j := DigestKey(repo, reference);
    ImageManifestKeeps(w, c, repo, p.fetched, env, j);
    PlatformIsCached(w, c, repo, p.fetched, env);
    LayersKeep(w, e, p.fetched, p.image, env, j);
    StillThere(w, c, e, d, repo, reference, p, j);
    AnswerFound(w, d, repo, reference, p);
  }

  lemma StillThere(w: World, c: Cache, e: Cache, d: Cache, repo: Repo, reference: string, p: Pulled, j: Key)
    requires Keeps(w, c, e, j) && Keeps(w, e, d, j) && c.tags == e.tags == d.tags
    requires PlatformAt(w, e, repo, p) && LookupAt(c, Where(repo, reference)) == Some(p.fetched)
    ensures PlatformAt(w, d, repo, p) && LookupAt(d, Where(repo, reference)) == Some(p.fetched)
  {
  }

  lemma AnswerFound(w: World, c: Cache, repo: Repo, reference: string, p: Pulled)
    requires w.parse(p.fetched).Some? && LookupAt(c, Where(repo, reference)) == Some(p.fetched)
    requires PlatformAt(w, c, repo, p)
    ensures BodyAt(w, c, Where(repo, reference)) == Answer(w, Where(repo, reference), p)
  {
    var m := w.parse(p.fetched).value;
    ListsAreIndexes(m);
    DigestKeyFields(repo, reference);
    if IsIndex(m) {
      ChoicesAgreeIff(m.manifests.value, w.arch);
    }
  }
}
