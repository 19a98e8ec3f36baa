/**
 The single writes that fill the image cache.  A request and each step of a pull read the cache first and then
 write; what they write is fixed by what they read and what upstream answers.
 */
module CacheWrites {
  import opened Wrappers
  import opened Names
  import opened StorageKeys
  import opened ImageCache
  import opened PrePull
  import opened Closure
  import Ranges
  import D = BlobDownload

  // One write of an object or of a tag's mapping, under the key as the program spells it, and how it ends.
  datatype CacheWrite =
    | PutData(key: Key, data: Bytes, fate: Fate)
    | PutMapping(key: Key, digest: string, fate: Fate)

  function ApplyWrite(c: Cache, x: CacheWrite): Cache {
    match x
    case PutData(k, data, fate) => PutObject(c, Canon(k), data, _ => fate)
    case PutMapping(k, digest, fate) => PutTag(c, Canon(k), digest, _ => fate)
  }

  function ApplyWrites(c: Cache, writes: seq<CacheWrite>): Cache
    decreases |writes|
  {
    if writes == [] then c else ApplyWrites(ApplyWrite(c, writes[0]), writes[1..])
  }

  lemma {:induction false} ApplyInTurn(c: Cache, a: seq<CacheWrite>, b: seq<CacheWrite>)
    ensures ApplyWrites(c, a + b) == ApplyWrites(ApplyWrites(c, a), b)
    decreases |a|
  {
    if a == [] {
      assert a + b == b;
    } else {
      assert (a + b)[0] == a[0] && (a + b)[1..] == a[1..] + b;
      ApplyInTurn(ApplyWrite(c, a[0]), a[1..], b);
    }
  }

  // ----- manifests -----

  function StoreWrites(w: World, repo: Repo, reference: string, r: Response, body: Bytes, legacy: bool, fate: Key -> Fate): seq<CacheWrite> {
    var digest := DigestOf(w, r, body);
    var byDigest := PutData(ByDigest(repo.registry, repo.repository, digest), body, fate(DigestKey(repo, digest)));
    var mapping := PutMapping(Tag(repo.registry, repo.repository, reference), digest, fate(TagKey(repo, reference)));
    var copy := PutData(Legacy(repo.registry, repo.repository, reference), body, fate(LegacyKey(repo, reference)));
    if IsDigest(reference) then [byDigest] else if legacy then [byDigest, mapping, copy] else [byDigest, mapping]
  }

  // What the handler writes for a reference it does not find.
  function FillWrites(w: World, name: string, reference: string, r: Option<Response>, fate: Key -> Fate): seq<CacheWrite> {
    if r.Some? && r.value.body.Some? then StoreWrites(w, HandlerParse(name), reference, r.value, r.value.body.value, false, fate) else []
  }

  function GetWrites(w: World, c: Cache, name: string, reference: string, x: Exchange, io: IO): seq<CacheWrite> {
    if ServeAt(w, Visible(c, io.unreadable), Where(HandlerParse(name), reference)).Some? then []
    else FillWrites(w, name, reference, Storable(w, x), io.fate)
  }

  // HEAD stores what it is sent, schema 1 or not.
  function HeadStorable(x: Exchange): Option<Response> {
    var r := HandlerResponse(x);
    if r.Ok? && Success(r.value) && r.value.body.Some? then Some(r.value) else None
  }

  function HeadWrites(w: World, c: Cache, name: string, reference: string, x: Exchange, io: IO): seq<CacheWrite> {
    if LookupAt(Visible(c, io.unreadable), Where(HandlerParse(name), reference)).Some? then []
    else FillWrites(w, name, reference, HeadStorable(x), io.fate)
  }

  function FetchWrites(w: World, c: Cache, repo: Repo, reference: string, x: Exchange, io: IO): seq<CacheWrite> {
    var r := Settle(x);
    if PullLookup(Visible(c, io.unreadable), repo, reference).Some? || r.Err? || r.value.body.None? then []
    else StoreWrites(w, repo, reference, r.value, r.value.body.value, true, io.fate)
  }

  lemma FirstOf(c: Cache, x: CacheWrite, rest: seq<CacheWrite>)
    ensures ApplyWrites(c, [x] + rest) == ApplyWrites(ApplyWrite(c, x), rest)
  {
    assert ([x] + rest)[0] == x && ([x] + rest)[1..] == rest;
  }

  lemma ThreeWrites(c: Cache, x: CacheWrite, y: CacheWrite, z: CacheWrite)
    ensures ApplyWrites(c, [x]) == ApplyWrite(c, x)
    ensures ApplyWrites(c, [x, y]) == ApplyWrite(ApplyWrite(c, x), y)
    ensures ApplyWrites(c, [x, y, z]) == ApplyWrite(ApplyWrite(ApplyWrite(c, x), y), z)
  {
    var once := ApplyWrite(c, x);
    var twice := ApplyWrite(once, y);
    FirstOf(c, x, []);
    FirstOf(c, x, [y]);
    FirstOf(c, x, [y, z]);
    FirstOf(once, y, []);
    FirstOf(once, y, [z]);
    FirstOf(twice, z, []);
    assert [x] + [] == [x] && [x] + [y] == [x, y] && [x] + [y, z] == [x, y, z];
    assert [y] + [] == [y] && [y] + [z] == [y, z] && [z] + [] == [z];
  }

  lemma StoreIsItsWrites(w: World, c: Cache, repo: Repo, reference: string, r: Response, body: Bytes, legacy: bool, fate: Key -> Fate)
    ensures ApplyWrites(c, StoreWrites(w, repo, reference, r, body, legacy, fate)) == StoreManifest(w, c, repo, reference, r, body, legacy, fate)
  {
    var digest := DigestOf(w, r, body);
    ThreeWrites(c, PutData(ByDigest(repo.registry, repo.repository, digest), body, fate(DigestKey(repo, digest))),
                PutMapping(Tag(repo.registry, repo.repository, reference), digest, fate(TagKey(repo, reference))),
                PutData(Legacy(repo.registry, repo.repository, reference), body, fate(LegacyKey(repo, reference))));
  }

  /** A GET is its lookup and then its writes. */
  lemma GetIsItsWrites(w: World, c: Cache, name: string, reference: string, x: Exchange, io: IO)
    ensures ApplyWrites(c, GetWrites(w, c, name, reference, x, io)) == GetManifest(w, c, name, reference, x, io).0
  {
    if Storable(w, x).Some? {
      StoreIsItsWrites(w, c, HandlerParse(name), reference, Storable(w, x).value, Storable(w, x).value.body.value, false, io.fate);
    }
  }

  lemma HeadIsItsWrites(w: World, c: Cache, name: string, reference: string, x: Exchange, io: IO)
    ensures ApplyWrites(c, HeadWrites(w, c, name, reference, x, io)) == HeadManifest(w, c, name, reference, x, io).0
  {
    var r := HandlerResponse(x);
    if HeadStorable(x).Some? {
      StoreIsItsWrites(w, c, HandlerParse(name), reference, r.value, r.value.body.value, false, io.fate);
    }
  }

  lemma FetchIsItsWrites(w: World, c: Cache, repo: Repo, reference: string, x: Exchange, io: IO)
    ensures ApplyWrites(c, FetchWrites(w, c, repo, reference, x, io)) == FetchManifest(w, c, repo, reference, x, io).0
  {
    var r := Settle(x);
    if r.Ok? && r.value.body.Some? {
      StoreIsItsWrites(w, c, repo, reference, r.value, r.value.body.value, true, io.fate);
    }
  }

  // ----- blobs -----

  function AttemptWrites(digest: string, env: Env, attempt: nat): seq<CacheWrite>
    requires 1 <= attempt <= ATTEMPTS
    decreases ATTEMPTS - attempt
  {
    var r := Settle(env.blob(digest, attempt));
    if r.Ok? && r.value.body.Some? then [PutData(Blob(digest), r.value.body.value, env.fate(BlobKey(digest)))]
    else if attempt == ATTEMPTS then []
    else AttemptWrites(digest, env, attempt + 1)
  }

  function BlobWrites(c: Cache, digest: string, env: Env): seq<CacheWrite> {
    if Read(Visible(c, env.unreadable(2)), BlobKey(digest)).Some? then [] else AttemptWrites(digest, env, 1)
  }

  lemma {:induction false} AttemptsAreTheirWrites(c: Cache, digest: string, env: Env, attempt: nat)
    requires 1 <= attempt <= ATTEMPTS
    ensures ApplyWrites(c, AttemptWrites(digest, env, attempt)) == PullBlobFrom(c, digest, env, attempt).0
    ensures PullBlobFrom(c, digest, env, attempt).1.Ok? <==> AttemptWrites(digest, env, attempt) != []
    decreases ATTEMPTS - attempt
  {
    var r := Settle(env.blob(digest, attempt));
    if r.Ok? && r.value.body.Some? {
      var x := PutData(Blob(digest), r.value.body.value, env.fate(BlobKey(digest)));
      ThreeWrites(c, x, x, x);
    } else if attempt < ATTEMPTS {
      AttemptsAreTheirWrites(c, digest, env, attempt + 1);
    }
  }

  /** A pull of a blob is its lookup and then at most one write, with success exactly if it was found or written. */
  lemma BlobIsItsWrites(c: Cache, digest: string, env: Env)
    ensures var writes := BlobWrites(c, digest, env);
      && ApplyWrites(c, writes) == PullBlob(c, digest, env).0 && |writes| <= 1
      && (PullBlob(c, digest, env).1.Ok? <==> Read(Visible(c, env.unreadable(2)), BlobKey(digest)).Some? || writes != [])
  {
    AttemptsAreTheirWrites(c, digest, env, 1);
    AtMostOne(digest, env, 1);
  }

  lemma {:induction false} AtMostOne(digest: string, env: Env, attempt: nat)
    requires 1 <= attempt <= ATTEMPTS
    ensures |AttemptWrites(digest, env, attempt)| <= 1
    decreases ATTEMPTS - attempt
  {
    if attempt < ATTEMPTS {
      AtMostOne(digest, env, attempt + 1);
    }
  }

  // A GET of a blob writes what it commits.
  function DownloadWrites(w: World, c: Cache, digest: string, temp: Option<Bytes>, request: D.Get): seq<CacheWrite> {
    var slot := D.Slot(temp, Read(c, BlobKey(digest)));
    if request.opens && Ranges.OpenBlob(slot.blob, request.range).Some? then []
    else
      var (after, outcome) := D.Attempt(w.hash, digest, slot, request.env, request.commit);
      if outcome.Committed? && after.blob.Some? then [PutData(Blob(digest), after.blob.value, Written)] else []
  }

  lemma DownloadIsItsWrites(w: World, c: Cache, op: Op)
    requires op.Download?
    ensures ApplyWrites(c, DownloadWrites(w, c, op.digest, op.temp, op.request)) == Step(w, c, op)
  {
    var slot := D.Slot(op.temp, Read(c, BlobKey(op.digest)));
    var (after, outcome) := D.Attempt(w.hash, op.digest, slot, op.request.env, op.request.commit);
    var blob := BlobAfter(w, c, op.digest, op.temp, op.request);
    if op.request.env.reply.Some? && D.IsSuccess(op.request.env.reply.value.status) {
      D.CommitConditionIsExact(w.hash, op.digest, slot, op.request.env, op.request.commit);
    }
    if blob == slot.blob {
      assert Step(w, c, op).objects == c.objects;
    }
    if outcome.Committed? && blob.Some? {
      var x := PutData(Blob(op.digest), blob.value, Written);
      ThreeWrites(c, x, x, x);
    }
  }
}
