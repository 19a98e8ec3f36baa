/**
 The shared cache as the handlers and pre-pull update it, proved against ImageCache and PrePull.
 */
module ImageService {
  import opened Wrappers
  import opened Names
  import opened Manifests
  import opened StorageKeys
  import opened ImageCache
  import P = PrePull

  class SharedCache {
    var contents: Cache

    constructor ()
      ensures contents == EMPTY
    {
      contents := EMPTY;
    }

    // The three writes of a fetched manifest, each of which may fail or be cut short.
    method CacheManifest(w: World, repo: Repo, reference: string, r: Response, body: Bytes, legacy: bool, fate: Key -> Fate)
      modifies this
      ensures contents == StoreManifest(w, old(contents), repo, reference, r, body, legacy, fate)
    {
      var digest := DigestOf(w, r, body);
      contents := PutObject(contents, DigestKey(repo, digest), body, fate);
      if !IsDigest(reference) {
        contents := PutTag(contents, TagKey(repo, reference), digest, fate);
        if legacy {
          contents := PutObject(contents, LegacyKey(repo, reference), body, fate);
        }
      }
    }

    /** GET of a manifest: from the cache if it can be served from there, else from upstream into the cache. */
    method Get(w: World, name: string, reference: string, x: Exchange, io: IO) returns (reply: Reply)
      modifies this
      ensures (contents, reply) == GetManifest(w, old(contents), name, reference, x, io)
    {
      var repo := HandlerParse(name);
      var cached := ServeAt(w, Visible(contents, io.unreadable), Where(repo, reference));
      if cached.Some? {
        return FromCache(cached.value);
      }
      var r := HandlerResponse(x);
      if r.Err? {
        return Failed(r.error);
      }
      if !Success(r.value) || r.value.body.None? {
        return Failed(if Success(r.value) then 502 else r.value.status);
      }
      var body := r.value.body.value;
      var m := w.parse(body);
      if m.Some? && IsSchema1(m.value) {
        return Failed(502);
      }
      CacheManifest(w, repo, reference, r.value, body, false, io.fate);
      return FromUpstream(Served(body, ContentType(r.value, m), DigestOf(w, r.value, body)));
    }

    method Fetch(w: World, repo: Repo, reference: string, x: Exchange, io: IO) returns (result: Result<Bytes, P.PullError>)
      modifies this
      ensures (contents, result) == P.FetchManifest(w, old(contents), repo, reference, x, io)
    {
      var hit := P.PullLookup(Visible(contents, io.unreadable), repo, reference);
      if hit.Some? {
        return Ok(hit.value);
      }
      var r := P.Settle(x);
      if r.Err? || r.value.body.None? {
        return Err(if r.Err? then r.error else P.BodyBroken);
      }
      CacheManifest(w, repo, reference, r.value, r.value.body.value, true, io.fate);
      return Ok(r.value.body.value);
    }

    /** A blob from the cache, or from upstream in at most three attempts. */
    method PullBlob(digest: string, env: P.Env) returns (result: Result<nat, P.PullError>)
      modifies this
      ensures (contents, result) == P.PullBlob(old(contents), digest, env)
    {
      var cached := Read(Visible(contents, env.unreadable(2)), BlobKey(digest));
      if cached.Some? {
        return Ok(|cached.value|);
      }
      ghost var start := contents;
      var attempt := 0;
      result := Err(P.NoMirrors);
      while result.Err? && attempt < P.ATTEMPTS
        invariant attempt <= P.ATTEMPTS && (attempt == 0 ==> contents == start && result.Err?)
        invariant P.PullBlobFrom(start, digest, env, 1) ==
                    if attempt > 0 && (result.Ok? || attempt == P.ATTEMPTS) then (contents, result)
                    else P.PullBlobFrom(contents, digest, env, attempt + 1)
      {
        attempt := attempt + 1;
        var r := P.Settle(env.blob(digest, attempt));
        if r.Err? {
          result := Err(r.error);
        } else if r.value.body.None? {
          result := Err(P.BodyBroken);
        } else {
          contents := PutObject(contents, BlobKey(digest), r.value.body.value, env.fate);
          result := Ok(|r.value.body.value|);
        }
      }
    }

    method PullAll(digests: seq<string>, env: P.Env) returns (size: nat, failed: nat)
      modifies this
      ensures P.PullBlobs(old(contents), digests, env) == P.Tally(contents, size, failed)
    {
      ghost var start := contents;
      size, failed := 0, 0;
      for i := 0 to |digests|
        invariant P.PullBlobs(start, digests[..i], env) == P.Tally(contents, size, failed)
      {
        assert digests[..i + 1][..i] == digests[..i];
        var result := PullBlob(digests[i], env);
        if result.Ok? {
          size := size + result.value;
        } else {
          failed := failed + 1;
        }
      }
      assert digests[..|digests|] == digests;
    }

    // The manifest of the image itself, once one is fetched.
    method FetchImage(w: World, repo: Repo, fetched: Bytes, env: P.Env) returns (result: Result<Bytes, P.PullError>)
      modifies this
      ensures (contents, result) == P.ImageManifest(w, old(contents), repo, fetched, env)
    {
      var m := w.parse(fetched);
      if m.None? {
        return Err(P.BadJson);
      }
      if !IsIndex(m.value) {
        return Ok(fetched);
      }
      if m.value.manifests.None? {
        return Err(P.NoManifestsArray);
      }
      var digest := SelectDigest(m.value.manifests.value, w.arch);
      if digest.None? {
        return Err(P.NoPlatform);
      }
      result := Fetch(w, repo, digest.value, env.manifest(1, digest.value), P.FetchIO(env, 1));
    }

    /** The pull of an image by its reference. */
    method Pull(w: World, image: string, env: P.Env) returns (result: Result<P.Pulled, P.PullError>)
      modifies this
      ensures (contents, result) == P.PullImage(w, old(contents), image, env)
    {
      var parsed := ParseImageReference(image);
      var repo := PrePullParse(parsed.name);
      var fetched := Fetch(w, repo, parsed.reference, env.manifest(0, parsed.reference), P.FetchIO(env, 0));
      if fetched.Err? {
        return Err(fetched.error);
      }
      var body := FetchImage(w, repo, fetched.value, env);
      if body.Err? {
        return Err(body.error);
      }
      var m := w.parse(body.value);
      if m.None? {
        return Err(P.BadJson);
      }
      var digests := ExtractLayerDigests(m.value);
      if digests.None? {
        return Err(P.NoLayers);
      }
      var order := env.order(P.Elements(digests.value));
      var size, failed := PullAll(order, env);
      return if failed > 0 then Err(P.LayersFailed(failed, |order|)) else Ok(P.Pulled(size, fetched.value, body.value));
    }
  }
}
