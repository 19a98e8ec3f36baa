/**
 What the handler and pre-pull answer, in terms of what is cached and what upstream answers: which response counts,
 when there is an answer, and with what body and headers.
 */
module Answers {
  import opened Wrappers
  import opened Text
  import opened Names
  import opened Manifests
  import opened StorageKeys
  import opened ImageCache
  import opened PrePull

  // ----- the handler -----

  // The response the handler goes by: that of the race, or of the race with a token if the first is a 401 with a
  // challenge for which a token was obtained.
  predicate IsFinal(x: Exchange, r: Response) {
    && x.mirrors && x.first.Some?
    && (if x.first.value.status == 401 && x.first.value.challenge && x.token then x.retry == Some(r) else x.first == Some(r))
  }

  predicate IsSchema2(w: World, body: Bytes) {
    w.parse(body).Some? ==> !IsSchema1(w.parse(body).value)
  }

  function OwnType(w: World, body: Bytes): Option<string> {
    if w.parse(body).Some? then w.parse(body).value.mediaType else None
  }

  function Either<T>(first: Option<T>, second: T): T {
    if first.Some? then first.value else second
  }

  // The reply carries this body from upstream, with the headers of the response or what the body says.
  predicate Carries(w: World, s: Served, r: Response) {
    && r.body == Some(s.body)
    && s.contentType == Either(r.contentType, Either(OwnType(w, s.body), "application/vnd.docker.distribution.manifest.v2+json"))
    && s.digest == Either(r.digestHeader, w.hash(s.body))
  }

  lemma FinalIs(x: Exchange)
    ensures forall r :: IsFinal(x, r) <==> HandlerResponse(x) == Ok(r)
    ensures (forall r :: !IsFinal(x, r)) ==> HandlerResponse(x) == Err(502)
  {
    if HandlerResponse(x).Ok? {
      assert IsFinal(x, HandlerResponse(x).value);
    }
  }

  /** On a miss the handler answers with the final response: its body if that is a 2xx that could be read and is not
      of schema 1, its status if it is no 2xx, and 502 in every other case; and then nothing is cached. */
  lemma MissIsAnswered(w: World, c: Cache, name: string, reference: string, x: Exchange, io: IO)
    requires ServeAt(w, Visible(c, io.unreadable), Where(HandlerParse(name), reference)).None?
    ensures var (d, reply) := GetManifest(w, c, name, reference, x, io);
      && ((forall r :: !IsFinal(x, r)) ==> reply == Failed(502))
      && (forall r | IsFinal(x, r) ::
            if !(200 <= r.status <= 299) then reply == Failed(r.status)
            else if r.body.None? || !IsSchema2(w, r.body.value) then reply == Failed(502)
            else reply.FromUpstream? && Carries(w, reply.served, r))
      && (!reply.FromUpstream? ==> d == c)
  {
    FinalIs(x);
  }

  // The manifest of the handler's platform in a cached list.
  function CachedPlatform(w: World, c: Cache, repo: Repo, m: Manifest): Option<Bytes> {
    if m.manifests.Some? && HandlerDigest(m.manifests.value, w.arch).Some?
    then Read(c, DigestKey(repo, HandlerDigest(m.manifests.value, w.arch).value)) else None
  }

  // A tag that leads to a list is answered with the manifest of a platform.
  predicate IsTaggedList(w: World, k: Key, body: Bytes) {
    k.Tag? && w.parse(body).Some? && IsList(w.parse(body).value)
  }

  /** From the cache it answers exactly if it finds a manifest that is not of schema 1 and, for a tag that leads to a
      list, the platform's: with that body, the body's hash, and the type the manifest, or the entry of the list,
      states. */
  lemma HitIsAnswered(w: World, c: Cache, k: Key)
    requires Located(k)
    ensures var s, found := ServeAt(w, c, k), LookupAt(c, k);
      if found.None? || !IsSchema2(w, found.value) then s.None?
      else if !IsTaggedList(w, k, found.value) then
        && s.Some? && s.value.body == found.value && s.value.digest == w.hash(found.value)
        && s.value.contentType ==
             (if OwnType(w, found.value).None? || OwnType(w, found.value).value == "" then
                "application/vnd.docker.distribution.manifest.v2+json"
              else OwnType(w, found.value).value)
      else
        var m := w.parse(found.value).value;
        var p := CachedPlatform(w, c, Repo(k.registry, k.repository), m);
        && (s.Some? <==> p.Some?)
        && (p.Some? ==>
              && s.value.body == p.value && s.value.digest == w.hash(p.value)
              && s.value.contentType ==
                   Either(HandlerEntry(m.manifests.value, w.arch).value.mediaType, "application/vnd.docker.distribution.manifest.v2+json"))
  {
  }

  /** What a GET was given on a miss, a later GET that can read it is given from the cache, without asking; of a
      tagged list it is given the platform's manifest if that is cached, and else asks again. */
  lemma GivenAgain(w: World, c: Cache, name: string, reference: string, x: Exchange, io: IO, y: Exchange, later: IO)
    requires HashPrints(w) && HonestExchange(w, reference, x) && NoFaults(io.fate)
    requires GetManifest(w, c, name, reference, x, io).1.FromUpstream?
    requires var d := GetManifest(w, c, name, reference, x, io).0;
      Sees(ReadKeys(w, d, Where(HandlerParse(name), reference)), later.unreadable)
    ensures var k := Where(HandlerParse(name), reference);
      var (d, given) := GetManifest(w, c, name, reference, x, io);
      var (e, again) := GetManifest(w, d, name, reference, y, later);
      var body := given.served.body;
      if !IsTaggedList(w, k, body) then e == d && again.FromCache? && again.served.body == body
      else
        var p := CachedPlatform(w, d, HandlerParse(name), w.parse(body).value);
        (again.FromCache? <==> p.Some?) && (p.Some? ==> e == d && again.served.body == p.value)
  {
    var repo, k := HandlerParse(name), Where(HandlerParse(name), reference);
    var (d, given) := GetManifest(w, c, name, reference, x, io);
    var body := GivenIsFound(w, c, name, reference, x, io);
    SeesServed(w, d, later.unreadable, k);
    HitIsAnswered(w, d, k);
    DigestKeyFields(repo, reference);
  }

  lemma GivenIsFound(w: World, c: Cache, name: string, reference: string, x: Exchange, io: IO) returns (body: Bytes)
    requires HashPrints(w) && HonestExchange(w, reference, x) && NoFaults(io.fate)
    requires GetManifest(w, c, name, reference, x, io).1.FromUpstream?
    ensures var (d, given) := GetManifest(w, c, name, reference, x, io);
      body == given.served.body && LookupAt(d, Where(HandlerParse(name), reference)) == Some(body) && IsSchema2(w, body)
  {
    var r := HandlerResponse(x).value;
    body := r.body.value;
    StoredIsFound(w, c, HandlerParse(name), reference, r, body, false, io.fate);
  }

  /** HEAD answers with the headers of what it finds, whatever that is, and on a miss with those of the final
      response, whose body it reads in full. */
  lemma HeadIsAnswered(w: World, c: Cache, name: string, reference: string, x: Exchange, io: IO)
    ensures var (d, reply) := HeadManifest(w, c, name, reference, x, io);
      var found := LookupAt(Visible(c, io.unreadable), Where(HandlerParse(name), reference));
      if found.Some? then
        d == c && reply == Headers(Either(OwnType(w, found.value), "application/vnd.docker.distribution.manifest.v2+json"),
                                   |found.value|, w.hash(found.value))
      else
        && ((forall r :: !IsFinal(x, r)) ==> reply == HeadFailed(502))
        && (forall r | IsFinal(x, r) ::
              if !(200 <= r.status <= 299) then reply == HeadFailed(r.status)
              else if r.body.None? then reply == HeadFailed(502)
              else reply.Headers? && reply.length == |r.body.value| && Carries(w, Served(r.body.value, reply.contentType, reply.digest), r))
        && (reply.HeadFailed? ==> d == c)
  {
    FinalIs(x);
  }

  // ----- pre-pull -----

  predicate IsFull(r: Option<Response>, body: Bytes) {
    r.Some? && 200 <= r.value.status <= 299 && r.value.body == Some(body)
  }

  // Upstream delivers this body: at once, or after a 401 with a challenge for which a token was obtained.
  predicate Delivers(x: Exchange, body: Bytes) {
    && x.mirrors && x.first.Some?
    && (IsFull(x.first, body) || (x.first.value.status == 401 && x.first.value.challenge && x.token && IsFull(x.retry, body)))
  }

  ghost predicate DeliversNothing(x: Exchange) {
    forall body :: !Delivers(x, body)
  }

  lemma SettledIff(x: Exchange)
    ensures forall body :: Delivers(x, body) <==> Settle(x).Ok? && Settle(x).value.body == Some(body)
  {
  }

  // The manifest of a reference that pre-pull finds: as the handler does, or a legacy copy of a tag.
  predicate Finds(c: Cache, repo: Repo, reference: string, body: Bytes) {
    || LookupAt(c, Where(repo, reference)) == Some(body)
    || (LookupAt(c, Where(repo, reference)).None? && !IsDigest(reference) && Read(c, LegacyKey(repo, reference)) == Some(body))
  }

  // A fetch has this body.
  ghost predicate Fetches(c: Cache, repo: Repo, reference: string, x: Exchange, body: Bytes) {
    Finds(c, repo, reference, body) || ((forall b :: !Finds(c, repo, reference, b)) && Delivers(x, body))
  }

  /** A fetch succeeds exactly with the body that is found in what can be read, or else delivered. */
  lemma FetchSucceedsIff(w: World, c: Cache, repo: Repo, reference: string, x: Exchange, io: IO, body: Bytes)
    ensures FetchManifest(w, c, repo, reference, x, io).1 == Ok(body) <==> Fetches(Visible(c, io.unreadable), repo, reference, x, body)
  {
    SettledIff(x);
    var v := Visible(c, io.unreadable);
    var hit := PullLookup(v, repo, reference);
    assert forall b :: Finds(v, repo, reference, b) <==> hit == Some(b);
  }

  // ----- blobs -----

  // The first of three attempts that delivers the blob delivers this body.
  ghost predicate Sent(env: Env, digest: string, body: Bytes) {
    || Delivers(env.blob(digest, 1), body)
    || (DeliversNothing(env.blob(digest, 1)) && Delivers(env.blob(digest, 2), body))
    || (DeliversNothing(env.blob(digest, 1)) && DeliversNothing(env.blob(digest, 2)) && Delivers(env.blob(digest, 3), body))
  }

  ghost predicate WasSent(env: Env, digest: string) {
    exists body :: Sent(env, digest, body)
  }

  predicate Held(c: Cache, digest: string, env: Env) {
    Read(Visible(c, env.unreadable(2)), BlobKey(digest)).Some?
  }

  lemma AttemptIs(c: Cache, digest: string, x: Exchange, fate: Key -> Fate)
    ensures var (d, r) := PullBlobAttempt(c, digest, x, fate);
      if DeliversNothing(x) then d == c && r.Err?
      else forall body | Delivers(x, body) :: d == PutObject(c, BlobKey(digest), body, fate) && r == Ok(|body|)
  {
    SettledIff(x);
  }

  lemma AttemptsAre(c: Cache, digest: string, env: Env)
    ensures var (d, r) := PullBlobFrom(c, digest, env, 1);
      if !WasSent(env, digest) then d == c && r.Err?
      else forall body | Sent(env, digest, body) :: d == PutObject(c, BlobKey(digest), body, env.fate) && r == Ok(|body|)
  {
    var one, two, three := env.blob(digest, 1), env.blob(digest, 2), env.blob(digest, 3);
    AttemptIs(c, digest, one, env.fate);
    AttemptIs(c, digest, two, env.fate);
    AttemptIs(c, digest, three, env.fate);
    assert PullBlobFrom(c, digest, env, 3) == PullBlobAttempt(c, digest, three, env.fate);
    if DeliversNothing(one) {
      assert PullBlobFrom(c, digest, env, 1) == PullBlobFrom(c, digest, env, 2);
      if DeliversNothing(two) {
        assert PullBlobFrom(c, digest, env, 2) == PullBlobFrom(c, digest, env, 3);
        assert !DeliversNothing(three) ==> exists body :: Delivers(three, body) && Sent(env, digest, body);
      } else {
        assert exists body :: Delivers(two, body) && Sent(env, digest, body);
      }
    } else {
      assert exists body :: Delivers(one, body) && Sent(env, digest, body);
    }
  }

  /** The pull of a blob succeeds exactly if it is cached or one of three attempts delivers it; it counts the bytes,
      and writes what the first such attempt delivers. */
  lemma BlobSucceedsIff(c: Cache, digest: string, env: Env)
    ensures var (d, r) := PullBlob(c, digest, env);
      && (r.Ok? <==> Held(c, digest, env) || WasSent(env, digest))
      && (Held(c, digest, env) ==> d == c && r == Ok(|c.objects[BlobKey(digest)]|))
      && (!Held(c, digest, env) ==> forall body | Sent(env, digest, body) ::
            r == Ok(|body|) && d == PutObject(c, BlobKey(digest), body, env.fate))
      && (r.Err? ==> d == c)
  {
    AttemptsAre(c, digest, env);
  }

  // ----- a whole pull -----

  // A blob before this one in the order was written under the same key.
  ghost predicate WrittenBefore(order: seq<string>, env: Env, n: nat, k: Key)
    requires n <= |order|
  {
    && env.fate(k).Written? && !env.unreadable(2)(k)
    && exists i :: 0 <= i < n && BlobKey(order[i]) == k && WasSent(env, order[i])
  }

  // The pull of the j-th blob finds it or is sent it.
  ghost predicate BlobServed(c: Cache, order: seq<string>, env: Env, j: nat)
    requires j < |order|
  {
    Held(c, order[j], env) || WasSent(env, order[j]) || WrittenBefore(order, env, j, BlobKey(order[j]))
  }

  lemma HeldAfterOne(c: Cache, digest: string, env: Env, other: string)
    ensures Held(PullBlob(c, digest, env).0, other, env) <==>
      || Held(c, other, env)
      || (BlobKey(digest) == BlobKey(other) && WasSent(env, digest) && env.fate(BlobKey(other)).Written? && !env.unreadable(2)(BlobKey(other)))
  {
    BlobSucceedsIff(c, digest, env);
    if !Held(c, digest, env) && WasSent(env, digest) {
      var body :| Sent(env, digest, body);
      assert PullBlob(c, digest, env).0 == PutObject(c, BlobKey(digest), body, env.fate);
    }
  }

  lemma OneMoreWritten(order: seq<string>, env: Env, n: nat, k: Key)
    requires n < |order|
    ensures WrittenBefore(order, env, n + 1, k) <==>
      || WrittenBefore(order, env, n, k)
      || (BlobKey(order[n]) == k && WasSent(env, order[n]) && env.fate(k).Written? && !env.unreadable(2)(k))
  {
  }

  lemma {:induction false} HeldAfter(c: Cache, order: seq<string>, env: Env, n: nat, other: string)
    requires n <= |order|
    ensures Held(PullBlobs(c, order[..n], env).cache, other, env) <==> Held(c, other, env) || WrittenBefore(order, env, n, BlobKey(other))
    decreases n
  {
    if n > 0 {
      HeldAfter(c, order, env, n - 1, other);
      assert order[..n][..n - 1] == order[..n - 1];
      HeldAfterOne(PullBlobs(c, order[..n - 1], env).cache, order[n - 1], env, other);
      OneMoreWritten(order, env, n - 1, BlobKey(other));
    }
  }

  // How many of the first `n` blobs are not served.
  ghost function Unserved(c: Cache, order: seq<string>, env: Env, n: nat): nat
    requires n <= |order|
  {
    if n == 0 then 0 else Unserved(c, order, env, n - 1) + if BlobServed(c, order, env, n - 1) then 0 else 1
  }

  lemma OneMoreFailed(c: Cache, order: seq<string>, env: Env, n: nat)
    requires n < |order|
    ensures PullBlobs(c, order[..n + 1], env).failed == PullBlobs(c, order[..n], env).failed + if BlobServed(c, order, env, n) then 0 else 1
  {
    assert order[..n + 1][..n] == order[..n];
    ServedIsPulled(c, order, env, n);
  }

  lemma ServedIsPulled(c: Cache, order: seq<string>, env: Env, n: nat)
    requires n < |order|
    ensures BlobServed(c, order, env, n) <==> PullBlob(PullBlobs(c, order[..n], env).cache, order[n], env).1.Ok?
  {
    HeldAfter(c, order, env, n, order[n]);
    BlobSucceedsIff(PullBlobs(c, order[..n], env).cache, order[n], env);
  }

  lemma {:induction false} FailedAreUnserved(c: Cache, order: seq<string>, env: Env, n: nat)
    requires n <= |order|
    ensures PullBlobs(c, order[..n], env).failed == Unserved(c, order, env, n)
    decreases n
  {
    if n > 0 {
      FailedAreUnserved(c, order, env, n - 1);
      OneMoreFailed(c, order, env, n - 1);
    }
  }

  lemma {:induction false} NoneUnserved(c: Cache, order: seq<string>, env: Env, n: nat)
    requires n <= |order|
    ensures Unserved(c, order, env, n) == 0 <==> forall j | 0 <= j < n :: BlobServed(c, order, env, j)
    decreases n
  {
    if n > 0 {
      NoneUnserved(c, order, env, n - 1);
    }
  }

  /** No blob of a pull fails exactly if each is cached, or delivered in three attempts, or was written under the
      same key before. */
  lemma BlobsSucceedIff(c: Cache, order: seq<string>, env: Env)
    ensures PullBlobs(c, order, env).failed == 0 <==> forall j | 0 <= j < |order| :: BlobServed(c, order, env, j)
  {
    assert order[..|order|] == order;
    FailedAreUnserved(c, order, env, |order|);
    NoneUnserved(c, order, env, |order|);
  }

  // A pull comes by this manifest, and for a list by this one of its platform; the image names something to pull,
  // and none of that fails.
  ghost predicate GoesThrough(w: World, c: Cache, repo: Repo, reference: string, env: Env, fetched: Bytes, image: Bytes) {
    && Fetches(Visible(c, env.unreadable(0)), repo, reference, env.manifest(0, reference), fetched)
    && w.parse(fetched).Some? && w.parse(image).Some? && ExtractedDigests(w.parse(image).value).Some?
    && var d := FetchManifest(w, c, repo, reference, env.manifest(0, reference), FetchIO(env, 0)).0;
       var second := SecondReference(w, fetched);
       && (if IsIndex(w.parse(fetched).value) then
             second.Some? && Fetches(Visible(d, env.unreadable(1)), repo, second.value, env.manifest(1, second.value), image)
           else image == fetched)
       && var order := env.order(Elements(ExtractedDigests(w.parse(image).value).value));
          forall j | 0 <= j < |order| :: BlobServed(ImageManifest(w, d, repo, fetched, env).0, order, env, j)
  }

  lemma ImageSucceedsIff(w: World, c: Cache, repo: Repo, fetched: Bytes, env: Env, image: Bytes)
    ensures ImageManifest(w, c, repo, fetched, env).1 == Ok(image) <==>
      && w.parse(fetched).Some?
      && var second := SecondReference(w, fetched);
         if IsIndex(w.parse(fetched).value) then
           second.Some? && Fetches(Visible(c, env.unreadable(1)), repo, second.value, env.manifest(1, second.value), image)
         else image == fetched
  {
    var second := SecondReference(w, fetched);
    if second.Some? {
      FetchSucceedsIff(w, c, repo, second.value, env.manifest(1, second.value), FetchIO(env, 1), image);
    }
  }

  lemma LayersSucceedIff(w: World, c: Cache, fetched: Bytes, image: Bytes, env: Env)
    ensures var r := PullLayers(w, c, fetched, image, env).1;
      && (r.Ok? <==>
            && w.parse(image).Some? && ExtractedDigests(w.parse(image).value).Some?
            && var order := env.order(Elements(ExtractedDigests(w.parse(image).value).value));
               forall j | 0 <= j < |order| :: BlobServed(c, order, env, j))
      && (r.Ok? ==> r.value.fetched == fetched && r.value.image == image)
  {
    var m := w.parse(image);
    if m.Some? && ExtractedDigests(m.value).Some? {
      var order := env.order(Elements(ExtractedDigests(m.value).value));
      BlobsSucceedIff(c, order, env);
    }
  }

  /** When a pull reports success, and with which manifests, from what is cached and what upstream answers. */
  lemma PullSucceedsIff(w: World, c: Cache, image: string, env: Env, p: Pulled)
    ensures var parsed, r := ParseImageReference(image), PullImage(w, c, image, env).1;
      r.Ok? && r.value.fetched == p.fetched && r.value.image == p.image <==>
        GoesThrough(w, c, PrePullParse(parsed.name), parsed.reference, env, p.fetched, p.image)
  {
    var parsed := ParseImageReference(image);
    ReferenceSucceedsIff(w, c, PrePullParse(parsed.name), parsed.reference, env, p);
  }

  lemma ReferenceSucceedsIff(w: World, c: Cache, repo: Repo, reference: string, env: Env, p: Pulled)
    ensures var r := PullReference(w, c, repo, reference, env).1;
      r.Ok? && r.value.fetched == p.fetched && r.value.image == p.image <==> GoesThrough(w, c, repo, reference, env, p.fetched, p.image)
  {
    var (d, fetched) := FetchManifest(w, c, repo, reference, env.manifest(0, reference), FetchIO(env, 0));
    FetchSucceedsIff(w, c, repo, reference, env.manifest(0, reference), FetchIO(env, 0), p.fetched);
    ImageSucceedsIff(w, d, repo, p.fetched, env, p.image);
    LayersSucceedIff(w, ImageManifest(w, d, repo, p.fetched, env).0, p.fetched, p.image, env);
    if fetched.Ok? {
      var (e, body) := ImageManifest(w, d, repo, fetched.value, env);
      if body.Ok? {
        LayersSucceedIff(w, e, fetched.value, body.value, env);
      }
    }
  }

  function ContentSize(w: World, digests: seq<string>): nat {
    if digests == [] then 0
    else ContentSize(w, digests[..|digests| - 1]) + |w.content("sha256:" + StripSha(digests[|digests| - 1]))|
  }

  lemma OneSize(w: World, c: Cache, digest: string, env: Env)
    requires Contents(w, c) && Honest(w, env)
    ensures var r := PullBlob(c, digest, env).1;
      r.Ok? ==> r.value == |w.content("sha256:" + StripSha(digest))|
  {
    BlobSucceedsIff(c, digest, env);
    if !Held(c, digest, env) && WasSent(env, digest) {
      var body :| Sent(env, digest, body);
      assert HonestBlob(w, digest, env.blob(digest, 1)) && HonestBlob(w, digest, env.blob(digest, 2)) && HonestBlob(w, digest, env.blob(digest, 3));
    }
  }

  /** The size a pull reports is that of the registry's content for every digest it pulled. */
  lemma {:induction false} SizeIsContent(w: World, c: Cache, order: seq<string>, env: Env)
    requires Contents(w, c) && Honest(w, env)
    ensures var tally := PullBlobs(c, order, env); tally.failed == 0 ==> tally.size == ContentSize(w, order)
  {
    if order != [] {
      var n := |order| - 1;
      SizeIsContent(w, c, order[..n], env);
      PulledBlobsHit(w, c, order[..n], env, Blob(""));
      OneSize(w, PullBlobs(c, order[..n], env).cache, order[n], env);
    }
  }

  lemma PulledSize(w: World, c: Cache, image: string, env: Env)
    requires HashPrints(w) && Contents(w, c) && Honest(w, env)
    ensures var r := PullImage(w, c, image, env).1;
      r.Ok? ==>
        && w.parse(r.value.image).Some? && ExtractedDigests(w.parse(r.value.image).value).Some?
        && r.value.size == ContentSize(w, env.order(Elements(ExtractedDigests(w.parse(r.value.image).value).value)))
  {
    var parsed, r := ParseImageReference(image), PullImage(w, c, image, env).1;
    if r.Ok? {
      var repo := PrePullParse(parsed.name);
      var d, e := PullUnfolds(w, c, repo, parsed.reference, env, PullImage(w, c, image, env).0, r.value);
      FetchKeeps(w, c, repo, parsed.reference, env.manifest(0, parsed.reference), FetchIO(env, 0), Blob(""));
      ImageManifestKeeps(w, d, repo, r.value.fetched, env, Blob(""));
      SizeIsContent(w, e, env.order(Elements(ExtractedDigests(w.parse(r.value.image).value).value)), env);
    }
  }

  // ----- why a pull fails -----

  /** A fetch that fails says what went wrong upstream. */
  lemma FetchFailureSays(w: World, c: Cache, repo: Repo, reference: string, x: Exchange, io: IO)
    ensures var r := FetchManifest(w, c, repo, reference, x, io).1;
      r.Err? ==>
        match r.error
        case NoMirrors => !x.mirrors
        case RaceFailed => x.mirrors && x.first.None?
        case NoChallenge => x.first.Some? && x.first.value.status == 401 && !x.first.value.challenge
        case NoToken => x.first.Some? && x.first.value.status == 401 && x.first.value.challenge && !x.token
        case RetryFailed => x.first.Some? && x.first.value.status == 401 && x.token && x.retry.None?
        case BadStatus(status) =>
          exists last :: IsFinal(x, last) && last.status == status && !(200 <= status <= 299)
        case BodyBroken => exists last :: IsFinal(x, last) && 200 <= last.status <= 299 && last.body.None?
        case _ => false
  {
    if x.first.Some? {
      assert IsFinal(x, x.first.value) || !x.mirrors || x.first.value.status == 401;
    }
    if x.retry.Some? {
      assert IsFinal(x, x.retry.value) || !x.mirrors || x.first.None? || x.first.value.status != 401 || !x.first.value.challenge || !x.token;
    }
  }

  /** So does a pull whose manifests it has: there is no JSON, nothing to pull, or that many blobs are not served. */
  lemma LayersFailureSays(w: World, c: Cache, fetched: Bytes, image: Bytes, env: Env)
    ensures var r, m := PullLayers(w, c, fetched, image, env).1, w.parse(image);
      r.Err? ==>
        match r.error
        case BadJson => m.None?
        case NoLayers => m.Some? && ExtractedDigests(m.value).None?
        case LayersFailed(failed, total) =>
          && m.Some? && ExtractedDigests(m.value).Some?
          && var order := env.order(Elements(ExtractedDigests(m.value).value));
             0 < failed == Unserved(c, order, env, |order|) && total == |order|
        case _ => false
  {
    var m := w.parse(image);
    if m.Some? && ExtractedDigests(m.value).Some? {
      var order := env.order(Elements(ExtractedDigests(m.value).value));
      assert order[..|order|] == order;
      FailedAreUnserved(c, order, env, |order|);
    }
  }
}
