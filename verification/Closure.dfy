/**
 Runs of the image cache: pulls, manifest requests and blob downloads in any order, with failing reads and
 writes.  An image that has been pulled is served from the cache for as long as no operation moves its tag.
 */
module Closure {
  import opened Wrappers
  import opened Text
  import opened Names
  import opened Manifests
  import opened StorageKeys
  import opened ImageCache
  import opened PrePull
  import D = BlobDownload

  // A pre-pull, a manifest request, or a GET of a blob that finds a temp file, whatever it holds.
  datatype Op =
    | Pull(image: string, env: Env)
    | Get(name: string, reference: string, exchange: Exchange, io: IO)
    | Head(name: string, reference: string, exchange: Exchange, io: IO)
    | Download(digest: string, temp: Option<Bytes>, request: D.Get)

  // The blob there is after a GET for it.
  function BlobAfter(w: World, c: Cache, digest: string, temp: Option<Bytes>, request: D.Get): Option<Bytes> {
    D.GetStep(w.hash, digest, D.Slot(temp, Read(c, BlobKey(digest))), request).blob
  }

  function Step(w: World, c: Cache, op: Op): Cache {
    match op
    case Pull(image, env) => PullImage(w, c, image, env).0
    case Get(name, reference, exchange, io) => GetManifest(w, c, name, reference, exchange, io).0
    case Head(name, reference, exchange, io) => HeadManifest(w, c, name, reference, exchange, io).0
    case Download(digest, temp, request) =>
      var blob := BlobAfter(w, c, digest, temp, request);
      if blob.Some? then c.(objects := c.objects[BlobKey(digest) := blob.value]) else c
  }

  function RunOps(w: World, c: Cache, ops: seq<Op>): Cache {
    if ops == [] then c else Step(w, RunOps(w, c, ops[..|ops| - 1]), ops[|ops| - 1])
  }

  ghost predicate HonestOp(w: World, op: Op) {
    match op
    case Pull(_, env) => Honest(w, env)
    case Get(_, reference, exchange, _) => HonestExchange(w, reference, exchange)
    case Head(_, reference, exchange, _) => HonestExchange(w, reference, exchange)
    case Download(digest, _, request) => request.env.readOk && Registered(w, digest)
  }

  // The only bytes with this digest are the registry's, and they are not empty.
  ghost predicate Registered(w: World, digest: string) {
    forall b | w.hash(b) == digest :: b == w.content(digest) && b != []
  }

  // No write of the operation fails.
  ghost predicate FaultFree(op: Op) {
    match op
    case Pull(_, env) => NoFaults(env.fate)
    case Get(_, _, _, io) => NoFaults(io.fate)
    case Head(_, _, _, io) => NoFaults(io.fate)
    case Download(_, _, _) => true
  }

  // From this cache the operation spares the tag that is held.
  predicate SparesTag(w: World, c: Cache, op: Op, h: Hold) {
    match op
    case Pull(image, env) =>
      var parsed := ParseImageReference(image);
      PullSpares(w, c, PrePullParse(parsed.name), parsed.reference, env, h)
    case Get(name, reference, x, io) => Spares(w, HandlerParse(name), reference, x, io, h)
    case Head(name, reference, x, io) => Spares(w, HandlerParse(name), reference, x, io, h)
    case Download(_, _, _) => true
  }

  // So does each operation of a run.
  predicate RunSpares(w: World, c: Cache, ops: seq<Op>, h: Hold) {
    ops == [] ||
    (RunSpares(w, c, ops[..|ops| - 1], h) && SparesTag(w, RunOps(w, c, ops[..|ops| - 1]), ops[|ops| - 1], h))
  }

  /** What a GET of a blob commits is the registry's content for the digest, whatever upstream sends and whatever
      the temp file holds, if that can be read. */
  lemma CommittedIsContent(w: World, digest: string, slot: D.Slot, request: D.Get)
    requires HashPrints(w) && request.env.readOk && Registered(w, digest)
    ensures var (after, outcome) := D.Attempt(w.hash, digest, slot, request.env, request.commit);
      if outcome.Committed? then
        after.blob == Some(w.content(digest)) && w.content(digest) != [] && digest == "sha256:" + StripSha(digest)
      else after.blob == slot.blob
  {
    if request.env.reply.Some? && D.IsSuccess(request.env.reply.value.status) {
      D.CommitConditionIsExact(w.hash, digest, slot, request.env, request.commit);
      var all := D.Assembled(slot, request.env);
      if w.hash(all) == digest {
        StripThenAdd(digest);
      }
    }
  }

  lemma DownloadKeeps(w: World, c: Cache, op: Op, k: Key)
    requires HashPrints(w) && Contents(w, c) && op.Download? && HonestOp(w, op)
    ensures var d := Step(w, c, op);
      Contents(w, d) && Keeps(w, c, d, k) && (Covered(c) ==> Covered(d))
  {
    var blob := BlobAfter(w, c, op.digest, op.temp, op.request);
    CommittedIsContent(w, op.digest, D.Slot(op.temp, Read(c, BlobKey(op.digest))), op.request);
    if blob == Read(c, BlobKey(op.digest)) {
      assert Step(w, c, op).objects == c.objects;
    } else {
      PutBlobKeeps(w, c, op.digest, blob.value, _ => Written, k);
      if Covered(c) {
        CoverStays(w, c, Step(w, c, op), k);
      }
    }
  }

  lemma StepKeeps(w: World, c: Cache, op: Op, k: Key)
    requires HashPrints(w) && Contents(w, c) && HonestOp(w, op)
    requires k.Tag? && ServeAt(w, c, k).Some? ==> SparesTag(w, c, op, HoldOf(w, c, k))
    ensures Contents(w, Step(w, c, op)) && Keeps(w, c, Step(w, c, op), k)
    ensures Covered(c) && FaultFree(op) ==> Covered(Step(w, c, op))
  {
    match op
    case Pull(image, env) =>
      var parsed := ParseImageReference(image);
      PullKeeps(w, c, PrePullParse(parsed.name), parsed.reference, env, k);
    case Get(name, reference, exchange, io) => GetManifestKeeps(w, c, name, reference, exchange, io, k);
    case Head(name, reference, exchange, io) => HeadManifestKeeps(w, c, name, reference, exchange, io, k);
    case Download(_, _, _) => DownloadKeeps(w, c, op, k);
  }

  /** Whatever fails, as long as upstream is honest, no manifest by digest and no blob that is cached is lost or
      changed, and a reference that is served keeps being served the same if its tag is spared. */
  lemma {:induction false} RunKeeps(w: World, c: Cache, ops: seq<Op>, k: Key)
    requires HashPrints(w) && Contents(w, c) && Located(k) && forall op | op in ops :: HonestOp(w, op)
    requires k.Tag? && ServeAt(w, c, k).Some? ==> RunSpares(w, c, ops, HoldOf(w, c, k))
    ensures var d := RunOps(w, c, ops);
      && Contents(w, d) && Keeps(w, c, d, k)
      && (ServeAt(w, c, k).Some? ==> ServeAt(w, d, k) == ServeAt(w, c, k))
    ensures Covered(c) && (forall op | op in ops :: FaultFree(op)) ==> Covered(RunOps(w, c, ops))
  {
    if ops != [] {
      var n := |ops| - 1;
      RunKeeps(w, c, ops[..n], k);
      assert ops[n] in ops;
      var d := RunOps(w, c, ops[..n]);
      // A tag that is not served needs no sparing, so any digest key does in its place.
      var j := if ServeAt(w, c, k).Some? then k else Blob("");
      if ServeAt(w, c, k).Some? {
        HeldStays(w, c, d, k);
      }
      StepKeeps(w, d, ops[n], j);
      if ServeAt(w, c, k).Some? {
        KeepsInTurn(w, c, d, RunOps(w, c, ops), k);
        KeptIsServed(w, c, RunOps(w, c, ops), k);
      }
    }
  }

  // ----- images served without upstream -----

  // A pulled image of the usual kind: schema 2, not a list of lists, and a list, if it is one, in a media type
  // the handler knows that gives the chosen platform a digest.
  predicate Standard(w: World, p: Pulled) {
    var m, image := w.parse(p.fetched), w.parse(p.image);
    && m.Some? && image.Some?
    && !IsSchema1(m.value) && !IsSchema1(image.value) && !IsIndex(image.value)
    && (IsIndex(m.value) ==> IsList(m.value) && PlatformDigest(w, m.value).Some?)
    && ListsByDigest(w, p.fetched)
  }

  // While what it reads can be read, the handler's answer does not depend on upstream.
  ghost predicate ServedFromCache(w: World, c: Cache, name: string, reference: string, body: Bytes) {
    forall x, io: IO | Sees(ReadKeys(w, c, Where(HandlerParse(name), reference)), io.unreadable) ::
      var (d, reply) := GetManifest(w, c, name, reference, x, io);
      d == c && reply.FromCache? && reply.served.body == body
  }

  // The whole image is served from the cache: its manifest, its platform's by digest, and every blob, with the
  // registry's content.
  ghost predicate Servable(w: World, c: Cache, name: string, reference: string, p: Pulled)
    requires Standard(w, p)
  {
    var m := w.parse(p.fetched).value;
    && ServedFromCache(w, c, name, reference, if IsIndex(m) && !IsDigest(reference) then p.image else p.fetched)
    && (IsIndex(m) ==> ServedFromCache(w, c, name, PlatformDigest(w, m).value, p.image))
    && forall digest | digest in Named(w.parse(p.image).value) ::
         BlobHit(c, digest) && Read(c, BlobKey(digest)) == Some(w.content("sha256:" + StripSha(digest)))
  }

  lemma BodyIsServed(w: World, c: Cache, name: string, reference: string, body: Bytes)
    ensures BodyAt(w, c, Where(HandlerParse(name), reference)) == Some(body) <==> ServedFromCache(w, c, name, reference, body)
  {
    var k := Where(HandlerParse(name), reference);
    forall x, io: IO | Sees(ReadKeys(w, c, k), io.unreadable)
      ensures GetManifest(w, c, name, reference, x, io).1.FromCache? <==> ServeAt(w, c, k).Some?
      ensures ServeAt(w, c, k).Some? ==> GetManifest(w, c, name, reference, x, io) == (c, FromCache(ServeAt(w, c, k).value))
    {
      SeesServed(w, c, io.unreadable, k);
    }
    var nobody, faultless := Exchange(false, None, false, None), IO(_ => false, _ => Written);
    assert ServedFromCache(w, c, name, reference, body) ==> GetManifest(w, c, name, reference, nobody, faultless).1.FromCache?;
  }

  lemma PlatformIsServed(w: World, c: Cache, repo: Repo, p: Pulled)
    requires Standard(w, p) && PlatformAt(w, c, repo, p) && IsIndex(w.parse(p.fetched).value)
    ensures var digest := PlatformDigest(w, w.parse(p.fetched).value).value;
      IsDigest(digest) && BodyAt(w, c, Where(repo, digest)) == Some(p.image)
  {
    var m := w.parse(p.fetched).value;
    ChoicesAgreeIff(m.manifests.value, w.arch);
    ChosenIsListed(m.manifests.value, w.arch);
    ListsAreIndexes(w.parse(p.image).value);
  }

  lemma AllThereIsServable(w: World, c: Cache, name: string, reference: string, p: Pulled)
    requires Contents(w, c) && Standard(w, p) && PlatformAt(w, c, HandlerParse(name), p) && BlobsAt(w, c, p)
    requires BodyAt(w, c, Where(HandlerParse(name), reference)) == Answer(w, Where(HandlerParse(name), reference), p)
    ensures Servable(w, c, name, reference, p)
  {
    AnswerIsServed(w, c, name, reference, p);
    forall digest | digest in Named(w.parse(p.image).value)
      ensures BlobHit(c, digest) && Read(c, BlobKey(digest)) == Some(w.content("sha256:" + StripSha(digest)))
    {
      HitHasContent(w, c, digest);
    }
  }

  // A pull that succeeds without a write fault.
  lemma PulledIsServable(w: World, c: Cache, env: Env, name: string, reference: string, d: Cache, p: Pulled)
    requires HashPrints(w) && Contents(w, c) && Honest(w, env) && NoFaults(env.fate)
    requires !SeesStaleCopy(c, HandlerParse(name), reference, env.unreadable(0))
    requires PullReference(w, c, HandlerParse(name), reference, env) == (d, Ok(p)) && Standard(w, p)
    ensures Contents(w, d) && Servable(w, d, name, reference, p)
  {
    var repo := HandlerParse(name);
    PullIsAnswered(w, c, repo, reference, env, d, p);
    PullKeeps(w, c, repo, reference, env, DigestKey(repo, reference));
    AllThereIsServable(w, d, name, reference, p);
  }

  lemma HitHasContent(w: World, c: Cache, digest: string)
    requires Contents(w, c) && BlobHit(c, digest)
    ensures Read(c, BlobKey(digest)) == Some(w.content("sha256:" + StripSha(digest)))
  {
  }

  lemma AnswerIsServed(w: World, d: Cache, name: string, reference: string, p: Pulled)
    requires Standard(w, p) && PlatformAt(w, d, HandlerParse(name), p)
    requires BodyAt(w, d, Where(HandlerParse(name), reference)) == Answer(w, Where(HandlerParse(name), reference), p)
    ensures var m := w.parse(p.fetched).value;
      && ServedFromCache(w, d, name, reference, if IsIndex(m) && !IsDigest(reference) then p.image else p.fetched)
      && (IsIndex(m) ==> ServedFromCache(w, d, name, PlatformDigest(w, m).value, p.image))
  {
    var repo, m := HandlerParse(name), w.parse(p.fetched).value;
    ListsAreIndexes(m);
    BodyIsServed(w, d, name, reference, Answer(w, Where(repo, reference), p).value);
    if IsIndex(m) {
      PlatformIsServed(w, d, repo, p);
      BodyIsServed(w, d, name, PlatformDigest(w, m).value, p.image);
    }
  }

  lemma ServedStays(w: World, c: Cache, d: Cache, name: string, reference: string, body: Bytes)
    requires Keeps(w, c, d, Where(HandlerParse(name), reference)) && ServedFromCache(w, c, name, reference, body)
    ensures ServedFromCache(w, d, name, reference, body)
  {
    BodyIsServed(w, c, name, reference, body);
    KeptIsServed(w, c, d, Where(HandlerParse(name), reference));
    BodyIsServed(w, d, name, reference, body);
  }

  lemma ServableStays(w: World, c: Cache, d: Cache, name: string, reference: string, p: Pulled)
    requires Standard(w, p) && Servable(w, c, name, reference, p)
    requires Keeps(w, c, d, Where(HandlerParse(name), reference))
    ensures Servable(w, d, name, reference, p)
  {
    var m, k := w.parse(p.fetched).value, Where(HandlerParse(name), reference);
    ServedStays(w, c, d, name, reference, if IsIndex(m) && !IsDigest(reference) then p.image else p.fetched);
    if IsIndex(m) {
      PlatformByDigest(w, p);
      ServedStays(w, c, d, name, PlatformDigest(w, m).value, p.image);
    }
    forall digest | digest in Named(w.parse(p.image).value) ensures BlobHit(d, digest) && Read(d, BlobKey(digest)) == Read(c, BlobKey(digest)) {
      KeptBlobsHit(w, c, d, k, digest);
    }
  }

  lemma PlatformByDigest(w: World, p: Pulled)
    requires Standard(w, p) && IsIndex(w.parse(p.fetched).value)
    ensures IsDigest(PlatformDigest(w, w.parse(p.fetched).value).value)
  {
    var m := w.parse(p.fetched).value;
    ChoicesAgreeIff(m.manifests.value, w.arch);
    ChosenIsListed(m.manifests.value, w.arch);
  }

  lemma ServableThroughRuns(w: World, c: Cache, name: string, reference: string, p: Pulled, after: seq<Op>)
    requires HashPrints(w) && Contents(w, c) && Standard(w, p) && Servable(w, c, name, reference, p)
    requires forall op | op in after :: HonestOp(w, op)
    requires !IsDigest(reference) ==> RunSpares(w, c, after, HoldOf(w, c, Where(HandlerParse(name), reference)))
    ensures Servable(w, RunOps(w, c, after), name, reference, p)
  {
    var k := Where(HandlerParse(name), reference);
    RunKeeps(w, c, after, k);
    ServableStays(w, c, RunOps(w, c, after), name, reference, p);
  }

  /** From an empty cache, after any run with honest upstreams and whatever faults, an image that pre-pull reports
      as pulled, with no write of its own failing and unless it fell for a stale legacy copy, is servable without
      upstream, with every blob's right content; and it stays so through every run that follows, except for an
      operation on its tag that cannot read what is cached and finds the tag moved upstream or is cut short
      writing its mapping. */
  lemma PulledImagesStayServable(w: World, before: seq<Op>, image: string, env: Env, name: string, reference: string,
                                 c: Cache, p: Pulled, after: seq<Op>)
    requires HashPrints(w) && Honest(w, env) && NoFaults(env.fate)
    requires forall op | op in before + after :: HonestOp(w, op)
    requires ParseImageReference(image) == ImageRef(name, reference) && Agreed(name)
    requires !SeesStaleCopy(RunOps(w, EMPTY, before), HandlerParse(name), reference, env.unreadable(0))
    requires PullImage(w, RunOps(w, EMPTY, before), image, env) == (c, Ok(p)) && Standard(w, p)
    requires !IsDigest(reference) ==> RunSpares(w, c, after, HoldOf(w, c, Where(HandlerParse(name), reference)))
    ensures Servable(w, RunOps(w, c, after), name, reference, p)
  {
    RunKeeps(w, EMPTY, before, Where(HandlerParse(name), reference));
    ParsersAgreeIff(name);
    PulledIsServable(w, RunOps(w, EMPTY, before), env, name, reference, c, p);
    ServableThroughRuns(w, c, name, reference, p, after);
  }

  /** No legacy copy is stale after a run without write faults, if it can be read. */
  lemma FaultFreeRunsLeaveNothingStale(w: World, before: seq<Op>, repo: Repo, reference: string, unreadable: Key -> bool)
    requires HashPrints(w) && Readable(unreadable)
    requires forall op | op in before :: HonestOp(w, op) && FaultFree(op)
    ensures !SeesStaleCopy(RunOps(w, EMPTY, before), repo, reference, unreadable)
  {
    RunKeeps(w, EMPTY, before, Where(repo, reference));
    CoveredIsNotStale(RunOps(w, EMPTY, before), repo, reference, unreadable);
  }

  /** A failed write matters: when only the write by digest fails, the pull still succeeds, and from then on
      every pull of the tag that can read the legacy copy succeeds from it without asking upstream, while the
      handler never finds the manifest in the cache. */
  lemma FailedDigestWriteIsHidden(w: World, c: Cache, name: string, tag: string, x: Exchange, io: IO)
    requires HashPrints(w) && HonestExchange(w, tag, x) && !IsDigest(tag)
    requires Settle(x).Ok? && Settle(x).value.body.Some? && PullLookup(Visible(c, io.unreadable), HandlerParse(name), tag).None?
    requires var body := Settle(x).value.body.value;
      Read(c, DigestKey(HandlerParse(name), w.hash(body))).None? && !io.fate(DigestKey(HandlerParse(name), w.hash(body))).Written?
    requires io.fate(TagKey(HandlerParse(name), tag)).Written? && io.fate(LegacyKey(HandlerParse(name), tag)).Written?
    ensures var (d, body) := FetchManifest(w, c, HandlerParse(name), tag, x, io);
      && body.Ok?
      && LegacyOnly(d, HandlerParse(name), tag)
      && (forall y, later: IO | !later.unreadable(LegacyKey(HandlerParse(name), tag)) ::
            FetchManifest(w, d, HandlerParse(name), tag, y, later) == (d, body))
      && (forall y, later: IO :: !GetManifest(w, d, name, tag, y, later).1.FromCache?)
  {
    var repo := HandlerParse(name);
    var k, body := Where(repo, tag), Settle(x).value.body.value;
    var (d, fetched) := FetchManifest(w, c, repo, tag, x, io);
    DigestKeyFields(repo, tag);
    DigestKeyFields(repo, w.hash(body));
    assert d.tags[TagKey(repo, tag)] == w.hash(body);
    assert LookupAt(d, k).None?;
    forall y, later: IO
      ensures !later.unreadable(LegacyKey(repo, tag)) ==> FetchManifest(w, d, repo, tag, y, later) == (d, fetched)
      ensures !GetManifest(w, d, name, tag, y, later).1.FromCache?
    {
      SeenIsThere(w, d, later.unreadable, k);
    }
  }
}
