/**
 The cache of manifests, tag mappings and blobs by key, and the request handler's use of it: `get_manifest` and
 `head_manifest` answer from the cache if they can, and fill it from upstream if not.  A read that fails is a
 miss.
 */
module ImageCache {
  import opened Wrappers
  import opened Text
  import opened Names
  import opened Manifests
  import opened StorageKeys
  import Ranges

  // The hash, the JSON parser and the architecture, and the registry's content for each digest.
  datatype World = World(hash: Bytes -> string, parse: Bytes -> Option<Manifest>, arch: string, content: string -> Bytes)

  datatype Cache = Cache(objects: map<Key, Bytes>, tags: map<Key, string>)

  const EMPTY := Cache(map[], map[])

  function DigestKey(repo: Repo, digest: string): Key {
    Canon(ByDigest(repo.registry, repo.repository, digest))
  }

  function TagKey(repo: Repo, tag: string): Key {
    Canon(Tag(repo.registry, repo.repository, tag))
  }

  function LegacyKey(repo: Repo, reference: string): Key {
    Canon(Legacy(repo.registry, repo.repository, reference))
  }

  function BlobKey(digest: string): Key {
    Canon(Blob(digest))
  }

  predicate Located(k: Key) {
    k.Tag? || k.ByDigest?
  }

  // Where a reference is looked up first: a digest directly, a tag through its mapping.
  function Where(repo: Repo, reference: string): (k: Key)
    ensures Located(k)
  {
    if IsDigest(reference) then DigestKey(repo, reference) else TagKey(repo, reference)
  }

  function Read(c: Cache, k: Key): Option<Bytes> {
    if k in c.objects then Some(c.objects[k]) else None
  }

  // How a write ends: done, not done at all, or cut short.
  datatype Fate = Written | Lost | CutShort(part: nat)

  // The reads that fail during one operation, and how its writes end.
  datatype IO = IO(unreadable: Key -> bool, fate: Key -> Fate)

  ghost predicate NoFaults(fate: Key -> Fate) {
    forall k :: fate(k).Written?
  }

  function Cut<T>(s: seq<T>, n: nat): seq<T> {
    if n <= |s| then s[..n] else s
  }

  ghost predicate Readable(unreadable: Key -> bool) {
    forall k :: !unreadable(k)
  }

  // The cache as an operation sees it.
  function Visible(c: Cache, unreadable: Key -> bool): Cache {
    Cache(map k | k in c.objects && !unreadable(k) :: c.objects[k], map k | k in c.tags && !unreadable(k) :: c.tags[k])
  }

  // Blobs and manifests by digest are renamed into place, so a write that is cut short leaves them as they were;
  // tag mappings and legacy copies are written in place.
  function PutObject(c: Cache, k: Key, data: Bytes, fate: Key -> Fate): Cache {
    match fate(k)
    case Written => c.(objects := c.objects[k := data])
    case Lost => c
    case CutShort(n) => if k.Legacy? then c.(objects := c.objects[k := Cut(data, n)]) else c
  }

  function PutTag(c: Cache, k: Key, digest: string, fate: Key -> Fate): Cache {
    match fate(k)
    case Written => c.(tags := c.tags[k := digest])
    case Lost => c
    case CutShort(n) => c.(tags := c.tags[k := Cut(digest, n)])
  }

  // A blob is a hit when `open_blob` opens it.
  predicate BlobHit(c: Cache, digest: string) {
    Ranges.OpenBlob(Read(c, BlobKey(digest)), None).Some?
  }

  // The handler's lookup: mappings are trimmed when they are read.
  function LookupAt(c: Cache, k: Key): Option<Bytes>
    requires Located(k)
  {
    if k.ByDigest? then Read(c, k)
    else if k in c.tags then Read(c, DigestKey(Repo(k.registry, k.repository), Trim(c.tags[k])))
    else None
  }

  datatype Served = Served(body: Bytes, contentType: string, digest: string)

  function Resolve(w: World, c: Cache, repo: Repo, m: Manifest): Option<Served> {
    if m.manifests.None? then None
    else
      var entry := HandlerEntry(m.manifests.value, w.arch);
      if entry.None? || entry.value.digest.None? then None
      else
        var p := Read(c, DigestKey(repo, entry.value.digest.value));
        if p.None? then None
        else Some(Served(p.value, if entry.value.mediaType.Some? then entry.value.mediaType.value else DEFAULT_MEDIA_TYPE,
                         w.hash(p.value)))
  }

  // What the handler answers without asking upstream.
  function ServeAt(w: World, c: Cache, k: Key): Option<Served>
    requires Located(k)
  {
    var data := LookupAt(c, k);
    if data.None? then None
    else
      var m := w.parse(data.value);
      if m.Some? && IsSchema1(m.value) then None
      else if m.Some? && IsList(m.value) && k.Tag? then Resolve(w, c, Repo(k.registry, k.repository), m.value)
      else
        var mediaType := if m.Some? then OrEmpty(m.value.mediaType) else "";
        Some(Served(data.value, if mediaType == "" then DEFAULT_MEDIA_TYPE else mediaType, w.hash(data.value)))
  }

  // ----- answers from upstream -----

  // A response; the challenge is its WWW-Authenticate header, the body is missing when reading it fails.
  datatype Response = Response(status: nat, challenge: bool, digestHeader: Option<string>, contentType: Option<string>,
                               body: Option<Bytes>)

  // A race, and the race repeated with a token if one was obtained; None is a race nobody answered.
  datatype Exchange = Exchange(mirrors: bool, first: Option<Response>, token: bool, retry: Option<Response>)

  predicate Success(r: Response) {
    200 <= r.status < 300
  }

  function DigestOf(w: World, r: Response, body: Bytes): string {
    if r.digestHeader.Some? then r.digestHeader.value else w.hash(body)
  }

  // Caching a fetched manifest: by digest and, for a tag, the mapping; pre-pull also keeps the legacy copy.
  function StoreManifest(w: World, c: Cache, repo: Repo, reference: string, r: Response, body: Bytes, legacy: bool,
                         fate: Key -> Fate): Cache
  {
    var digest := DigestOf(w, r, body);
    var stored := PutObject(c, DigestKey(repo, digest), body, fate);
    if IsDigest(reference) then stored
    else
      var mapped := PutTag(stored, TagKey(repo, reference), digest, fate);
      if legacy then PutObject(mapped, LegacyKey(repo, reference), body, fate) else mapped
  }

  datatype Reply =
    | FromCache(served: Served)
    | FromUpstream(served: Served)
    | Failed(status: nat)

  // The handler asks again when it has a token, and otherwise passes the 401 on.
  function HandlerResponse(x: Exchange): Result<Response, nat> {
    if !x.mirrors || x.first.None? then Err(502)
    else if x.first.value.status == 401 && x.first.value.challenge && x.token then
      if x.retry.None? then Err(502) else Ok(x.retry.value)
    else Ok(x.first.value)
  }

  function ContentType(r: Response, m: Option<Manifest>): string {
    if r.contentType.Some? then r.contentType.value
    else if m.Some? && m.value.mediaType.Some? then m.value.mediaType.value
    else DEFAULT_MEDIA_TYPE
  }

  function GetManifest(w: World, c: Cache, name: string, reference: string, x: Exchange, io: IO): (Cache, Reply)
  {
    var repo := HandlerParse(name);
    var cached := ServeAt(w, Visible(c, io.unreadable), Where(repo, reference));
    if cached.Some? then (c, FromCache(cached.value))
    else
      var r := HandlerResponse(x);
      if r.Err? then (c, Failed(r.error))
      else if !Success(r.value) then (c, Failed(r.value.status))
      else if r.value.body.None? then (c, Failed(502))
      else
        var body := r.value.body.value;
        var m := w.parse(body);
        if m.Some? && IsSchema1(m.value) then (c, Failed(502))
        else (StoreManifest(w, c, repo, reference, r.value, body, false, io.fate),
              FromUpstream(Served(body, ContentType(r.value, m), DigestOf(w, r.value, body))))
  }

  datatype HeadReply = Headers(contentType: string, length: nat, digest: string) | HeadFailed(status: nat)

  // HEAD takes what is cached as it is: neither schema 1 nor a list is treated specially.
  function HeadManifest(w: World, c: Cache, name: string, reference: string, x: Exchange, io: IO): (Cache, HeadReply)
  {
    var repo := HandlerParse(name);
    var cached := LookupAt(Visible(c, io.unreadable), Where(repo, reference));
    if cached.Some? then
      var m := w.parse(cached.value);
      (c, Headers(if m.Some? && m.value.mediaType.Some? then m.value.mediaType.value else DEFAULT_MEDIA_TYPE,
                  |cached.value|, w.hash(cached.value)))
    else
      var r := HandlerResponse(x);
      if r.Err? then (c, HeadFailed(r.error))
      else if !Success(r.value) then (c, HeadFailed(r.value.status))
      else if r.value.body.None? then (c, HeadFailed(502))
      else
        var body := r.value.body.value;
        (StoreManifest(w, c, repo, reference, r.value, body, false, io.fate),
         Headers(ContentType(r.value, w.parse(body)), |body|, DigestOf(w, r.value, body)))
  }

  // The handler answers the reference with the manifest of a platform instead of the list it finds.
  predicate ResolvesAt(w: World, c: Cache, k: Key)
    requires Located(k)
  {
    var data := LookupAt(c, k);
    && k.Tag? && data.Some?
    && var m := w.parse(data.value);
       m.Some? && !IsSchema1(m.value) && IsList(m.value) && Resolve(w, c, Repo(k.registry, k.repository), m.value).Some?
  }

  // The keys the handler reads to serve a reference: the mapping, the manifest, and the platform's.
  function ReadKeys(w: World, c: Cache, k: Key): set<Key>
    requires Located(k)
  {
    var data := LookupAt(c, k);
    var m := if data.Some? then w.parse(data.value) else None;
    {k}
    + (if k.Tag? && k in c.tags then {DigestKey(Repo(k.registry, k.repository), Trim(c.tags[k]))} else {})
    + (if m.Some? && m.value.manifests.Some? && HandlerDigest(m.value.manifests.value, w.arch).Some?
       then {DigestKey(Repo(k.registry, k.repository), HandlerDigest(m.value.manifests.value, w.arch).value)} else {})
  }

  // None of these keys fails to be read.
  predicate Sees(keys: set<Key>, unreadable: Key -> bool) {
    forall o | o in keys :: !unreadable(o)
  }

  lemma SeesServed(w: World, c: Cache, unreadable: Key -> bool, k: Key)
    requires Located(k) && Sees(ReadKeys(w, c, k), unreadable)
    ensures LookupAt(Visible(c, unreadable), k) == LookupAt(c, k)
    ensures ServeAt(w, Visible(c, unreadable), k) == ServeAt(w, c, k)
  {
    assert k in ReadKeys(w, c, k);
  }

  /** For a reference the cache serves, HEAD gives the digest GET does exactly when the manifest found is not a
      list that resolves to a platform (with no list of lists, and no two manifests of one hash). */
  lemma HeadAgreesIff(w: World, c: Cache, name: string, reference: string, x: Exchange, io: IO)
    requires var k := Where(HandlerParse(name), reference);
      && ServeAt(w, c, k).Some?
      && (forall p | w.hash(p) == w.hash(LookupAt(c, k).value) :: p == LookupAt(c, k).value)
      && (ResolvesAt(w, c, k) ==>
            w.parse(ServeAt(w, c, k).value.body).Some? && !IsList(w.parse(ServeAt(w, c, k).value.body).value))
    requires Sees(ReadKeys(w, c, Where(HandlerParse(name), reference)), io.unreadable)
    ensures var k := Where(HandlerParse(name), reference);
      var get, head := GetManifest(w, c, name, reference, x, io).1, HeadManifest(w, c, name, reference, x, io).1;
      && get.FromCache? && head.Headers?
      && (head.digest == get.served.digest <==> !ResolvesAt(w, c, k))
  {
    SeesServed(w, c, io.unreadable, Where(HandlerParse(name), reference));
  }

  // ----- what every operation keeps -----

  // The hash is printed as "sha256:" and hexadecimal digits.
  ghost predicate HashPrints(w: World) {
    forall b :: IsDigest(w.hash(b)) && Trim(w.hash(b)) == w.hash(b) && '/' !in w.hash(b)
  }

  // An honest response: the header, if there is one, is the body's hash, the body is what the registry has for
  // that digest, and a request by digest is answered with that digest.
  predicate HonestResponse(w: World, reference: string, r: Response) {
    r.body.Some? && Success(r) ==>
      var body := r.body.value;
      && (r.digestHeader.None? || r.digestHeader.value == w.hash(body))
      && body == w.content(w.hash(body))
      && (IsDigest(reference) ==> w.hash(body) == reference)
  }

  predicate HonestExchange(w: World, reference: string, x: Exchange) {
    && (x.first.Some? ==> HonestResponse(w, reference, x.first.value))
    && (x.retry.Some? ==> HonestResponse(w, reference, x.retry.value))
  }

  // Whatever upstream answers with has this digest: the tag has not moved.
  predicate Unmoved(w: World, x: Exchange, digest: string) {
    && (x.first.Some? && Success(x.first.value) && x.first.value.body.Some? ==> DigestOf(w, x.first.value, x.first.value.body.value) == digest)
    && (x.retry.Some? && Success(x.retry.value) && x.retry.value.body.Some? ==> DigestOf(w, x.retry.value, x.retry.value.body.value) == digest)
  }

  // A reference, the digest it is mapped to if it is a tag, and the keys read to serve it.
  datatype Hold = Hold(key: Key, digest: string, keys: set<Key>)

  function HoldOf(w: World, c: Cache, k: Key): Hold
    requires Located(k)
  {
    Hold(k, if k in c.tags then c.tags[k] else "", ReadKeys(w, c, k))
  }

  // Where an operation on a reference writes, it leaves the mapping that is held.
  predicate LeavesMapping(w: World, repo: Repo, reference: string, x: Exchange, io: IO, h: Hold) {
    Where(repo, reference) == h.key && h.key.Tag? ==> Unmoved(w, x, h.digest) && !io.fate(h.key).CutShort?
  }

  // An operation on a reference spares a hold: it is about something else, or it can read what is held, or
  // upstream has not moved the tag and writing the mapping again is not cut short.
  predicate Spares(w: World, repo: Repo, reference: string, x: Exchange, io: IO, h: Hold) {
    Where(repo, reference) == h.key ==> Sees(h.keys, io.unreadable) || LeavesMapping(w, repo, reference, x, io, h)
  }

  // Manifests and blobs are the registry's content for their digests, and no blob is empty.
  predicate Contents(w: World, c: Cache) {
    && (forall k | k in c.objects && (k.ByDigest? || k.Blob?) :: c.objects[k] == w.content("sha256:" + k.digest))
    && (forall k | k in c.objects && k.Blob? :: c.objects[k] != [])
  }

  // A legacy copy is never alone: the tag is mapped to a manifest that is cached.
  predicate Covered(c: Cache) {
    forall k | k in c.objects && k.Legacy? :: LookupAt(c, Tag(k.registry, k.repository, k.reference)).Some?
  }

  // No manifest by digest and no blob is lost, and `k`, if it is a tag that is served, keeps its mapping.
  predicate Keeps(w: World, c: Cache, d: Cache, k: Key) {
    && (forall o | o in c.objects && !o.Legacy? :: o in d.objects && d.objects[o] == c.objects[o])
    && (k.Tag? && ServeAt(w, c, k).Some? ==> k in d.tags && d.tags[k] == c.tags[k])
  }

  lemma AllVisible(c: Cache, unreadable: Key -> bool)
    requires Readable(unreadable)
    ensures Visible(c, unreadable) == c
  {
    assert Visible(c, unreadable).objects == c.objects && Visible(c, unreadable).tags == c.tags;
  }

  lemma SeenIsThere(w: World, c: Cache, unreadable: Key -> bool, k: Key)
    requires Located(k)
    ensures var v := Visible(c, unreadable);
      && (LookupAt(v, k).Some? ==> LookupAt(c, k) == LookupAt(v, k))
      && (ServeAt(w, v, k).Some? ==> ServeAt(w, c, k) == ServeAt(w, v, k))
  {
  }

  lemma HeldStays(w: World, c: Cache, d: Cache, k: Key)
    requires Keeps(w, c, d, k) && Located(k) && ServeAt(w, c, k).Some?
    ensures k.Tag? ==> HoldOf(w, d, k) == HoldOf(w, c, k)
    ensures ReadKeys(w, d, k) == ReadKeys(w, c, k)
  {
    assert LookupAt(d, k) == LookupAt(c, k);
  }

  lemma KeptIsServed(w: World, c: Cache, d: Cache, k: Key)
    requires Keeps(w, c, d, k) && Located(k) && ServeAt(w, c, k).Some?
    ensures ServeAt(w, d, k) == ServeAt(w, c, k)
  {
    assert LookupAt(d, k) == LookupAt(c, k);
  }

  lemma KeepsInTurn(w: World, c: Cache, d: Cache, e: Cache, k: Key)
    requires Keeps(w, c, d, k) && Keeps(w, d, e, k)
    ensures Keeps(w, c, e, k)
  {
    if k.Tag? && ServeAt(w, c, k).Some? {
      KeptIsServed(w, c, d, k);
    }
  }

  lemma KeptBlobsHit(w: World, c: Cache, d: Cache, k: Key, digest: string)
    requires Keeps(w, c, d, k) && BlobHit(c, digest)
    ensures BlobHit(d, digest) && Read(d, BlobKey(digest)) == Read(c, BlobKey(digest))
  {
  }

  lemma StripThenAdd(digest: string)
    requires IsDigest(digest)
    ensures "sha256:" + StripSha(digest) == digest
  {
  }

  lemma DigestKeyFields(repo: Repo, digest: string)
    ensures DigestKey(repo, digest) == ByDigest(repo.registry, repo.repository, StripSha(digest))
    ensures Where(repo, digest).registry == repo.registry && Where(repo, digest).repository == repo.repository
  {
  }

  // Storing what the registry has for a digest changes nothing that is already there.
  lemma PutByDigestKeeps(w: World, c: Cache, repo: Repo, digest: string, body: Bytes, fate: Key -> Fate, k: Key)
    requires Contents(w, c) && IsDigest(digest) && body == w.content(digest)
    ensures var d := PutObject(c, DigestKey(repo, digest), body, fate);
      Contents(w, d) && Keeps(w, c, d, k) && d.tags == c.tags
  {
    StripThenAdd(digest);
    DigestKeyFields(repo, digest);
  }

  lemma PutBlobKeeps(w: World, c: Cache, digest: string, data: Bytes, fate: Key -> Fate, k: Key)
    requires Contents(w, c) && data == w.content("sha256:" + StripSha(digest)) && data != []
    ensures var d := PutObject(c, BlobKey(digest), data, fate);
      Contents(w, d) && Keeps(w, c, d, k) && d.tags == c.tags
  {
  }

  // A mapping may change if it is another's, or not served, or stays the same.
  lemma PutTagKeeps(w: World, c: Cache, stored: Cache, t: Key, digest: string, fate: Key -> Fate, k: Key)
    requires Contents(w, stored) && Keeps(w, c, stored, k) && stored.tags == c.tags
    requires t.Tag? && (t == k && ServeAt(w, c, k).Some? ==> digest == c.tags[k] && !fate(k).CutShort?)
    ensures var d := PutTag(stored, t, digest, fate); Contents(w, d) && Keeps(w, c, d, k)
  {
  }

  lemma PutLegacyKeeps(w: World, c: Cache, stored: Cache, l: Key, data: Bytes, fate: Key -> Fate, k: Key)
    requires Contents(w, stored) && Keeps(w, c, stored, k) && l.Legacy?
    ensures var d := PutObject(stored, l, data, fate); Contents(w, d) && Keeps(w, c, d, k) && d.tags == stored.tags
  {
  }

  lemma StoreKeeps(w: World, c: Cache, repo: Repo, reference: string, r: Response, body: Bytes, legacy: bool, fate: Key -> Fate, k: Key)
    requires HashPrints(w) && Contents(w, c) && Success(r) && r.body == Some(body) && HonestResponse(w, reference, r)
    requires k.Tag? && Where(repo, reference) == k && ServeAt(w, c, k).Some? ==> DigestOf(w, r, body) == c.tags[k] && !fate(k).CutShort?
    ensures var d := StoreManifest(w, c, repo, reference, r, body, legacy, fate);
      Contents(w, d) && Keeps(w, c, d, k) && (IsDigest(reference) ==> d.tags == c.tags)
  {
    var digest := DigestOf(w, r, body);
    PutByDigestKeeps(w, c, repo, digest, body, fate, k);
    var stored := PutObject(c, DigestKey(repo, digest), body, fate);
    if !IsDigest(reference) {
      PutTagKeeps(w, c, stored, TagKey(repo, reference), digest, fate, k);
      if legacy {
        PutLegacyKeeps(w, c, PutTag(stored, TagKey(repo, reference), digest, fate), LegacyKey(repo, reference), body, fate, k);
      }
    }
  }

  // Once stored without a fault, the manifest is found under its reference.
  lemma StoredIsFound(w: World, c: Cache, repo: Repo, reference: string, r: Response, body: Bytes, legacy: bool, fate: Key -> Fate)
    requires HashPrints(w) && Success(r) && r.body == Some(body) && HonestResponse(w, reference, r)
    requires NoFaults(fate)
    ensures var d := StoreManifest(w, c, repo, reference, r, body, legacy, fate);
      LookupAt(d, Where(repo, reference)) == Some(body)
  {
    var digest := DigestOf(w, r, body);
    DigestKeyFields(repo, digest);
    DigestKeyFields(repo, reference);
  }

  lemma StoreCovers(w: World, c: Cache, repo: Repo, reference: string, r: Response, body: Bytes, legacy: bool, fate: Key -> Fate)
    requires HashPrints(w) && Contents(w, c) && Covered(c)
    requires Success(r) && r.body == Some(body) && HonestResponse(w, reference, r)
    requires NoFaults(fate)
    ensures Covered(StoreManifest(w, c, repo, reference, r, body, legacy, fate))
  {
    var d := StoreManifest(w, c, repo, reference, r, body, legacy, fate);
    PutByDigestKeeps(w, c, repo, DigestOf(w, r, body), body, fate, Where(repo, reference));
    StoredIsFound(w, c, repo, reference, r, body, legacy, fate);
    forall k | k in d.objects && k.Legacy? ensures LookupAt(d, Tag(k.registry, k.repository, k.reference)).Some? {
      var t := Tag(k.registry, k.repository, k.reference);
      if t != Where(repo, reference) {
        LegacyIsOld(w, c, repo, reference, r, body, legacy, fate, k);
        assert LookupAt(c, t).Some?;
        assert LookupAt(d, t) == LookupAt(c, t);
      }
    }
  }

  lemma LegacyIsOld(w: World, c: Cache, repo: Repo, reference: string, r: Response, body: Bytes, legacy: bool, fate: Key -> Fate, k: Key)
    requires k.Legacy? && k in StoreManifest(w, c, repo, reference, r, body, legacy, fate).objects
    requires Tag(k.registry, k.repository, k.reference) != Where(repo, reference)
    ensures k in c.objects
  {
  }

  // Storing what upstream sent, by an operation that did not see the reference served.
  lemma FillKeeps(w: World, c: Cache, repo: Repo, reference: string, x: Exchange, r: Response, legacy: bool, io: IO, k: Key)
    requires HashPrints(w) && Contents(w, c) && HonestExchange(w, reference, x)
    requires (x.first == Some(r) || x.retry == Some(r)) && Success(r) && r.body.Some?
    requires ServeAt(w, Visible(c, io.unreadable), Where(repo, reference)).None?
    requires k.Tag? && ServeAt(w, c, k).Some? ==> Spares(w, repo, reference, x, io, HoldOf(w, c, k))
    ensures var d := StoreManifest(w, c, repo, reference, r, r.body.value, legacy, io.fate);
      && Contents(w, d) && Keeps(w, c, d, k) && (IsDigest(reference) ==> d.tags == c.tags)
      && (Covered(c) && NoFaults(io.fate) ==> Covered(d))
  {
    if k.Tag? && Where(repo, reference) == k && ServeAt(w, c, k).Some? {
      assert k in c.tags;
      if Sees(ReadKeys(w, c, k), io.unreadable) {
        SeesServed(w, c, io.unreadable, k);
      }
    }
    StoreKeeps(w, c, repo, reference, r, r.body.value, legacy, io.fate, k);
    if Covered(c) && NoFaults(io.fate) {
      StoreCovers(w, c, repo, reference, r, r.body.value, legacy, io.fate);
    }
  }

  /** A GET with honest answers keeps the registry's content, everything cached, and the mapping of a served tag
      that it spares. */
  lemma GetManifestKeeps(w: World, c: Cache, name: string, reference: string, x: Exchange, io: IO, k: Key)
    requires HashPrints(w) && Contents(w, c) && HonestExchange(w, reference, x)
    requires k.Tag? && ServeAt(w, c, k).Some? ==> Spares(w, HandlerParse(name), reference, x, io, HoldOf(w, c, k))
    ensures var d := GetManifest(w, c, name, reference, x, io).0;
      && Contents(w, d) && Keeps(w, c, d, k)
      && (Covered(c) && NoFaults(io.fate) ==> Covered(d))
  {
    var r := HandlerResponse(x);
    if ServeAt(w, Visible(c, io.unreadable), Where(HandlerParse(name), reference)).None? && r.Ok? && Success(r.value) && r.value.body.Some? {
      FillKeeps(w, c, HandlerParse(name), reference, x, r.value, false, io, k);
    }
  }

  /** So does a HEAD. */
  lemma HeadManifestKeeps(w: World, c: Cache, name: string, reference: string, x: Exchange, io: IO, k: Key)
    requires HashPrints(w) && Contents(w, c) && HonestExchange(w, reference, x)
    requires k.Tag? && ServeAt(w, c, k).Some? ==> Spares(w, HandlerParse(name), reference, x, io, HoldOf(w, c, k))
    ensures var d := HeadManifest(w, c, name, reference, x, io).0;
      && Contents(w, d) && Keeps(w, c, d, k)
      && (Covered(c) && NoFaults(io.fate) ==> Covered(d))
  {
    var r := HandlerResponse(x);
    if LookupAt(Visible(c, io.unreadable), Where(HandlerParse(name), reference)).None? && r.Ok? && Success(r.value) && r.value.body.Some? {
      FillKeeps(w, c, HandlerParse(name), reference, x, r.value, false, io, k);
    }
  }

  // The answer the handler would store, if it had to ask upstream.
  function Storable(w: World, x: Exchange): Option<Response> {
    var r := HandlerResponse(x);
    if r.Ok? && Success(r.value) && r.value.body.Some? &&
       !(w.parse(r.value.body.value).Some? && IsSchema1(w.parse(r.value.body.value).value))
    then Some(r.value) else None
  }

  // What a write of a mapping leaves in the place of `old_`.
  function Remains(old_: string, digest: string, fate: Fate): string {
    match fate
    case Written => digest
    case Lost => old_
    case CutShort(n) => Cut(digest, n)
  }

  /** A GET of a tag that is served keeps the tag's mapping exactly when its reads let it see that, or upstream
      gives nothing to store, or what the write leaves, whole or cut short, is the digest that is mapped. */
  lemma TagKeptIff(w: World, c: Cache, name: string, tag: string, x: Exchange, io: IO)
    requires !IsDigest(tag) && ServeAt(w, c, Where(HandlerParse(name), tag)).Some?
    ensures var k := Where(HandlerParse(name), tag);
      var d, r := GetManifest(w, c, name, tag, x, io).0, Storable(w, x);
      && k in c.tags && k in d.tags
      && (d.tags[k] == c.tags[k] <==>
            || ServeAt(w, Visible(c, io.unreadable), k).Some? || r.None?
            || Remains(c.tags[k], DigestOf(w, r.value, r.value.body.value), io.fate(k)) == c.tags[k])
  {
  }

  /** For instance one failed read of the mapping, while upstream has moved the tag, replaces what is served. */
  lemma FailedReadMovesTag(w: World, c: Cache, name: string, tag: string, x: Exchange, io: IO)
    requires HashPrints(w) && HonestExchange(w, tag, x) && !IsDigest(tag)
    requires io.unreadable(Where(HandlerParse(name), tag)) && NoFaults(io.fate) && Storable(w, x).Some?
    ensures var d := GetManifest(w, c, name, tag, x, io).0;
      LookupAt(d, Where(HandlerParse(name), tag)) == Storable(w, x).value.body
  {
    var r := Storable(w, x).value;
    StoredIsFound(w, c, HandlerParse(name), tag, r, r.body.value, false, io.fate);
  }
}
