/**
 Where the cache keeps things: blobs, manifests by digest, manifests by legacy reference, tag mappings and
 charts, each under a key of an object store or a path of the file system.
 */
module StorageKeys {
  import opened Wrappers
  import opened Text

  datatype Key =
    | Blob(digest: string)
    | Legacy(registry: string, repository: string, reference: string)
    | ByDigest(registry: string, repository: string, digest: string)
    | Tag(registry: string, repository: string, tag: string)
    | Chart(repo: string, chart: string)

  type Bytes = seq<bv8>

  datatype Backend = Filesystem | ObjectStore(prefix: string)

  // ----- joining and splitting paths -----

  function Join(parts: seq<string>): string {
    if parts == [] then ""
    else if |parts| == 1 then parts[0]
    else parts[0] + "/" + Join(parts[1..])
  }

  function Split(s: string): (parts: seq<string>)
    ensures parts != []
    ensures forall p | p in parts :: '/' !in p
    decreases |s|
  {
    var slash := Find(s, '/');
    if slash.None? then [s] else [s[..slash.value]] + Split(s[slash.value + 1..])
  }

  predicate SlashFree(parts: seq<string>) {
    forall p | p in parts :: '/' !in p
  }

  lemma {:induction false} SplitOfJoin(parts: seq<string>)
    requires parts != [] && SlashFree(parts)
    ensures Split(Join(parts)) == parts
  {
    assert parts[0] in parts;
    if |parts| > 1 {
      SplitOfJoin(parts[1..]);
      FindInJoin(parts[0], '/', Join(parts[1..]));
      assert Join(parts) == parts[0] + ['/'] + Join(parts[1..]);
    }
  }

  lemma {:induction false} JoinOfSplit(s: string)
    ensures Join(Split(s)) == s
    decreases |s|
  {
    var slash := Find(s, '/');
    if slash.Some? {
      JoinOfSplit(s[slash.value + 1..]);
      assert s == s[..slash.value] + "/" + s[slash.value + 1..];
      assert Split(s)[1..] == Split(s[slash.value + 1..]);
    }
  }

  lemma {:induction false} JoinAppend(a: seq<string>, b: seq<string>)
    requires a != [] && b != []
    ensures Join(a + b) == Join(a) + "/" + Join(b)
  {
    if |a| == 1 {
      assert (a + b)[1..] == b;
    } else {
      assert (a + b)[1..] == a[1..] + b;
      JoinAppend(a[1..], b);
    }
  }

  // ----- the keys -----

  // `replace(':', "_")`
  function Safe(s: string): string {
    seq(|s|, i requires 0 <= i < |s| => if s[i] == ':' then '_' else s[i])
  }

  /** Two references are kept under one name exactly if they differ in nothing but ':' and '_'. */
  lemma SameNameIff(a: string, b: string)
    ensures Safe(a) == Safe(b) <==> |a| == |b| && forall i | 0 <= i < |a| :: a[i] == b[i] || (a[i] in ":_" && b[i] in ":_")
    ensures ':' !in Safe(a) && (':' !in a ==> Safe(a) == a)
  {
    if Safe(a) == Safe(b) {
      forall i | 0 <= i < |a| ensures a[i] == b[i] || (a[i] in ":_" && b[i] in ":_") {
        assert Safe(a)[i] == Safe(b)[i];
      }
    }
  }

  function Parts(backend: Backend, k: Key): seq<string> {
    match k
    case Blob(digest) => ["blobs", "sha256", StripSha(digest)]
    case Legacy(registry, repository, reference) =>
      ["manifests", registry, repository] + (if backend.ObjectStore? then ["refs"] else []) + [Safe(StripSha(reference)) + ".json"]
    case ByDigest(registry, repository, digest) => ["manifests", registry, repository, "sha256", StripSha(digest) + ".json"]
    case Tag(registry, repository, tag) => ["manifests", registry, repository, "tags", Safe(tag) + ".digest"]
    case Chart(repo, chart) => ["charts", repo, chart]
  }

  function NonEmpty(parts: seq<string>): seq<string> {
    if parts == [] then []
    else (if parts[0] == "" then [] else [parts[0]]) + NonEmpty(parts[1..])
  }

  // The object key, or the path below the base directory.
  function Locate(backend: Backend, k: Key): string {
    match backend
    case Filesystem => Join(Parts(backend, k))
    case ObjectStore(prefix) => Join((if prefix == "" then [] else [prefix]) + NonEmpty(Parts(backend, k)))
  }

  predicate IsPart(s: string) {
    s != "" && '/' !in s
  }

  // The parts are proper path components; a repository is any number of them.
  predicate WellFormed(k: Key) {
    match k
    case Blob(digest) => IsPart(StripSha(digest))
    case Legacy(registry, repository, reference) => IsPart(registry) && IsRepository(repository) && '/' !in reference
    case ByDigest(registry, repository, digest) => IsPart(registry) && IsRepository(repository) && '/' !in digest
    case Tag(registry, repository, tag) => IsPart(registry) && IsRepository(repository) && '/' !in tag
    case Chart(repo, chart) => IsPart(repo) && IsPart(chart)
  }

  predicate IsRepository(s: string) {
    forall p | p in Split(s) :: IsPart(p)
  }

  lemma JoinOfThree(a: string, b: string, c: string)
    ensures Join([a, b, c]) == a + "/" + (b + "/" + c)
  {
    assert [a, b, c][1..] == [b, c] && [b, c][1..] == [c];
    assert Join([b, c]) == b + "/" + Join([c]) == b + "/" + c;
  }

  lemma JoinOfFive(a: string, b: string, c: string, d: string, e: string)
    ensures Join([a, b, c, d]) == a + "/" + (b + "/" + (c + "/" + d))
    ensures Join([a, b, c, d, e]) == a + "/" + (b + "/" + (c + "/" + (d + "/" + e)))
  {
    JoinOfThree(b, c, d);
    JoinOfThree(c, d, e);
    assert [a, b, c, d][1..] == [b, c, d];
    assert [a, b, c, d, e][1..] == [b, c, d, e] && [b, c, d, e][1..] == [c, d, e];
  }

  /** Where each kind of thing is, spelled out. */
  lemma PathsAre(registry: string, repository: string, digest: string, reference: string, chart: string)
    ensures Locate(Filesystem, Blob(digest)) == "blobs" + "/" + ("sha256" + "/" + StripSha(digest))
    ensures Locate(Filesystem, ByDigest(registry, repository, digest)) ==
      "manifests" + "/" + (registry + "/" + (repository + "/" + ("sha256" + "/" + (StripSha(digest) + ".json"))))
    ensures Locate(Filesystem, Tag(registry, repository, reference)) ==
      "manifests" + "/" + (registry + "/" + (repository + "/" + ("tags" + "/" + (Safe(reference) + ".digest"))))
    ensures Locate(Filesystem, Legacy(registry, repository, reference)) ==
      "manifests" + "/" + (registry + "/" + (repository + "/" + (Safe(StripSha(reference)) + ".json")))
    ensures Locate(Filesystem, Chart(repository, chart)) == "charts" + "/" + (repository + "/" + chart)
  {
    JoinOfThree("blobs", "sha256", StripSha(digest));
    JoinOfThree("charts", repository, chart);
    JoinOfFive("manifests", registry, repository, "sha256", StripSha(digest) + ".json");
    JoinOfFive("manifests", registry, repository, "tags", Safe(reference) + ".digest");
    var file := Safe(StripSha(reference)) + ".json";
    JoinOfFive("manifests", registry, repository, file, "");
    assert ["manifests", registry, repository] + [] + [file] == ["manifests", registry, repository, file];
  }

  // Keys are compared without the "sha256:" prefix of a digest and with ':' read as '_' in references.
  function Canon(k: Key): Key {
    match k
    case Blob(digest) => Blob(StripSha(digest))
    case Legacy(registry, repository, reference) => Legacy(registry, repository, Safe(StripSha(reference)))
    case ByDigest(registry, repository, digest) => ByDigest(registry, repository, StripSha(digest))
    case Tag(registry, repository, tag) => Tag(registry, repository, Safe(tag))
    case Chart(_, _) => k
  }

  // On the file system a legacy reference of a repository "r/sha256" is a digest of "r".
  predicate Aliased(legacy: Key, k: Key) {
    && legacy.Legacy? && k.ByDigest?
    && legacy.registry == k.registry
    && legacy.repository == k.repository + "/sha256"
    && Safe(StripSha(legacy.reference)) == StripSha(k.digest)
  }

  function FileOf(k: Key): string
    requires !k.Blob? && !k.Chart?
  {
    match k
    case Legacy(_, _, reference) => Safe(StripSha(reference)) + ".json"
    case ByDigest(_, _, digest) => StripSha(digest) + ".json"
    case Tag(_, _, tag) => Safe(tag) + ".digest"
  }

  // The family directory and the file name at the end of a manifest's path.
  function Tail(backend: Backend, k: Key): seq<string>
    requires !k.Blob? && !k.Chart?
  {
    Parts(backend, k)[3..]
  }

  // The parts with the repository taken apart.
  function Flat(backend: Backend, k: Key): seq<string> {
    match k
    case Blob(_) => Parts(backend, k)
    case Chart(_, _) => Parts(backend, k)
    case _ => Parts(backend, k)[..2] + Split(k.repository) + Parts(backend, k)[3..]
  }

  lemma RepositoryIsNonEmpty(repository: string)
    requires IsRepository(repository)
    ensures repository != ""
  {
    assert Split("") == [""];
    assert "" in Split("");
  }

  lemma SafeIsSlashFree(s: string)
    requires '/' !in s
    ensures '/' !in Safe(s) && '/' !in StripSha(s) && '/' !in Safe(StripSha(s))
  {
    assert StripSha(s) == s || StripSha(s) == s[7..];
    var t := StripSha(s);
    assert forall i | 0 <= i < |t| :: t[i] in s;
    assert forall i | 0 <= i < |t| :: Safe(t)[i] != '/';
    assert forall i | 0 <= i < |s| :: s[i] in s && Safe(s)[i] != '/';
  }

  lemma PartsAreKept(backend: Backend, k: Key)
    requires WellFormed(k)
    ensures NonEmpty(Parts(backend, k)) == Parts(backend, k)
  {
    if !k.Blob? && !k.Chart? {
      RepositoryIsNonEmpty(k.repository);
    }
    NothingDropped(Parts(backend, k));
  }

  lemma {:induction false} NothingDropped(parts: seq<string>)
    requires forall i | 0 <= i < |parts| :: parts[i] != ""
    ensures NonEmpty(parts) == parts
  {
    if parts != [] {
      NothingDropped(parts[1..]);
    }
  }

  lemma FileIsSlashFree(k: Key)
    requires WellFormed(k) && !k.Blob? && !k.Chart?
    ensures '/' !in FileOf(k)
  {
    match k
    case Legacy(_, _, reference) => SafeIsSlashFree(reference);
    case ByDigest(_, _, digest) => SafeIsSlashFree(digest);
    case Tag(_, _, tag) => SafeIsSlashFree(tag);
  }

  function Spread(registry: string, repository: string, tail: seq<string>): seq<string> {
    ["manifests", registry] + Split(repository) + tail
  }

  function FamilyOf(backend: Backend, k: Key): seq<string>
    requires !k.Blob? && !k.Chart?
  {
    match k
    case Legacy(_, _, _) => if backend.ObjectStore? then ["refs"] else []
    case ByDigest(_, _, _) => ["sha256"]
    case Tag(_, _, _) => ["tags"]
  }

  lemma FlatOfManifest(backend: Backend, k: Key)
    requires !k.Blob? && !k.Chart?
    ensures Flat(backend, k) == Spread(k.registry, k.repository, Tail(backend, k))
    ensures Tail(backend, k) == FamilyOf(backend, k) + [FileOf(k)]
  {
    var parts := Parts(backend, k);
    assert parts == ["manifests", k.registry, k.repository] + Tail(backend, k);
    assert parts[..2] == ["manifests", k.registry];
  }

  lemma ConcatIsSlashFree(a: seq<string>, b: seq<string>)
    requires SlashFree(a) && SlashFree(b)
    ensures SlashFree(a + b)
  {
  }

  lemma SpreadIsSlashFree(registry: string, repository: string, tail: seq<string>)
    requires '/' !in registry && SlashFree(tail)
    ensures SlashFree(Spread(registry, repository, tail))
  {
    var top := ["manifests", registry];
    assert SlashFree(top);
    ConcatIsSlashFree(top, Split(repository));
    ConcatIsSlashFree(top + Split(repository), tail);
  }

  lemma FlatIsSlashFree(backend: Backend, k: Key)
    requires WellFormed(k)
    ensures SlashFree(Flat(backend, k))
  {
    if !k.Blob? && !k.Chart? {
      FlatOfManifest(backend, k);
      FileIsSlashFree(k);
      ConcatIsSlashFree(FamilyOf(backend, k), [FileOf(k)]);
      SpreadIsSlashFree(k.registry, k.repository, Tail(backend, k));
    }
  }

  lemma JoinTakenApart(top: seq<string>, s: string, rest: seq<string>)
    requires top != [] && rest != []
    ensures Join(top + [s] + rest) == Join(top + Split(s) + rest)
  {
    JoinOfSplit(s);
    JoinAppend(top, [s]);
    JoinAppend(top, Split(s));
    JoinAppend(top + [s], rest);
    JoinAppend(top + Split(s), rest);
  }

  lemma JoinOfFlat(backend: Backend, k: Key)
    ensures Join(Parts(backend, k)) == Join(Flat(backend, k))
  {
    if !k.Blob? && !k.Chart? {
      var parts := Parts(backend, k);
      assert parts == parts[..2] + [k.repository] + parts[3..];
      JoinTakenApart(parts[..2], k.repository, parts[3..]);
    }
  }

  // The location is the flat path, below the prefix if there is one.
  lemma LocationIsFlat(backend: Backend, k: Key)
    requires WellFormed(k)
    ensures Locate(backend, k) ==
      (if backend.ObjectStore? && backend.prefix != "" then backend.prefix + "/" else "") + Join(Flat(backend, k))
  {
    JoinOfFlat(backend, k);
    if backend.ObjectStore? {
      PartsAreKept(backend, k);
      var parts := Parts(backend, k);
      if backend.prefix != "" {
        JoinAppend([backend.prefix], parts);
      } else {
        assert [] + parts == parts;
      }
    }
  }

  lemma SamePathSameFlat(backend: Backend, a: Key, b: Key)
    requires WellFormed(a) && WellFormed(b)
    ensures Locate(backend, a) == Locate(backend, b) <==> Flat(backend, a) == Flat(backend, b)
  {
    LocationIsFlat(backend, a);
    LocationIsFlat(backend, b);
    var prefix := if backend.ObjectStore? && backend.prefix != "" then backend.prefix + "/" else "";
    var x, y := Join(Flat(backend, a)), Join(Flat(backend, b));
    assert (prefix + x)[|prefix|..] == x && (prefix + y)[|prefix|..] == y;
    FlatIsSlashFree(backend, a);
    FlatIsSlashFree(backend, b);
    SplitOfJoin(Flat(backend, a));
    SplitOfJoin(Flat(backend, b));
  }

  lemma SameSuffix(a: string, b: string, suffix: string)
    requires a + suffix == b + suffix
    ensures a == b
  {
    assert |a| == |b|;
    assert (a + suffix)[..|a|] == a && (b + suffix)[..|b|] == b;
  }

  lemma SuffixesDiffer(a: string, b: string)
    ensures a + ".json" != b + ".digest"
  {
    var x, y := a + ".json", b + ".digest";
    assert x[|x| - 1] == 'n' && y[|y| - 1] == 't';
  }

  lemma SameRepository(x: string, a: string, xs: seq<string>, y: string, b: string, ys: seq<string>)
    requires |xs| == |ys|
    requires Spread(x, a, xs) == Spread(y, b, ys)
    ensures x == y && a == b && xs == ys
  {
    var s, t := Spread(x, a, xs), Spread(y, b, ys);
    assert s[1] == x && t[1] == y;
    assert s[2..|s| - |xs|] == Split(a) && t[2..|t| - |ys|] == Split(b);
    assert s[|s| - |xs|..] == xs && t[|t| - |ys|..] == ys;
    JoinOfSplit(a);
    JoinOfSplit(b);
  }

  // Two manifests of the same family, or of two families with directories of their own.
  lemma ManifestsApart(backend: Backend, a: Key, b: Key)
    requires !a.Blob? && !a.Chart? && !b.Blob? && !b.Chart?
    requires |Tail(backend, a)| == |Tail(backend, b)|
    ensures Flat(backend, a) == Flat(backend, b) <==> Canon(a) == Canon(b)
  {
    var xs, ys := Tail(backend, a), Tail(backend, b);
    FlatOfManifest(backend, a);
    FlatOfManifest(backend, b);
    if Flat(backend, a) == Flat(backend, b) {
      SameRepository(a.registry, a.repository, xs, b.registry, b.repository, ys);
      assert xs[|xs| - 1] == FileOf(a) && ys[|ys| - 1] == FileOf(b);
      assert "refs" != "tags" by { assert "refs"[0] != "tags"[0]; }
      assert |xs| == 2 ==> xs[0] == ys[0];
      SameFile(a, b, FileOf(a));
    }
  }

  lemma SameFile(a: Key, b: Key, file: string)
    requires !a.Blob? && !a.Chart? && !b.Blob? && !b.Chart?
    requires FileOf(a) == file == FileOf(b)
    ensures a.Tag? == b.Tag?
    ensures a.Legacy? && b.Legacy? ==> Safe(StripSha(a.reference)) == Safe(StripSha(b.reference))
    ensures a.ByDigest? && b.ByDigest? ==> StripSha(a.digest) == StripSha(b.digest)
    ensures a.Legacy? && b.ByDigest? ==> Safe(StripSha(a.reference)) == StripSha(b.digest)
    ensures a.Tag? && b.Tag? ==> Safe(a.tag) == Safe(b.tag)
  {
    if a.Tag? && b.Tag? {
      SameSuffix(Safe(a.tag), Safe(b.tag), ".digest");
    } else if a.Tag? {
      SuffixesDiffer(if b.Legacy? then Safe(StripSha(b.reference)) else StripSha(b.digest), Safe(a.tag));
    } else if b.Tag? {
      SuffixesDiffer(if a.Legacy? then Safe(StripSha(a.reference)) else StripSha(a.digest), Safe(b.tag));
    } else {
      SameSuffix(if a.Legacy? then Safe(StripSha(a.reference)) else StripSha(a.digest),
                 if b.Legacy? then Safe(StripSha(b.reference)) else StripSha(b.digest), ".json");
    }
  }

  // A legacy reference on the file system has no directory of its own.
  lemma LegacyMeetsTag(a: Key, b: Key)
    requires a.Legacy? && b.Tag?
    ensures Flat(Filesystem, a) != Flat(Filesystem, b)
  {
    LegacyIsShallow(a);
    OtherIsDeeper(b, "tags");
    SameShallow(a.registry, a.repository, FileOf(a), b.registry, b.repository + "/" + "tags", FileOf(b));
    SuffixesDiffer(Safe(StripSha(a.reference)), Safe(b.tag));
  }

  lemma DigestIsDeeper(b: Key)
    requires b.ByDigest?
    ensures Flat(Filesystem, b) == Spread(b.registry, b.repository + "/sha256", [FileOf(b)])
  {
    OtherIsDeeper(b, "sha256");
    assert "/" + "sha256" == "/sha256";
    Regroup(b.repository, "/", "sha256");
  }

  lemma SameJsonFile(a: Key, b: Key)
    requires a.Legacy? && b.ByDigest?
    ensures FileOf(a) == FileOf(b) <==> Safe(StripSha(a.reference)) == StripSha(b.digest)
  {
    var x, y := Safe(StripSha(a.reference)), StripSha(b.digest);
    if x + ".json" == y + ".json" {
      SameSuffix(x, y, ".json");
    }
  }

  lemma LegacyMeetsDigest(a: Key, b: Key)
    requires a.Legacy? && b.ByDigest?
    ensures Flat(Filesystem, a) == Flat(Filesystem, b) <==> Aliased(a, b)
  {
    LegacyIsShallow(a);
    DigestIsDeeper(b);
    SameShallow(a.registry, a.repository, FileOf(a), b.registry, b.repository + "/sha256", FileOf(b));
    SameJsonFile(a, b);
  }

  lemma LegacyIsShallow(a: Key)
    requires a.Legacy?
    ensures Flat(Filesystem, a) == Spread(a.registry, a.repository, [FileOf(a)])
  {
    FlatOfManifest(Filesystem, a);
    assert [] + [FileOf(a)] == [FileOf(a)];
  }

  lemma OtherIsDeeper(b: Key, family: string)
    requires b.ByDigest? || b.Tag?
    requires FamilyOf(Filesystem, b) == [family]
    ensures Flat(Filesystem, b) == Spread(b.registry, b.repository + "/" + family, [FileOf(b)])
  {
    FlatOfManifest(Filesystem, b);
    SplitDeeper(b.repository, family);
    SplicedIn(["manifests", b.registry], Split(b.repository), family, FileOf(b));
  }

  lemma SplicedIn(top: seq<string>, middle: seq<string>, family: string, file: string)
    ensures top + middle + ([family] + [file]) == top + (middle + [family]) + [file]
  {
  }

  lemma SameShallow(x: string, a: string, f: string, y: string, b: string, g: string)
    ensures Spread(x, a, [f]) == Spread(y, b, [g]) <==> x == y && a == b && f == g
  {
    if Spread(x, a, [f]) == Spread(y, b, [g]) {
      SameRepository(x, a, [f], y, b, [g]);
      assert [f][0] == [g][0];
    }
  }

  lemma {:induction false} SplitDeeper(repository: string, family: string)
    requires '/' !in family
    ensures Split(repository + "/" + family) == Split(repository) + [family]
  {
    JoinOfSplit(repository);
    JoinAppend(Split(repository), [family]);
    SplitOfJoin(Split(repository) + [family]);
  }

  lemma OtherFamilies(backend: Backend, a: Key, b: Key)
    requires a.Blob? || a.Chart? || b.Blob? || b.Chart?
    ensures Flat(backend, a) == Flat(backend, b) <==> Canon(a) == Canon(b)
  {
    if !a.Blob? && !a.Chart? {
      FlatOfManifest(backend, a);
      assert Flat(backend, a)[0] == "manifests";
    }
    if !b.Blob? && !b.Chart? {
      FlatOfManifest(backend, b);
      assert Flat(backend, b)[0] == "manifests";
    }
    assert (a.Blob? ==> Flat(backend, a)[0] == "blobs") && (a.Chart? ==> Flat(backend, a)[0] == "charts");
    assert (b.Blob? ==> Flat(backend, b)[0] == "blobs") && (b.Chart? ==> Flat(backend, b)[0] == "charts");
    assert a.Blob? && b.Blob? && Flat(backend, a) == Flat(backend, b) ==> Flat(backend, a)[2] == Flat(backend, b)[2];
    assert a.Chart? && b.Chart? && Flat(backend, a) == Flat(backend, b) ==>
      Flat(backend, a)[1] == Flat(backend, b)[1] && Flat(backend, a)[2] == Flat(backend, b)[2];
  }

  /** Two keys share a location exactly when they are the same key, or, on the file system, when one is a legacy
      reference under "…/sha256" and the other the digest it spells. */
  lemma SameLocationIff(backend: Backend, a: Key, b: Key)
    requires WellFormed(a) && WellFormed(b)
    ensures Locate(backend, a) == Locate(backend, b) <==>
      Canon(a) == Canon(b) || (backend.Filesystem? && (Aliased(a, b) || Aliased(b, a)))
  {
    SamePathSameFlat(backend, a, b);
    if a.Blob? || a.Chart? || b.Blob? || b.Chart? {
      OtherFamilies(backend, a, b);
    } else if backend.ObjectStore? || a.Legacy? == b.Legacy? {
      ManifestsApart(backend, a, b);
    } else if a.Tag? {
      LegacyMeetsTag(b, a);
    } else if b.Tag? {
      LegacyMeetsTag(a, b);
    } else if a.Legacy? {
      LegacyMeetsDigest(a, b);
    } else {
      LegacyMeetsDigest(b, a);
    }
  }

  // ----- temp files -----

  // Blobs, manifests by digest and charts are written beside their path and renamed; the rest in place.
  predicate UsesTemp(backend: Backend, k: Key) {
    backend.Filesystem? && (k.Blob? || k.ByDigest? || k.Chart?)
  }

  // The path with the extension of its last part replaced.
  function TempAt(k: Key): string {
    var parts := Parts(Filesystem, k);
    Join(parts[..|parts| - 1] + [TempName(parts[|parts| - 1])])
  }

  // On the file system the temp file of one blob or chart is the other, or the other's path.
  predicate TempHits(a: Key, b: Key) {
    || (a.Blob? && b.Blob? && StripSha(b.digest) == TempName(StripSha(a.digest)))
    || (a.Chart? && b.Chart? && a.repo == b.repo && b.chart == TempName(a.chart))
  }

  // The key, if there were one, of the temp file.
  function TempKey(k: Key): Key
    requires k.Blob? || k.Chart?
  {
    match k
    case Blob(digest) => Blob("sha256:" + TempName(StripSha(digest)))
    case Chart(repo, chart) => Chart(repo, TempName(chart))
  }

  lemma TempIsSlashFree(name: string)
    requires '/' !in name
    ensures '/' !in TempName(name) && TempName(name) != ""
  {
    var dot := RFind(name, '.');
    var stem := if dot.Some? && dot.value > 0 then name[..dot.value] else name;
    assert forall c | c in stem :: c in name;
    assert '/' !in ".tmp";
  }

  lemma StripAdded(name: string)
    ensures StripSha("sha256:" + name) == name
  {
  }

  lemma LastOfThree(x: string, y: string, z: string, last: string)
    ensures [x, y, z][..2] + [last] == [x, y, last]
  {
  }

  lemma TempIsTempKey(k: Key)
    requires (k.Blob? || k.Chart?) && WellFormed(k)
    ensures TempAt(k) == Locate(Filesystem, TempKey(k)) && WellFormed(TempKey(k))
  {
    match k
    case Blob(digest) =>
      TempIsSlashFree(StripSha(digest));
      StripAdded(TempName(StripSha(digest)));
      LastOfThree("blobs", "sha256", StripSha(digest), TempName(StripSha(digest)));
    case Chart(repo, chart) =>
      TempIsSlashFree(chart);
      LastOfThree("charts", repo, chart, TempName(chart));
  }

  // The temp file of a manifest by digest is in a directory of manifests, and its name is none of theirs.
  lemma DigestTempIsNobodys(k: Key, b: Key)
    requires k.ByDigest? && WellFormed(k) && WellFormed(b)
    ensures TempAt(k) != Locate(Filesystem, b)
  {
    var flat := Spread(k.registry, k.repository, ["sha256", TempName(FileOf(k))]);
    DigestTempIsFlat(k, TempName(FileOf(k)));
    DigestTempIsSlashFree(k);
    SplitOfJoin(flat);
    JoinOfFlat(Filesystem, b);
    FlatIsSlashFree(Filesystem, b);
    SplitOfJoin(Flat(Filesystem, b));
    TempIsNotAFile(k, b, flat);
  }

  lemma DigestTempIsSlashFree(k: Key)
    requires k.ByDigest? && WellFormed(k)
    ensures SlashFree(Spread(k.registry, k.repository, ["sha256", TempName(FileOf(k))]))
  {
    FileIsSlashFree(k);
    TempIsSlashFree(FileOf(k));
    SpreadIsSlashFree(k.registry, k.repository, ["sha256", TempName(FileOf(k))]);
  }

  lemma DigestTempIsFlat(k: Key, file: string)
    requires k.ByDigest? && file == TempName(FileOf(k))
    ensures TempAt(k) == Join(Spread(k.registry, k.repository, ["sha256", file]))
  {
    var parts := Parts(Filesystem, k);
    assert parts[..4] + [file] == ["manifests", k.registry] + [k.repository] + ["sha256", file];
    JoinTakenApart(["manifests", k.registry], k.repository, ["sha256", file]);
  }

  lemma LastOfFile(k: Key)
    requires !k.Blob? && !k.Chart?
    ensures FileOf(k) != "" && FileOf(k)[|FileOf(k)| - 1] == if k.Tag? then 't' else 'n'
  {
  }

  lemma TempIsNotAFile(k: Key, b: Key, flat: seq<string>)
    requires k.ByDigest? && |flat| > 0 && flat[0] == "manifests" && flat[|flat| - 1] == TempName(FileOf(k))
    ensures flat != Flat(Filesystem, b)
  {
    var temp := TempName(FileOf(k));
    TempEndsInTmp(FileOf(k));
    assert temp[|temp| - 4..][3] == temp[|temp| - 1] == 'p';
    if !b.Blob? && !b.Chart? {
      FlatOfManifest(Filesystem, b);
      LastOfFile(b);
      assert Flat(Filesystem, b)[|Flat(Filesystem, b)| - 1] == FileOf(b);
    } else {
      assert Flat(Filesystem, b)[0] == (if b.Blob? then "blobs" else "charts");
      assert |"blobs"| != |"manifests"| && |"charts"| != |"manifests"|;
    }
  }

  /** The temp file written for one key is the path of another exactly when both are blobs, or charts of one
      repository, and the other's name is the first's with the extension "tmp". */
  lemma TempHitsIff(a: Key, b: Key)
    requires WellFormed(a) && WellFormed(b) && UsesTemp(Filesystem, a)
    ensures TempAt(a) == Locate(Filesystem, b) <==> TempHits(a, b)
  {
    if a.ByDigest? {
      DigestTempIsNobodys(a, b);
    } else {
      TempIsTempKey(a);
      SameLocationIff(Filesystem, TempKey(a), b);
      if a.Blob? {
        assert StripSha("sha256:" + TempName(StripSha(a.digest))) == TempName(StripSha(a.digest));
      }
    }
  }
}
