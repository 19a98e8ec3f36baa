/**
 Manifests as JSON records: the two choices of a platform from a list (the request handler's and pre-pull's),
 and the digests pre-pull takes from a manifest.
 */
module Manifests {
  import opened Wrappers
  import opened Text

  datatype Platform = Platform(os: Option<string>, architecture: Option<string>)

  datatype Entry = Entry(platform: Option<Platform>, digest: Option<string>, mediaType: Option<string>)

  // The fields that are read.  A layer is its digest, if it has one; so is the config.
  datatype Manifest = Manifest(schemaVersion: Option<nat>, mediaType: Option<string>, manifests: Option<seq<Entry>>,
                               layers: Option<seq<Option<string>>>, config: Option<Option<string>>)

  const DOCKER_TYPE := "application/vnd.docker.distribution."
  const OCI_TYPE := "application/vnd.oci."

  const DOCKER_SCHEMA_1 := DOCKER_TYPE + "manifest.v1+json"
  const DEFAULT_MEDIA_TYPE := "application/vnd.docker.distribution.manifest.v2+json"

  function OrEmpty(s: Option<string>): string {
    if s.Some? then s.value else ""
  }

  // Pre-pull's test for a list of manifests, and the request handler's.
  predicate IsIndex(m: Manifest) {
    Contains(OrEmpty(m.mediaType), "manifest.list") || Contains(OrEmpty(m.mediaType), "index")
  }

  predicate IsList(m: Manifest) {
    Contains(OrEmpty(m.mediaType), "manifest.list") || Contains(OrEmpty(m.mediaType), "image.index")
  }

  predicate IsSchema1(m: Manifest) {
    || m.schemaVersion == Some(1)
    || (m.mediaType.Some? && (m.mediaType.value == DOCKER_SCHEMA_1 || Contains(m.mediaType.value, "schema1")))
  }

  /** Whatever the handler takes for a list, pre-pull does too; the converse fails for a media type such as
      "index" on its own. */
  lemma ListsAreIndexes(m: Manifest)
    ensures IsList(m) ==> IsIndex(m)
    ensures IsIndex(m.(mediaType := Some("index"))) && !IsList(m.(mediaType := Some("index")))
  {
    var s := OrEmpty(m.mediaType);
    if Contains(s, "image.index") {
      var i := RFindStr(s, "image.index", |s|).value;
      assert s[i + 6..i + 11] == s[i..i + 11][6..] == "index";
      assert OccursAt(s, "index", i + 6);
    }
    assert OccursAt("index", "index", 0);
  }

  const DOCKER_MANIFEST := DOCKER_TYPE + "manifest.v2+json"
  const DOCKER_LIST := DOCKER_TYPE + "manifest.list" + ".v2+json"
  const OCI_MANIFEST := OCI_TYPE + "image.manifest.v1+json"
  const OCI_INDEX := OCI_TYPE + "image.index" + ".v1+json"
  const SIGNED_SCHEMA_1 := DOCKER_TYPE + "manifest.v1+prettyjws"

  lemma HasLetter(s: string, pattern: string, k: nat)
    requires k < |pattern| && Contains(s, pattern)
    ensures pattern[k] in s
  {
    OccurrenceSpells(s, pattern, RFindStr(s, pattern, |s|).value, k);
  }

  lemma HasInfix(a: string, pattern: string, b: string)
    ensures Contains(a + pattern + b, pattern)
  {
    assert OccursAt(a + pattern + b, pattern, |a|);
  }

  // In "manifest.list" an 'l' follows a '.'.
  lemma HasList(s: string) returns (j: nat)
    requires Contains(s, "manifest.list")
    ensures 0 < j < |s| && s[j - 1] == '.' && s[j] == 'l'
  {
    var i := RFindStr(s, "manifest.list", |s|).value;
    OccurrenceSpells(s, "manifest.list", i, 8);
    OccurrenceSpells(s, "manifest.list", i, 9);
    j := i + 9;
  }

  // A type without the letters and the pair of letters that a list or a schema 1 type must have.
  predicate IsPlain(s: string) {
    'x' !in s && 'h' !in s && forall j | 0 < j < |s| && s[j] == 'l' :: s[j - 1] != '.'
  }

  lemma PlainIsManifest(m: Manifest)
    requires IsPlain(OrEmpty(m.mediaType)) && m.mediaType != Some(DOCKER_SCHEMA_1)
    ensures !IsList(m) && !IsIndex(m) && (IsSchema1(m) <==> m.schemaVersion == Some(1))
  {
    var s := OrEmpty(m.mediaType);
    if Contains(s, "index") {
      HasLetter(s, "index", 4);
    }
    if Contains(s, "image.index") {
      HasLetter(s, "image.index", 10);
    }
    if Contains(s, "schema1") {
      HasLetter(s, "schema1", 2);
    }
    if Contains(s, "manifest.list") {
      var j := HasList(s);
    }
  }

  lemma PlainOfBoth(a: string, b: string)
    requires IsPlain(a) && IsPlain(b) && b != "" && b[0] != 'l'
    ensures IsPlain(a + b)
  {
  }

  lemma PlainEnding()
    ensures IsPlain("manifest.v2+json") && IsPlain("image.manifest.v1+json")
  {
  }

  lemma PlainDocker()
    ensures IsPlain(DOCKER_TYPE) && IsPlain(DOCKER_MANIFEST)
  {
    PlainEnding();
    PlainOfBoth(DOCKER_TYPE, "manifest.v2+json");
  }

  lemma PlainOci()
    ensures IsPlain(OCI_TYPE) && IsPlain(OCI_MANIFEST)
  {
    PlainEnding();
    PlainOfBoth(OCI_TYPE, "image.manifest.v1+json");
  }

  lemma WithoutH()
    ensures 'h' !in DOCKER_LIST && 'h' !in OCI_INDEX && 'h' !in SIGNED_SCHEMA_1
  {
    PlainDocker();
    PlainOci();
  }

  lemma ListTypes(m: Manifest)
    requires m.mediaType == Some(DOCKER_LIST) || m.mediaType == Some(OCI_INDEX)
    ensures IsList(m)
  {
    HasInfix(DOCKER_TYPE, "manifest.list", ".v2+json");
    HasInfix(OCI_TYPE, "image.index", ".v1+json");
  }

  lemma Schema1ByVersion(m: Manifest)
    requires 'h' !in OrEmpty(m.mediaType) && m.mediaType != Some(DOCKER_SCHEMA_1)
    ensures IsSchema1(m) <==> m.schemaVersion == Some(1)
  {
    if Contains(OrEmpty(m.mediaType), "schema1") {
      HasLetter(OrEmpty(m.mediaType), "schema1", 2);
    }
  }

  lemma NotSchema1()
    ensures DOCKER_SCHEMA_1 != DOCKER_MANIFEST && DOCKER_SCHEMA_1 != OCI_MANIFEST
    ensures DOCKER_SCHEMA_1 != DOCKER_LIST && DOCKER_SCHEMA_1 != OCI_INDEX && DOCKER_SCHEMA_1 != SIGNED_SCHEMA_1
  {
    var n := |DOCKER_TYPE|;
    assert DOCKER_SCHEMA_1[n..] == "manifest.v1+json" && DOCKER_MANIFEST[n..] == "manifest.v2+json";
    assert DOCKER_SCHEMA_1[16] == 'd' && OCI_MANIFEST[16] == 'o' && OCI_INDEX[16] == 'o';
  }

  /** Of the media types in use both sides take the Docker list and the OCI index for lists and the two manifests for
      none; the handler refuses Docker's schema 1 by its type, but its signed form only by the schema version. */
  lemma StandardMediaTypes(m: Manifest)
    ensures m.mediaType == None || m.mediaType == Some(DOCKER_MANIFEST) || m.mediaType == Some(OCI_MANIFEST) ==>
      !IsList(m) && !IsIndex(m) && (IsSchema1(m) <==> m.schemaVersion == Some(1))
    ensures m.mediaType == Some(DOCKER_LIST) || m.mediaType == Some(OCI_INDEX) ==>
      IsList(m) && IsIndex(m) && (IsSchema1(m) <==> m.schemaVersion == Some(1))
    ensures m.mediaType == Some(DOCKER_TYPE + "manifest.v1+json") ==> IsSchema1(m)
    ensures m.mediaType == Some(SIGNED_SCHEMA_1) ==> (IsSchema1(m) <==> m.schemaVersion == Some(1))
  {
    NotSchema1();
    WithoutH();
    PlainDocker();
    PlainOci();
    if m.mediaType == None || m.mediaType == Some(DOCKER_MANIFEST) || m.mediaType == Some(OCI_MANIFEST) {
      PlainIsManifest(m);
    } else if m.mediaType == Some(DOCKER_LIST) || m.mediaType == Some(OCI_INDEX) {
      ListTypes(m);
      ListsAreIndexes(m);
      Schema1ByVersion(m);
    } else if m.mediaType == Some(SIGNED_SCHEMA_1) {
      Schema1ByVersion(m);
    }
  }

  // ----- choosing a platform -----

  predicate Targets(e: Entry, arch: string) {
    e.platform.Some? && e.platform.value.os == Some("linux") && e.platform.value.architecture == Some(arch)
  }

  function HasDigest(): Entry -> bool {
    (e: Entry) => e.digest.Some?
  }

  function IsTarget(arch: string): Entry -> bool {
    (e: Entry) => Targets(e, arch)
  }

  function IsTargetWithDigest(arch: string): Entry -> bool {
    (e: Entry) => Targets(e, arch) && e.digest.Some?
  }

  // Pre-pull's digest: of the first target that has one, else of the first entry that has one.
  function PrePullDigest(entries: seq<Entry>, arch: string): Option<string> {
    var target, any := First(entries, IsTargetWithDigest(arch)), First(entries, HasDigest());
    if target.Some? then entries[target.value].digest
    else if any.Some? then entries[any.value].digest
    else None
  }

  // The handler's entry: the first target, else the first entry, digest or not.
  function HandlerEntry(entries: seq<Entry>, arch: string): Option<Entry> {
    var target := First(entries, IsTarget(arch));
    if target.Some? then Some(entries[target.value])
    else if entries != [] then Some(entries[0])
    else None
  }

  function HandlerDigest(entries: seq<Entry>, arch: string): Option<string> {
    var e := HandlerEntry(entries, arch);
    if e.Some? then e.value.digest else None
  }

  predicate ForHost(e: Entry, arch: string) {
    e.platform.Some? && e.platform.value.os == Some("linux") && e.platform.value.architecture == Some(arch)
  }

  /** The handler takes the first entry for linux on its architecture, with or without a digest, and of a list without
      such an entry the first one. */
  lemma HandlerTakes(entries: seq<Entry>, arch: string, i: nat)
    requires i < |entries|
    ensures ForHost(entries[i], arch) && (forall j | 0 <= j < i :: !ForHost(entries[j], arch)) ==>
      HandlerEntry(entries, arch) == Some(entries[i])
    ensures (forall j | 0 <= j < |entries| :: !ForHost(entries[j], arch)) ==> HandlerEntry(entries, arch) == Some(entries[0])
  {
    assert forall j | 0 <= j < |entries| :: IsTarget(arch)(entries[j]) == ForHost(entries[j], arch);
    if ForHost(entries[i], arch) && forall j | 0 <= j < i :: !ForHost(entries[j], arch) {
      FirstIs(entries, IsTarget(arch), i);
    }
  }

  /** Pre-pull takes the digest of the first such entry that has one, and else the first digest in the list. */
  lemma PrePullTakes(entries: seq<Entry>, arch: string, i: nat)
    requires i < |entries| && entries[i].digest.Some?
    ensures ForHost(entries[i], arch) && (forall j | 0 <= j < i :: !ForHost(entries[j], arch) || entries[j].digest.None?) ==>
      PrePullDigest(entries, arch) == entries[i].digest
    ensures (forall j | 0 <= j < |entries| :: !ForHost(entries[j], arch) || entries[j].digest.None?) &&
            (forall j | 0 <= j < i :: entries[j].digest.None?) ==>
      PrePullDigest(entries, arch) == entries[i].digest
  {
    assert forall j | 0 <= j < |entries| :: IsTargetWithDigest(arch)(entries[j]) == (ForHost(entries[j], arch) && entries[j].digest.Some?);
    if ForHost(entries[i], arch) && forall j | 0 <= j < i :: !ForHost(entries[j], arch) || entries[j].digest.None? {
      FirstIs(entries, IsTargetWithDigest(arch), i);
    }
    if forall j | 0 <= j < i :: entries[j].digest.None? {
      FirstIs(entries, HasDigest(), i);
    }
  }

  lemma FirstIs<T>(s: seq<T>, wanted: T -> bool, i: nat)
    requires i < |s| && wanted(s[i]) && forall j | 0 <= j < i :: !wanted(s[j])
    ensures First(s, wanted) == Some(i)
  {
  }

  /** The two choices agree exactly when the entry the handler chooses has a digest, or no entry has one. */
  lemma ChoicesAgreeIff(entries: seq<Entry>, arch: string)
    ensures PrePullDigest(entries, arch) == HandlerDigest(entries, arch) <==>
      HandlerDigest(entries, arch).Some? || forall e | e in entries :: e.digest.None?
  {
    var target := First(entries, IsTarget(arch));
    if HandlerDigest(entries, arch).Some? {
      if target.Some? {
        FirstIs(entries, IsTargetWithDigest(arch), target.value);
      } else {
        assert First(entries, IsTargetWithDigest(arch)).None?;
        FirstIs(entries, HasDigest(), 0);
      }
    } else {
      assert PrePullDigest(entries, arch).Some? <==> First(entries, HasDigest()).Some?;
      if First(entries, HasDigest()).Some? {
        assert entries[First(entries, HasDigest()).value] in entries;
      }
    }
  }

  /** Pre-pull's search. */
  method SelectDigest(entries: seq<Entry>, arch: string) returns (selected: Option<string>)
    ensures selected == PrePullDigest(entries, arch)
  {
    selected := None;
    for i := 0 to |entries|
      invariant forall j | 0 <= j < i :: !IsTargetWithDigest(arch)(entries[j])
      invariant selected.None? ==> forall j | 0 <= j < i :: !HasDigest()(entries[j])
      invariant selected.Some? ==> First(entries, HasDigest()).Some? && selected == entries[First(entries, HasDigest()).value].digest
    {
      if entries[i].digest.Some? {
        if Targets(entries[i], arch) {
          FirstIs(entries, IsTargetWithDigest(arch), i);
          return entries[i].digest;
        } else if selected.None? {
          FirstIs(entries, HasDigest(), i);
          selected := entries[i].digest;
        }
      }
    }
  }

  /** The handler's search, which reads a missing name as the empty string. */
  method SelectEntry(entries: seq<Entry>, arch: string) returns (selected: Option<Entry>)
    requires arch != ""
    ensures selected == HandlerEntry(entries, arch)
  {
    for i := 0 to |entries|
      invariant forall j | 0 <= j < i :: !IsTarget(arch)(entries[j])
    {
      if entries[i].platform.Some? {
        var p := entries[i].platform.value;
        if OrEmpty(p.architecture) == arch && OrEmpty(p.os) == "linux" {
          FirstIs(entries, IsTarget(arch), i);
          return Some(entries[i]);
        }
      }
    }
    return if entries != [] then Some(entries[0]) else None;
  }

  // ----- the digests of a manifest -----

  // What a manifest names: its layers and its config.
  function Named(m: Manifest): set<string> {
    (if m.layers.Some? then set i | 0 <= i < |m.layers.value| && m.layers.value[i].Some? :: m.layers.value[i].value else {}) +
    (if m.config.Some? && m.config.value.Some? then {m.config.value.value} else {})
  }

  // The digests among the layers, in order.
  function LayersOf(layers: seq<Option<string>>): seq<string> {
    if layers == [] then []
    else
      var n := |layers| - 1;
      LayersOf(layers[..n]) + if layers[n].Some? then [layers[n].value] else []
  }

  function ConfigOf(m: Manifest): seq<string> {
    if m.config.Some? && m.config.value.Some? then [m.config.value.value] else []
  }

  // Of a list, the first digest, and the linux/amd64 one if it comes later.
  function IndexDigests(entries: seq<Entry>, found: seq<string>): seq<string> {
    if entries == [] then found
    else
      var e := entries[0];
      if e.digest.Some? && (Targets(e, "amd64") || found == []) then
        if Targets(e, "amd64") then found + [e.digest.value] else IndexDigests(entries[1..], found + [e.digest.value])
      else IndexDigests(entries[1..], found)
  }

  function ExtractedDigests(m: Manifest): Option<seq<string>> {
    var listed := if IsIndex(m) && m.manifests.Some? then IndexDigests(m.manifests.value, []) else [];
    var digests := if listed != [] then listed else (if m.layers.Some? then LayersOf(m.layers.value) else []) + ConfigOf(m);
    if digests == [] then None else Some(digests)
  }

  lemma {:induction false} LayersAreNamed(layers: seq<Option<string>>, d: string)
    ensures d in LayersOf(layers) <==> Some(d) in layers
  {
    if layers != [] {
      var n := |layers| - 1;
      LayersAreNamed(layers[..n], d);
      assert layers == layers[..n] + [layers[n]];
    }
  }

  /** For a single manifest the extracted digests are those of every layer and of the config, and extraction
      fails exactly when it names none. */
  lemma ExtractedAreNamed(m: Manifest)
    requires !IsIndex(m)
    ensures ExtractedDigests(m).None? <==> Named(m) == {}
    ensures ExtractedDigests(m).Some? ==> forall d :: d in ExtractedDigests(m).value <==> d in Named(m)
  {
    var digests := (if m.layers.Some? then LayersOf(m.layers.value) else []) + ConfigOf(m);
    forall d ensures d in digests <==> d in Named(m) {
      if m.layers.Some? {
        LayersAreNamed(m.layers.value, d);
        if Some(d) in m.layers.value {
          var i :| 0 <= i < |m.layers.value| && m.layers.value[i] == Some(d);
          assert m.layers.value[i].value == d;
        }
      }
    }
    if digests != [] {
      assert digests[0] in Named(m);
    }
  }

  predicate IsAmd64(e: Entry) {
    e.digest.Some? && ForHost(e, "amd64")
  }

  /** Of a list pre-pull would extract the first digest there is, and after it the first for linux/amd64 if that is
      another entry's. */
  lemma {:induction false} IndexDigestsAre(entries: seq<Entry>)
    ensures var first, amd64 := First(entries, HasDigest()), First(entries, IsAmd64);
      && (first.None? ==> IndexDigests(entries, []) == [])
      && (first.Some? ==>
            IndexDigests(entries, []) ==
            [entries[first.value].digest.value] + if amd64.Some? && amd64 != first then [entries[amd64.value].digest.value] else [])
  {
    if entries != [] && !IsAmd64(entries[0]) {
      ShiftedFirst(entries, IsAmd64);
      if entries[0].digest.Some? {
        assert [] + [entries[0].digest.value] == [entries[0].digest.value];
        RestOfIndex(entries[1..], entries[0].digest.value);
      } else {
        ShiftedFirst(entries, HasDigest());
        IndexDigestsAre(entries[1..]);
      }
    }
  }

  lemma ShiftedFirst(entries: seq<Entry>, wanted: Entry -> bool)
    requires entries != [] && !wanted(entries[0])
    ensures var rest := First(entries[1..], wanted);
      if rest.Some? then First(entries, wanted) == Some(rest.value + 1) && entries[rest.value + 1] == entries[1..][rest.value]
      else First(entries, wanted).None?
  {
  }

  // Once a digest is found only that for linux/amd64 is still looked for.
  lemma {:induction false} RestOfIndex(entries: seq<Entry>, d: string)
    ensures var amd64 := First(entries, IsAmd64);
      IndexDigests(entries, [d]) == [d] + if amd64.Some? then [entries[amd64.value].digest.value] else []
  {
    if entries != [] && !IsAmd64(entries[0]) {
      ShiftedFirst(entries, IsAmd64);
      RestOfIndex(entries[1..], d);
    }
  }

  method ExtractFromIndex(entries: seq<Entry>) returns (digests: seq<string>)
    ensures digests == IndexDigests(entries, [])
  {
    digests := [];
    for i := 0 to |entries|
      invariant IndexDigests(entries[i..], digests) == IndexDigests(entries, [])
    {
      var isLinuxAmd64 := Targets(entries[i], "amd64");
      assert entries[i..][1..] == entries[i + 1..];
      if isLinuxAmd64 || digests == [] {
        if entries[i].digest.Some? {
          digests := digests + [entries[i].digest.value];
          if isLinuxAmd64 {
            return;
          }
        }
      }
    }
  }

  /** Extraction as pre-pull does it, trying the layers twice and the config last. */
  method ExtractLayerDigests(m: Manifest) returns (found: Option<seq<string>>)
    ensures found == ExtractedDigests(m)
  {
    var digests: seq<string> := [];
    if IsIndex(m) && m.manifests.Some? {
      digests := ExtractFromIndex(m.manifests.value);
      if digests != [] {
        return Some(digests);
      }
    }
    if m.layers.Some? {
      for pass := 0 to 2
        invariant digests == []
        invariant pass > 0 ==> LayersOf(m.layers.value) + ConfigOf(m) == []
      {
        digests := ExtractLayers(m.layers.value);
        digests := digests + ConfigOf(m);
        if digests != [] {
          return Some(digests);
        }
      }
    }
    digests := digests + ConfigOf(m);
    return if digests == [] then None else Some(digests);
  }

  method ExtractLayers(layers: seq<Option<string>>) returns (digests: seq<string>)
    ensures digests == LayersOf(layers)
  {
    digests := [];
    for i := 0 to |layers|
      invariant digests == LayersOf(layers[..i])
    {
      assert layers[..i + 1][..i] == layers[..i];
      if layers[i].Some? {
        digests := digests + [layers[i].value];
      }
    }
    assert layers[..|layers|] == layers;
  }
}
