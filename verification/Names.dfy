/**
 Image names: rewritten by the admission webhook, requested under `/v2/`, split by the server, and parsed by the
 request handler and by pre-pull.
 */
module Names {
  import opened Wrappers
  import opened Text

  datatype Repo = Repo(registry: string, repository: string)

  // ----- the admission webhook -----

  function NormalizeEndpoint(endpoint: string): string {
    TrimSlashes(TrimStartMatches(TrimStartMatches(Trim(endpoint), "https://"), "http://"))
  }

  predicate IsExplicit(first: string) {
    '.' in first || ':' in first || first == "localhost"
  }

  predicate IsDockerHub(registry: string) {
    registry == "docker.io" || registry == "index.docker.io" || registry == "registry-1.docker.io"
  }

  function NormalizeDockerHub(repository: string): string {
    if '/' in repository then "docker.io/" + repository else "docker.io/library/" + repository
  }

  function NormalizeImage(image: string): string {
    var slash := Find(image, '/');
    if slash.None? then "docker.io/library/" + image
    else
      var first, remainder := image[..slash.value], image[slash.value + 1..];
      if !IsExplicit(first) then "docker.io/" + image
      else if IsDockerHub(first) then NormalizeDockerHub(remainder)
      else image
  }

  function RewriteImage(image: string, registryEndpoint: string): Option<string> {
    var endpoint := NormalizeEndpoint(registryEndpoint);
    if endpoint == "" || image == "" then None
    else if image == endpoint || endpoint + "/" <= image then None
    else Some(endpoint + "/" + NormalizeImage(image))
  }

  /** A rewritten image is not rewritten again. */
  lemma RewrittenIsLeftAlone(image: string, registryEndpoint: string)
    requires RewriteImage(image, registryEndpoint).Some?
    ensures RewriteImage(RewriteImage(image, registryEndpoint).value, registryEndpoint) == None
  {
    var endpoint := NormalizeEndpoint(registryEndpoint);
    var rewritten := RewriteImage(image, registryEndpoint).value;
    assert rewritten[..|endpoint| + 1] == endpoint + "/";
  }

  /** An image is left alone exactly if there is no endpoint or no image, or it is the endpoint's already. */
  lemma LeftAloneIff(image: string, registryEndpoint: string)
    ensures var endpoint := NormalizeEndpoint(registryEndpoint);
      RewriteImage(image, registryEndpoint).None? <==>
        endpoint == "" || image == "" || image == endpoint || exists path :: image == endpoint + "/" + path
  {
    var endpoint := NormalizeEndpoint(registryEndpoint);
    if endpoint + "/" <= image {
      assert image == endpoint + "/" + image[|endpoint| + 1..];
    }
    if path :| image == endpoint + "/" + path {
      assert image[..|endpoint| + 1] == endpoint + "/";
    }
  }

  lemma {:induction false} TrimStartKeepsText(pad: string, s: string)
    requires (forall c | c in pad :: IsSpace(c)) && (s == "" || !IsSpace(s[0]))
    ensures TrimStart(pad + s) == s
  {
    if pad == "" {
      assert pad + s == s;
    } else {
      assert pad[0] in pad && (pad + s)[1..] == pad[1..] + s;
      TrimStartKeepsText(pad[1..], s);
    }
  }

  lemma {:induction false} TrimEndKeepsText(s: string, pad: string)
    requires (forall c | c in pad :: IsSpace(c)) && (s == "" || !IsSpace(s[|s| - 1]))
    ensures TrimEnd(s + pad) == s
  {
    if pad == "" {
      assert s + pad == s;
    } else {
      var n := |pad| - 1;
      assert pad[n] in pad && (s + pad)[..|s + pad| - 1] == s + pad[..n];
      TrimEndKeepsText(s, pad[..n]);
    }
  }

  /** An endpoint may be written as a URL: white space, one scheme and slashes at the end do not matter. */
  lemma EndpointOfUrl(before: string, scheme: string, host: string, slashes: nat, after: string)
    requires (forall c | c in before :: IsSpace(c)) && (forall c | c in after :: IsSpace(c))
    requires scheme == "" || scheme == "https://" || scheme == "http://"
    requires host != "" && !IsSpace(host[0]) && !IsSpace(host[|host| - 1]) && host[|host| - 1] != '/'
    requires !("https://" <= host + seq(slashes, _ => '/')) && !("http://" <= host + seq(slashes, _ => '/'))
    ensures NormalizeEndpoint(before + (scheme + (host + seq(slashes, _ => '/')) + after)) == host
  {
    var tail := host + seq(slashes, _ => '/');
    var url := scheme + tail;
    assert url[0] == (if scheme == "" then host[0] else 'h');
    assert !IsSpace(url[0]) && (url + after)[0] == url[0];
    assert url[|url| - 1] == if slashes == 0 then host[|host| - 1] else '/';
    TrimStartKeepsText(before, url + after);
    TrimEndKeepsText(url, after);
    assert Trim(before + (url + after)) == url;
    SchemeIsTrimmed(scheme, tail);
    TrimSlashesUndoes(host, slashes);
  }

  lemma SchemeIsTrimmed(scheme: string, tail: string)
    requires scheme == "" || scheme == "https://" || scheme == "http://"
    requires !("https://" <= tail) && !("http://" <= tail)
    ensures TrimStartMatches(TrimStartMatches(scheme + tail, "https://"), "http://") == tail
  {
    assert (scheme + tail)[|scheme|..] == tail && (scheme + tail)[..|scheme|] == scheme;
    assert "https://"[4] == 's' && "http://"[4] == ':';
    if scheme == "" {
      assert scheme + tail == tail;
    } else if scheme == "http://" {
      assert (scheme + tail)[4] == ':';
      assert !("https://" <= scheme + tail);
    }
  }

  // ----- the patches of a pod -----

  datatype Patch = Patch(pointer: string, index: nat, value: string)

  function Rewritten(image: Option<string>, endpoint: string): Option<string> {
    if image.Some? && RewriteImage(image.value, endpoint).Some? then RewriteImage(image.value, endpoint) else image
  }

  function PatchesOf(pointer: string, images: seq<Option<string>>, endpoint: string): seq<Patch> {
    if images == [] then []
    else
      var n := |images| - 1;
      PatchesOf(pointer, images[..n], endpoint) +
      if images[n].Some? && RewriteImage(images[n].value, endpoint).Some?
      then [Patch(pointer, n, RewriteImage(images[n].value, endpoint).value)]
      else []
  }

  lemma PatchesGrow(pointer: string, images: seq<Option<string>>, endpoint: string, k: nat)
    requires k < |images|
    ensures PatchesOf(pointer, images[..k + 1], endpoint) ==
      if images[k].Some? && RewriteImage(images[k].value, endpoint).Some?
      then PatchesOf(pointer, images[..k], endpoint) + [Patch(pointer, k, RewriteImage(images[k].value, endpoint).value)]
      else PatchesOf(pointer, images[..k], endpoint)
  {
    assert images[..k + 1][..k] == images[..k];
  }

  // A patch puts the rewritten image in the place of an image that can be rewritten.
  predicate IsPatch(pointer: string, images: seq<Option<string>>, endpoint: string, p: Patch) {
    && p.pointer == pointer && p.index < |images| && images[p.index].Some?
    && RewriteImage(images[p.index].value, endpoint) == Some(p.value)
  }

  lemma OneMorePatch(pointer: string, images: seq<Option<string>>, endpoint: string, p: Patch)
    requires images != []
    ensures var n := |images| - 1;
      p in PatchesOf(pointer, images, endpoint) <==>
        p in PatchesOf(pointer, images[..n], endpoint) || (p.index == n && IsPatch(pointer, images, endpoint, p))
  {
  }

  /** The patches asked for are exactly those. */
  lemma {:induction false} PatchedIff(pointer: string, images: seq<Option<string>>, endpoint: string, p: Patch)
    ensures p in PatchesOf(pointer, images, endpoint) <==> IsPatch(pointer, images, endpoint, p)
  {
    if images != [] {
      var n := |images| - 1;
      PatchedIff(pointer, images[..n], endpoint, p);
      OneMorePatch(pointer, images, endpoint, p);
      assert p.index < n ==> images[..n][p.index] == images[p.index];
    }
  }

  /** One list of containers adds its patches behind those collected before. */
  method CollectContainerPatches(pointer: string, images: seq<Option<string>>, endpoint: string, collected: seq<Patch>)
    returns (patches: seq<Patch>)
    ensures patches == collected + PatchesOf(pointer, images, endpoint)
  {
    patches := collected;
    for index := 0 to |images|
      invariant patches == collected + PatchesOf(pointer, images[..index], endpoint)
    {
      PatchesGrow(pointer, images, endpoint, index);
      if images[index].Some? {
        var value := RewriteImage(images[index].value, endpoint);
        if value.Some? {
          Regroup(collected, PatchesOf(pointer, images[..index], endpoint), [Patch(pointer, index, value.value)]);
          patches := patches + [Patch(pointer, index, value.value)];
        }
      }
    }
    assert images[..|images|] == images;
  }

  function ApplyPatches(images: seq<Option<string>>, patches: seq<Patch>): seq<Option<string>> {
    if patches == [] then images
    else
      var last := patches[|patches| - 1];
      var before := ApplyPatches(images, patches[..|patches| - 1]);
      if last.index < |before| then before[last.index := Some(last.value)] else before
  }

  function RewriteAll(images: seq<Option<string>>, endpoint: string): seq<Option<string>> {
    seq(|images|, i requires 0 <= i < |images| => Rewritten(images[i], endpoint))
  }

  lemma {:induction false} PatchesRewritePrefix(pointer: string, images: seq<Option<string>>, endpoint: string, k: nat)
    requires k <= |images|
    ensures ApplyPatches(images, PatchesOf(pointer, images[..k], endpoint)) == RewriteAll(images[..k], endpoint) + images[k..]
  {
    if k > 0 {
      PatchesRewritePrefix(pointer, images, endpoint, k - 1);
      assert images[..k][..k - 1] == images[..k - 1];
      OneMoreRewritten(images, endpoint, k);
      var before, patches := RewriteAll(images[..k - 1], endpoint) + images[k - 1..], PatchesOf(pointer, images[..k], endpoint);
      if images[k - 1].Some? && RewriteImage(images[k - 1].value, endpoint).Some? {
        assert patches[..|patches| - 1] == PatchesOf(pointer, images[..k - 1], endpoint);
      } else {
        assert patches == PatchesOf(pointer, images[..k - 1], endpoint);
        assert before[k - 1] == Rewritten(images[k - 1], endpoint);
        assert before[k - 1 := before[k - 1]] == before;
      }
    }
  }

  lemma OneMoreRewritten(images: seq<Option<string>>, endpoint: string, k: nat)
    requires 0 < k <= |images|
    ensures (RewriteAll(images[..k - 1], endpoint) + images[k - 1..])[k - 1 := Rewritten(images[k - 1], endpoint)]
         == RewriteAll(images[..k], endpoint) + images[k..]
  {
  }

  lemma {:induction false} NothingToPatch(pointer: string, images: seq<Option<string>>, endpoint: string)
    requires forall image | image in images && image.Some? :: RewriteImage(image.value, endpoint).None?
    ensures PatchesOf(pointer, images, endpoint) == []
  {
    if images != [] {
      assert images[|images| - 1] in images;
      NothingToPatch(pointer, images[..|images| - 1], endpoint);
    }
  }

  /** Applied to the pod, the patches rewrite every image that can be rewritten and touch no other, and a second
      review of the pod asks for nothing. */
  lemma ReviewIsIdempotent(pointer: string, images: seq<Option<string>>, endpoint: string)
    ensures var reviewed := ApplyPatches(images, PatchesOf(pointer, images, endpoint));
      && reviewed == RewriteAll(images, endpoint)
      && PatchesOf(pointer, reviewed, endpoint) == []
  {
    PatchesRewritePrefix(pointer, images, endpoint, |images|);
    assert images[..|images|] == images;
    var reviewed := RewriteAll(images, endpoint);
    assert reviewed + images[|images|..] == reviewed;
    forall i | 0 <= i < |reviewed| && reviewed[i].Some?
      ensures RewriteImage(reviewed[i].value, endpoint).None?
    {
      if images[i].Some? && RewriteImage(images[i].value, endpoint).Some? {
        RewrittenIsLeftAlone(images[i].value, endpoint);
      }
    }
    NothingToPatch(pointer, reviewed, endpoint);
  }

  // ----- what names stand for -----

  // What a name stands for: Docker's conventions for the registry and the repository left out of it.
  function Meaning(name: string): Repo {
    var slash := Find(name, '/');
    if slash.None? then Repo("docker.io", "library/" + name)
    else
      var first, rest := name[..slash.value], name[slash.value + 1..];
      if !IsExplicit(first) then Repo("docker.io", name)
      else if !IsDockerHub(first) then Repo(first, rest)
      else if '/' in rest then Repo("docker.io", rest)
      else Repo("docker.io", "library/" + rest)
  }

  /** Docker's conventions, name by name: Docker Hub has three spellings, a registry is named with a dot or a colon or
      is "localhost", and anything else is a repository of Docker Hub, official if it has no slash. */
  lemma DockerConventions(first: string, rest: string)
    requires '/' !in first
    ensures Meaning(first) == Repo("docker.io", "library/" + first)
    ensures Meaning(first + ['/'] + rest) ==
      if first == "docker.io" || first == "index.docker.io" || first == "registry-1.docker.io" then
        Repo("docker.io", if '/' in rest then rest else "library/" + rest)
      else if '.' in first || ':' in first || first == "localhost" then Repo(first, rest)
      else Repo("docker.io", first + ['/'] + rest)
  {
    FindInJoin(first, '/', rest);
    assert "docker.io"[6] == '.' && "index.docker.io"[5] == '.' && "registry-1.docker.io"[10] == '.';
  }

  lemma DockerHubPrefix(repository: string)
    ensures "docker.io/" + repository == "docker.io" + "/" + repository
    ensures "docker.io/library/" + repository == "docker.io" + "/" + ("library/" + repository)
  {
    Regroup("docker.io/", "library/", repository);
  }

  lemma NormalizedSpellsMeaning(name: string)
    ensures NormalizeImage(name) == Meaning(name).registry + "/" + Meaning(name).repository
    ensures '/' !in Meaning(name).registry && IsExplicit(Meaning(name).registry)
  {
    assert "docker.io"[6] == '.';
    DockerHubPrefix(name);
    var slash := Find(name, '/');
    if slash.Some? {
      var first, rest := name[..slash.value], name[slash.value + 1..];
      assert name == first + "/" + rest;
      DockerHubPrefix(rest);
    }
  }

  lemma DockerHubKeepsSuffix(repository: string, suffix: string)
    requires '/' !in suffix
    ensures NormalizeDockerHub(repository + suffix) == NormalizeDockerHub(repository) + suffix
  {
    Regroup("docker.io/", repository, suffix);
    Regroup("docker.io/library/", repository, suffix);
  }

  /** A tag or digest at the end goes through normalisation unchanged. */
  lemma NormalizeKeepsSuffix(name: string, suffix: string)
    requires '/' !in suffix
    ensures NormalizeImage(name + suffix) == NormalizeImage(name) + suffix
  {
    var slash := Find(name, '/');
    Regroup("docker.io/library/", name, suffix);
    Regroup("docker.io/", name, suffix);
    if slash.Some? {
      var first, rest := name[..slash.value], name[slash.value + 1..];
      FindInJoin(first, '/', rest + suffix);
      assert first + ['/'] + (rest + suffix) == name + suffix;
      DockerHubKeepsSuffix(rest, suffix);
    }
  }

  // ----- printing and parsing references -----

  predicate IsDigest(reference: string) {
    "sha256:" <= reference
  }

  // The server's `image_reference`.
  function PrintReference(name: string, reference: string): string {
    if IsDigest(reference) then name + "@" + reference else name + ":" + reference
  }

  datatype ImageRef = ImageRef(name: string, reference: string)

  // Pre-pull's `parse_image_reference`.
  function ParseImageReference(image: string): ImageRef {
    var at := Find(image, '@');
    if at.Some? then ImageRef(image[..at.value], image[at.value + 1..])
    else
      var colon := RFind(image, ':');
      if colon.Some? && ('/' in image[..colon.value] || '.' !in image[..colon.value])
      then ImageRef(image[..colon.value], image[colon.value + 1..])
      else ImageRef(image, "latest")
  }

  /** Pre-pull reads back what the server prints exactly when the name has no '@' and, for a tag, the tag has no
      '@' or ':' and the name has a '/' or no '.'. */
  lemma ParseUndoesPrintIff(name: string, reference: string)
    ensures ParseImageReference(PrintReference(name, reference)) == ImageRef(name, reference) <==>
      && '@' !in name
      && (IsDigest(reference) ||
            ('@' !in reference && ':' !in reference && ('/' in name || '.' !in name)))
  {
    if IsDigest(reference) {
      PrintedDigest(name, reference);
    } else {
      PrintedTag(name, reference);
    }
  }

  lemma PrintedDigest(name: string, digest: string)
    ensures ParseImageReference(name + "@" + digest) == ImageRef(name, digest) <==> '@' !in name
  {
    var s := name + "@" + digest;
    if '@' in name {
      var i :| 0 <= i < |name| && name[i] == '@';
      assert s[i] == '@' && s[|name|] == '@';
      FindIsAtMost(s, '@', i);
    } else {
      FindInJoin(name, '@', digest);
    }
  }

  // With an '@' anywhere, the name is cut at it or carries the tag along.
  lemma PrintedWithAt(name: string, tag: string)
    requires '@' in name || '@' in tag
    ensures ParseImageReference(name + ":" + tag).name != name
  {
    var s := name + ":" + tag;
    assert '@' in s by {
      if '@' in name {
        var i :| 0 <= i < |name| && name[i] == '@';
        assert s[i] == '@';
      } else {
        var i :| 0 <= i < |tag| && tag[i] == '@';
        assert s[|name| + 1 + i] == '@';
      }
    }
    assert s[|name|] == ':';
  }

  lemma NoAtInPrinted(name: string, tag: string)
    requires '@' !in name && '@' !in tag
    ensures '@' !in name + ":" + tag
  {
    assert '@' !in ":";
  }

  // With a ':' in the tag, the name found ends later.
  lemma PrintedWithColon(name: string, tag: string)
    requires '@' !in name && '@' !in tag && ':' in tag
    ensures ParseImageReference(name + ":" + tag).name != name
  {
    var s := name + ":" + tag;
    NoAtInPrinted(name, tag);
    var i :| 0 <= i < |tag| && tag[i] == ':';
    assert s[|name| + 1 + i] == ':';
    RFindIsAtLeast(s, ':', |name| + 1 + i);
    assert |s| > |name|;
  }

  lemma PrintedTag(name: string, tag: string)
    ensures ParseImageReference(name + ":" + tag) == ImageRef(name, tag) <==>
      '@' !in name && '@' !in tag && ':' !in tag && ('/' in name || '.' !in name)
  {
    if '@' in name || '@' in tag {
      PrintedWithAt(name, tag);
    } else if ':' in tag {
      PrintedWithColon(name, tag);
    } else {
      NoAtInPrinted(name, tag);
      RFindInJoin(name, ':', tag);
      assert name + [':'] + tag == name + ":" + tag;
      assert |name + ":" + tag| > |name|;
    }
  }

  // ----- the two parsers of repository names -----

  // The request handler's `parse_repository`.
  function HandlerParse(name: string): Repo {
    var slash := Find(name, '/');
    if slash.None? then Repo("docker.io", "library/" + name)
    else
      var first, rest := name[..slash.value], name[slash.value + 1..];
      // One slash in all: none after the first.
      if first == "library" || ('.' !in first && '/' !in rest) then Repo("docker.io", name)
      else Repo(first, rest)
  }

  // Pre-pull's `parse_repository`.
  function PrePullParse(name: string): Repo {
    var proxied := StripPrefix(name, "pulld.internal:5050/");
    if proxied.Some? then
      if "rancher/" <= proxied.value then Repo("docker.io", proxied.value) else Repo("registry.k8s.io", proxied.value)
    else
      var slash := Find(name, '/');
      if slash.None? then Repo("docker.io", "library/" + name)
      else Repo(name[..slash.value], name[slash.value + 1..])
  }

  // The names both parsers read alike.
  predicate Agreed(name: string) {
    var slash := Find(name, '/');
    slash.None? ||
    (var first, rest := name[..slash.value], name[slash.value + 1..];
     && !("pulld.internal:5050/" <= name)
     && first != "library"
     && ('.' in first || '/' in rest))
  }

  lemma HandlerReadsRegistry(registry: string, path: string)
    requires '/' !in registry && '.' in registry && registry != "library"
    ensures HandlerParse(registry + ['/'] + path) == Repo(registry, path)
  {
    FindInJoin(registry, '/', path);
  }

  lemma HandlerReadsProxy(path: string)
    ensures HandlerParse("pulld.internal:5050/" + path) == Repo("pulld.internal:5050", path)
  {
    assert "pulld.internal:5050/" == "pulld.internal:5050" + ['/'];
    assert "pulld.internal:5050"[5] == '.' && |"pulld.internal:5050"| != |"library"|;
    HandlerReadsRegistry("pulld.internal:5050", path);
  }

  /** Pre-pull reads a name under the proxy as one of registry.k8s.io, or of Docker Hub if it is Rancher's; so it never
      reads the proxy as a registry. */
  lemma PrePullReadsProxy(path: string)
    ensures PrePullParse("pulld.internal:5050/" + path) ==
      Repo(if "rancher/" <= path then "docker.io" else "registry.k8s.io", path)
    ensures PrePullParse("pulld.internal:5050/" + path).registry != "pulld.internal:5050"
  {
    assert ("pulld.internal:5050/" + path)[20..] == path;
    assert |"pulld.internal:5050"| > |"registry.k8s.io"| > |"docker.io"|;
  }

  // No slash and some dot before the last colon: the colon is that of a registry's port.
  predicate IsPort(image: string) {
    var colon := RFind(image, ':');
    colon.Some? && '/' !in image[..colon.value] && '.' in image[..colon.value]
  }

  /** An image is read as untagged, and so as the latest, exactly if it has no '@' and no colon but one it takes for a
      port; a registry without a dot has its port read as a tag. */
  lemma UntaggedIff(image: string)
    ensures ParseImageReference(image) == ImageRef(image, "latest") <==> '@' !in image && (':' !in image || IsPort(image))
  {
  }

  /** The two parsers agree exactly on names without a slash and on those whose first component is neither
      "library" nor the proxy and that have a dot in it or two slashes. */
  lemma ParsersAgreeIff(name: string)
    ensures PrePullParse(name) == HandlerParse(name) <==> Agreed(name)
  {
    if "pulld.internal:5050/" <= name {
      assert name == "pulld.internal:5050/" + name[20..];
      HandlerReadsProxy(name[20..]);
      PrePullReadsProxy(name[20..]);
    } else {
      var slash := Find(name, '/');
      if slash.Some? {
        assert |name[slash.value + 1..]| < |name|;
      }
    }
  }

  // ----- requests -----

  datatype V2Request =
    | ManifestRequest(name: string, reference: string)
    | BlobRequest(name: string, digest: string)
    | NotFound
    | OutOfBounds

  // `replacen("/v2/v2/", "/v2/", 1)` on a path that starts with it.
  function RepairPath(path: string): string {
    if "/v2/v2/" <= path then "/v2/" + path[7..] else path
  }

  function SplitPath(uri: string): V2Request {
    SplitRepaired(RepairPath(uri))
  }

  function SplitRepaired(path: string): V2Request {
    var manifests := RFindStr(path, "/manifests/", |path|);
    if manifests.Some? then
      if manifests.value < 4 then OutOfBounds
      else ManifestRequest(path[4..manifests.value], path[manifests.value + 11..])
    else
      var blobs := RFindStr(path, "/blobs/", |path|);
      if blobs.None? then NotFound
      else if blobs.value < 4 then OutOfBounds
      else BlobRequest(path[4..blobs.value], path[blobs.value + 7..])
  }

  /** A path under `/v2/` that is for neither a manifest nor a blob is not found, and no other is. */
  lemma NotFoundIff(path: string)
    ensures SplitPath(path).NotFound? <==>
      !Contains(RepairPath(path), "/manifests/") && !Contains(RepairPath(path), "/blobs/")
  {
  }

  function V2(doubled: bool): string {
    if doubled then "/v2/v2/" else "/v2/"
  }

  lemma NoRepair(name: string, rest: string)
    requires rest != "" && rest[0] == '/' && name != "v2" && !("v2/" <= name)
    ensures !("v2/" <= name + rest)
  {
    var s := name + rest;
    if |name| >= 3 {
      assert s[..3] == name[..3];
    } else {
      assert s[|name|] == '/' && s[..|name|] == name;
      assert "v2/"[0] == 'v' && "v2/"[1] == '2' && "v2/"[..2] == "v2";
    }
  }

  /** A doubled `/v2/` is undone, and a single one left alone, unless the name itself starts with "v2/". */
  lemma Repaired(name: string, rest: string, doubled: bool)
    requires rest != "" && rest[0] == '/' && name != "v2" && !("v2/" <= name)
    ensures RepairPath(V2(doubled) + (name + rest)) == "/v2/" + (name + rest)
  {
    if doubled {
      assert (V2(doubled) + (name + rest))[7..] == name + rest;
    } else {
      NoRepair(name, rest);
      PrefixOfConcat("/v2/", "v2/", name + rest);
      assert "/v2/" + "v2/" == "/v2/v2/";
    }
  }

  function ManifestPath(name: string, reference: string, doubled: bool): string {
    V2(doubled) + (name + ("/manifests/" + reference))
  }

  /** The server splits the path of a manifest request into the name and the reference it was made of. */
  lemma ManifestPathIsSplit(name: string, reference: string, doubled: bool)
    requires name != "" && name != "v2" && !("v2/" <= name) && '/' !in reference
    ensures SplitPath(ManifestPath(name, reference, doubled)) == ManifestRequest(name, reference)
  {
    Repaired(name, "/manifests/" + reference, doubled);
    Regroup("/v2/", name, "/manifests/" + reference);
    Regroup("/v2/" + name, "/manifests/", reference);
    RepairedManifestPathIsSplit(name, reference);
  }

  lemma RepairedManifestPathIsSplit(name: string, reference: string)
    requires '/' !in reference
    ensures SplitRepaired("/v2/" + name + "/manifests/" + reference) == ManifestRequest(name, reference)
  {
    assert "/manifests/"[10] == '/';
    LastOccurrence("/v2/" + name, "/manifests/", reference);
    PartsOfConcat("/v2/", name, "/manifests/", reference);
  }

  function BlobPath(name: string, digest: string): string {
    "/v2/" + (name + ("/blobs/" + digest))
  }

  predicate HasManifestsPart(name: string) {
    Contains("/" + name + "/", "/manifests/")
  }

  lemma SliceOfMiddle(a: string, s: string, b: string, low: nat, high: nat)
    requires low <= high <= |s|
    ensures (a + s + b)[|a| + low..|a| + high] == s[low..high]
  {
  }

  // The characters of "blobs/" and of a slash-free digest leave room for one slash only.
  lemma AfterBlobs(tail: string, digest: string)
    requires tail == "blobs/" + digest && '/' !in digest
    ensures tail[0] == 'b' && forall i | 0 <= i < |tail| :: tail[i] == '/' ==> i == 5
  {
    assert forall i | 6 <= i < |tail| :: tail[i] == digest[i - 6];
  }

  lemma ManifestsInBlobPath(name: string, digest: string, j: nat)
    requires '/' !in digest && OccursAt(BlobPath(name, digest), "/manifests/", j)
    ensures 3 <= j && OccursAt("/" + name + "/", "/manifests/", j - 3)
  {
    var path, middle, tail := BlobPath(name, digest), "/" + name + "/", "blobs/" + digest;
    assert path == "/v2" + middle + tail;
    SpelledManifests(path, j);
    assert path[0] == '/' && path[1] == 'v' && path[2] == '2';
    var e := 3 + |middle|;
    assert forall i | 0 <= i < |tail| :: path[e + i] == tail[i];
    AfterBlobs(tail, digest);
    assert path[e] == tail[0] == 'b';
    assert j + 5 != e;
    assert j + 10 < e;
    SliceOfMiddle("/v2", middle, tail, j - 3, j + 8);
  }

  lemma SpelledManifests(path: string, j: nat)
    requires OccursAt(path, "/manifests/", j)
    ensures j + 10 < |path| && path[j] == '/' && path[j + 1] == 'm' && path[j + 5] == 'f' && path[j + 10] == '/'
  {
    OccurrenceSpells(path, "/manifests/", j, 0);
    OccurrenceSpells(path, "/manifests/", j, 1);
    OccurrenceSpells(path, "/manifests/", j, 5);
    OccurrenceSpells(path, "/manifests/", j, 10);
  }

  lemma ManifestsInBlobPathIff(name: string, digest: string)
    requires '/' !in digest
    ensures RFindStr(BlobPath(name, digest), "/manifests/", |BlobPath(name, digest)|).Some? <==> HasManifestsPart(name)
  {
    var path, middle := BlobPath(name, digest), "/" + name + "/";
    var m, k := RFindStr(path, "/manifests/", |path|), RFindStr(middle, "/manifests/", |middle|);
    if m.Some? {
      ManifestsInBlobPath(name, digest, m.value);
    }
    if k.Some? {
      assert path == "/v2" + middle + ("blobs/" + digest);
      OccursInside("/v2", middle, "blobs/" + digest, "/manifests/", k.value);
    }
  }

  /** A blob request is split into its name and digest exactly when no component of the name is "manifests". */
  lemma BlobPathIsSplitIff(name: string, digest: string)
    requires name != "" && name != "v2" && !("v2/" <= name) && '/' !in digest
    ensures SplitPath(BlobPath(name, digest)) == BlobRequest(name, digest) <==> !HasManifestsPart(name)
  {
    ManifestsInBlobPathIff(name, digest);
    Repaired(name, "/blobs/" + digest, false);
    Regroup("/v2/", name, "/blobs/" + digest);
    Regroup("/v2/" + name, "/blobs/", digest);
    assert "/blobs/"[6] == '/';
    LastOccurrence("/v2/" + name, "/blobs/", digest);
    PartsOfConcat("/v2/", name, "/blobs/", digest);
  }

  // ----- the whole way -----

  /** A rewritten image is requested, split and parsed into the registry and repository the image stands for
      exactly when that registry has a dot in it or that repository a slash. */
  lemma RewritingPreservesMeaningIff(name: string, reference: string, registryEndpoint: string, doubled: bool)
    requires '/' !in reference
    requires RewriteImage(PrintReference(name, reference), registryEndpoint).Some?
    ensures var requested := NormalizeImage(name);
      && RewriteImage(PrintReference(name, reference), registryEndpoint).value ==
           NormalizeEndpoint(registryEndpoint) + "/" + PrintReference(requested, reference)
      && SplitPath(ManifestPath(requested, reference, doubled)) == ManifestRequest(requested, reference)
      && (HandlerParse(requested) == Meaning(name) <==>
            '.' in Meaning(name).registry || '/' in Meaning(name).repository)
  {
    PrintedIsSuffixed(name, reference);
    NormalizedIsExplicit(name);
    ManifestPathIsSplit(NormalizeImage(name), reference, doubled);
    HandlerReadsNormalizedIff(name);
  }

  lemma HandlerReadsNormalizedIff(name: string)
    ensures HandlerParse(NormalizeImage(name)) == Meaning(name) <==>
      '.' in Meaning(name).registry || '/' in Meaning(name).repository
  {
    HandlerReadsExplicitIff(Meaning(name).registry, Meaning(name).repository);
    NormalizedSpellsMeaning(name);
  }

  lemma PrintedIsSuffixed(name: string, reference: string)
    requires '/' !in reference
    ensures NormalizeImage(PrintReference(name, reference)) == PrintReference(NormalizeImage(name), reference)
  {
    var separator := if IsDigest(reference) then "@" else ":";
    NormalizeKeepsSuffix(name, separator + reference);
    Regroup(name, separator, reference);
    Regroup(NormalizeImage(name), separator, reference);
  }

  lemma NeverV2(registry: string, rest: string)
    requires '/' !in registry && IsExplicit(registry)
    ensures var n := registry + ['/'] + rest; n != "v2" && !("v2/" <= n)
  {
    var n := registry + ['/'] + rest;
    assert n[|registry|] == '/' && n[..|registry|] == registry;
    assert '.' !in "v2" && ':' !in "v2" && |"v2"| != |"localhost"|;
    assert "v2/"[0] == 'v' && "v2/"[1] == '2' && "v2/"[2] == '/' && "v2/"[..2] == "v2";
    if |registry| >= 3 {
      assert n[2] == registry[2] && registry[2] in registry;
    }
  }

  // A normalised name starts with a registry, so never with "v2/".
  lemma NormalizedIsExplicit(name: string)
    ensures var n := NormalizeImage(name); n != "" && n != "v2" && !("v2/" <= n)
  {
    NormalizedSpellsMeaning(name);
    NeverV2(Meaning(name).registry, Meaning(name).repository);
  }

  lemma HandlerReadsExplicitIff(registry: string, repository: string)
    requires '/' !in registry && IsExplicit(registry)
    ensures HandlerParse(registry + "/" + repository) == Repo(registry, repository) <==>
      '.' in registry || '/' in repository
  {
    FindInJoin(registry, '/', repository);
    assert registry + ['/'] + repository == registry + "/" + repository;
    assert registry != "library";
    assert |registry + "/" + repository| > |repository|;
  }
}
