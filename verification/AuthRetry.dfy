/**
 Retrying a blob request that was answered 401 (`get_blob`): the mirror that owns the realm first, then the
 others, each with the shared token and, if it asks for one, with a token of its own.
 */
module AuthRetry {
  import opened Wrappers
  import opened Text
  import opened MirrorStats

  datatype Reply = Reply(status: nat, wwwAuthenticate: Option<string>) | RequestError(message: string)

  // What one mirror and its token endpoint answer.
  datatype Mirror = Mirror(url: string, toShared: Reply, ownToken: Option<string>, toOwn: Reply)

  datatype Reason = BadStatus(status: nat) | Transport(message: string) | TokenFetchFailed | NoWwwAuthenticate

  datatype GivenUp = GivenUp(url: string, reason: Reason)

  datatype Request = Request(ix: nat, token: string)

  predicate Good(r: Reply) {
    r.Reply? && 200 <= r.status < 300
  }

  predicate AsksForOwnToken(m: Mirror) {
    m.toShared.Reply? && m.toShared.status == 401 && m.toShared.wwwAuthenticate.Some?
  }

  predicate UsesOwnToken(m: Mirror) {
    AsksForOwnToken(m) && m.ownToken.Some?
  }

  // A mirror can serve the blob: with the shared token, or with its own if it asks for one.
  predicate CanServe(m: Mirror) {
    Good(m.toShared) || (UsesOwnToken(m) && Good(m.toOwn))
  }

  function FinalReply(m: Mirror): Reply {
    if UsesOwnToken(m) then m.toOwn else m.toShared
  }

  function ReasonOf(r: Reply): Reason {
    match r
    case Reply(status, _) => BadStatus(status)
    case RequestError(message) => Transport(message)
  }

  function FailureOf(m: Mirror): GivenUp {
    GivenUp(m.url,
            if UsesOwnToken(m) then ReasonOf(m.toOwn)
            else if AsksForOwnToken(m) then TokenFetchFailed
            else if m.toShared.Reply? && m.toShared.status == 401 then NoWwwAuthenticate
            else ReasonOf(m.toShared))
  }

  function RequestsTo(m: Mirror, ix: nat, shared: string): seq<Request> {
    [Request(ix, shared)] + if UsesOwnToken(m) then [Request(ix, m.ownToken.value)] else []
  }

  /** What comes of trying one mirror: it serves with a 2xx for the shared token, or after a 401 that names where to
      get one, for its own; otherwise it is given up for the one reason that applies. */
  lemma TriedOnce(m: Mirror)
    ensures var asks := m.toShared.Reply? && m.toShared.status == 401 && m.toShared.wwwAuthenticate.Some?;
      var final := if asks && m.ownToken.Some? then m.toOwn else m.toShared;
      && FinalReply(m) == final
      && (CanServe(m) <==> final.Reply? && 200 <= final.status <= 299)
      && FailureOf(m).url == m.url
      && match FailureOf(m).reason
         case TokenFetchFailed => asks && m.ownToken.None?
         case NoWwwAuthenticate => m.toShared.Reply? && m.toShared.status == 401 && m.toShared.wwwAuthenticate.None?
         case BadStatus(status) => final.Reply? && final.status == status && (final == m.toOwn || status != 401)
         case Transport(message) => final == RequestError(message)
  {
  }

  // ----- which mirror owns a realm -----

  function UpToSlash(s: string): string {
    var slash := Find(s, '/');
    if slash.Some? then s[..slash.value] else s
  }

  // The host of an http(s) URL; anything else is taken whole.
  function Host(url: string): string {
    var https := StripPrefix(url, "https://");
    if https.Some? then UpToSlash(https.value)
    else
      var http := StripPrefix(url, "http://");
      if http.Some? then UpToSlash(http.value) else url
  }

  // The lower-casing of strings is Rust's, whatever it does outside ASCII.
  predicate Owns(lower: string -> string, mirror: string, realm: string) {
    var realmHost, mirrorHost := Host(lower(realm)), Host(TrimSlashes(mirror));
    || realmHost == mirrorHost
    || (realmHost == "auth.docker.io" && Contains(mirrorHost, "registry-1.docker.io"))
  }

  function OwnerOf(lower: string -> string, realm: string): string -> bool {
    (mirror: string) => Owns(lower, mirror, realm)
  }

  /** The search returns the first mirror that owns the realm. */
  method MirrorIndexFromRealm(lower: string -> string, realm: string, mirrors: seq<string>) returns (ix: Option<nat>)
    ensures ix.Some? ==> ix.value < |mirrors| && Owns(lower, mirrors[ix.value], realm)
    ensures forall i | 0 <= i < (if ix.Some? then ix.value else |mirrors|) :: !Owns(lower, mirrors[i], realm)
  {
    ix := FirstMirror(mirrors, OwnerOf(lower, realm));
    assert forall i | 0 <= i < |mirrors| :: OwnerOf(lower, realm)(mirrors[i]) == Owns(lower, mirrors[i], realm);
  }

  method FirstMirror(mirrors: seq<string>, wanted: string -> bool) returns (ix: Option<nat>)
    ensures ix.Some? ==> ix.value < |mirrors| && wanted(mirrors[ix.value])
    ensures forall i | 0 <= i < (if ix.Some? then ix.value else |mirrors|) :: !wanted(mirrors[i])
  {
    for idx := 0 to |mirrors|
      invariant forall i | 0 <= i < idx :: !wanted(mirrors[i])
    {
      if wanted(mirrors[idx]) {
        return Some(idx);
      }
    }
    return None;
  }

  lemma HostOfUrl(scheme: string, host: string, rest: string)
    requires scheme == "https://" || scheme == "http://"
    requires '/' !in host && (rest == "" || rest[0] == '/')
    ensures Host(scheme + host + rest) == host
  {
    var url := scheme + host + rest;
    assert url[|scheme|..] == host + rest;
    assert scheme <= url;
    if scheme == "http://" {
      assert url[4] == ':';
      assert "https://"[4] == 's';
    }
    if rest == "" {
      assert host + rest == host;
    } else {
      FindInJoin(host, '/', rest[1..]);
      assert host + ['/'] + rest[1..] == host + rest;
    }
  }

  predicate IsScheme(s: string) {
    s == "https://" || s == "http://"
  }

  /** For http(s) URLs the schemes, the path of the realm and slashes at the end of the mirror's URL do not matter:
      the host of the realm in lower case is compared with the mirror's host as configured. */
  lemma OwnsIff(lower: string -> string, mirrorScheme: string, mirrorHost: string, slashes: nat,
                realm: string, scheme: string, host: string, path: string)
    requires IsScheme(mirrorScheme) && '/' !in mirrorHost && mirrorHost != ""
    requires lower(realm) == scheme + host + path && IsScheme(scheme) && '/' !in host && (path == "" || path[0] == '/')
    ensures Owns(lower, mirrorScheme + mirrorHost + seq(slashes, _ => '/'), realm) <==>
      host == mirrorHost || (host == "auth.docker.io" && Contains(mirrorHost, "registry-1.docker.io"))
  {
    var url := mirrorScheme + mirrorHost;
    assert url[|url| - 1] == mirrorHost[|mirrorHost| - 1] && mirrorHost[|mirrorHost| - 1] in mirrorHost;
    TrimSlashesUndoes(url, slashes);
    HostOfUrl(mirrorScheme, mirrorHost, "");
    assert url + "" == url;
    HostOfUrl(scheme, host, path);
  }

  lemma HostIsPart(url: string)
    ensures forall c | c in Host(url) :: c in url
  {
  }

  /** A mirror configured with a capital letter in its host is never found by comparing hosts, if lower-casing
      leaves no capital letter. */
  lemma CapitalHostsAreNeverEqual(lower: string -> string, mirrorHost: string, realm: string, i: nat)
    requires i < |mirrorHost| && 'A' <= mirrorHost[i] <= 'Z'
    requires forall c | c in lower(realm) :: !('A' <= c <= 'Z')
    ensures Host(lower(realm)) != mirrorHost
  {
    HostIsPart(lower(realm));
    assert mirrorHost[i] in mirrorHost;
  }

  // ----- the order of the mirrors -----

  // Where each index ends up when one is moved to the front.
  function TryOrder(n: nat, first: Option<nat>): seq<nat>
    requires first.Some? ==> first.value < n
  {
    if first.Some? then [first.value] + Others(n, first.value) else AllIndices(n)
  }

  function Others(n: nat, ix: nat): seq<nat> {
    if n == 0 then [] else Others(n - 1, ix) + if n - 1 == ix then [] else [n - 1]
  }

  lemma {:induction false} OthersOnce(n: nat, ix: nat, i: nat)
    ensures multiset(Others(n, ix))[i] == if i < n && i != ix then 1 else 0
  {
    if n > 0 {
      OthersOnce(n - 1, ix, i);
      var before := Others(n - 1, ix);
      if n - 1 == ix {
        assert Others(n, ix) == before;
      } else {
        assert Others(n, ix) == before + [n - 1];
        assert multiset(before + [n - 1]) == multiset(before) + multiset{n - 1};
      }
    }
  }

  lemma {:induction false} AllIndicesOnce(n: nat, i: nat)
    ensures multiset(AllIndices(n))[i] == if i < n then 1 else 0
  {
    if n > 0 {
      AllIndicesOnce(n - 1, i);
      assert AllIndices(n) == AllIndices(n - 1) + [n - 1];
    }
  }

  /** Every mirror is tried, none twice, and the realm's mirror before the others. */
  lemma TryOrderIsPermutation(n: nat, first: Option<nat>)
    requires first.Some? ==> first.value < n
    ensures multiset(TryOrder(n, first)) == multiset(AllIndices(n)) && |TryOrder(n, first)| == n
    ensures first.Some? ==> TryOrder(n, first)[0] == first.value
  {
    forall i: nat ensures multiset(TryOrder(n, first))[i] == multiset(AllIndices(n))[i] {
      AllIndicesOnce(n, i);
      if first.Some? {
        OthersOnce(n, first.value, i);
        assert multiset(TryOrder(n, first)) == multiset{first.value} + multiset(Others(n, first.value));
      }
    }
    assert multiset(TryOrder(n, first)) == multiset(AllIndices(n));
    assert |multiset(TryOrder(n, first))| == |multiset(AllIndices(n))|;
  }

  /** The rest keep their order. */
  lemma {:induction false} OthersInOrder(n: nat, ix: nat)
    ensures forall k | 0 <= k < |Others(n, ix)| :: Others(n, ix)[k] < n && Others(n, ix)[k] != ix
    ensures forall k, l | 0 <= k < l < |Others(n, ix)| :: Others(n, ix)[k] < Others(n, ix)[l]
  {
    if n > 0 {
      OthersInOrder(n - 1, ix);
    }
  }

  method BuildOrder(n: nat, first: Option<nat>) returns (order: seq<nat>)
    requires first.Some? ==> first.value < n
    ensures order == TryOrder(n, first)
  {
    if first.None? {
      return AllIndices(n);
    }
    order := [first.value];
    for i := 0 to n
      invariant order == [first.value] + Others(i, first.value)
    {
      if i != first.value {
        order := order + [i];
      }
    }
  }

  // ----- the retry loop -----

  function RequestsIn(mirrors: seq<Mirror>, order: seq<nat>, shared: string): seq<Request>
    requires forall k | 0 <= k < |order| :: order[k] < |mirrors|
  {
    if order == [] then []
    else
      var n := |order| - 1;
      RequestsIn(mirrors, order[..n], shared) + RequestsTo(mirrors[order[n]], order[n], shared)
  }

  function Asked(requests: seq<Request>, ix: nat): nat {
    if requests == [] then 0
    else Asked(requests[..|requests| - 1], ix) + if requests[|requests| - 1].ix == ix then 1 else 0
  }

  lemma {:induction false} AskedInBoth(a: seq<Request>, b: seq<Request>, ix: nat)
    ensures Asked(a + b, ix) == Asked(a, ix) + Asked(b, ix)
  {
    if b == [] {
      assert a + b == a;
    } else {
      assert (a + b)[..|a + b| - 1] == a + b[..|b| - 1];
      AskedInBoth(a, b[..|b| - 1], ix);
    }
  }

  lemma AskedInOneTry(m: Mirror, j: nat, shared: string, ix: nat)
    ensures if j == ix then 1 <= Asked(RequestsTo(m, j, shared), ix) <= 2 else Asked(RequestsTo(m, j, shared), ix) == 0
  {
    var first := [Request(j, shared)];
    assert first[..0] == [] && Asked(first, ix) == if j == ix then 1 else 0;
    if UsesOwnToken(m) {
      assert RequestsTo(m, j, shared)[..1] == first;
    } else {
      assert RequestsTo(m, j, shared) == first;
    }
  }

  /** A mirror is asked at most twice each time it is tried. */
  lemma {:induction false} AskedAtMostTwicePerTry(mirrors: seq<Mirror>, order: seq<nat>, shared: string, ix: nat)
    requires forall k | 0 <= k < |order| :: order[k] < |mirrors|
    ensures multiset(order)[ix] <= Asked(RequestsIn(mirrors, order, shared), ix) <= 2 * multiset(order)[ix]
  {
    if order != [] {
      var n := |order| - 1;
      AskedAtMostTwicePerTry(mirrors, order[..n], shared, ix);
      AskedInBoth(RequestsIn(mirrors, order[..n], shared), RequestsTo(mirrors[order[n]], order[n], shared), ix);
      AskedInOneTry(mirrors[order[n]], order[n], shared, ix);
      assert order == order[..n] + [order[n]];
    }
  }

  // The tokens a mirror is sent, in order.
  function TokensTo(requests: seq<Request>, ix: nat): seq<string> {
    if requests == [] then []
    else
      var last := requests[|requests| - 1];
      TokensTo(requests[..|requests| - 1], ix) + if last.ix == ix then [last.token] else []
  }

  lemma {:induction false} TokensInBoth(a: seq<Request>, b: seq<Request>, ix: nat)
    ensures TokensTo(a + b, ix) == TokensTo(a, ix) + TokensTo(b, ix)
  {
    if b == [] {
      assert a + b == a;
    } else {
      assert (a + b)[..|a + b| - 1] == a + b[..|b| - 1];
      TokensInBoth(a, b[..|b| - 1], ix);
    }
  }

  lemma TokensInOneTry(m: Mirror, j: nat, shared: string, ix: nat)
    ensures TokensTo(RequestsTo(m, j, shared), ix) ==
      if j != ix then []
      else if m.toShared.Reply? && m.toShared.status == 401 && m.toShared.wwwAuthenticate.Some? && m.ownToken.Some?
        then [shared, m.ownToken.value] else [shared]
  {
    var first := [Request(j, shared)];
    assert first[..0] == [] && TokensTo(first, ix) == if j == ix then [shared] else [];
    if UsesOwnToken(m) {
      assert RequestsTo(m, j, shared)[..1] == first;
    } else {
      assert RequestsTo(m, j, shared) == first;
    }
  }

  /** A mirror that is tried once is sent the shared token, and after a 401 that names where to get one, its own. */
  lemma {:induction false} TokensSent(mirrors: seq<Mirror>, order: seq<nat>, shared: string, ix: nat)
    requires (forall k | 0 <= k < |order| :: order[k] < |mirrors|) && ix < |mirrors| && multiset(order)[ix] <= 1
    ensures TokensTo(RequestsIn(mirrors, order, shared), ix) ==
      if ix in order then TokensTo(RequestsTo(mirrors[ix], ix, shared), ix) else []
  {
    if order != [] {
      var n := |order| - 1;
      assert order == order[..n] + [order[n]];
      TokensSent(mirrors, order[..n], shared, ix);
      TokensInBoth(RequestsIn(mirrors, order[..n], shared), RequestsTo(mirrors[order[n]], order[n], shared), ix);
      TokensInOneTry(mirrors[order[n]], order[n], shared, ix);
      assert ix in order[..n] <==> multiset(order[..n])[ix] > 0;
    }
  }

  // The outcome of the loop: the last reply, if any mirror was tried, and one failure per mirror given up on.
  datatype Retry = Retry(reply: Option<Reply>, failures: seq<GivenUp>, requests: seq<Request>)

  ghost predicate RetryOutcome(mirrors: seq<Mirror>, order: seq<nat>, shared: string, r: Retry)
    requires forall k | 0 <= k < |order| :: order[k] < |mirrors|
  {
    var n := |r.failures|;
    && n <= |order|
    && (forall k | 0 <= k < n :: !CanServe(mirrors[order[k]]) && r.failures[k] == FailureOf(mirrors[order[k]]))
    && (n < |order| ==>
          && CanServe(mirrors[order[n]])
          && r.reply == Some(FinalReply(mirrors[order[n]]))
          && r.requests == RequestsIn(mirrors, order[..n + 1], shared))
    && (n == |order| ==>
          && r.reply == (if n == 0 then None else Some(FinalReply(mirrors[order[n - 1]])))
          && r.requests == RequestsIn(mirrors, order, shared))
  }

  lemma FinalReplyGoodIff(m: Mirror)
    ensures Good(FinalReply(m)) <==> CanServe(m)
  {
    assert Good(m.toShared) ==> !UsesOwnToken(m);
  }

  /** The retry succeeds iff some mirror can serve the blob, and otherwise every mirror has failed. */
  lemma RetrySucceedsIff(mirrors: seq<Mirror>, order: seq<nat>, shared: string, r: Retry)
    requires multiset(order) == multiset(AllIndices(|mirrors|))
    requires forall k | 0 <= k < |order| :: order[k] < |mirrors|
    requires RetryOutcome(mirrors, order, shared, r)
    ensures r.reply.Some? && Good(r.reply.value) <==> exists i :: 0 <= i < |mirrors| && CanServe(mirrors[i])
    ensures |r.failures| == |order| <==> !(r.reply.Some? && Good(r.reply.value))
  {
    var n := |r.failures|;
    if n < |order| {
      FinalReplyGoodIff(mirrors[order[n]]);
    } else {
      if n > 0 {
        FinalReplyGoodIff(mirrors[order[n - 1]]);
      }
      forall i: nat | i < |mirrors| ensures !CanServe(mirrors[i]) {
        assert AllIndices(|mirrors|)[i] == i;
        assert i in multiset(order);
        assert i in order;
      }
    }
  }

  lemma FewerInPrefix(order: seq<nat>, n: nat, ix: nat)
    requires n <= |order|
    ensures multiset(order[..n])[ix] <= multiset(order)[ix]
  {
    assert order == order[..n] + order[n..];
  }

  /** No mirror is asked more than twice, and every mirror is asked unless one before it served the blob. */
  lemma AskedAtMostTwice(mirrors: seq<Mirror>, order: seq<nat>, shared: string, r: Retry, ix: nat)
    requires multiset(order) == multiset(AllIndices(|mirrors|))
    requires forall k | 0 <= k < |order| :: order[k] < |mirrors|
    requires RetryOutcome(mirrors, order, shared, r)
    ensures Asked(r.requests, ix) <= 2
    ensures |r.failures| == |order| && ix < |mirrors| ==> 1 <= Asked(r.requests, ix)
  {
    AllIndicesOnce(|mirrors|, ix);
    var n := |r.failures|;
    if n < |order| {
      AskedAtMostTwicePerTry(mirrors, order[..n + 1], shared, ix);
      FewerInPrefix(order, n + 1, ix);
    } else {
      AskedAtMostTwicePerTry(mirrors, order, shared, ix);
    }
  }

  // One mirror: whether it serves, the requests made, and the reply it is left at.
  method TryMirror(m: Mirror, ix: nat, shared: string) returns (served: bool, reply: Reply, reason: Reason, requests: seq<Request>)
    ensures served == CanServe(m) && reply == FinalReply(m) && requests == RequestsTo(m, ix, shared)
    ensures !served ==> GivenUp(m.url, reason) == FailureOf(m)
  {
    requests := [Request(ix, shared)];
    reply := m.toShared;
    served, reason := false, ReasonOf(reply);
    if Good(reply) {
      served := true;
    } else if reply.Reply? && reply.status == 401 {
      if reply.wwwAuthenticate.None? {
        reason := NoWwwAuthenticate;
      } else if m.ownToken.None? {
        reason := TokenFetchFailed;
      } else {
        requests := requests + [Request(ix, m.ownToken.value)];
        reply := m.toOwn;
        served, reason := Good(reply), ReasonOf(reply);
      }
    }
  }

  lemma OneMoreTry(mirrors: seq<Mirror>, order: seq<nat>, shared: string, k: nat)
    requires k < |order| && forall j | 0 <= j < |order| :: order[j] < |mirrors|
    ensures RequestsIn(mirrors, order[..k + 1], shared) ==
      RequestsIn(mirrors, order[..k], shared) + RequestsTo(mirrors[order[k]], order[k], shared)
  {
    assert order[..k + 1][..k] == order[..k];
  }

  /** Try the mirrors in order until one serves the blob. */
  method RetryWithAuth(mirrors: seq<Mirror>, order: seq<nat>, shared: string) returns (r: Retry)
    requires forall k | 0 <= k < |order| :: order[k] < |mirrors|
    ensures RetryOutcome(mirrors, order, shared, r)
  {
    var lastResult: Option<Reply> := None;
    var failures: seq<GivenUp> := [];
    var requests: seq<Request> := [];
    for k := 0 to |order|
      invariant |failures| == k
      invariant forall j | 0 <= j < k :: !CanServe(mirrors[order[j]]) && failures[j] == FailureOf(mirrors[order[j]])
      invariant lastResult == if k == 0 then None else Some(FinalReply(mirrors[order[k - 1]]))
      invariant requests == RequestsIn(mirrors, order[..k], shared)
    {
      var ix := order[k];
      var served, reply, reason, made := TryMirror(mirrors[ix], ix, shared);
      OneMoreTry(mirrors, order, shared, k);
      requests := requests + made;
      if served {
        return Retry(Some(reply), failures, requests);
      }
      failures := failures + [GivenUp(mirrors[ix].url, reason)];
      lastResult := Some(reply);
    }
    assert order[..|order|] == order;
    return Retry(lastResult, failures, requests);
  }

  lemma TryOrderInRange(n: nat, first: Option<nat>)
    requires first.Some? ==> first.value < n
    ensures forall k | 0 <= k < |TryOrder(n, first)| :: TryOrder(n, first)[k] < n
  {
    if first.Some? {
      OthersInOrder(n, first.value);
    }
  }

  // The first mirror that owns the realm, if there is a realm and such a mirror.
  ghost predicate IsFirstOwner(lower: string -> string, first: Option<nat>, realm: Option<string>, mirrors: seq<Mirror>) {
    && (first.Some? ==> realm.Some? && first.value < |mirrors| && Owns(lower, mirrors[first.value].url, realm.value))
    && (realm.Some? ==>
          forall i | 0 <= i < (if first.Some? then first.value else |mirrors|) && i < |mirrors| :: !Owns(lower, mirrors[i].url, realm.value))
  }

  /** The retry as `get_blob` runs it, from the realm of the first 401. */
  method RetryAfterUnauthorized(lower: string -> string, mirrors: seq<Mirror>, realm: Option<string>, shared: string)
    returns (r: Retry, ghost first: Option<nat>)
    ensures IsFirstOwner(lower, first, realm, mirrors)
    ensures forall k | 0 <= k < |TryOrder(|mirrors|, first)| :: TryOrder(|mirrors|, first)[k] < |mirrors|
    ensures RetryOutcome(mirrors, TryOrder(|mirrors|, first), shared, r)
    ensures r.reply.Some? && Good(r.reply.value) <==> exists i :: 0 <= i < |mirrors| && CanServe(mirrors[i])
    ensures forall ix :: Asked(r.requests, ix) <= 2
  {
    var owner: Option<nat> := None;
    if realm.Some? {
      var urls := seq(|mirrors|, i requires 0 <= i < |mirrors| => mirrors[i].url);
      owner := MirrorIndexFromRealm(lower, realm.value, urls);
      assert forall i | 0 <= i < |mirrors| :: Owns(lower, urls[i], realm.value) == Owns(lower, mirrors[i].url, realm.value);
    }
    first := owner;
    var order := BuildOrder(|mirrors|, owner);
    TryOrderInRange(|mirrors|, owner);
    r := RetryWithAuth(mirrors, order, shared);
    TryOrderIsPermutation(|mirrors|, owner);
    RetrySucceedsIff(mirrors, order, shared, r);
    forall ix: nat ensures Asked(r.requests, ix) <= 2 {
      AskedAtMostTwice(mirrors, order, shared, r, ix);
    }
  }
}
