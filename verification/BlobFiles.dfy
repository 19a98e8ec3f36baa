/**
 The files a blob download works on: one local directory for the temp files of every digest and, on the file
 system, for the blobs as well.  What a GET for one digest does to the files of another.
 */
module BlobFiles {
  import opened Wrappers
  import opened Text
  import opened Ranges
  import opened BlobDownload

  datatype Backend = Filesystem | ObjectStore

  // The local directory, and the objects if blobs are kept in an object store.
  datatype Store = Store(backend: Backend, files: map<string, Bytes>, objects: map<string, Bytes>)

  function At(m: map<string, Bytes>, key: string): Option<Bytes> {
    if key in m then Some(m[key]) else None
  }

  function Put(m: map<string, Bytes>, key: string, value: Option<Bytes>): map<string, Bytes> {
    if value.Some? then m[key := value.value] else m - {key}
  }

  function BlobAt(st: Store, name: string): Option<Bytes> {
    At(if st.backend.Filesystem? then st.files else st.objects, name)
  }

  function WithBlob(st: Store, name: string, blob: Option<Bytes>): Store {
    if st.backend.Filesystem? then st.(files := Put(st.files, name, blob))
    else st.(objects := Put(st.objects, name, blob))
  }

  function WithTemp(st: Store, temp: string, data: Option<Bytes>): Store {
    st.(files := Put(st.files, temp, data))
  }

  // The temp file and the blob a download of `name` works on.
  function SlotOf(st: Store, temp: string, name: string): Slot {
    Slot(At(st.files, temp), BlobAt(st, name))
  }

  function SlotIn(st: Store, name: string): Slot {
    SlotOf(st, TempName(name), name)
  }

  // The temp file is left as the attempt leaves it, and then the blob is published if it is.
  function AfterAttempt(st: Store, temp: string, name: string, slot: Slot, outcome: Outcome): Store {
    var left := WithTemp(st, temp, slot.temp);
    if outcome.Committed? then WithBlob(left, name, slot.blob) else left
  }

  // A GET for a digest.
  datatype Request = Request(digest: string, get: Get)

  function GetIn(hash: Bytes -> string, st: Store, r: Request): Store {
    var name := StripSha(r.digest);
    if r.get.opens && OpenBlob(BlobAt(st, name), r.get.range).Some? then st
    else
      var (slot, outcome) := Attempt(hash, r.digest, SlotIn(st, name), r.get.env, r.get.commit);
      AfterAttempt(st, TempName(name), name, slot, outcome)
  }

  function RunIn(hash: Bytes -> string, st: Store, requests: seq<Request>): Store {
    if requests == [] then st
    else GetIn(hash, RunIn(hash, st, requests[..|requests| - 1]), requests[|requests| - 1])
  }

  // Only a commit to an object store copies.
  predicate Possible(backend: Backend, r: Request) {
    backend.Filesystem? ==> r.get.commit != Copied
  }

  // ----- one slot -----

  lemma UncommittedKeepsBlob(hash: Bytes -> string, digest: string, slot: Slot, env: Env, commit: Commit)
    ensures var (slot', outcome) := Attempt(hash, digest, slot, env, commit);
      !outcome.Committed? ==> slot'.blob == slot.blob
  {
    if env.reply.Some? && IsSuccess(env.reply.value.status) {
      CommitConditionIsExact(hash, digest, slot, env, commit);
    }
  }

  /** Where temp file and blob are two files, a GET does to them what one attempt does to its slot. */
  lemma OwnSlot(hash: Bytes -> string, st: Store, r: Request)
    requires var name := StripSha(r.digest); st.backend.Filesystem? ==> TempName(name) != name
    ensures var name := StripSha(r.digest);
      SlotIn(GetIn(hash, st, r), name) == GetStep(hash, r.digest, SlotIn(st, name), r.get)
  {
    var name := StripSha(r.digest);
    UncommittedKeepsBlob(hash, r.digest, SlotIn(st, name), r.get.env, r.get.commit);
    SlotAfter(st, TempName(name), name, Attempt(hash, r.digest, SlotIn(st, name), r.get.env, r.get.commit).0,
              Attempt(hash, r.digest, SlotIn(st, name), r.get.env, r.get.commit).1);
  }

  lemma SlotAfter(st: Store, temp: string, name: string, slot: Slot, outcome: Outcome)
    requires st.backend.Filesystem? ==> temp != name
    requires !outcome.Committed? ==> slot.blob == BlobAt(st, name)
    ensures SlotOf(AfterAttempt(st, temp, name, slot, outcome), temp, name) == slot
  {
  }

  lemma OthersAfter(st: Store, temp: string, name: string, slot: Slot, outcome: Outcome, f: string)
    ensures f != temp && f != name ==> At(AfterAttempt(st, temp, name, slot, outcome).files, f) == At(st.files, f)
    ensures st.backend.ObjectStore? && f != temp ==> At(AfterAttempt(st, temp, name, slot, outcome).files, f) == At(st.files, f)
    ensures f != name ==> At(AfterAttempt(st, temp, name, slot, outcome).objects, f) == At(st.objects, f)
    ensures AfterAttempt(st, temp, name, slot, outcome).backend == st.backend
  {
  }

  // The GET changes no file but the temp file and the blob, whatever their names.
  lemma GetTouchesTwoFiles(hash: Bytes -> string, st: Store, r: Request, f: string)
    ensures var name := StripSha(r.digest);
      && GetIn(hash, st, r).backend == st.backend
      && (f != TempName(name) && f != name ==> At(GetIn(hash, st, r).files, f) == At(st.files, f))
      && (st.backend.ObjectStore? && f != TempName(name) ==> At(GetIn(hash, st, r).files, f) == At(st.files, f))
      && (f != name ==> At(GetIn(hash, st, r).objects, f) == At(st.objects, f))
  {
    var name := StripSha(r.digest);
    var (slot, outcome) := Attempt(hash, r.digest, SlotIn(st, name), r.get.env, r.get.commit);
    OthersAfter(st, TempName(name), name, slot, outcome, f);
  }

  // ----- two digests -----

  ghost predicate Undisturbed(hash: Bytes -> string, backend: Backend, a: string, b: string) {
    forall st: Store, r: Request | st.backend == backend && StripSha(r.digest) == a ::
      SlotIn(GetIn(hash, st, r), b) == SlotIn(st, b)
  }

  // The upstream sends `data` and then breaks off.
  function Interrupted(data: Bytes): Get {
    Get(None, true, Env(true, true, Some(BlobDownload.Reply(200, None, None, [Chunk(data, Written, false), Broken])), true, true, true, true), Moved)
  }

  lemma InterruptedLeaves(hash: Bytes -> string, backend: Backend, digest: string, data: Bytes)
    ensures var name := StripSha(digest);
      GetIn(hash, Store(backend, map[], map[]), Request(digest, Interrupted(data))) ==
        Store(backend, map[TempName(name) := data], map[])
  {
    var get := Interrupted(data);
    var events := get.env.reply.value.events;
    assert events[1..] == [Broken];
    assert Received(events) == data + [] == data;
    assert Assembled(Slot(None, None), get.env) == [] + data == data;
    assert EndOf(events) == Failed && AllWritten(events);
    StreamErrorExtendsTemp(hash, digest, Slot(None, None), get.env, Moved);
  }

  lemma TempsApart(a: string, b: string)
    requires a != "" && b != "" && TempName(a) != TempName(b)
    ensures a != b && a != TempName(b) && b != TempName(a)
  {
    TempOfTemp(a);
    TempOfTemp(b);
  }

  lemma ApartIsUndisturbed(hash: Bytes -> string, st: Store, r: Request, b: string)
    requires StripSha(r.digest) != "" && b != "" && TempName(StripSha(r.digest)) != TempName(b)
    ensures SlotIn(GetIn(hash, st, r), b) == SlotIn(st, b)
  {
    TempsApart(StripSha(r.digest), b);
    GetTouchesTwoFiles(hash, st, r, b);
    GetTouchesTwoFiles(hash, st, r, TempName(b));
  }

  lemma TempSeen(backend: Backend, temp: string, b: string, data: Bytes)
    requires TempName(b) == temp
    ensures SlotIn(Store(backend, map[temp := data], map[]), b) != SlotIn(Store(backend, map[], map[]), b)
  {
    assert At(map[temp := data], temp) == Some(data) && At(map[], temp) == None;
  }

  lemma Disturbs(hash: Bytes -> string, b: string, st: Store, r: Request, after: Store)
    requires after == GetIn(hash, st, r) && SlotIn(after, b) != SlotIn(st, b)
    ensures !Undisturbed(hash, st.backend, StripSha(r.digest), b)
  {
  }

  lemma InterruptedDisturbs(hash: Bytes -> string, backend: Backend, a: string, b: string)
    requires TempName(a) == TempName(b)
    ensures !Undisturbed(hash, backend, a, b)
  {
    StripPrefixed(a);
    InterruptedLeaves(hash, backend, "sha256:" + a, [0]);
    TempSeen(backend, TempName(a), b, [0]);
    Disturbs(hash, b, Store(backend, map[], map[]), Request("sha256:" + a, Interrupted([0])), Store(backend, map[TempName(a) := [0]], map[]));
  }

  /** A GET for one name can change what another name finds exactly when the two have the same temp name. */
  lemma GetLeavesOthersIff(hash: Bytes -> string, backend: Backend, a: string, b: string)
    requires a != "" && b != "" && a != b
    ensures Undisturbed(hash, backend, a, b) <==> TempName(a) != TempName(b)
  {
    if TempName(a) == TempName(b) {
      InterruptedDisturbs(hash, backend, a, b);
    } else {
      forall st: Store, r: Request | st.backend == backend && StripSha(r.digest) == a
        ensures SlotIn(GetIn(hash, st, r), b) == SlotIn(st, b)
      {
        ApartIsUndisturbed(hash, st, r, b);
      }
    }
  }

  lemma StripPrefixed(name: string)
    ensures StripSha("sha256:" + name) == name
  {
  }

  // ----- all digests -----

  // The blob published under a name, if there is one, hashes to that name.
  predicate Verified(hash: Bytes -> string, st: Store, name: string) {
    BlobAt(st, name).Some? ==> StripSha(hash(BlobAt(st, name).value)) == name
  }

  // On the file system, no name in use is the temp name of a name in use.
  predicate NoTempNames(backend: Backend, names: set<string>) {
    backend.Filesystem? ==> forall a, b | a in names && b in names :: TempName(a) != b
  }

  lemma ProperNamesAreNoTempNames(backend: Backend, names: set<string>)
    requires forall n | n in names :: !EndsInTmp(n)
    ensures NoTempNames(backend, names)
  {
    forall a, b | a in names && b in names ensures TempName(a) != b {
      TempEndsInTmp(a);
    }
  }

  // Requests for these names, with readable partial files.
  predicate Among(backend: Backend, requests: seq<Request>, names: set<string>) {
    forall r | r in requests :: StripSha(r.digest) in names && r.get.env.readOk && Possible(backend, r)
  }

  lemma GetVerifies(hash: Bytes -> string, st: Store, r: Request, names: set<string>, n: string)
    requires NoTempNames(st.backend, names) && StripSha(r.digest) in names && n in names
    requires r.get.env.readOk && Verified(hash, st, n)
    ensures Verified(hash, GetIn(hash, st, r), n)
  {
    var name := StripSha(r.digest);
    GetTouchesTwoFiles(hash, st, r, n);
    if n == name {
      OwnSlot(hash, st, r);
      var env := r.get.env;
      if env.reply.Some? && IsSuccess(env.reply.value.status) {
        CommitConditionIsExact(hash, r.digest, SlotIn(st, name), env, r.get.commit);
      }
    }
  }

  /** Over every run of GETs for any number of digests, with any leftover files, replies and failures, each
      published blob hashes to its name, if no name in use is another's temp name. */
  lemma {:induction false} StoreRunsAreSafe(hash: Bytes -> string, st: Store, requests: seq<Request>, names: set<string>)
    requires NoTempNames(st.backend, names) && Among(st.backend, requests, names)
    requires forall n | n in names :: Verified(hash, st, n)
    ensures RunIn(hash, st, requests).backend == st.backend
    ensures forall n | n in names :: Verified(hash, RunIn(hash, st, requests), n)
  {
    if requests != [] {
      var k := |requests| - 1;
      assert requests[k] in requests;
      StoreRunsAreSafe(hash, st, requests[..k], names);
      var before := RunIn(hash, st, requests[..k]);
      GetTouchesTwoFiles(hash, before, requests[k], "");
      forall n | n in names ensures Verified(hash, GetIn(hash, before, requests[k]), n) {
        GetVerifies(hash, before, requests[k], names, n);
      }
    }
  }

  /** So it is if no digest asked for ends in ".tmp", as none of hexadecimal digits does. */
  lemma PlainNamesAreSafe(hash: Bytes -> string, st: Store, requests: seq<Request>, n: string)
    requires forall r | r in requests :: !EndsInTmp(StripSha(r.digest)) && r.get.env.readOk && Possible(st.backend, r)
    requires !EndsInTmp(n) && forall m | !EndsInTmp(m) :: Verified(hash, st, m)
    ensures Verified(hash, RunIn(hash, st, requests), n)
  {
    var names := (set r | r in requests :: StripSha(r.digest)) + {n};
    ProperNamesAreNoTempNames(st.backend, names);
    StoreRunsAreSafe(hash, st, requests, names);
  }

  /** Without that hypothesis bytes that were never verified are served: what an interrupted download of one
      name leaves is a hit for the other. */
  lemma TempFileIsServed(hash: Bytes -> string, digest: string, data: Bytes)
    requires data != []
    ensures var st := GetIn(hash, Store(Filesystem, map[], map[]), Request(digest, Interrupted(data)));
      var hit := OpenBlob(BlobAt(st, TempName(StripSha(digest))), None);
      hit.Some? && hit.value.body == data
  {
    InterruptedLeaves(hash, Filesystem, digest, data);
    assert data[0..|data|] == data;
  }

  lemma UnverifiedRun(hash: Bytes -> string, a: string, b: string, data: Bytes) returns (r: Request)
    requires TempName(a) == b && StripSha(hash(data)) != b
    ensures StripSha(r.digest) == a && r.get.env.readOk && r.get.commit == Moved
    ensures !Verified(hash, RunIn(hash, Store(Filesystem, map[], map[]), [r]), b)
  {
    r := Request("sha256:" + a, Interrupted(data));
    StripPrefixed(a);
    InterruptedLeaves(hash, Filesystem, r.digest, data);
    assert [r][..0] == [];
  }

  ghost predicate AlwaysVerified(hash: Bytes -> string, backend: Backend, names: set<string>) {
    forall requests: seq<Request>, n | Among(backend, requests, names) && n in names ::
      Verified(hash, RunIn(hash, Store(backend, map[], map[]), requests), n)
  }

  /** So, for a hash that is not constant, every run from an empty store publishes verified blobs only exactly
      when no name in use is another's temp name. */
  lemma AlwaysVerifiedIff(hash: Bytes -> string, backend: Backend, names: set<string>, x: Bytes, y: Bytes)
    requires x != [] && y != [] && StripSha(hash(x)) != StripSha(hash(y))
    ensures AlwaysVerified(hash, backend, names) <==> NoTempNames(backend, names)
  {
    var empty := Store(backend, map[], map[]);
    if NoTempNames(backend, names) {
      forall requests: seq<Request>, n | Among(backend, requests, names) && n in names
        ensures Verified(hash, RunIn(hash, empty, requests), n)
      {
        StoreRunsAreSafe(hash, empty, requests, names);
      }
    } else {
      var a, b :| a in names && b in names && TempName(a) == b;
      var r := UnverifiedRun(hash, a, b, if StripSha(hash(x)) != b then x else y);
      assert Among(backend, [r], names);
    }
  }
}
