/**
 The store the keys of StorageKeys are used in, on either backend: writes, interrupted writes, deletions and
 reads, as one map from locations to bytes.
 */
module KeyedStore {
  import opened Wrappers
  import opened Text
  import opened StorageKeys

  // An interrupted write got no further than `partial`.
  datatype Op =
    | Write(key: Key, data: Bytes)
    | Torn(key: Key, partial: Bytes)
    | Delete(key: Key)

  function TempOf(backend: Backend, k: Key): Option<string> {
    if UsesTemp(backend, k) then Some(TempAt(k)) else None
  }

  // An operation at a location, through a temp file if there is one, which `rename` takes away.
  function ApplyAt(filesystem: bool, objects: map<string, Bytes>, op: Op, temp: Option<string>, location: string)
    : map<string, Bytes>
  {
    match op
    case Write(_, data) => (if temp.Some? then objects - {temp.value} else objects)[location := data]
    case Torn(_, partial) =>
      if !filesystem then objects else objects[if temp.Some? then temp.value else location := partial]
    case Delete(_) => objects - {location}
  }

  function Apply(backend: Backend, objects: map<string, Bytes>, op: Op): map<string, Bytes> {
    ApplyAt(backend.Filesystem?, objects, op, TempOf(backend, op.key), Locate(backend, op.key))
  }

  function Run(backend: Backend, ops: seq<Op>): map<string, Bytes> {
    if ops == [] then map[]
    else Apply(backend, Run(backend, ops[..|ops| - 1]), ops[|ops| - 1])
  }

  function At(objects: map<string, Bytes>, location: string): Option<Bytes> {
    if location in objects then Some(objects[location]) else None
  }

  function Lookup(backend: Backend, objects: map<string, Bytes>, k: Key): Option<Bytes> {
    At(objects, Locate(backend, k))
  }

  // What an operation leaves at location `l`.
  function Effect(filesystem: bool, op: Op, temp: Option<string>, location: string, l: string, before: Option<Bytes>): Option<Bytes> {
    match op
    case Write(_, data) => if l == location then Some(data) else if temp == Some(l) then None else before
    case Torn(_, partial) =>
      if filesystem && l == (if temp.Some? then temp.value else location) then Some(partial) else before
    case Delete(_) => if l == location then None else before
  }

  lemma EffectOfApply(filesystem: bool, objects: map<string, Bytes>, op: Op, temp: Option<string>, location: string, l: string)
    ensures At(ApplyAt(filesystem, objects, op, temp, location), l) == Effect(filesystem, op, temp, location, l, At(objects, l))
  {
  }

  // An interrupted write of this key leaves its value as it was.
  predicate Atomic(backend: Backend, k: Key) {
    backend.ObjectStore? || (UsesTemp(backend, k) && !TempHits(k, k))
  }

  // What an operation on this very key leaves.
  function LeftBy(backend: Backend, op: Op, k: Key, before: Option<Bytes>): Option<Bytes> {
    match op
    case Write(_, data) => Some(data)
    case Torn(_, partial) => if Atomic(backend, k) then before else Some(partial)
    case Delete(_) => None
  }

  // What the last operation on this very key left.
  function Latest(backend: Backend, ops: seq<Op>, k: Key): Option<Bytes> {
    if ops == [] then None
    else
      var op := ops[|ops| - 1];
      var before := Latest(backend, ops[..|ops| - 1], k);
      if Canon(op.key) == Canon(k) then LeftBy(backend, op, k, before) else before
  }

  // Writing `a` can change what `b` reads although they are two keys.
  predicate Interferes(backend: Backend, a: Key, b: Key) {
    backend.Filesystem? && (Aliased(a, b) || Aliased(b, a) || TempHits(a, b))
  }

  // Whatever is stored and written, the write to `location` leaves what is at `l`.
  ghost predicate LeavesAlone(filesystem: bool, key: Key, temp: Option<string>, location: string, l: string) {
    forall objects, data :: At(ApplyAt(filesystem, objects, Write(key, data), temp, location), l) == At(objects, l)
  }

  lemma LeavesAloneIff(filesystem: bool, key: Key, temp: Option<string>, location: string, l: string)
    ensures LeavesAlone(filesystem, key, temp, location, l) <==> l != location && temp != Some(l)
  {
    var objects: map<string, Bytes> := if l == location then map[] else map[l := []];
    EffectOfApply(filesystem, objects, Write(key, []), temp, location, l);
  }

  // Writing `a` never changes what `b` reads.
  ghost predicate Untouched(backend: Backend, a: Key, b: Key) {
    LeavesAlone(backend.Filesystem?, a, TempOf(backend, a), Locate(backend, a), Locate(backend, b))
  }

  /** A write leaves every other key as it was exactly unless the two interfere. */
  lemma WriteLeavesOthersIff(backend: Backend, a: Key, b: Key)
    requires WellFormed(a) && WellFormed(b) && Canon(a) != Canon(b)
    ensures Untouched(backend, a, b) <==> !Interferes(backend, a, b)
  {
    LocationsMeetIff(backend, a, b);
    LeavesAloneIff(backend.Filesystem?, a, TempOf(backend, a), Locate(backend, a), Locate(backend, b));
  }

  lemma LocationsMeetIff(backend: Backend, a: Key, b: Key)
    requires WellFormed(a) && WellFormed(b) && Canon(a) != Canon(b)
    ensures Interferes(backend, a, b) <==>
      || Locate(backend, a) == Locate(backend, b)
      || TempOf(backend, a) == Some(Locate(backend, b))
  {
    SameLocationIff(backend, a, b);
    if UsesTemp(backend, a) {
      TempHitsIff(a, b);
    }
  }

  // What an operation on one key does to another, and to itself.
  lemma OneOperation(backend: Backend, objects: map<string, Bytes>, op: Op, k: Key)
    requires WellFormed(op.key) && WellFormed(k)
    requires Canon(op.key) != Canon(k) ==> !Interferes(backend, op.key, k)
    ensures Lookup(backend, Apply(backend, objects, op), k) ==
      if Canon(op.key) == Canon(k) then LeftBy(backend, op, k, Lookup(backend, objects, k)) else Lookup(backend, objects, k)
  {
    EffectOfApply(backend.Filesystem?, objects, op, TempOf(backend, op.key), Locate(backend, op.key), Locate(backend, k));
    if Canon(op.key) != Canon(k) {
      LocationsMeetIff(backend, op.key, k);
    } else {
      SameLocationIff(backend, op.key, k);
      if UsesTemp(backend, op.key) {
        TempHitsIff(op.key, k);
      }
    }
  }

  /** Each key behaves as a variable of its own: whatever is written, interrupted and deleted in between, a read
      returns what the last operation on that key left, unless a key that interferes with it was used. */
  lemma {:induction false} ReadsItsOwnLastWrite(backend: Backend, ops: seq<Op>, k: Key)
    requires WellFormed(k) && forall op | op in ops :: WellFormed(op.key)
    requires forall op | op in ops && Canon(op.key) != Canon(k) :: !Interferes(backend, op.key, k)
    ensures Lookup(backend, Run(backend, ops), k) == Latest(backend, ops, k)
  {
    if ops != [] {
      var n := |ops| - 1;
      assert ops[n] in ops;
      ReadsItsOwnLastWrite(backend, ops[..n], k);
      OneOperation(backend, Run(backend, ops[..n]), ops[n], k);
    }
  }

  /** Two keys that interfere do overwrite or remove one another. */
  lemma InterferingKeysLoseWrites(backend: Backend, a: Key, b: Key, own: Bytes, other: Bytes)
    requires WellFormed(a) && WellFormed(b) && Canon(a) != Canon(b) && Interferes(backend, a, b) && own != other
    ensures Latest(backend, [Write(b, own), Write(a, other)], b) == Some(own)
    ensures Lookup(backend, Run(backend, [Write(b, own), Write(a, other)]), b) != Some(own)
  {
    LocationsMeetIff(backend, a, b);
    var ops := [Write(b, own), Write(a, other)];
    assert ops[..1] == [Write(b, own)] && ops[..1][..0] == [];
  }

  /** For instance a blob of any plain name, such as "a", takes away the blob named "a.tmp". */
  lemma DottedBlobIsLost(name: string, own: Bytes, other: Bytes)
    requires IsPart(name) && '.' !in name && own != other
    ensures var a, b := Blob("sha256:" + name), Blob("sha256:" + (name + ".tmp"));
      && Interferes(Filesystem, a, b) && WellFormed(a) && WellFormed(b) && Canon(a) != Canon(b)
      && Lookup(Filesystem, Run(Filesystem, [Write(b, own), Write(a, other)]), b) != Some(own)
  {
    var a, b := Blob("sha256:" + name), Blob("sha256:" + (name + ".tmp"));
    PlainTemp(name);
    StripAdded(name);
    StripAdded(name + ".tmp");
    assert |name| != |name + ".tmp"|;
    InterferingKeysLoseWrites(Filesystem, a, b, own, other);
  }

  lemma PlainTemp(name: string)
    requires IsPart(name) && '.' !in name
    ensures TempName(name) == name + ".tmp" && IsPart(name + ".tmp")
  {
    assert forall c | c in name[1..] :: c in name;
    TempOfStem(name, "tmp");
    TempIsSlashFree(name);
  }

  // Keys that interfere with no other of their kind: on the file system no legacy repository "…/sha256" and no
  // blob or chart whose name ends in ".tmp".
  predicate Proper(backend: Backend, k: Key) {
    && WellFormed(k)
    && (backend.Filesystem? ==>
          match k
          case Legacy(_, repository, _) => var n := |repository|; n < 7 || repository[n - 7..] != "/sha256"
          case Blob(digest) => !EndsInTmp(StripSha(digest))
          case Chart(_, chart) => !EndsInTmp(chart)
          case _ => true)
  }

  lemma ProperNeverInterferes(backend: Backend, a: Key, b: Key)
    requires Proper(backend, a) && Proper(backend, b)
    ensures !Interferes(backend, a, b) && (backend.Filesystem? ==> !TempHits(a, a))
  {
    if backend.Filesystem? {
      NeverAliased(backend, a, b);
      NeverAliased(backend, b, a);
    }
    if a.Blob? {
      TempEndsInTmp(StripSha(a.digest));
    } else if a.Chart? {
      TempEndsInTmp(a.chart);
    }
  }

  lemma NeverAliased(backend: Backend, a: Key, b: Key)
    requires Proper(backend, a) && backend.Filesystem?
    ensures !Aliased(a, b)
  {
    if b.ByDigest? {
      var deeper := b.repository + "/sha256";
      assert deeper[|deeper| - 7..] == "/sha256";
    }
  }

  class CacheStorage {
    const backend: Backend
    var objects: map<string, Bytes>
    ghost var log: seq<Op>

    constructor (backend: Backend)
      ensures Valid() && this.backend == backend && log == []
    {
      this.backend := backend;
      objects := map[];
      log := [];
    }

    ghost predicate Valid()
      reads this
    {
      && objects == Run(backend, log)
      && forall op | op in log :: WellFormed(op.key)
    }

    // `cut` is where the write is interrupted, if it is.
    method WriteAt(temp: Option<string>, location: string, data: Bytes, cut: Option<nat>, ghost op: Op) returns (ok: bool)
      requires cut.Some? ==> cut.value <= |data| && op.Torn? && op.partial == data[..cut.value]
      requires cut.None? ==> op.Write? && op.data == data
      modifies this`objects
      ensures ok == cut.None?
      ensures objects == ApplyAt(backend.Filesystem?, old(objects), op, temp, location)
    {
      ok := cut.None?;
      if backend.Filesystem? {
        var target := if temp.Some? then temp.value else location;
        objects := objects[target := if ok then data else data[..cut.value]];
        if ok && temp.Some? {
          var written := objects[target];
          objects := (objects - {target})[location := written];
        }
      } else if ok {
        objects := (if temp.Some? then objects - {temp.value} else objects)[location := data];
      }
    }

    method WriteKey(k: Key, data: Bytes, cut: Option<nat>) returns (ok: bool)
      requires Valid() && WellFormed(k) && (cut.Some? ==> cut.value <= |data|)
      modifies this
      ensures Valid() && ok == cut.None?
      ensures log == old(log) + [if ok then Write(k, data) else Torn(k, data[..cut.value])]
    {
      ghost var op := if cut.None? then Write(k, data) else Torn(k, data[..cut.value]);
      ok := WriteAt(TempOf(backend, k), Locate(backend, k), data, cut, op);
      Logged(op);
    }

    ghost method Logged(op: Op)
      requires objects == Apply(backend, Run(backend, log), op) && WellFormed(op.key)
      requires forall o | o in log :: WellFormed(o.key)
      modifies this`log
      ensures Valid() && log == old(log) + [op]
    {
      log := log + [op];
      assert log[..|log| - 1] == old(log);
    }

    method DeleteKey(k: Key)
      requires Valid() && WellFormed(k)
      modifies this
      ensures Valid() && log == old(log) + [Delete(k)]
    {
      objects := objects - {Locate(backend, k)};
      Logged(Delete(k));
    }

    /** A read returns the last write of its key, if no key that interferes with it was used. */
    method ReadKey(k: Key) returns (data: Option<Bytes>)
      requires Valid() && WellFormed(k)
      ensures (forall op | op in log && Canon(op.key) != Canon(k) :: !Interferes(backend, op.key, k)) ==>
                data == Latest(backend, log, k)
    {
      if forall op | op in log && Canon(op.key) != Canon(k) :: !Interferes(backend, op.key, k) {
        ReadsItsOwnLastWrite(backend, log, k);
      }
      data := if Locate(backend, k) in objects then Some(objects[Locate(backend, k)]) else None;
    }
  }
}
