/**
 The size limit of a filesystem cache: `evict_if_needed` and the two writers that call it, over the files
 of the blob directory, temp files included.
 */
module Eviction {
  import opened Wrappers
  import opened Text
  import opened StableSort

  type Bytes = seq<bv8>

  datatype FileEntry = FileEntry(name: string, data: Bytes, mtime: nat)

  // A limit of U64_MAX means no limit.
  predicate Limited(maxSize: nat) {
    maxSize != U64_MAX
  }

  // ----- directories as sequences in listing order -----

  predicate Distinct(files: seq<FileEntry>) {
    forall i, j | 0 <= i < j < |files| :: files[i].name != files[j].name
  }

  function TotalSize(files: seq<FileEntry>): nat {
    if files == [] then 0 else |files[0].data| + TotalSize(files[1..])
  }

  function Without(files: seq<FileEntry>, names: set<string>): (r: seq<FileEntry>)
    ensures forall f :: f in r <==> f in files && f.name !in names
    ensures Distinct(files) ==> Distinct(r)
  {
    if files == [] then []
    else
      var rest := Without(files[1..], names);
      if files[0].name in names then rest else [files[0]] + rest
  }

  function Position(files: seq<FileEntry>, f: FileEntry): int {
    if files == [] || files[0] == f then 0 else 1 + Position(files[1..], f)
  }

  predicate OlderOrSame(a: FileEntry, b: FileEntry) {
    a.mtime <= b.mtime
  }

  function ByAge(files: seq<FileEntry>): (r: seq<FileEntry>)
    ensures multiset(r) == multiset(files)
  {
    SortBy(OlderOrSame, files)
  }

  // ----- eviction -----

  // The bytes freed by trying to remove these files when some cannot be removed.
  function Freed(files: seq<FileEntry>, stuck: set<string>): nat {
    if files == [] then 0
    else
      var last := files[|files| - 1];
      Freed(files[..|files| - 1], stuck) + if last.name in stuck then 0 else |last.data|
  }

  function Victims(files: seq<FileEntry>, stuck: set<string>): set<string> {
    set f | f in files && f.name !in stuck :: f.name
  }

  // How many files, oldest first, the loop tries to remove.
  function Examined(byAge: seq<FileEntry>, target: nat, stuck: set<string>, from: nat): (k: nat)
    requires from <= |byAge|
    ensures from <= k <= |byAge|
    ensures k == |byAge| || target <= Freed(byAge[..k], stuck)
    ensures forall j | from <= j < k :: Freed(byAge[..j], stuck) < target
    decreases |byAge| - from
  {
    if from == |byAge| || target <= Freed(byAge[..from], stuck) then from
    else Examined(byAge, target, stuck, from + 1)
  }

  function Evict(files: seq<FileEntry>, maxSize: nat, newSize: nat, stuck: set<string>): seq<FileEntry> {
    var need := TotalSize(files) + newSize;
    if !Limited(maxSize) || need <= maxSize then files
    else
      var byAge := ByAge(files);
      Without(files, Victims(byAge[..Examined(byAge, need - maxSize, stuck, 0)], stuck))
  }

  lemma EvictsOldest(files: seq<FileEntry>, maxSize: nat, newSize: nat, stuck: set<string>)
    requires Distinct(files) && Limited(maxSize) && TotalSize(files) + newSize > maxSize
    ensures var byAge := ByAge(files);
      var kept := Without(files, Victims(byAge[..Examined(byAge, TotalSize(files) + newSize - maxSize, stuck, 0)], stuck));
      Evict(files, maxSize, newSize, stuck) == kept && Distinct(kept)
  {
  }

  lemma {:induction false} AtMostOnce(files: seq<FileEntry>, f: FileEntry)
    requires Distinct(files)
    ensures multiset(files)[f] <= 1
  {
    if files != [] {
      AtMostOnce(files[1..], f);
      assert files == [files[0]] + files[1..];
      assert multiset(files) == multiset{files[0]} + multiset(files[1..]);
      if f == files[0] {
        assert f !in files[1..];
        assert f !in multiset(files[1..]);
      }
    }
  }

  lemma DistinctPermutation(files: seq<FileEntry>, other: seq<FileEntry>)
    requires Distinct(files) && multiset(files) == multiset(other)
    ensures Distinct(other)
    ensures forall f :: f in files <==> f in other
  {
    forall f ensures f in files <==> f in other {
      assert f in files <==> f in multiset(files);
    }
    forall i, j | 0 <= i < j < |other| ensures other[i].name != other[j].name {
      if other[i].name == other[j].name {
        assert other[i] in files && other[j] in files;
        assert other == other[..i] + [other[i]] + other[i + 1..];
        assert other[j] in other[i + 1..];
        assert multiset(other) == multiset(other[..i]) + multiset{other[i]} + multiset(other[i + 1..]);
        assert other[j] in multiset(other[i + 1..]);
        AtMostOnce(files, other[i]);
      }
    }
  }

  lemma {:induction false} WithoutOneMore(files: seq<FileEntry>, gone: set<string>, f: FileEntry)
    requires Distinct(files) && f in files && f.name !in gone
    ensures TotalSize(Without(files, gone)) == TotalSize(Without(files, gone + {f.name})) + |f.data|
  {
    if files[0] == f {
      WithoutUnnamed(files[1..], gone, gone + {f.name});
    } else {
      WithoutOneMore(files[1..], gone, f);
    }
  }

  lemma NoVictims(files: seq<FileEntry>, byAge: seq<FileEntry>, stuck: set<string>)
    ensures Without(files, Victims(byAge[..0], stuck)) == files && Freed(byAge[..0], stuck) == 0
  {
    assert Victims(byAge[..0], stuck) == {};
    WithoutNone(files, {});
  }

  lemma {:induction false} WithoutUnnamed(files: seq<FileEntry>, a: set<string>, b: set<string>)
    requires forall f | f in files :: f.name in a <==> f.name in b
    ensures Without(files, a) == Without(files, b)
  {
    if files != [] {
      WithoutUnnamed(files[1..], a, b);
    }
  }

  lemma {:induction false} WithoutNone(files: seq<FileEntry>, names: set<string>)
    requires forall f | f in files :: f.name !in names
    ensures Without(files, names) == files
  {
    if files != [] {
      WithoutNone(files[1..], names);
    }
  }

  lemma VictimsOneMore(byAge: seq<FileEntry>, k: nat, stuck: set<string>)
    requires k < |byAge|
    ensures Victims(byAge[..k + 1], stuck) ==
      if byAge[k].name in stuck then Victims(byAge[..k], stuck) else Victims(byAge[..k], stuck) + {byAge[k].name}
    ensures Freed(byAge[..k + 1], stuck) == Freed(byAge[..k], stuck) + if byAge[k].name in stuck then 0 else |byAge[k].data|
  {
    assert byAge[..k + 1] == byAge[..k] + [byAge[k]];
    assert byAge[..k + 1][..k] == byAge[..k];
    var more := if byAge[k].name in stuck then {} else {byAge[k].name};
    forall n ensures n in Victims(byAge[..k + 1], stuck) <==> n in Victims(byAge[..k], stuck) + more {
      if n in Victims(byAge[..k], stuck) {
        var f :| f in byAge[..k] && f.name !in stuck && f.name == n;
        assert f in byAge[..k + 1];
      }
      if n in more {
        assert byAge[k] in byAge[..k + 1];
      }
    }
  }

  // Trying to remove one more file frees exactly what the directory loses.
  lemma OneMoreFreed(files: seq<FileEntry>, byAge: seq<FileEntry>, k: nat, stuck: set<string>)
    requires Distinct(files) && Distinct(byAge) && k < |byAge| && byAge[k] in files
    ensures TotalSize(Without(files, Victims(byAge[..k + 1], stuck))) + Freed(byAge[..k + 1], stuck)
         == TotalSize(Without(files, Victims(byAge[..k], stuck))) + Freed(byAge[..k], stuck)
  {
    VictimsOneMore(byAge, k, stuck);
    if byAge[k].name !in stuck {
      NotYetAVictim(byAge, k, stuck);
      WithoutOneMore(files, Victims(byAge[..k], stuck), byAge[k]);
    }
  }

  lemma NotYetAVictim(byAge: seq<FileEntry>, k: nat, stuck: set<string>)
    requires Distinct(byAge) && k < |byAge|
    ensures byAge[k].name !in Victims(byAge[..k], stuck)
  {
  }

  /** Conservation: the bytes before are the bytes kept plus the bytes freed, however far the loop got. */
  lemma {:induction false} KeptPlusFreed(files: seq<FileEntry>, byAge: seq<FileEntry>, k: nat, stuck: set<string>)
    requires Distinct(files) && multiset(byAge) == multiset(files) && k <= |byAge|
    ensures TotalSize(Without(files, Victims(byAge[..k], stuck))) + Freed(byAge[..k], stuck) == TotalSize(files)
  {
    if k == 0 {
      WithoutNone(files, {});
      assert Victims(byAge[..0], stuck) == {};
    } else {
      KeptPlusFreed(files, byAge, k - 1, stuck);
      DistinctPermutation(files, byAge);
      OneMoreFreed(files, byAge, k - 1, stuck);
    }
  }

  lemma {:induction false} PositionsIncrease(files: seq<FileEntry>, i: nat, j: nat)
    requires Distinct(files) && i < j < |files|
    ensures Position(files, files[i]) == i < Position(files, files[j]) == j
  {
    var rest := files[1..];
    if i > 0 {
      PositionsIncrease(rest, i - 1, j - 1);
    } else if j > 1 {
      PositionsIncrease(rest, 0, j - 1);
    }
  }

  lemma ByAgeIsStable(files: seq<FileEntry>)
    requires Distinct(files)
    ensures StablyOrdered(OlderOrSame, f => Position(files, f), ByAge(files))
  {
    var pos := (f: FileEntry) => Position(files, f);
    forall i, j | 0 <= i < j < |files| ensures pos(files[i]) < pos(files[j]) {
      PositionsIncrease(files, i, j);
    }
    SortIsStable(OlderOrSame, pos, files);
  }

  /** When the limit would be exceeded, the files removed are those removable among the shortest prefix that
      frees the target, oldest first and in listing order among files of one age; and no byte is lost. */
  lemma EvictionIsShortestOldestPrefix(files: seq<FileEntry>, maxSize: nat, newSize: nat, stuck: set<string>)
    returns (byAge: seq<FileEntry>, k: nat)
    requires Distinct(files) && Limited(maxSize) && TotalSize(files) + newSize > maxSize
    ensures multiset(byAge) == multiset(files) && StablyOrdered(OlderOrSame, f => Position(files, f), byAge)
    ensures k <= |byAge|
    ensures var target := TotalSize(files) + newSize - maxSize;
      && (k == |byAge| || target <= Freed(byAge[..k], stuck))
      && (forall j | 0 <= j < k :: Freed(byAge[..j], stuck) < target)
    ensures var kept := Evict(files, maxSize, newSize, stuck);
      && (forall f :: f in kept <==> f in files && (f in byAge[..k] ==> f.name in stuck))
      && TotalSize(kept) + Freed(byAge[..k], stuck) == TotalSize(files)
  {
    byAge := ByAge(files);
    k := Examined(byAge, TotalSize(files) + newSize - maxSize, stuck, 0);
    ByAgeIsStable(files);
    KeptPlusFreed(files, byAge, k, stuck);
    DistinctPermutation(files, byAge);
    forall f | f in files ensures f.name in Victims(byAge[..k], stuck) <==> f in byAge[..k] && f.name !in stuck {
      if f.name in Victims(byAge[..k], stuck) {
        var g :| g in byAge[..k] && g.name !in stuck && g.name == f.name;
        assert g in byAge && g in files;
        assert g == f;
      }
    }
  }

  // ----- which files go, file by file -----

  function SizeWhere(files: seq<FileEntry>, wanted: FileEntry -> bool): nat {
    if files == [] then 0 else (if wanted(files[0]) then |files[0].data| else 0) + SizeWhere(files[1..], wanted)
  }

  // Older, or of the same age and listed first.
  predicate Before(files: seq<FileEntry>, g: FileEntry, f: FileEntry) {
    g.mtime < f.mtime || (g.mtime == f.mtime && Position(files, g) < Position(files, f))
  }

  function RemovableBefore(files: seq<FileEntry>, f: FileEntry, stuck: set<string>): FileEntry -> bool {
    (g: FileEntry) => g.name !in stuck && Before(files, g, f)
  }

  // A file is evicted if it can be removed and what can be removed before it does not make room.
  predicate Goes(files: seq<FileEntry>, maxSize: nat, newSize: nat, stuck: set<string>, f: FileEntry) {
    && maxSize != 0xFFFF_FFFF_FFFF_FFFF && f.name !in stuck
    && TotalSize(files) + newSize > maxSize + SizeWhere(files, RemovableBefore(files, f, stuck))
  }

  lemma {:induction false} SizeOfBoth(a: seq<FileEntry>, b: seq<FileEntry>, wanted: FileEntry -> bool)
    ensures SizeWhere(a + b, wanted) == SizeWhere(a, wanted) + SizeWhere(b, wanted)
  {
    if a == [] {
      assert a + b == b;
    } else {
      assert (a + b)[1..] == a[1..] + b;
      SizeOfBoth(a[1..], b, wanted);
    }
  }

  lemma {:induction false} SizeOfSame(files: seq<FileEntry>, wanted: FileEntry -> bool, other: FileEntry -> bool)
    requires forall f | f in files :: wanted(f) == other(f)
    ensures SizeWhere(files, wanted) == SizeWhere(files, other)
  {
    if files != [] {
      SizeOfSame(files[1..], wanted, other);
    }
  }

  lemma {:induction false} SizeOfNone(files: seq<FileEntry>, wanted: FileEntry -> bool)
    requires forall f | f in files :: !wanted(f)
    ensures SizeWhere(files, wanted) == 0
  {
    if files != [] {
      SizeOfNone(files[1..], wanted);
    }
  }

  lemma TakenOut(files: seq<FileEntry>, j: nat)
    requires j < |files|
    ensures multiset(files[..j] + files[j + 1..]) == multiset(files) - multiset{files[j]}
  {
    assert files == files[..j] + ([files[j]] + files[j + 1..]);
  }

  lemma SizeTakenOut(files: seq<FileEntry>, j: nat, wanted: FileEntry -> bool)
    requires j < |files|
    ensures SizeWhere(files, wanted) ==
      SizeWhere(files[..j] + files[j + 1..], wanted) + if wanted(files[j]) then |files[j].data| else 0
  {
    SizeOfBoth(files[..j], files[j + 1..], wanted);
    SizeOfBoth(files[..j], files[j..], wanted);
    assert files == files[..j] + files[j..] && files[j..][1..] == files[j + 1..];
  }

  lemma HeadTakenOut(files: seq<FileEntry>)
    requires files != []
    ensures multiset(files[1..]) == multiset(files) - multiset{files[0]}
  {
    assert files == [files[0]] + files[1..];
  }

  lemma FoundIn(a: seq<FileEntry>, b: seq<FileEntry>) returns (j: nat)
    requires a != [] && multiset(a) == multiset(b)
    ensures j < |b| && b[j] == a[0]
  {
    assert a[0] in multiset(b);
    j :| 0 <= j < |b| && b[j] == a[0];
  }

  lemma {:induction false} SizeOfPermutation(a: seq<FileEntry>, b: seq<FileEntry>, wanted: FileEntry -> bool)
    requires multiset(a) == multiset(b)
    ensures SizeWhere(a, wanted) == SizeWhere(b, wanted)
    decreases |a|
  {
    if a == [] {
      assert |b| == |multiset(b)| == 0;
    } else {
      var j := FoundIn(a, b);
      HeadTakenOut(a);
      TakenOut(b, j);
      SizeOfPermutation(a[1..], b[..j] + b[j + 1..], wanted);
      SizeTakenOut(b, j, wanted);
    }
  }

  lemma {:induction false} FreedIsSize(files: seq<FileEntry>, stuck: set<string>)
    ensures Freed(files, stuck) == SizeWhere(files, (g: FileEntry) => g.name !in stuck)
  {
    if files != [] {
      var n := |files| - 1;
      FreedIsSize(files[..n], stuck);
      SizeOfBoth(files[..n], [files[n]], (g: FileEntry) => g.name !in stuck);
      assert files == files[..n] + [files[n]];
    }
  }

  lemma InAge(files: seq<FileEntry>, byAge: seq<FileEntry>, j: nat, i: nat)
    requires StablyOrdered(OlderOrSame, f => Position(files, f), byAge) && j < |byAge| && i < |byAge|
    ensures Before(files, byAge[j], byAge[i]) <==> j < i
  {
    if j < i {
      assert OlderOrSame(byAge[j], byAge[i]);
    } else if i < j {
      assert OlderOrSame(byAge[i], byAge[j]);
    }
  }

  // What has been freed when the loop comes to a file.
  lemma FreedBefore(files: seq<FileEntry>, byAge: seq<FileEntry>, i: nat, stuck: set<string>)
    requires multiset(byAge) == multiset(files) && i < |byAge|
    requires StablyOrdered(OlderOrSame, f => Position(files, f), byAge)
    ensures Freed(byAge[..i], stuck) == SizeWhere(files, RemovableBefore(files, byAge[i], stuck))
  {
    var wanted, free := RemovableBefore(files, byAge[i], stuck), (g: FileEntry) => g.name !in stuck;
    forall g | g in byAge[..i] ensures wanted(g) == free(g) {
      var j :| 0 <= j < i && byAge[j] == g;
      InAge(files, byAge, j, i);
    }
    forall g | g in byAge[i..] ensures !wanted(g) {
      var j :| i <= j < |byAge| && byAge[j] == g;
      InAge(files, byAge, j, i);
    }
    SplitSize(byAge, i, wanted, free);
    FreedIsSize(byAge[..i], stuck);
    SizeOfPermutation(byAge, files, wanted);
  }

  lemma SplitSize(files: seq<FileEntry>, i: nat, wanted: FileEntry -> bool, free: FileEntry -> bool)
    requires i <= |files|
    requires forall g | g in files[..i] :: wanted(g) == free(g)
    requires forall g | g in files[i..] :: !wanted(g)
    ensures SizeWhere(files, wanted) == SizeWhere(files[..i], free)
  {
    SizeOfSame(files[..i], wanted, free);
    SizeOfNone(files[i..], wanted);
    SizeOfBoth(files[..i], files[i..], wanted);
    assert files == files[..i] + files[i..];
  }

  lemma {:induction false} FreedGrows(files: seq<FileEntry>, stuck: set<string>, j: nat, k: nat)
    requires j <= k <= |files|
    ensures Freed(files[..j], stuck) <= Freed(files[..k], stuck)
  {
    if j < k {
      FreedGrows(files, stuck, j, k - 1);
      VictimsOneMore(files, k - 1, stuck);
    }
  }

  // A removable file is among the first `k` exactly if what is freed before it does not reach the target.
  lemma ExaminedIff(byAge: seq<FileEntry>, stuck: set<string>, target: nat, k: nat, i: nat)
    requires k <= |byAge| && i < |byAge|
    requires k == |byAge| || target <= Freed(byAge[..k], stuck)
    requires forall j | 0 <= j < k :: Freed(byAge[..j], stuck) < target
    ensures i < k <==> Freed(byAge[..i], stuck) < target
  {
    if k <= i {
      FreedGrows(byAge, stuck, k, i);
    }
  }

  lemma AmongFirst(byAge: seq<FileEntry>, k: nat, i: nat)
    requires Distinct(byAge) && k <= |byAge| && i < |byAge|
    ensures byAge[i] in byAge[..k] <==> i < k
  {
    if i < k {
      assert byAge[..k][i] == byAge[i];
    }
  }

  /** A file is evicted exactly if there is a limit, it can be removed, and the removable files before it in stable
      order of age do not make room for the new one; in particular none is when there is room. */
  lemma EvictedIff(files: seq<FileEntry>, maxSize: nat, newSize: nat, stuck: set<string>)
    requires Distinct(files)
    ensures var kept := Evict(files, maxSize, newSize, stuck);
      && (forall f :: f in kept <==> f in files && !Goes(files, maxSize, newSize, stuck, f))
      && (maxSize == 0xFFFF_FFFF_FFFF_FFFF || TotalSize(files) + newSize <= maxSize ==> kept == files)
  {
    if Limited(maxSize) && TotalSize(files) + newSize > maxSize {
      var byAge, k := EvictionIsShortestOldestPrefix(files, maxSize, newSize, stuck);
      DistinctPermutation(files, byAge);
      forall f | f in files ensures f in byAge[..k] && f.name !in stuck <==> Goes(files, maxSize, newSize, stuck, f) {
        var i :| 0 <= i < |byAge| && byAge[i] == f;
        FreedBefore(files, byAge, i, stuck);
        ExaminedIff(byAge, stuck, TotalSize(files) + newSize - maxSize, k, i);
        AmongFirst(byAge, k, i);
      }
    }
  }

  // Removing every file leaves none.
  lemma {:induction false} WithoutAll(files: seq<FileEntry>, byAge: seq<FileEntry>)
    requires forall f | f in files :: f in byAge
    ensures Without(files, Victims(byAge, {})) == []
  {
    if files != [] {
      assert files[0] in byAge;
      WithoutAll(files[1..], byAge);
    }
  }

  /** With every file removable, eviction makes room or leaves nothing. */
  lemma EvictionMakesRoom(files: seq<FileEntry>, maxSize: nat, newSize: nat)
    requires Distinct(files) && Limited(maxSize)
    ensures var kept := Evict(files, maxSize, newSize, {});
      Distinct(kept) && (kept == [] || TotalSize(kept) + newSize <= maxSize)
  {
    if TotalSize(files) + newSize > maxSize {
      var byAge := ByAge(files);
      var k := Examined(byAge, TotalSize(files) + newSize - maxSize, {}, 0);
      KeptPlusFreed(files, byAge, k, {});
      DistinctPermutation(files, byAge);
      if k == |byAge| {
        assert byAge[..k] == byAge;
        WithoutAll(files, byAge);
      }
    }
  }

  // ----- the writers -----

  function Put(files: seq<FileEntry>, name: string, data: Bytes, now: nat): seq<FileEntry> {
    Without(files, {name}) + [FileEntry(name, data, now)]
  }

  // What can go wrong: before eviction the directory is not created; after it the temp file is not created, or
  // cut short, or not renamed.
  datatype Fault = NoFault | NoDirectory | NotCreated | Torn(written: nat) | NotRenamed

  function WriteBlob(files: seq<FileEntry>, maxSize: nat, name: string, data: Bytes, now: nat,
                     stuck: set<string>, fault: Fault): (seq<FileEntry>, bool)
  {
    var kept := Evict(files, maxSize, |data|, stuck);
    match fault
    case NoDirectory => (files, false)
    case NotCreated => (kept, false)
    case Torn(n) => (Put(kept, TempName(name), if n <= |data| then data[..n] else data, now), false)
    case NotRenamed => (Put(kept, TempName(name), data, now), false)
    case NoFault => (Put(Without(kept, {TempName(name)}), name, data, now), true)
  }

  // What a reader yields: a piece, empty at the end, and where writing it failed if it did, or an error.
  datatype Piece = Piece(data: Bytes, failed: Option<nat>) | ReadError

  // What a streamed write meets.
  datatype StreamEnv = StreamEnv(dirOk: bool, createOk: bool, pieces: seq<Piece>, syncOk: bool, renameOk: bool)

  // The bytes in the temp file, up to the end of the stream or the first error.
  function CopyPieces(pieces: seq<Piece>): (Bytes, bool) {
    if pieces == [] then ([], true)
    else
      match pieces[0]
      case ReadError => ([], false)
      case Piece(data, failed) =>
        if data == [] then ([], true)
        else if failed.Some? then (if failed.value <= |data| then data[..failed.value] else data, false)
        else
          Prepended(data, CopyPieces(pieces[1..]))
  }

  predicate Copied(p: Piece) {
    p.Piece? && p.data != [] && p.failed.None?
  }

  function Joined(pieces: seq<Piece>): Bytes {
    if pieces == [] then [] else (if pieces[0].Piece? then pieces[0].data else []) + Joined(pieces[1..])
  }

  /** The temp file holds the pieces before the first that is empty, broken or not written in full, and of a piece
      whose write fails the bytes written before; copying succeeds if that one is empty or there is none. */
  lemma {:induction false} CopyInClosedForm(pieces: seq<Piece>, n: nat)
    requires n <= |pieces| && (forall i | 0 <= i < n :: Copied(pieces[i])) && (n < |pieces| ==> !Copied(pieces[n]))
    ensures var torn := if n < |pieces| && pieces[n].Piece? && pieces[n].failed.Some? then
                          pieces[n].data[..if pieces[n].failed.value < |pieces[n].data| then pieces[n].failed.value else |pieces[n].data|]
                        else [];
      CopyPieces(pieces) == (Joined(pieces[..n]) + torn, n == |pieces| || (pieces[n].Piece? && pieces[n].data == []))
  {
    if n > 0 {
      CopyInClosedForm(pieces[1..], n - 1);
      assert pieces[..n][1..] == pieces[1..][..n - 1];
      Regroup(pieces[0].data, Joined(pieces[1..][..n - 1]), CopyPieces(pieces[1..]).0[|Joined(pieces[1..][..n - 1])|..]);
    } else if pieces != [] {
      assert pieces[..0] == [] && [] + CopyPieces(pieces).0 == CopyPieces(pieces).0;
      if pieces[0].Piece? {
        assert pieces[0].data[..|pieces[0].data|] == pieces[0].data;
      }
    }
  }

  // The temp file is written first, so eviction counts it on disk and again as the bytes written.
  function WriteStream(files: seq<FileEntry>, maxSize: nat, name: string, env: StreamEnv, now: nat,
                       stuck: set<string>): (seq<FileEntry>, bool)
  {
    if !env.dirOk || !env.createOk then (files, false)
    else
      var temp := TempName(name);
      var (data, copied) := CopyPieces(env.pieces);
      var created := Put(files, temp, data, now);
      if !copied || !env.syncOk then (created, false)
      else
        var kept := if data == [] then created else Evict(created, maxSize, |data|, stuck);
        if FileEntry(temp, data, now) in kept && env.renameOk then (Put(Without(kept, {temp}), name, data, now), true)
        else (kept, false)
  }

  lemma {:induction false} TotalSizeAppend(files: seq<FileEntry>, f: FileEntry)
    ensures TotalSize(files + [f]) == TotalSize(files) + |f.data|
  {
    if files == [] {
      assert [] + [f] == [f];
    } else {
      assert (files + [f])[1..] == files[1..] + [f];
      TotalSizeAppend(files[1..], f);
    }
  }

  lemma {:induction false} WithoutShrinks(files: seq<FileEntry>, names: set<string>)
    ensures TotalSize(Without(files, names)) <= TotalSize(files)
  {
    if files != [] {
      WithoutShrinks(files[1..], names);
    }
  }

  lemma PutSize(files: seq<FileEntry>, name: string, data: Bytes, now: nat)
    requires Distinct(files)
    ensures Distinct(Put(files, name, data, now))
    ensures TotalSize(Put(files, name, data, now)) <= TotalSize(files) + |data|
    ensures TotalSize(Put(files, name, data, now)) == TotalSize(Without(files, {name})) + |data|
    ensures FileEntry(name, data, now) in Put(files, name, data, now)
  {
    TotalSizeAppend(Without(files, {name}), FileEntry(name, data, now));
    WithoutShrinks(files, {name});
  }

  lemma NothingWithout(names: set<string>)
    ensures Without([], names) == []
  {
  }

  // What a failed write leaves in its temp file, if it got as far as creating it.
  function LeftInTemp(fault: Fault, data: Bytes): Option<Bytes> {
    match fault
    case Torn(n) => Some(data[..if n < |data| then n else |data|])
    case NotRenamed => Some(data)
    case _ => None
  }

  /** What `write_blob` does to each file: nothing if the directory is not created; otherwise those that make room
      go, all others stay, and the blob, or after a failure its temp file, is there with the bytes written. */
  lemma WriteBlobFate(files: seq<FileEntry>, maxSize: nat, name: string, data: Bytes, now: nat, stuck: set<string>, fault: Fault)
    requires Distinct(files)
    ensures var (files', ok) := WriteBlob(files, maxSize, name, data, now, stuck, fault);
      var own := if ok then Some(FileEntry(name, data, now))
                 else if LeftInTemp(fault, data).Some? then Some(FileEntry(TempName(name), LeftInTemp(fault, data).value, now))
                 else None;
      && ok == fault.NoFault?
      && (fault.NoDirectory? ==> files' == files)
      && (!fault.NoDirectory? ==> forall f :: f in files' <==>
            || own == Some(f)
            || (f in files && !Goes(files, maxSize, |data|, stuck, f)
                && (own.Some? ==> f.name != own.value.name) && (ok ==> f.name != TempName(name))))
  {
    EvictedIff(files, maxSize, |data|, stuck);
    assert data[..|data|] == data;
    var kept, temp := Evict(files, maxSize, |data|, stuck), TempName(name);
    match fault
    case NoDirectory => {}
    case NotCreated => {}
    case Torn(n) => PutHas(kept, temp, data[..if n < |data| then n else |data|], now);
    case NotRenamed => PutHas(kept, temp, data, now);
    case NoFault => PutHas(Without(kept, {temp}), name, data, now);
  }

  lemma PutHas(files: seq<FileEntry>, name: string, data: Bytes, now: nat)
    ensures forall f :: f in Put(files, name, data, now) <==> f == FileEntry(name, data, now) || (f in files && f.name != name)
  {
  }

  // The temp file of a streamed write is complete.
  predicate Completes(env: StreamEnv) {
    env.dirOk && env.createOk && CopyPieces(env.pieces).1 && env.syncOk
  }

  /** And what `write_blob_stream` does, which evicts, if there are bytes, when its temp file is complete. */
  lemma WriteStreamFate(files: seq<FileEntry>, maxSize: nat, name: string, env: StreamEnv, now: nat, stuck: set<string>)
    requires Distinct(files)
    ensures var (files', ok) := WriteStream(files, maxSize, name, env, now, stuck);
      var data := CopyPieces(env.pieces).0;
      var temp := FileEntry(TempName(name), data, now);
      var created := Put(files, temp.name, data, now);
      var stays := (f: FileEntry) => f in created && (data == [] || !Goes(created, maxSize, |data|, stuck, f));
      && (ok <==> Completes(env) && stays(temp) && env.renameOk)
      && (!env.dirOk || !env.createOk ==> files' == files)
      && (env.dirOk && env.createOk && !Completes(env) ==>
            forall f :: f in files' <==> f == temp || (f in files && f.name != temp.name))
      && (Completes(env) && !ok ==> forall f :: f in files' <==> stays(f))
      && (ok ==> forall f :: f in files' <==>
            f == FileEntry(name, data, now) || (stays(f) && f.name != name && f.name != temp.name))
  {
    var data := CopyPieces(env.pieces).0;
    PutSize(files, TempName(name), data, now);
    EvictedIff(Put(files, TempName(name), data, now), maxSize, |data|, stuck);
  }

  // What is left of the directory after eviction and a temp file.
  lemma TempAfterEviction(files: seq<FileEntry>, maxSize: nat, name: string, data: Bytes, newSize: nat, now: nat)
    requires Distinct(files) && Limited(maxSize) && |data| <= newSize
    ensures var files' := Put(Evict(files, maxSize, newSize, {}), name, data, now);
      && Distinct(files')
      && (TotalSize(files') <= maxSize || (|files'| == 1 && TotalSize(files') == |data|))
  {
    EvictionMakesRoom(files, maxSize, newSize);
    var kept := Evict(files, maxSize, newSize, {});
    PutSize(kept, name, data, now);
    NothingWithout({name});
    TotalSizeAppend([], FileEntry(name, data, now));
  }

  // And after the rename that completes the write.
  lemma BlobAfterEviction(files: seq<FileEntry>, maxSize: nat, name: string, data: Bytes, now: nat)
    requires Distinct(files) && Limited(maxSize)
    ensures var files' := WriteBlob(files, maxSize, name, data, now, {}, NoFault).0;
      && Distinct(files') && FileEntry(name, data, now) in files'
      && (TotalSize(files') <= maxSize || (|files'| == 1 && TotalSize(files') == |data|))
      && |data| <= TotalSize(files')
  {
    EvictionMakesRoom(files, maxSize, |data|);
    var kept := Evict(files, maxSize, |data|, {});
    WithoutShrinks(kept, {TempName(name)});
    PutSize(Without(kept, {TempName(name)}), name, data, now);
    NothingWithout({TempName(name)});
    NothingWithout({name});
    TotalSizeAppend([], FileEntry(name, data, now));
  }

  /** After every `write_blob` that gets as far as the eviction the directory is within the limit or holds the
      new file alone; one that does not changes nothing; a completed write leaves the directory within the limit
      exactly when the blob by itself is. */
  lemma CapacityAfterWrite(files: seq<FileEntry>, maxSize: nat, name: string, data: Bytes, now: nat, fault: Fault)
    requires Distinct(files) && Limited(maxSize)
    ensures var (files', ok) := WriteBlob(files, maxSize, name, data, now, {}, fault);
      && Distinct(files')
      && (fault.NoDirectory? ==> files' == files)
      && (!fault.NoDirectory? ==> TotalSize(files') <= maxSize || (|files'| == 1 && TotalSize(files') <= |data|))
      && (ok <==> fault.NoFault?)
      && (ok ==> FileEntry(name, data, now) in files' && (TotalSize(files') <= maxSize <==> |data| <= maxSize))
  {
    match fault
    case NoDirectory => {}
    case NotCreated => EvictionMakesRoom(files, maxSize, |data|);
    case Torn(n) => TempAfterEviction(files, maxSize, TempName(name), if n <= |data| then data[..n] else data, |data|, now);
    case NotRenamed => TempAfterEviction(files, maxSize, TempName(name), data, |data|, now);
    case NoFault => BlobAfterEviction(files, maxSize, name, data, now);
  }

  datatype Write = Write(name: string, data: Bytes, now: nat, fault: Fault)

  function RunWrites(files: seq<FileEntry>, maxSize: nat, writes: seq<Write>): seq<FileEntry> {
    if writes == [] then files
    else
      var w := writes[|writes| - 1];
      WriteBlob(RunWrites(files, maxSize, writes[..|writes| - 1]), maxSize, w.name, w.data, w.now, {}, w.fault).0
  }

  // Some write of the run got as far as the eviction.
  predicate Reached(writes: seq<Write>) {
    exists w :: w in writes && !w.fault.NoDirectory?
  }

  /** Over whole runs: from any directory, once a write gets as far as the eviction, the limit holds after every
      write or one file is alone; and no 64-bit sum on the way can overflow when limit, start and blobs leave
      room for one more blob. */
  lemma {:induction false} CapacityOverRuns(files: seq<FileEntry>, maxSize: nat, writes: seq<Write>, largest: nat)
    requires Distinct(files) && Limited(maxSize)
    requires forall w | w in writes :: |w.data| <= largest
    requires TotalSize(files) + largest <= U64_MAX && maxSize + largest <= U64_MAX && 2 * largest <= U64_MAX
    ensures var after := RunWrites(files, maxSize, writes);
      && Distinct(after) && TotalSize(after) + largest <= U64_MAX
      && (Reached(writes) ==> TotalSize(after) <= maxSize || |after| == 1)
  {
    if writes != [] {
      var n := |writes| - 1;
      var front, w := writes[..n], writes[n];
      CapacityOverRuns(files, maxSize, front, largest);
      CapacityAfterWrite(RunWrites(files, maxSize, front), maxSize, w.name, w.data, w.now, w.fault);
      if Reached(writes) && w.fault.NoDirectory? {
        var v :| v in writes && !v.fault.NoDirectory?;
        assert v in front;
      }
    }
  }

  lemma OldestOrderEndsWith(files: seq<FileEntry>, newest: FileEntry)
    requires Distinct(files) && newest in files
    requires forall f | f in files && f != newest :: f.mtime < newest.mtime
    ensures ByAge(files) != [] && ByAge(files)[|ByAge(files)| - 1] == newest
  {
    var byAge := ByAge(files);
    ByAgeIsStable(files);
    DistinctPermutation(files, byAge);
    var i :| 0 <= i < |byAge| && byAge[i] == newest;
    var last := byAge[|byAge| - 1];
    assert last in files;
    assert i < |byAge| - 1 ==> OlderOrSame(byAge[i], last);
  }

  lemma AllFreed(files: seq<FileEntry>, byAge: seq<FileEntry>)
    requires Distinct(files) && multiset(byAge) == multiset(files)
    ensures Freed(byAge, {}) == TotalSize(files)
  {
    DistinctPermutation(files, byAge);
    KeptPlusFreed(files, byAge, |byAge|, {});
    assert byAge[..|byAge|] == byAge;
    WithoutAll(files, byAge);
  }

  // The newest file is examined last, after everything else has been freed.
  lemma NewestIsLast(files: seq<FileEntry>, newest: FileEntry)
    requires Distinct(files) && newest in files
    requires forall f | f in files && f != newest :: f.mtime < newest.mtime
    ensures var byAge := ByAge(files); var n := |byAge|;
      && n > 0 && byAge[n - 1] == newest
      && Freed(byAge, {}) == TotalSize(files)
      && Freed(byAge[..n - 1], {}) == TotalSize(files) - |newest.data|
  {
    OldestOrderEndsWith(files, newest);
    AllFreed(files, ByAge(files));
  }

  // Nothing fails while a streamed write copies its data.
  predicate Streams(env: StreamEnv, data: Bytes) {
    env.dirOk && env.createOk && CopyPieces(env.pieces) == (data, true) && env.syncOk && env.renameOk
  }

  /** A streamed write succeeds exactly when nothing fails and twice the size of the blob is within the limit,
      whatever else the directory holds; if the size alone is to blame, every file is evicted, the new one
      included. */
  lemma StreamPublishedIff(files: seq<FileEntry>, maxSize: nat, name: string, env: StreamEnv, now: nat)
    requires Distinct(files) && Limited(maxSize)
    requires forall f | f in files && f.name != TempName(name) :: f.mtime < now
    ensures var (files', published) := WriteStream(files, maxSize, name, env, now, {});
      var data := CopyPieces(env.pieces).0;
      && (published <==> Streams(env, data) && (2 * |data| <= maxSize || data == []))
      && (published ==> FileEntry(name, data, now) in files')
      && (!published && Streams(env, data) ==> files' == [])
  {
    var data := CopyPieces(env.pieces).0;
    var temp := FileEntry(TempName(name), data, now);
    PutSize(files, temp.name, data, now);
    var created := Put(files, temp.name, data, now);
    if data != [] {
      StreamEvicted(created, maxSize, temp);
    }
  }

  // Eviction for a temp file that is the newest and counted twice.
  lemma StreamEvicted(files: seq<FileEntry>, maxSize: nat, temp: FileEntry)
    requires Distinct(files) && Limited(maxSize) && temp in files && temp.data != []
    requires forall f | f in files && f != temp :: f.mtime < temp.mtime
    ensures var kept := Evict(files, maxSize, |temp.data|, {});
      if 2 * |temp.data| <= maxSize then temp in kept else kept == []
  {
    NewestIsLast(files, temp);
    if TotalSize(files) + |temp.data| > maxSize {
      var byAge := ByAge(files);
      var target := TotalSize(files) + |temp.data| - maxSize;
      var k := Examined(byAge, target, {}, 0);
      KeptPlusFreed(files, byAge, k, {});
      StreamEvictionFate(files, byAge, k, temp);
      if k < |byAge| {
        FreedGrows(byAge, {}, k, |byAge| - 1);
      }
    }
  }

  // The last file survives exactly when the loop stops before it; if not, nothing is left.
  lemma StreamEvictionFate(files: seq<FileEntry>, byAge: seq<FileEntry>, k: nat, last: FileEntry)
    requires Distinct(files) && multiset(byAge) == multiset(files)
    requires k <= |byAge| && |byAge| > 0 && byAge[|byAge| - 1] == last
    ensures var kept := Without(files, Victims(byAge[..k], {}));
      if k < |byAge| then last in kept else kept == []
  {
    DistinctPermutation(files, byAge);
    if k < |byAge| {
      forall f | f in byAge[..k] ensures f.name != last.name {
        var i :| 0 <= i < k && byAge[i] == f;
      }
    } else {
      assert byAge[..k] == byAge;
      WithoutAll(files, byAge);
    }
  }

  // ----- the directory as it is updated -----

  class BlobDirectory {
    const maxSize: nat
    var files: seq<FileEntry>

    constructor (maxSize: nat)
      ensures this.maxSize == maxSize && files == []
    {
      this.maxSize := maxSize;
      files := [];
    }

    ghost predicate Valid()
      reads this
    {
      Distinct(files)
    }

    method CalculateCacheSize() returns (totalSize: nat)
      ensures totalSize == TotalSize(files)
    {
      totalSize := 0;
      var i := 0;
      while i < |files|
        invariant i <= |files| && totalSize + TotalSize(files[i..]) == TotalSize(files)
      {
        totalSize := totalSize + |files[i].data|;
        i := i + 1;
      }
    }

    /** The eviction loop removes exactly the files `Evict` leaves out; `stuck` files resist removal. */
    method EvictIfNeeded(newSize: nat, stuck: set<string>)
      requires Valid() && TotalSize(files) + newSize <= U64_MAX
      modifies this`files
      ensures Valid() && files == Evict(old(files), maxSize, newSize, stuck)
      ensures forall f :: f in files <==> f in old(files) && !Goes(old(files), maxSize, newSize, stuck, f)
      ensures maxSize == U64_MAX || TotalSize(old(files)) + newSize <= maxSize ==> files == old(files)
    {
      ghost var before := files;
      MakeRoom(newSize, stuck);
      EvictedIff(before, maxSize, newSize, stuck);
    }

    method MakeRoom(newSize: nat, stuck: set<string>)
      requires Valid() && TotalSize(files) + newSize <= U64_MAX
      modifies this`files
      ensures Valid() && files == Evict(old(files), maxSize, newSize, stuck)
    {
      if maxSize == U64_MAX {
        return;
      }
      var currentSize := CalculateCacheSize();
      if currentSize + newSize <= maxSize {
        return;
      }
      EvictsOldest(files, maxSize, newSize, stuck);
      var blobs := ByAge(files);
      RemoveOldest(blobs, currentSize + newSize - maxSize, stuck);
    }

    // Remove files in the given order until enough bytes are freed.
    method RemoveOldest(blobs: seq<FileEntry>, targetFree: nat, stuck: set<string>)
      modifies this`files
      ensures files == Without(old(files), Victims(blobs[..Examined(blobs, targetFree, stuck, 0)], stuck))
    {
      var freedSize := 0;
      NoVictims(files, blobs, stuck);
      var i := 0;
      while i < |blobs| && freedSize < targetFree
        invariant i <= |blobs| && freedSize == Freed(blobs[..i], stuck)
        invariant Examined(blobs, targetFree, stuck, 0) == Examined(blobs, targetFree, stuck, i)
        invariant files == Without(old(files), Victims(blobs[..i], stuck))
      {
        var freed := RemoveOne(blobs, i, stuck, old(files));
        freedSize := freedSize + freed;
        i := i + 1;
      }
    }

    method RemoveOne(blobs: seq<FileEntry>, i: nat, stuck: set<string>, ghost start: seq<FileEntry>) returns (freed: nat)
      requires i < |blobs| && files == Without(start, Victims(blobs[..i], stuck))
      modifies this`files
      ensures files == Without(start, Victims(blobs[..i + 1], stuck))
      ensures Freed(blobs[..i + 1], stuck) == Freed(blobs[..i], stuck) + freed
    {
      VictimsOneMore(blobs, i, stuck);
      freed := 0;
      if blobs[i].name !in stuck {
        WithoutTwice(start, Victims(blobs[..i], stuck), {blobs[i].name});
        files := Without(files, {blobs[i].name});
        freed := |blobs[i].data|;
      }
    }

    method WriteTemp(name: string, data: Bytes, now: nat)
      modifies this`files
      ensures files == Put(old(files), name, data, now)
    {
      files := Without(files, {name}) + [FileEntry(name, data, now)];
    }

    // `rename` replaces whatever had the target name.
    method Rename(temp: string, name: string, data: Bytes, now: nat)
      modifies this`files
      ensures files == Put(Without(old(files), {temp}), name, data, now)
    {
      files := Without(files, {temp});
      files := Without(files, {name}) + [FileEntry(name, data, now)];
    }

    method WriteBlobFile(name: string, data: Bytes, now: nat, stuck: set<string>, fault: Fault) returns (ok: bool)
      requires Valid() && TotalSize(files) + |data| <= U64_MAX
      modifies this`files
      ensures Valid() && (files, ok) == WriteBlob(old(files), maxSize, name, data, now, stuck, fault)
      ensures forall f: FileEntry | f.name != name && f.name != TempName(name) ::
        f in files <==> f in old(files) && (fault.NoDirectory? || !Goes(old(files), maxSize, |data|, stuck, f))
    {
      WriteBlobFate(files, maxSize, name, data, now, stuck, fault);
      if fault.NoDirectory? {
        return false;
      }
      EvictIfNeeded(|data|, stuck);
      if fault.NotCreated? {
        return false;
      }
      var temp := TempName(name);
      ghost var kept := files;
      match fault {
        case Torn(n) =>
          PutSize(kept, temp, if n <= |data| then data[..n] else data, now);
          WriteTemp(temp, if n <= |data| then data[..n] else data, now);
          return false;
        case NotRenamed =>
          PutSize(kept, temp, data, now);
          WriteTemp(temp, data, now);
          return false;
        case NoFault =>
          PutSize(Without(kept, {temp}), name, data, now);
          WriteTemp(temp, data, now);
          PutThenWithout(kept, temp, data, now);
          Rename(temp, name, data, now);
          return true;
      }
    }

    // The copy loop: the pieces a reader yields, up to the first empty one, are appended to the temp file.
    method CopyToTemp(temp: string, pieces: seq<Piece>, now: nat) returns (content: Bytes, ok: bool)
      requires Valid()
      modifies this`files
      ensures (content, ok) == CopyPieces(pieces)
      ensures Valid() && files == Put(old(files), temp, content, now)
    {
      content, ok := [], true;
      WriteTemp(temp, content, now);
      NothingPrepended(pieces);
      var i, done := 0, false;
      while !done && i < |pieces|
        invariant i <= |pieces| && (!done ==> ok)
        invariant CopyPieces(pieces) == if done then (content, ok) else Prepended(content, CopyPieces(pieces[i..]))
        invariant files == Put(old(files), temp, content, now)
        decreases !done, |pieces| - i
      {
        CopyStep(content, pieces, i);
        if pieces[i].ReadError? {
          ok, done := false, true;
        } else if pieces[i].data == [] {
          done := true;
        } else {
          var data, failed := pieces[i].data, pieces[i].failed;
          var written := if failed.Some? && failed.value <= |data| then data[..failed.value] else data;
          PutTwice(old(files), temp, content, content + written, now);
          content := content + written;
          WriteTemp(temp, content, now);
          ok, done := failed.None?, failed.Some?;
          i := i + 1;
        }
      }
      PutSize(old(files), temp, content, now);
      assert content + [] == content;
    }

    // Eviction and rename, once the temp file is complete.
    method PublishTemp(temp: string, name: string, content: Bytes, now: nat, stuck: set<string>, renameOk: bool) returns (ok: bool)
      requires Valid() && TotalSize(files) + |content| <= U64_MAX
      modifies this`files
      ensures Valid()
      ensures var kept := if content == [] then old(files) else Evict(old(files), maxSize, |content|, stuck);
        (files, ok) == if FileEntry(temp, content, now) in kept && renameOk then (Put(Without(kept, {temp}), name, content, now), true)
                       else (kept, false)
    {
      if |content| > 0 {
        EvictIfNeeded(|content|, stuck);
      }
      ok := FileEntry(temp, content, now) in files && renameOk;
      if ok {
        PutSize(Without(files, {temp}), name, content, now);
        Rename(temp, name, content, now);
      }
    }

    /** `write_blob_stream`: copy, sync, evict, rename, with any of them failing. */
    method WriteBlobStream(name: string, env: StreamEnv, now: nat, stuck: set<string>) returns (ok: bool, written: nat)
      requires Valid()
      requires TotalSize(files) + 2 * |CopyPieces(env.pieces).0| <= U64_MAX
      modifies this`files
      ensures Valid() && (files, ok) == WriteStream(old(files), maxSize, name, env, now, stuck)
      ensures forall f: FileEntry | f.name != name && f.name != TempName(name) ::
        var data := CopyPieces(env.pieces).0;
        f in files <==>
          f in old(files) &&
          !(Completes(env) && data != [] && Goes(Put(old(files), TempName(name), data, now), maxSize, |data|, stuck, f))
      ensures ok ==> written == |CopyPieces(env.pieces).0|
    {
      WriteStreamFate(files, maxSize, name, env, now, stuck);
      if !env.dirOk || !env.createOk {
        return false, 0;
      }
      var content, copied := CopyToTemp(TempName(name), env.pieces, now);
      written := |content|;
      if !copied || !env.syncOk {
        return false, written;
      }
      PutSize(old(files), TempName(name), content, now);
      ok := PublishTemp(TempName(name), name, content, now, stuck, env.renameOk);
    }
  }

  function Prepended(content: Bytes, copied: (Bytes, bool)): (Bytes, bool) {
    (content + copied.0, copied.1)
  }

  lemma NothingPrepended(pieces: seq<Piece>)
    ensures CopyPieces(pieces) == Prepended([], CopyPieces(pieces[0..]))
  {
    assert pieces[0..] == pieces;
    assert [] + CopyPieces(pieces).0 == CopyPieces(pieces).0;
  }

  lemma CopyStep(content: Bytes, pieces: seq<Piece>, i: nat)
    requires i < |pieces|
    ensures Prepended(content, CopyPieces(pieces[i..])) ==
      match pieces[i]
      case ReadError => (content, false)
      case Piece(data, failed) =>
        if data == [] then (content, true)
        else if failed.Some? then (content + (if failed.value <= |data| then data[..failed.value] else data), false)
        else Prepended(content + data, CopyPieces(pieces[i + 1..]))
  {
    assert pieces[i..][0] == pieces[i] && pieces[i..][1..] == pieces[i + 1..];
    assert content + [] == content;
    if pieces[i].Piece? {
      Regroup(content, pieces[i].data, CopyPieces(pieces[i + 1..]).0);
    }
  }

  lemma {:induction false} WithoutTwice(files: seq<FileEntry>, a: set<string>, b: set<string>)
    ensures Without(Without(files, a), b) == Without(files, a + b)
  {
    if files != [] {
      WithoutTwice(files[1..], a, b);
    }
  }

  lemma {:induction false} WithoutOfAppend(files: seq<FileEntry>, f: FileEntry, names: set<string>)
    ensures Without(files + [f], names) == Without(files, names) + if f.name in names then [] else [f]
  {
    if files == [] {
      assert [] + [f] == [f];
    } else {
      assert (files + [f])[1..] == files[1..] + [f];
      WithoutOfAppend(files[1..], f, names);
    }
  }

  lemma PutThenWithout(files: seq<FileEntry>, name: string, data: Bytes, now: nat)
    ensures Without(Put(files, name, data, now), {name}) == Without(files, {name})
  {
    WithoutOfAppend(Without(files, {name}), FileEntry(name, data, now), {name});
    WithoutTwice(files, {name}, {name});
    assert {name} + {name} == {name};
  }

  lemma PutTwice(files: seq<FileEntry>, name: string, first: Bytes, second: Bytes, now: nat)
    ensures Put(Put(files, name, first, now), name, second, now) == Put(files, name, second, now)
  {
    PutThenWithout(files, name, first, now);
  }
}
