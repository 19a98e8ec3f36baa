/**
 The blob half of `CacheStorage`: published blobs and temp files, committing a temp file on either
 backend, and `get_blob` as it updates them.
 */
module BlobCache {
  import opened Wrappers
  import opened Text
  import opened Ranges
  import opened BlobDownload
  import opened BlobFiles

  const MULTIPART_MIN_PART_SIZE: nat := 5 * 1024 * 1024
  const MULTIPART_CHUNK_SIZE: nat := 8 * 1024 * 1024

  // One read of the temp file during a multipart upload: at most `want` bytes, or an error.
  datatype Read = Want(want: nat) | ReadError

  // The outcome of every step of a commit.  Reads and parts past the listed ones succeed in full.
  datatype CommitEnv = CommitEnv(
    dirOk: bool, renameOk: bool,
    statOk: bool, readAllOk: bool, putOk: bool,
    startOk: bool, openOk: bool, chunks: seq<Read>, parts: seq<bool>, completeOk: bool,
    removeOk: bool)

  predicate CleanCommit(env: CommitEnv) {
    && env.dirOk && env.renameOk && env.statOk && env.readAllOk && env.putOk
    && env.startOk && env.openOk && env.completeOk
    && (forall i | 0 <= i < |env.chunks| :: env.chunks[i].Want? && env.chunks[i].want > 0)
    && (forall i | 0 <= i < |env.parts| :: env.parts[i])
  }

  predicate PartSucceeds(env: CommitEnv, k: nat) {
    (k < |env.chunks| ==> env.chunks[k].Want? && env.chunks[k].want > 0) && (k < |env.parts| ==> env.parts[k])
  }

  // No step an upload of a file of this size cannot do without fails: one put below 5 MiB, and otherwise at least
  // every part of 8 MiB and the completion.
  predicate Uploads(env: CommitEnv, size: nat) {
    && env.statOk
    && (if size < 5_242_880 then env.readAllOk && env.putOk
        else env.startOk && env.openOk && env.completeOk && forall k | 0 <= k < size && k * 8_388_608 < size :: PartSucceeds(env, k))
  }

  class BlobCache {
    const hash: Bytes -> string
    const backend: Backend
    // The local directory, by file name, and the object store, by digest without its "sha256:" prefix.
    var files: map<string, Bytes>
    var objects: map<string, Bytes>

    constructor (hash: Bytes -> string, backend: Backend)
      ensures this.hash == hash && View() == Store(backend, map[], map[])
    {
      this.hash := hash;
      this.backend := backend;
      files := map[];
      objects := map[];
    }

    function View(): Store
      reads this
    {
      Store(backend, files, objects)
    }

    // `object_put_file`: one put for a small file, otherwise parts of whatever each read returned.
    method ObjectPutFile(name: string, file: Bytes, env: CommitEnv) returns (ok: bool)
      modifies this`objects
      ensures objects == if ok then old(objects)[name := file] else old(objects)
      ensures CleanCommit(env) ==> ok
      ensures ok ==> Uploads(env, |file|)
    {
      var size := |file|;
      if !env.statOk {
        return false;
      }
      if size < MULTIPART_MIN_PART_SIZE {
        if !env.readAllOk || !env.putOk {
          return false;
        }
        objects := objects[name := file];
        return true;
      }
      if !env.startOk || !env.openOk {
        return false;
      }
      var uploaded: Bytes := [];
      var written := 0;
      var k := 0;
      var eof := false;
      while !eof
        invariant written == |uploaded| <= size && uploaded == file[..written]
        invariant eof && CleanCommit(env) ==> written == size
        invariant written <= k * MULTIPART_CHUNK_SIZE
        invariant forall j | 0 <= j < k :: PartSucceeds(env, j)
        decreases !eof, size - written
      {
        if k < |env.chunks| && env.chunks[k].ReadError? {
          return false;
        }
        var n := size - written;
        if MULTIPART_CHUNK_SIZE < n {
          n := MULTIPART_CHUNK_SIZE;
        }
        if k < |env.chunks| && env.chunks[k].want < n {
          n := env.chunks[k].want;
        }
        if n == 0 {
          eof := true;
        } else {
          if k < |env.parts| && !env.parts[k] {
            return false;  // aborted
          }
          uploaded := uploaded + file[written..written + n];
          written := written + n;
          k := k + 1;
        }
      }
      if written != size {
        return false;  // aborted
      }
      if !env.completeOk {
        return false;  // aborted
      }
      objects := objects[name := uploaded];
      assert uploaded == file;
      return true;
    }

    /** A commit publishes exactly the temp file's bytes or changes nothing, on either backend, for any pattern
        of short reads, and whatever the two names. */
    method CommitFromTemp(temp: string, name: string, env: CommitEnv) returns (commit: Commit)
      requires temp in files
      modifies this
      ensures commit == Refused ==> View() == old(View())
      ensures commit == Moved ==> View() == WithBlob(WithTemp(old(View()), temp, None), name, old(At(files, temp)))
      ensures commit == Copied ==> backend.ObjectStore? && View() == WithBlob(old(View()), name, old(At(files, temp)))
      ensures CleanCommit(env) ==> commit != Refused
      ensures backend.Filesystem? ==> (commit == Refused <==> !env.dirOk || !env.renameOk)
      ensures backend.ObjectStore? && commit != Refused ==> Uploads(env, |old(files[temp])|) && (commit == Moved <==> env.removeOk)
    {
      match backend {
        case Filesystem =>
          if !env.dirOk || !env.renameOk {
            return Refused;
          }
          files := (files - {temp})[name := files[temp]];
          return Moved;
        case ObjectStore =>
          var ok := ObjectPutFile(name, files[temp], env);
          if !ok {
            return Refused;
          }
          if env.removeOk {
            files := files - {temp};
            return Moved;
          }
          return Copied;
      }
    }

    method RemoveTemp(temp: string, ok: bool)
      requires temp in files
      modifies this`files
      ensures files == Put(old(files), temp, RemoveIf(old(At(files, temp)), ok))
    {
      if ok {
        files := files - {temp};
      } else {
        assert files[temp := files[temp]] == files;
      }
    }

    // The streaming task: every chunk is hashed, written while the writer lives, and passed on.
    method StreamToTemp(temp: string, start: Stream, events: seq<StreamEvent>) returns (s: Stream, end: End)
      requires start.alive ==> At(files, temp) == Some(start.file)
      modifies this`files
      ensures (s, end) == Consume(start, events)
      ensures files == if start.alive then old(files)[temp := s.file] else old(files)
    {
      var file, hasher, totalBytes, writer := start.file, start.hashed, start.total, start.alive;
      end := Exhausted;
      var i := 0;
      while i < |events| && end == Exhausted
        invariant i <= |events|
        invariant end == Exhausted ==> Consume(start, events) == Consume(Stream(file, hasher, totalBytes, writer), events[i..])
        invariant end != Exhausted ==> Consume(start, events) == (Stream(file, hasher, totalBytes, writer), end)
        invariant writer ==> start.alive
        invariant files == if start.alive then old(files)[temp := file] else old(files)
        decreases end == Exhausted, |events| - i
      {
        match events[i] {
          case Broken =>
            end := Failed;
          case Chunk(data, write, clientGone) =>
            totalBytes := totalBytes + |data|;
            hasher := hasher + data;
            if writer {
              file := file + (if write.Written? then data else Take(data, write.partial));
              files := files[temp := file];
              if !write.Written? {
                writer := false;
              }
            }
            if clientGone {
              end := Disconnected;
            }
            i := i + 1;
        }
      }
      s := Stream(file, hasher, totalBytes, writer);
    }

    // The resume decision: where the download really starts, and the hasher's state there.
    method OpenForDownload(temp: string, env: Env, ghost slot: Slot) returns (start: Stream)
      requires env.reply.Some? && IsSuccess(env.reply.value.status)
      requires slot.temp == At(files, temp)
      modifies this`files
      ensures start == OpenStream(slot, env)
      ensures start.alive ==> files == old(files)[temp := start.file]
      ensures !start.alive ==> files == Put(old(files), temp, Kept(slot, env))
    {
      var resumePosition: Option<nat> := None;
      var existingHash: Bytes := [];
      if temp in files && env.statOk && |files[temp]| > 0 {
        resumePosition := Some(|files[temp]|);
        if env.readOk {
          existingHash := files[temp];
        }
      }
      var reply := env.reply.value;
      if resumePosition.Some? && !(reply.status == 206 && ResumeStart(reply.contentRange) == resumePosition) {
        RemoveTemp(temp, env.restartRemoveOk);
        existingHash := [];
        resumePosition := None;
      }
      var base: Bytes := [];
      var totalBytes := 0;
      if resumePosition.Some? {
        base := files[temp];
        totalBytes := resumePosition.value;
      }
      if env.openOk {
        files := files[temp := base];
      }
      start := Stream(base, existingHash, totalBytes, env.openOk);
    }

    // Sync, verify and commit.
    method VerifyAndCommit(temp: string, name: string, digest: string, s: Stream, env: Env, commitEnv: CommitEnv, ghost blob: Option<Bytes>)
      returns (outcome: Outcome, ghost commit: Commit)
      requires env.reply.Some? && temp in files
      modifies this
      ensures var (slot, o) := Finish(hash, digest, Slot(old(At(files, temp)), blob), s, env, commit);
        outcome == o && View() == AfterAttempt(old(View()), temp, name, slot, outcome)
      ensures backend.Filesystem? ==> commit != Copied
      ensures CleanCommit(commitEnv) ==> commit != Refused
    {
      commit := Moved;
      var length := env.reply.value.contentLength;
      var sizeOk := length.None? || s.total == length.value;
      if env.syncOk && sizeOk && hash(s.hashed) == digest {
        var c := CommitFromTemp(temp, name, commitEnv);
        commit := c;
        if c == Refused {
          outcome := CommitFailed;
          RemoveTemp(temp, env.cleanupOk);
        } else {
          outcome := Committed;
          assert old(files)[temp := old(files)[temp]] == old(files);
        }
      } else {
        outcome := Discarded;
        RemoveTemp(temp, env.cleanupOk);
      }
    }

    // The streaming of an accepted reply: the temp file is as the stream leaves it.
    method StreamReply(temp: string, env: Env, ghost slot: Slot) returns (s: Stream, end: End)
      requires env.reply.Some? && IsSuccess(env.reply.value.status)
      requires slot.temp == At(files, temp)
      modifies this`files
      ensures (s, end) == Consume(OpenStream(slot, env), env.reply.value.events)
      ensures files == Put(old(files), temp, if env.openOk then Some(s.file) else Kept(slot, env))
    {
      var start := OpenForDownload(temp, env, slot);
      s, end := StreamToTemp(temp, start, env.reply.value.events);
    }

    // A cache miss: one download attempt.
    method Download(temp: string, name: string, digest: string, env: Env, commitEnv: CommitEnv)
      returns (outcome: Outcome, ghost commit: Commit)
      modifies this
      ensures var (slot, o) := Attempt(hash, digest, old(SlotOf(View(), temp, name)), env, commit);
        outcome == o && View() == AfterAttempt(old(View()), temp, name, slot, outcome)
      ensures backend.Filesystem? ==> commit != Copied
      ensures CleanCommit(commitEnv) ==> commit != Refused
    {
      commit := Moved;
      PutBack(files, temp);
      if env.reply.None? {
        outcome := NoReply;
      } else if !IsSuccess(env.reply.value.status) {
        outcome := Rejected(env.reply.value.status);
      } else {
        outcome, commit := DownloadReply(temp, name, digest, env, commitEnv);
      }
    }

    method DownloadReply(temp: string, name: string, digest: string, env: Env, commitEnv: CommitEnv)
      returns (outcome: Outcome, ghost commit: Commit)
      requires env.reply.Some? && IsSuccess(env.reply.value.status)
      modifies this
      ensures var (slot, o) := Attempt(hash, digest, old(SlotOf(View(), temp, name)), env, commit);
        outcome == o && View() == AfterAttempt(old(View()), temp, name, slot, outcome)
      ensures backend.Filesystem? ==> commit != Copied
      ensures CleanCommit(commitEnv) ==> commit != Refused
    {
      commit := Moved;
      ghost var before := SlotOf(View(), temp, name);
      var s, end := StreamReply(temp, env, before);
      if end == Failed {
        outcome := StreamFailed;
      } else if !s.alive {
        outcome := Uncached;
      } else {
        ConsumeInClosedForm(OpenStream(before, env), env.reply.value.events);
        outcome, commit := VerifyAndCommit(temp, name, digest, s, env, commitEnv, before.blob);
        AgainAfter(old(View()), temp, s.file, name, Finish(hash, digest, Slot(Some(s.file), before.blob), s, env, commit).0, outcome);
      }
      AcceptedAttempt(hash, digest, before, env, commit, s, end);
    }

    /** `get_blob`: a hit is served and changes nothing; a miss, or a blob that cannot be opened, runs one download
        attempt on this digest's temp file and blob, whatever their names, and touches no other file. */
    method GetBlob(digest: string, range: Option<BlobByteRange>, opens: bool, env: Env, commitEnv: CommitEnv)
      returns (hit: Option<CachedBlob>, outcome: Outcome, ghost commit: Commit)
      modifies this
      ensures hit == if opens then OpenBlob(BlobAt(old(View()), StripSha(digest)), range) else None
      ensures View() == GetIn(hash, old(View()), Request(digest, Get(range, opens, env, commit)))
      ensures hit.None? ==> outcome == Attempt(hash, digest, SlotIn(old(View()), StripSha(digest)), env, commit).1
      ensures Possible(backend, Request(digest, Get(range, opens, env, commit)))
      ensures CleanCommit(commitEnv) ==> commit != Refused
    {
      var name := StripSha(digest);
      outcome, commit := NoReply, Moved;
      hit := if opens then OpenBlob(At(if backend.Filesystem? then files else objects, name), range) else None;
      if hit.None? {
        outcome, commit := Download(TempName(name), name, digest, env, commitEnv);
      }
    }
  }

  // What a stream that could not be opened leaves of the temp file.
  function Kept(slot: Slot, env: Env): Option<Bytes>
    requires env.reply.Some?
  {
    if ResumePosition(slot, env).Some? && ResumedFrom(slot, env).None? then RemoveIf(slot.temp, env.restartRemoveOk)
    else slot.temp
  }

  lemma AcceptedAttempt(hash: Bytes -> string, digest: string, slot: Slot, env: Env, commit: Commit, s: Stream, end: End)
    requires env.reply.Some? && IsSuccess(env.reply.value.status)
    requires (s, end) == Consume(OpenStream(slot, env), env.reply.value.events)
    ensures var streamed := Slot(if env.openOk then Some(s.file) else Kept(slot, env), slot.blob);
      Attempt(hash, digest, slot, env, commit) ==
        if end == Failed then (streamed, StreamFailed)
        else if !s.alive then (streamed, Uncached)
        else Finish(hash, digest, streamed, s, env, commit)
  {
  }

  lemma PutBack(files: map<string, Bytes>, temp: string)
    ensures Put(files, temp, At(files, temp)) == files
  {
  }

  // The temp file is overwritten, so what it held in between does not matter.
  lemma AgainAfter(st: Store, temp: string, file: Bytes, name: string, slot: Slot, outcome: Outcome)
    ensures AfterAttempt(WithTemp(st, temp, Some(file)), temp, name, slot, outcome) == AfterAttempt(st, temp, name, slot, outcome)
  {
    assert Put(Put(st.files, temp, Some(file)), temp, slot.temp) == Put(st.files, temp, slot.temp);
  }
}
