/**
 The download of a blob on a cache miss (`get_blob` after `open_blob` found nothing): resume decision,
 streaming into the temp file, verification and commit.  Attempts for one digest share one temp file;
 they are modelled one at a time, which is the hypothesis every result here rests on.
 */
module BlobDownload {
  import opened Wrappers
  import opened Text
  import opened Ranges

  // ----- what one attempt meets: the upstream reply and the outcome of every file operation -----

  // How far `write_all` got with a chunk.
  datatype Write = Written | Torn(partial: nat)

  datatype StreamEvent =
    | Chunk(data: Bytes, write: Write, clientGone: bool)
    | Broken

  datatype Reply = Reply(
    status: nat, contentRange: Option<string>, contentLength: Option<nat>, events: seq<StreamEvent>)

  // `None` as a reply: no mirror answered, or authentication failed.
  datatype Env = Env(
    statOk: bool, readOk: bool, reply: Option<Reply>, restartRemoveOk: bool,
    openOk: bool, syncOk: bool, cleanupOk: bool)

  predicate IsSuccess(status: nat) {
    200 <= status < 300
  }

  // ----- streaming -----

  // The temp file, the bytes the hasher has absorbed, the byte count, and whether the writer is alive.
  datatype Stream = Stream(file: Bytes, hashed: Bytes, total: nat, alive: bool)

  datatype End = Exhausted | Disconnected | Failed

  function Take(data: Bytes, n: nat): Bytes {
    if n <= |data| then data[..n] else data
  }

  function Absorb(s: Stream, data: Bytes, write: Write): Stream {
    var file' :=
      if !s.alive then s.file
      else if write.Written? then s.file + data
      else s.file + Take(data, write.partial);
    Stream(file', s.hashed + data, s.total + |data|, s.alive && write.Written?)
  }

  // The stream's fate as one fold over its events.
  function Consume(s: Stream, events: seq<StreamEvent>): (Stream, End)
    decreases |events|
  {
    if events == [] then (s, Exhausted)
    else
      match events[0]
      case Broken => (s, Failed)
      case Chunk(data, write, clientGone) =>
        var s' := Absorb(s, data, write);
        if clientGone then (s', Disconnected) else Consume(s', events[1..])
  }

  // The bytes that reach pulld, by position rather than by step.
  function Received(events: seq<StreamEvent>): Bytes
    decreases |events|
  {
    if events == [] || events[0].Broken? then []
    else if events[0].clientGone then events[0].data
    else events[0].data + Received(events[1..])
  }

  function EndOf(events: seq<StreamEvent>): End
    decreases |events|
  {
    if events == [] then Exhausted
    else if events[0].Broken? then Failed
    else if events[0].clientGone then Disconnected
    else EndOf(events[1..])
  }

  // No write fails before the stream ends.
  predicate AllWritten(events: seq<StreamEvent>)
    decreases |events|
  {
    events == [] || events[0].Broken?
    || (events[0].write.Written? && (events[0].clientGone || AllWritten(events[1..])))
  }

  lemma PrefixGrows(a: Bytes, b: Bytes, c: Bytes)
    requires a <= b
    ensures a <= b + c
  {
  }

  /** While the writer is alive, file, hasher and counter all grow by exactly the bytes received; a torn
      write leaves the file at some prefix of them. */
  lemma {:induction false} ConsumeInClosedForm(s: Stream, events: seq<StreamEvent>)
    ensures var (r, end) := Consume(s, events);
      && end == EndOf(events)
      && r.hashed == s.hashed + Received(events)
      && r.total == s.total + |Received(events)|
      && (r.alive <==> s.alive && AllWritten(events))
      && (r.alive ==> r.file == s.file + Received(events))
      && s.file <= r.file <= s.file + Received(events)
      && (!s.alive ==> r.file == s.file)
    decreases |events|
  {
    if events != [] && events[0].Chunk? {
      var e := events[0];
      var s' := Absorb(s, e.data, e.write);
      assert s.file <= s'.file <= s.file + e.data;
      if !e.clientGone {
        ConsumeInClosedForm(s', events[1..]);
        var rest := Received(events[1..]);
        Regroup(s.hashed, e.data, rest);
        Regroup(s.file, e.data, rest);
        if !s'.alive {
          PrefixGrows(s'.file, s.file + e.data, rest);
        }
      }
    }
  }

  // ----- one attempt, for one digest -----

  // The temp file and the published blob of a digest.
  datatype Slot = Slot(temp: Option<Bytes>, blob: Option<Bytes>)

  // A commit that copies may fail to remove the temp file afterwards.
  datatype Commit = Refused | Moved | Copied

  datatype Outcome =
    | NoReply
    | Rejected(status: nat)
    | StreamFailed
    | Uncached        // the writer died: nothing is verified and the temp file stays
    | Discarded       // sync or verification failed
    | CommitFailed
    | Committed

  function ResumePosition(slot: Slot, env: Env): Option<nat> {
    if slot.temp.Some? && env.statOk && |slot.temp.value| > 0 then Some(|slot.temp.value|) else None
  }

  // The position really resumed from: a 206 whose Content-Range starts there.
  function ResumedFrom(slot: Slot, env: Env): Option<nat>
    requires env.reply.Some?
  {
    var pos := ResumePosition(slot, env);
    if pos.Some? && env.reply.value.status == 206 && ResumeStart(env.reply.value.contentRange) == pos then pos
    else None
  }

  function RemoveIf(temp: Option<Bytes>, ok: bool): Option<Bytes> {
    if ok then None else temp
  }

  // The stream as it starts: the file opened for append, or created empty, or not opened at all.
  function OpenStream(slot: Slot, env: Env): Stream
    requires env.reply.Some?
  {
    var resumed := ResumedFrom(slot, env);
    var base := if resumed.Some? then slot.temp.value else [];
    Stream(base, if env.readOk then base else [], if resumed.Some? then resumed.value else 0, env.openOk)
  }

  // What becomes of a stream that ended without an error and whose writer survived.
  function Finish(hash: Bytes -> string, digest: string, slot: Slot, s: Stream, env: Env, commit: Commit): (Slot, Outcome)
    requires env.reply.Some?
  {
    var length := env.reply.value.contentLength;
    if env.syncOk && hash(s.hashed) == digest && (length.None? || length.value == s.total) then
      match commit
      case Refused => (Slot(RemoveIf(slot.temp, env.cleanupOk), slot.blob), CommitFailed)
      case Moved => (Slot(None, slot.temp), Committed)
      case Copied => (Slot(slot.temp, slot.temp), Committed)
    else
      (Slot(RemoveIf(slot.temp, env.cleanupOk), slot.blob), Discarded)
  }

  function Attempt(hash: Bytes -> string, digest: string, slot: Slot, env: Env, commit: Commit): (Slot, Outcome)
  {
    if env.reply.None? then (slot, NoReply)
    else if !IsSuccess(env.reply.value.status) then (slot, Rejected(env.reply.value.status))
    else
      var restarted := ResumePosition(slot, env).Some? && ResumedFrom(slot, env).None?;
      var kept := if restarted then RemoveIf(slot.temp, env.restartRemoveOk) else slot.temp;
      var (s, end) := Consume(OpenStream(slot, env), env.reply.value.events);
      var streamed := Slot(if env.openOk then Some(s.file) else kept, slot.blob);
      if end == Failed then (streamed, StreamFailed)
      else if !s.alive then (streamed, Uncached)
      else Finish(hash, digest, streamed, s, env, commit)
  }

  // The bytes the client is sent on this miss.
  function SentToClient(env: Env): Bytes {
    if env.reply.Some? && IsSuccess(env.reply.value.status) then Received(env.reply.value.events) else []
  }

  // ----- commit safety -----

  predicate Safe(hash: Bytes -> string, digest: string, slot: Slot) {
    slot.blob.Some? ==> hash(slot.blob.value) == digest
  }

  // What the attempt would publish: the bytes resumed from, then the bytes received.
  function Assembled(slot: Slot, env: Env): Bytes
    requires env.reply.Some?
  {
    (if ResumedFrom(slot, env).Some? then slot.temp.value else []) + Received(env.reply.value.events)
  }

  /** An accepted reply reaches the commit exactly when the file could be opened, no write failed, the
      stream did not break, the sync succeeded, the hash matches, and Content-Length is absent or equals
      the resume offset plus the bytes received; and then the assembled bytes are what is published. */
  lemma CommitConditionIsExact(hash: Bytes -> string, digest: string, slot: Slot, env: Env, commit: Commit)
    requires env.reply.Some? && IsSuccess(env.reply.value.status)
    ensures var events := env.reply.value.events;
      var length := env.reply.value.contentLength;
      var all := Assembled(slot, env);
      var hashed := if env.readOk then all else Received(events);
      var (slot', outcome) := Attempt(hash, digest, slot, env, commit);
      && ((outcome.Committed? || outcome.CommitFailed?) <==>
            && env.openOk && AllWritten(events) && EndOf(events) != Failed && env.syncOk
            && hash(hashed) == digest && (length.None? || length.value == |all|))
      && (outcome.Committed? ==> slot'.blob == Some(all))
      && (!outcome.Committed? ==> slot'.blob == slot.blob)
  {
    assert [] + Received(env.reply.value.events) == Received(env.reply.value.events);
    ConsumeInClosedForm(OpenStream(slot, env), env.reply.value.events);
  }

  /** What was received is put behind the temp file only if that is not empty and the reply is a 206 whose range starts
      where it ends; otherwise the download starts over. */
  lemma AppendedIff(slot: Slot, env: Env)
    requires env.reply.Some?
    ensures var continued := slot.temp.Some? && env.statOk && |slot.temp.value| > 0 && env.reply.value.status == 206
                             && ResumeStart(env.reply.value.contentRange) == Some(|slot.temp.value|);
      Assembled(slot, env) == (if continued then slot.temp.value else []) + Received(env.reply.value.events)
  {
  }

  // What an accepted reply brings passes the checks before the commit.
  predicate Verifies(hash: Bytes -> string, digest: string, slot: Slot, env: Env)
    requires env.reply.Some?
  {
    var length := env.reply.value.contentLength;
    && env.syncOk
    && hash(if env.readOk then Assembled(slot, env) else Received(env.reply.value.events)) == digest
    && (length.None? || length.value == |Assembled(slot, env)|)
  }

  /** How an attempt ends, from the reply and the faults alone. */
  lemma OutcomeIsExact(hash: Bytes -> string, digest: string, slot: Slot, env: Env, commit: Commit)
    ensures var outcome := Attempt(hash, digest, slot, env, commit).1;
      if env.reply.None? then outcome == NoReply
      else if !(200 <= env.reply.value.status < 300) then outcome == Rejected(env.reply.value.status)
      else
        var events := env.reply.value.events;
        && (outcome == StreamFailed <==> EndOf(events) == Failed)
        && (outcome == Uncached <==> EndOf(events) != Failed && !(env.openOk && AllWritten(events)))
        && (EndOf(events) != Failed && env.openOk && AllWritten(events) ==>
              outcome == if !Verifies(hash, digest, slot, env) then Discarded else if commit == Refused then CommitFailed else Committed)
  {
    if env.reply.Some? && IsSuccess(env.reply.value.status) {
      ConsumeInClosedForm(OpenStream(slot, env), env.reply.value.events);
      assert [] + Received(env.reply.value.events) == Received(env.reply.value.events);
    }
  }

  /** And what it leaves of the temp file: nothing is touched without an accepted reply; a verified file is moved, or
      left if it was copied; one that fails to verify or to be committed is removed, if that works; and a stream
      that breaks or cannot be written keeps what was resumed and what could be written. */
  lemma TempIsExact(hash: Bytes -> string, digest: string, slot: Slot, env: Env, commit: Commit)
    ensures var (slot', outcome) := Attempt(hash, digest, slot, env, commit);
      match outcome
      case NoReply => slot' == slot
      case Rejected(_) => slot' == slot
      case Committed => slot'.temp == if commit == Moved then None else Some(Assembled(slot, env))
      case CommitFailed => slot'.temp == if env.cleanupOk then None else Some(Assembled(slot, env))
      case Discarded => slot'.temp == if env.cleanupOk then None else Some(Assembled(slot, env))
      case _ =>
        var base := if ResumedFrom(slot, env).Some? then slot.temp.value else [];
        if env.openOk then
          && slot'.temp.Some? && base <= slot'.temp.value <= Assembled(slot, env)
          && (AllWritten(env.reply.value.events) ==> slot'.temp.value == Assembled(slot, env))
        else
          slot'.temp == if ResumePosition(slot, env).Some? && ResumedFrom(slot, env).None? && env.restartRemoveOk then None else slot.temp
  {
    if env.reply.Some? && IsSuccess(env.reply.value.status) {
      ConsumeInClosedForm(OpenStream(slot, env), env.reply.value.events);
    }
  }

  /** So a body that is received in full but is not the blob's is not resumed by the next GET. */
  lemma CorruptBodyIsNotResumed(hash: Bytes -> string, digest: string, slot: Slot, env: Env, commit: Commit, next: Env)
    requires env.reply.Some? && IsSuccess(env.reply.value.status) && EndOf(env.reply.value.events) == Exhausted
    requires env.openOk && AllWritten(env.reply.value.events) && env.readOk && env.cleanupOk
    requires hash(Assembled(slot, env)) != digest
    ensures var slot' := Attempt(hash, digest, slot, env, commit).0;
      slot'.temp == None && slot'.blob == slot.blob && ResumePosition(slot', next).None?
  {
    OutcomeIsExact(hash, digest, slot, env, commit);
    TempIsExact(hash, digest, slot, env, commit);
    CommitConditionIsExact(hash, digest, slot, env, commit);
  }

  /** While the writer is alive, what the hasher absorbed is what the temp file holds. */
  lemma HasherMatchesFile(slot: Slot, env: Env)
    requires env.reply.Some? && env.readOk
    ensures var s := Consume(OpenStream(slot, env), env.reply.value.events).0;
      s.alive ==> s.hashed == s.file == Assembled(slot, env)
  {
    ConsumeInClosedForm(OpenStream(slot, env), env.reply.value.events);
  }

  lemma AttemptIsSafe(hash: Bytes -> string, digest: string, slot: Slot, env: Env, commit: Commit)
    requires Safe(hash, digest, slot) && env.readOk
    ensures Safe(hash, digest, Attempt(hash, digest, slot, env, commit).0)
  {
    if env.reply.Some? && IsSuccess(env.reply.value.status) {
      CommitConditionIsExact(hash, digest, slot, env, commit);
    }
  }

  /** What a commit publishes has the digest exactly when the resumed part was hashed, or there was none. */
  lemma CommittedBytesSafeIff(hash: Bytes -> string, digest: string, slot: Slot, env: Env, commit: Commit)
    requires Attempt(hash, digest, slot, env, commit).1 == Committed
    requires forall x, y | hash(x) == digest && hash(y) == digest :: x == y
    ensures Safe(hash, digest, Attempt(hash, digest, slot, env, commit).0) <==> env.readOk || ResumedFrom(slot, env).None?
  {
    CommitConditionIsExact(hash, digest, slot, env, commit);
    assert [] + Received(env.reply.value.events) == Received(env.reply.value.events);
    if !env.readOk && ResumedFrom(slot, env).Some? {
      assert |Assembled(slot, env)| > |Received(env.reply.value.events)|;
    }
  }

  // A GET for the digest: a hit changes nothing, anything else, such as a blob that cannot be opened, is a
  // download attempt.
  datatype Get = Get(range: Option<BlobByteRange>, opens: bool, env: Env, commit: Commit)

  function GetStep(hash: Bytes -> string, digest: string, slot: Slot, get: Get): Slot {
    if get.opens && OpenBlob(slot.blob, get.range).Some? then slot
    else Attempt(hash, digest, slot, get.env, get.commit).0
  }

  function RunGets(hash: Bytes -> string, digest: string, slot: Slot, gets: seq<Get>): Slot
    decreases |gets|
  {
    if gets == [] then slot else RunGets(hash, digest, GetStep(hash, digest, slot, gets[0]), gets[1..])
  }

  /** Over every run of GETs, whatever the leftover temp file, the upstream's replies and the failures:
      a published blob hashes to its digest, provided partial files can be read back. */
  lemma {:induction false} RunsAreSafe(hash: Bytes -> string, digest: string, slot: Slot, gets: seq<Get>)
    requires Safe(hash, digest, slot)
    requires forall i | 0 <= i < |gets| :: gets[i].env.readOk
    ensures Safe(hash, digest, RunGets(hash, digest, slot, gets))
    decreases |gets|
  {
    if gets != [] {
      AttemptIsSafe(hash, digest, slot, gets[0].env, gets[0].commit);
      RunsAreSafe(hash, digest, GetStep(hash, digest, slot, gets[0]), gets[1..]);
    }
  }

  /** Without that proviso safety fails: a 206 that really carries the whole blob is appended to the
      partial file, and only the whole blob was hashed. */
  lemma UnreadPartialFileBreaksSafety(hash: Bytes -> string, partial: Bytes, blob: Bytes, contentRange: string)
    returns (env: Env)
    requires partial != [] && hash(partial + blob) != hash(blob)
    requires ResumeStart(Some(contentRange)) == Some(|partial|)
    ensures !env.readOk
    ensures var (slot', outcome) := Attempt(hash, hash(blob), Slot(Some(partial), None), env, Moved);
      outcome == Committed && slot' == Slot(None, Some(partial + blob)) && !Safe(hash, hash(blob), slot')
  {
    var events := [Chunk(blob, Written, false)];
    env := Env(true, false, Some(Reply(206, Some(contentRange), None, events)), true, true, true, true);
    assert events[1..] == [];
    assert Received(events) == blob + [] == blob;
    assert AllWritten(events) && EndOf(events) == Exhausted;
    ConsumeInClosedForm(OpenStream(Slot(Some(partial), None), env), events);
    assert [] + blob == blob;
  }

  // ----- an honest upstream -----

  // The body an honest upstream sends: the rest of the blob on a 206, the whole of it otherwise.
  function HonestBody(blob: Bytes, slot: Slot, env: Env): Bytes
    requires env.reply.Some?
  {
    var pos := ResumePosition(slot, env);
    if env.reply.value.status == 206 && pos.Some? && pos.value <= |blob| then blob[pos.value..] else blob
  }

  predicate Honest(blob: Bytes, slot: Slot, env: Env) {
    env.reply.Some? && IsSuccess(env.reply.value.status) ==>
      var pos := ResumePosition(slot, env);
      var reply := env.reply.value;
      var body := HonestBody(blob, slot, env);
      && (reply.status == 206 ==> pos.Some? && pos.value < |blob| && ResumeStart(reply.contentRange) == pos)
      && Received(reply.events) <= body
      && (EndOf(reply.events) == Exhausted ==> Received(reply.events) == body)
      && (reply.contentLength.Some? ==> reply.contentLength.value == |body|)
  }

  predicate PrefixOf(blob: Bytes, slot: Slot) {
    slot.temp.Some? ==> slot.temp.value <= blob
  }

  lemma HonestAssembly(blob: Bytes, slot: Slot, env: Env)
    requires PrefixOf(blob, slot) && Honest(blob, slot, env)
    requires env.reply.Some? && IsSuccess(env.reply.value.status)
    ensures Assembled(slot, env) <= blob
    ensures Assembled(slot, env) == blob <==> Received(env.reply.value.events) == HonestBody(blob, slot, env)
    ensures ResumedFrom(slot, env).Some? <==> env.reply.value.status == 206
  {
    var got, body := Received(env.reply.value.events), HonestBody(blob, slot, env);
    if ResumedFrom(slot, env).Some? {
      var temp := slot.temp.value;
      assert temp == blob[..|temp|];
      assert temp + body == blob;
      assert got == body[..|got|];
    }
  }

  /** With an honest upstream the temp file stays a prefix of the blob, through every failure. */
  lemma TempStaysAPrefix(hash: Bytes -> string, digest: string, blob: Bytes, slot: Slot, env: Env, commit: Commit)
    requires PrefixOf(blob, slot) && Honest(blob, slot, env)
    ensures PrefixOf(blob, Attempt(hash, digest, slot, env, commit).0)
  {
    if env.reply.Some? && IsSuccess(env.reply.value.status) {
      ConsumeInClosedForm(OpenStream(slot, env), env.reply.value.events);
      HonestAssembly(blob, slot, env);
      var s := Consume(OpenStream(slot, env), env.reply.value.events).0;
      assert s.file <= Assembled(slot, env) <= blob;
    }
  }

  predicate HonestRun(hash: Bytes -> string, digest: string, blob: Bytes, slot: Slot, gets: seq<Get>)
    decreases |gets|
  {
    gets == [] ||
    (Honest(blob, slot, gets[0].env) && HonestRun(hash, digest, blob, GetStep(hash, digest, slot, gets[0]), gets[1..]))
  }

  lemma {:induction false} TempStaysAPrefixOverRuns(hash: Bytes -> string, digest: string, blob: Bytes, slot: Slot, gets: seq<Get>)
    requires PrefixOf(blob, slot) && HonestRun(hash, digest, blob, slot, gets)
    ensures PrefixOf(blob, RunGets(hash, digest, slot, gets))
    decreases |gets|
  {
    if gets != [] {
      TempStaysAPrefix(hash, digest, blob, slot, gets[0].env, gets[0].commit);
      TempStaysAPrefixOverRuns(hash, digest, blob, GetStep(hash, digest, slot, gets[0]), gets[1..]);
    }
  }

  /** A stream error keeps the partial file and, with no write failure, extends what was resumed by
      exactly the bytes received. */
  lemma StreamErrorExtendsTemp(hash: Bytes -> string, digest: string, slot: Slot, env: Env, commit: Commit)
    requires env.reply.Some? && IsSuccess(env.reply.value.status) && EndOf(env.reply.value.events) == Failed
    requires env.openOk && AllWritten(env.reply.value.events)
    ensures Attempt(hash, digest, slot, env, commit) == (Slot(Some(Assembled(slot, env)), slot.blob), StreamFailed)
  {
    ConsumeInClosedForm(OpenStream(slot, env), env.reply.value.events);
  }

  /** A client that leaves before the last byte costs the partial file. */
  lemma DisconnectDeletesTemp(hash: Bytes -> string, blob: Bytes, slot: Slot, env: Env, commit: Commit)
    requires PrefixOf(blob, slot) && Honest(blob, slot, env)
    requires env.reply.Some? && IsSuccess(env.reply.value.status) && EndOf(env.reply.value.events) == Disconnected
    requires env.openOk && env.readOk && env.cleanupOk && AllWritten(env.reply.value.events)
    requires Received(env.reply.value.events) != HonestBody(blob, slot, env)
    requires forall p | p < blob :: hash(p) != hash(blob)
    ensures Attempt(hash, hash(blob), slot, env, commit) == (Slot(None, slot.blob), Discarded)
  {
    HonestAssembly(blob, slot, env);
    HasherMatchesFile(slot, env);
    ConsumeInClosedForm(OpenStream(slot, env), env.reply.value.events);
    assert Assembled(slot, env) < blob;
  }

  // Nothing goes wrong on this side and the body arrives complete.
  predicate Clean(env: Env, commit: Commit) {
    && env.statOk && env.readOk && env.restartRemoveOk && env.openOk && env.syncOk && env.cleanupOk
    && commit != Refused
    && (env.reply.Some? ==> EndOf(env.reply.value.events) == Exhausted && AllWritten(env.reply.value.events))
  }

  /** A complete, clean download from an honest upstream is committed unless it was resumed and the reply
      carried a Content-Length: that header counts the remainder, and is compared with the whole. */
  lemma CleanDownloadCommitsIff(hash: Bytes -> string, blob: Bytes, slot: Slot, env: Env, commit: Commit)
    requires PrefixOf(blob, slot) && Honest(blob, slot, env) && Clean(env, commit)
    requires env.reply.Some? && IsSuccess(env.reply.value.status)
    ensures var (slot', outcome) := Attempt(hash, hash(blob), slot, env, commit);
      if ResumedFrom(slot, env).Some? && env.reply.value.contentLength.Some?
      then outcome == Discarded && slot' == Slot(None, slot.blob)
      else outcome == Committed && slot'.blob == Some(blob)
  {
    HonestAssembly(blob, slot, env);
    HasherMatchesFile(slot, env);
    ConsumeInClosedForm(OpenStream(slot, env), env.reply.value.events);
    CommitConditionIsExact(hash, hash(blob), slot, env, commit);
  }

  /** The client of a complete honest download is sent the blob unless the download was resumed: then it
      is sent only the rest, under a 200. */
  lemma ClientGetsBlobIffNotResumed(blob: Bytes, slot: Slot, env: Env)
    requires Honest(blob, slot, env)
    requires env.reply.Some? && IsSuccess(env.reply.value.status) && EndOf(env.reply.value.events) == Exhausted
    ensures SentToClient(env) == blob <==> ResumedFrom(slot, env).None?
    ensures ResumedFrom(slot, env).Some? ==> SentToClient(env) == blob[ResumedFrom(slot, env).value..]
  {
  }

  // ----- does a blob ever get published? -----

  // The reply of a server that honours ranges: the rest for an offset inside the blob, 416 beyond it.
  predicate ServesRanges(blob: Bytes, slot: Slot, env: Env) {
    && env.reply.Some? && Honest(blob, slot, env)
    && var pos := ResumePosition(slot, env);
       var status := env.reply.value.status;
       if pos.None? then status == 200 else if pos.value < |blob| then status == 206 else status == 416
  }

  // A run of plain GETs, each of them clean and served by such a server.
  predicate CleanRun(hash: Bytes -> string, blob: Bytes, slot: Slot, gets: seq<Get>)
    decreases |gets|
  {
    gets == [] ||
    (&& gets[0].range.None? && gets[0].opens && ServesRanges(blob, slot, gets[0].env) && Clean(gets[0].env, gets[0].commit)
     && CleanRun(hash, blob, GetStep(hash, hash(blob), slot, gets[0]), gets[1..]))
  }

  lemma {:induction false} PublishedStays(hash: Bytes -> string, blob: Bytes, slot: Slot, gets: seq<Get>)
    requires blob != [] && slot.blob == Some(blob) && CleanRun(hash, blob, slot, gets)
    ensures RunGets(hash, hash(blob), slot, gets).blob == Some(blob)
    decreases |gets|
  {
    if gets != [] {
      PublishedStays(hash, blob, slot, gets[1..]);
    }
  }

  lemma {:induction false} FullTempIsStuck(hash: Bytes -> string, blob: Bytes, gets: seq<Get>)
    requires blob != [] && CleanRun(hash, blob, Slot(Some(blob), None), gets)
    ensures RunGets(hash, hash(blob), Slot(Some(blob), None), gets) == Slot(Some(blob), None)
    decreases |gets|
  {
    if gets != [] {
      FullTempIsStuck(hash, blob, gets[1..]);
    }
  }

  lemma ProperPrefixIsShorter(a: Bytes, b: Bytes)
    requires a <= b && a != b
    ensures |a| < |b|
  {
    assert a == b[..|a|] && b == b[..|b|];
  }

  /** Two clean GETs publish the blob from any partial file, and none ever do from a complete one: the
      server has nothing left to send, answers 416, and the file is left where it is. */
  lemma PublishedWithinTwoGetsIff(hash: Bytes -> string, blob: Bytes, slot: Slot, gets: seq<Get>)
    requires blob != [] && slot.blob.None? && PrefixOf(blob, slot)
    requires |gets| >= 2 && CleanRun(hash, blob, slot, gets)
    ensures RunGets(hash, hash(blob), slot, gets).blob == Some(blob) <==> slot.temp != Some(blob)
  {
    if slot.temp == Some(blob) {
      FullTempIsStuck(hash, blob, gets);
    } else {
      if slot.temp.Some? { ProperPrefixIsShorter(slot.temp.value, blob); }
      CleanDownloadCommitsIff(hash, blob, slot, gets[0].env, gets[0].commit);
      var slot1 := GetStep(hash, hash(blob), slot, gets[0]);
      if slot1.blob.Some? {
        PublishedStays(hash, blob, slot1, gets[1..]);
      } else {
        CleanDownloadCommitsIff(hash, blob, slot1, gets[1].env, gets[1].commit);
        var slot2 := GetStep(hash, hash(blob), slot1, gets[1]);
        assert gets[1..][0] == gets[1] && gets[1..][1..] == gets[2..];
        PublishedStays(hash, blob, slot2, gets[2..]);
      }
    }
  }

  /** A complete partial file does arise: the stream breaks after the last byte. */
  lemma FullTempIsReachable(hash: Bytes -> string, blob: Bytes, env: Env, commit: Commit)
    requires blob != [] && env.openOk
    requires env.reply == Some(Reply(200, None, None, [Chunk(blob, Written, false), Broken]))
    ensures Honest(blob, Slot(None, None), env)
    ensures Attempt(hash, hash(blob), Slot(None, None), env, commit).0 == Slot(Some(blob), None)
  {
    var events := env.reply.value.events;
    assert events[1..][0] == Broken;
    assert Received(events) == blob + [] == blob;
    assert Assembled(Slot(None, None), env) == [] + blob == blob;
    assert EndOf(events) == Failed && AllWritten(events);
    StreamErrorExtendsTemp(hash, hash(blob), Slot(None, None), env, commit);
  }
}
