/**
 Operations that run one at a time are one way to interleave them: each of Closure's steps is a stretch of actions.
 */
module SequentialRuns {
  import opened Wrappers
  import opened Names
  import opened Manifests
  import opened StorageKeys
  import opened ImageCache
  import opened PrePull
  import opened Closure
  import opened CacheWrites
  import opened Interleaving

  // ----- blobs -----

  lemma OneBlobAlone(w: World, z: Solo, i: nat, j: nat) returns (actions: seq<Action>)
    requires HasBlob(z.task, j) && BlobOf(z.task, j).Waiting?
    ensures var digest := BlobOf(z.task, j).digest;
      var (d, result) := PullBlob(z.cache, digest, z.task.env);
      ActsOf(actions, i) && Acts(w, z, actions) == Solo(d, WithBlob(z.task, j, Storing(digest, [], result)))
  {
    var digest := BlobOf(z.task, j).digest;
    var writes := BlobWrites(z.cache, digest, z.task.env);
    BlobIsItsWrites(z.cache, digest, z.task.env);
    var looked := Act(w, z, LookBlobUp(i, j));
    OneAct(w, z, LookBlobUp(i, j));
    actions := [LookBlobUp(i, j)];
    if writes != [] {
      assert writes == [writes[0]];
      ThreeWrites(z.cache, writes[0], writes[0], writes[0]);
      OneAct(w, looked, WriteBlob(i, j));
      ActsInTurn(w, z, actions, [WriteBlob(i, j)]);
      actions := actions + [WriteBlob(i, j)];
      SetTwice(z.task, j, BlobOf(looked.task, j), BlobOf(Act(w, looked, WriteBlob(i, j)).task, j));
    }
  }

  lemma SetTwice(t: Task, j: nat, x: BlobTask, y: BlobTask)
    requires HasBlob(t, j)
    ensures WithBlob(WithBlob(t, j, x), j, y) == WithBlob(t, j, y)
  {
    assert t.stage.blobs[j := x][j := y] == t.stage.blobs[j := y];
  }

  // The first `n` blobs are pulled, in order.
  function DoneBlobs(c: Cache, order: seq<string>, env: Env, n: nat): seq<BlobTask>
    requires n <= |order|
  {
    seq(|order|, j requires 0 <= j < |order| =>
      if j < n then Storing(order[j], [], PullBlob(PullBlobs(c, order[..j], env).cache, order[j], env).1) else Waiting(order[j]))
  }

  lemma OneMoreTally(c: Cache, order: seq<string>, env: Env, n: nat)
    requires n < |order|
    ensures var before := PullBlobs(c, order[..n], env);
      var (d, r) := PullBlob(before.cache, order[n], env);
      PullBlobs(c, order[..n + 1], env) ==
        if r.Ok? then Tally(d, before.size + r.value, before.failed) else Tally(d, before.size, before.failed + 1)
  {
    assert order[..n + 1][..n] == order[..n];
  }

  lemma OneMoreDone(c: Cache, order: seq<string>, env: Env, n: nat)
    requires n < |order|
    ensures DoneBlobs(c, order, env, n + 1) ==
      DoneBlobs(c, order, env, n)[n := Storing(order[n], [], PullBlob(PullBlobs(c, order[..n], env).cache, order[n], env).1)]
  {
  }

  predicate InLayers(t: Task, order: seq<string>) {
    t.Pulling? && t.stage.Layers? && t.stage.blobs == AllWaiting(order)
  }

  lemma {:induction false} BlobsAlone(w: World, z: Solo, i: nat, order: seq<string>, n: nat) returns (actions: seq<Action>)
    requires InLayers(z.task, order) && n <= |order|
    ensures ActsOf(actions, i)
    ensures Acts(w, z, actions) ==
      Solo(PullBlobs(z.cache, order[..n], z.task.env).cache,
           z.task.(stage := z.task.stage.(blobs := DoneBlobs(z.cache, order, z.task.env, n))))
    decreases n
  {
    if n == 0 {
      actions := [];
      assert order[..0] == [] && DoneBlobs(z.cache, order, z.task.env, 0) == AllWaiting(order);
    } else {
      var first := BlobsAlone(w, z, i, order, n - 1);
      var mid := Acts(w, z, first);
      var rest := OneBlobAlone(w, mid, i, n - 1);
      ActsInTurn(w, z, first, rest);
      actions := first + rest;
      OneMoreDone(z.cache, order, z.task.env, n - 1);
      OneMoreTally(z.cache, order, z.task.env, n - 1);
    }
  }

  lemma OneMoreCounted(blobs: seq<BlobTask>, before: Tally, digest: string, d: Cache, r: Result<nat, PullError>)
    requires Total(blobs) == before.size && Failures(blobs) == before.failed
    ensures var more := blobs + [Storing(digest, [], r)];
      && Total(more) == (if r.Ok? then before.size + r.value else before.size)
      && Failures(more) == (if r.Ok? then before.failed else before.failed + 1)
  {
    var more := blobs + [Storing(digest, [], r)];
    assert more[..|more| - 1] == blobs;
  }

  lemma TakeOneMore<T>(s: seq<T>, n: nat)
    requires n < |s|
    ensures s[..n + 1] == s[..n] + [s[n]]
  {
  }

  lemma {:induction false} TallyOfDone(c: Cache, order: seq<string>, env: Env, n: nat)
    requires n <= |order|
    ensures var blobs, tally := DoneBlobs(c, order, env, |order|)[..n], PullBlobs(c, order[..n], env);
      Total(blobs) == tally.size && Failures(blobs) == tally.failed
    decreases n
  {
    if n > 0 {
      TallyOfDone(c, order, env, n - 1);
      OneMoreTally(c, order, env, n - 1);
      var blobs, before := DoneBlobs(c, order, env, |order|), PullBlobs(c, order[..n - 1], env);
      var (d, r) := PullBlob(before.cache, order[n - 1], env);
      assert blobs[n - 1] == Storing(order[n - 1], [], r);
      TakeOneMore(blobs, n - 1);
      OneMoreCounted(blobs[..n - 1], before, order[n - 1], d, r);
    }
  }

  // ----- a pull -----

  lemma LayersEnd(w: World, c: Cache, fetched: Bytes, image: Bytes, env: Env, order: seq<string>)
    requires w.parse(image).Some? && ExtractedDigests(w.parse(image).value).Some?
    requires order == env.order(Elements(ExtractedDigests(w.parse(image).value).value))
    ensures PullLayers(w, c, fetched, image, env) ==
      (PullBlobs(c, order, env).cache, Finish(fetched, image, DoneBlobs(c, order, env, |order|)))
  {
    var blobs := DoneBlobs(c, order, env, |order|);
    assert order[..|order|] == order && blobs[..|order|] == blobs;
    TallyOfDone(c, order, env, |order|);
  }

  lemma FinishAlone(w: World, z: Solo, i: nat)
    requires z.task.Pulling? && z.task.stage.Layers? && forall j | 0 <= j < |z.task.stage.blobs| :: Done(z.task.stage.blobs[j])
    ensures var l := z.task.stage;
      Acts(w, z, [Proceed(i)]) == Solo(z.cache, z.task.(stage := Over(Finish(l.fetched, l.image, l.blobs))))
  {
    OneAct(w, z, Proceed(i));
  }

  // From the stage after its manifests to its end.
  lemma LayersAlone(w: World, z: Solo, i: nat, fetched: Bytes, image: Bytes) returns (actions: seq<Action>)
    requires z.task.Pulling? && z.task.stage == StartLayers(w, fetched, image, z.task.env)
    ensures var (d, result) := PullLayers(w, z.cache, fetched, image, z.task.env);
      ActsOf(actions, i) && Acts(w, z, actions) == Solo(d, z.task.(stage := Over(result)))
  {
    var m := w.parse(image);
    actions := [];
    if m.Some? && ExtractedDigests(m.value).Some? {
      var order := z.task.env.order(Elements(ExtractedDigests(m.value).value));
      LayersEnd(w, z.cache, fetched, image, z.task.env, order);
      var first := BlobsAlone(w, z, i, order, |order|);
      assert order[..|order|] == order;
      FinishAlone(w, Acts(w, z, first), i);
      ActsInTurn(w, z, first, [Proceed(i)]);
      actions := first + [Proceed(i)];
    }
  }

  // The writes of a fetch and then the step to the next stage.
  lemma FetchAlone(w: World, z: Solo, i: nat, d: Cache) returns (actions: seq<Action>)
    requires z.task.Pulling? && (z.task.stage.Fetching? || z.task.stage.Choosing?) && ApplyWrites(z.cache, Own(z.task)) == d
    ensures var t := z.task;
      ActsOf(actions, i) && Acts(w, z, actions) == Solo(d, t.(stage := NextStage(w, d, t.repo, t.env, t.stage.(writes := []))))
  {
    var first := Repeat(WriteNext(i), |Own(z.task)|);
    WritesAll(w, z, i);
    OneAct(w, Acts(w, z, first), Proceed(i));
    ActsInTurn(w, z, first, [Proceed(i)]);
    actions := first + [Proceed(i)];
  }

  // From the manifest that was fetched.
  lemma ImageAlone(w: World, z: Solo, i: nat, fetched: Bytes) returns (actions: seq<Action>)
    requires z.task.Pulling? && z.task.stage == Choose(w, z.cache, z.task.repo, fetched, z.task.env)
    ensures var t := z.task;
      var (e, body) := ImageManifest(w, z.cache, t.repo, fetched, t.env);
      var (d, result) := if body.Err? then (e, Err(body.error)) else PullLayers(w, e, fetched, body.value, t.env);
      ActsOf(actions, i) && Acts(w, z, actions) == Solo(d, t.(stage := Over(result)))
  {
    var t, m := z.task, w.parse(fetched);
    actions := [];
    if m.Some? && !IsIndex(m.value) {
      actions := LayersAlone(w, z, i, fetched, fetched);
    } else if SecondReference(w, fetched).Some? {
      var digest := SecondReference(w, fetched).value;
      var (e, body) := FetchManifest(w, z.cache, t.repo, digest, t.env.manifest(1, digest), FetchIO(t.env, 1));
      FetchIsItsWrites(w, z.cache, t.repo, digest, t.env.manifest(1, digest), FetchIO(t.env, 1));
      actions := FetchAlone(w, z, i, e);
      if body.Ok? {
        var rest := LayersAlone(w, Acts(w, z, actions), i, fetched, body.value);
        ActsInTurn(w, z, actions, rest);
        actions := actions + rest;
      }
    }
  }

  /** A pull that nothing interrupts does and reports what PullReference says. */
  lemma PullAlone(w: World, z: Solo, i: nat, repo: Repo, reference: string, env: Env) returns (actions: seq<Action>)
    requires z.task == StartPull(w, z.cache, repo, reference, env)
    ensures var (d, result) := PullReference(w, z.cache, repo, reference, env);
      ActsOf(actions, i) && Acts(w, z, actions) == Solo(d, Pulling(repo, reference, env, Over(result)))
  {
    var x, io := env.manifest(0, reference), FetchIO(env, 0);
    var (d, fetched) := FetchManifest(w, z.cache, repo, reference, x, io);
    FetchIsItsWrites(w, z.cache, repo, reference, x, io);
    actions := FetchAlone(w, z, i, d);
    if fetched.Ok? {
      var rest := ImageAlone(w, Acts(w, z, actions), i, fetched.value);
      ActsInTurn(w, z, actions, rest);
      actions := actions + rest;
    }
  }

  // ----- runs -----

  // A task that is over, with the answer of a pull.
  function Ended(w: World, c: Cache, op: Op): Task {
    match op
    case Pull(image, env) =>
      var parsed := ParseImageReference(image);
      Pulling(PrePullParse(parsed.name), parsed.reference, env, Over(PullImage(w, c, image, env).1))
    case _ => Filling([])
  }

  lemma StartIsItsWrites(w: World, c: Cache, op: Op)
    requires !op.Pull?
    ensures ApplyWrites(c, Own(Start(w, c, op))) == Step(w, c, op)
  {
    match op
    case Get(name, reference, x, io) => GetIsItsWrites(w, c, name, reference, x, io);
    case Head(name, reference, x, io) => HeadIsItsWrites(w, c, name, reference, x, io);
    case Download(_, _, _) => DownloadIsItsWrites(w, c, op);
  }

  lemma TaskAlone(w: World, c: Cache, i: nat, op: Op) returns (actions: seq<Action>)
    ensures ActsOf(actions, i) && Acts(w, Solo(c, Start(w, c, op)), actions) == Solo(Step(w, c, op), Ended(w, c, op))
  {
    var z := Solo(c, Start(w, c, op));
    if op.Pull? {
      var parsed := ParseImageReference(op.image);
      actions := PullAlone(w, z, i, PrePullParse(parsed.name), parsed.reference, op.env);
    } else {
      StartIsItsWrites(w, c, op);
      WritesAll(w, z, i);
      actions := Repeat(WriteNext(i), |Own(z.task)|);
    }
  }

  /** An operation that nothing interrupts changes the cache as Closure's step does, and a pull ends with the same
      answer. */
  lemma StepAlone(w: World, s: State, op: Op) returns (rest: seq<Action>)
    ensures Play(w, s, [Begin(op)] + rest) == State(Step(w, s.cache, op), s.tasks + [Ended(w, s.cache, op)])
    ensures ActsOf(rest, |s.tasks|)
  {
    var begun, i := Next(w, s, Begin(op)), |s.tasks|;
    rest := TaskAlone(w, s.cache, i, op);
    assert Play(w, s, [Begin(op)]) == begun;
    PlayInTurn(w, s, [Begin(op)], rest);
    ActsArePlayed(w, begun, i, rest);
    assert begun.tasks[i := Ended(w, s.cache, op)] == s.tasks + [Ended(w, s.cache, op)];
  }

  // The operations begun, in order.
  function Begun(actions: seq<Action>): seq<Op> {
    if actions == [] then []
    else Begun(actions[..|actions| - 1]) + if actions[|actions| - 1].Begin? then [actions[|actions| - 1].op] else []
  }

  lemma {:induction false} BegunByOneTask(first: seq<Action>, op: Op, rest: seq<Action>, i: nat)
    requires ActsOf(rest, i)
    ensures Begun(first + ([Begin(op)] + rest)) == Begun(first) + [op]
    decreases |rest|
  {
    var all, n := first + ([Begin(op)] + rest), |rest| - 1;
    if rest == [] {
      assert all[..|all| - 1] == first && all[|all| - 1] == Begin(op);
    } else {
      BegunByOneTask(first, op, rest[..n], i);
      assert all[..|all| - 1] == first + ([Begin(op)] + rest[..n]) && all[|all| - 1] == rest[n] && rest[n] in rest;
    }
  }

  // The tasks of a run when all are over.
  function EndedTasks(w: World, ops: seq<Op>): seq<Task> {
    if ops == [] then []
    else
      var n := |ops| - 1;
      EndedTasks(w, ops[..n]) + [Ended(w, RunOps(w, EMPTY, ops[..n]), ops[n])]
  }

  lemma OneMoreAlone(w: World, first: seq<Action>, op: Op) returns (actions: seq<Action>)
    ensures var s := Play(w, START, first);
      Play(w, START, actions) == State(Step(w, s.cache, op), s.tasks + [Ended(w, s.cache, op)])
    ensures Begun(actions) == Begun(first) + [op]
  {
    var s := Play(w, START, first);
    var rest := StepAlone(w, s, op);
    PlayInTurn(w, START, first, [Begin(op)] + rest);
    BegunByOneTask(first, op, rest, |s.tasks|);
    actions := first + ([Begin(op)] + rest);
  }

  lemma {:induction false} AllBegun(actions: seq<Action>, a: Action)
    requires a in actions && a.Begin?
    ensures a.op in Begun(actions)
  {
    var n := |actions| - 1;
    if a in actions[..n] {
      AllBegun(actions[..n], a);
    } else {
      assert a == actions[n];
    }
  }

  /** So every run of operations one at a time is an interleaving that begins them in this order, ends each, and
      leaves the cache of the run. */
  lemma {:induction false} RunIsAPlay(w: World, ops: seq<Op>) returns (actions: seq<Action>)
    ensures Begun(actions) == ops
    ensures Play(w, START, actions) == State(RunOps(w, EMPTY, ops), EndedTasks(w, ops))
  {
    if ops == [] {
      actions := [];
    } else {
      var n := |ops| - 1;
      var first := RunIsAPlay(w, ops[..n]);
      actions := OneMoreAlone(w, first, ops[n]);
      assert ops == ops[..n] + [ops[n]];
    }
  }
}
