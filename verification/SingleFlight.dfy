/**
 The singleflight protocol of `CacheStorage::download_with_dedupe`, as a state machine over any
 number of callers.  One action is one lock section, one send, one subscribe or one receive, so the
 actions interleave as finely as the tasks do.  Callers are never cancelled and every download returns.
 */
module SingleFlight {
  import opened Wrappers

  datatype Error =
    | Config(msg: string) | Tls(msg: string) | Cache(msg: string) | Registry(msg: string)
    | Io(debug: string) | Http(debug: string) | Serialization(debug: string)

  // `clone_error`: the variants that cannot be cloned become a cache error.
  function CloneError(e: Error): Error {
    match e
    case Io(debug) => Cache(debug)
    case Http(debug) => Cache(debug)
    case Serialization(debug) => Cache(debug)
    case _ => e
  }

  type Outcome = Result<seq<bv8>, Error>

  // The last holder of the shared result takes it; every other holder copies it.
  function Copy(o: Outcome, last: bool): Outcome {
    if o.Ok? || last then o else Err(CloneError(o.error))
  }

  // Equal up to the cloning of an error.
  predicate SameOutcome(sent: Outcome, got: Outcome) {
    got == sent || (sent.Err? && got == Err(CloneError(sent.error)))
  }

  datatype Phase = Unspawned | Running | Downloaded | Sent | Removed | Finished

  function Progress(p: Phase): nat {
    match p
    case Unspawned => 0
    case Running => 1
    case Downloaded => 2
    case Sent => 3
    case Removed => 4
    case Finished => 5
  }

  // The clones of one broadcast sender.
  datatype Holder = MapEntry | LeaderTx | TaskTx

  // A broadcast channel of capacity one together with the task that will send on it.
  datatype Channel = Channel(
    digest: string, leader: nat, phase: Phase, result: Option<Outcome>,
    log: seq<Outcome>, senders: set<Holder>, receivers: set<nat>)

  datatype Reply = Got(outcome: Outcome) | Lagged | Closed

  // `early` is history: was the subscription made before the task's send?
  datatype Pc =
    | Start
    | NeedTx
    | HasTx(chan: nat)
    | Spawned(chan: nat)
    | Waiting(chan: nat, cursor: nat, early: bool)
    | Returned(chan: nat, reply: Reply, early: bool)
    | Panicked

  datatype Caller = Caller(digest: string, pc: Pc)

  datatype State = State(inFlight: map<string, nat>, channels: seq<Channel>, callers: seq<Caller>)

  datatype Action =
    | Arrive(digest: string)
    | Enter(i: nat)                  // first lock section: look up or insert
    | Fetch(i: nat)                  // second lock section: clone the sender
    | Spawn(i: nat)
    | Subscribe(i: nat)
    | Receive(i: nat, last: bool)
    | Download(c: nat, outcome: Outcome)
    | Send(c: nat)
    | Remove(c: nat)
    | Finish(c: nat)                 // the task ends and drops its sender

  const INIT := State(map[], [], [])

  predicate At(s: State, i: nat) {
    i < |s.callers|
  }

  predicate TaskAt(s: State, c: nat, p: Phase) {
    c < |s.channels| && s.channels[c].phase == p
  }

  predicate Enabled(s: State, a: Action) {
    match a
    case Arrive(_) => true
    case Enter(i) => At(s, i) && s.callers[i].pc.Start? &&
                     (s.callers[i].digest in s.inFlight ==> s.inFlight[s.callers[i].digest] < |s.channels|)
    case Fetch(i) => At(s, i) && s.callers[i].pc.NeedTx? &&
                     (s.callers[i].digest in s.inFlight ==> s.inFlight[s.callers[i].digest] < |s.channels|)
    case Spawn(i) => At(s, i) && s.callers[i].pc.HasTx? && s.callers[i].pc.chan < |s.channels|
    case Subscribe(i) => At(s, i) && s.callers[i].pc.Spawned? && s.callers[i].pc.chan < |s.channels|
    case Receive(i, _) =>
      && At(s, i) && s.callers[i].pc.Waiting? && s.callers[i].pc.chan < |s.channels|
      && var ch := s.channels[s.callers[i].pc.chan];
         s.callers[i].pc.cursor < |ch.log| || ch.senders == {}
    case Download(c, _) => TaskAt(s, c, Phase.Running)
    case Send(c) => TaskAt(s, c, Phase.Downloaded) && s.channels[c].result.Some?
    case Remove(c) => TaskAt(s, c, Phase.Sent)
    case Finish(c) => TaskAt(s, c, Phase.Removed)
  }

  function SetPc(s: State, i: nat, pc: Pc): State
    requires At(s, i)
  {
    s.(callers := s.callers[i := s.callers[i].(pc := pc)])
  }

  function SetChannel(s: State, c: nat, ch: Channel): State
    requires c < |s.channels|
  {
    s.(channels := s.channels[c := ch])
  }

  // A receiver created now sees only the messages sent from now on.
  function Listen(s: State, i: nat, c: nat): State
    requires At(s, i) && c < |s.channels|
  {
    var ch := s.channels[c];
    var pc := Waiting(c, |ch.log|, Progress(ch.phase) < Progress(Phase.Sent));
    SetPc(SetChannel(s, c, ch.(receivers := ch.receivers + {i})), i, pc)
  }

  // What `recv` answers: capacity one keeps only the newest message.
  function Answer(ch: Channel, cursor: nat, last: bool): Reply {
    if cursor < |ch.log| then
      if |ch.log| - cursor > 1 then Lagged else Got(Copy(ch.log[cursor], last))
    else
      Closed
  }

  function Step(s: State, a: Action): State
    requires Enabled(s, a)
  {
    match a
    case Arrive(digest) => s.(callers := s.callers + [Caller(digest, Start)])
    case Enter(i) =>
      var d := s.callers[i].digest;
      if d in s.inFlight then
        Listen(s, i, s.inFlight[d])
      else
        var ch := Channel(d, i, Phase.Unspawned, None, [], {MapEntry}, {});
        SetPc(State(s.inFlight[d := |s.channels|], s.channels + [ch], s.callers), i, NeedTx)
    case Fetch(i) =>
      var d := s.callers[i].digest;
      if d in s.inFlight then
        var c := s.inFlight[d];
        var ch := s.channels[c];
        SetPc(SetChannel(s, c, ch.(senders := ch.senders + {LeaderTx})), i, HasTx(c))
      else
        SetPc(s, i, Panicked)
    case Spawn(i) =>
      var c := s.callers[i].pc.chan;
      var ch := s.channels[c];
      SetPc(SetChannel(s, c, ch.(phase := Phase.Running, senders := ch.senders + {TaskTx})), i, Spawned(c))
    case Subscribe(i) => Listen(s, i, s.callers[i].pc.chan)
    case Receive(i, last) =>
      var pc := s.callers[i].pc;
      var ch := s.channels[pc.chan];
      var dropped := if ch.leader == i then {LeaderTx} else {};
      var ch' := ch.(receivers := ch.receivers - {i}, senders := ch.senders - dropped);
      SetPc(SetChannel(s, pc.chan, ch'), i, Returned(pc.chan, Answer(ch, pc.cursor, last), pc.early))
    case Download(c, outcome) =>
      SetChannel(s, c, s.channels[c].(phase := Phase.Downloaded, result := Some(outcome)))
    case Send(c) =>
      // With no receiver the send fails and the message is lost; the failure is ignored.
      var ch := s.channels[c];
      var log' := if ch.receivers == {} then ch.log else ch.log + [ch.result.value];
      SetChannel(s, c, ch.(phase := Phase.Sent, log := log'))
    case Remove(c) =>
      // Removing an entry drops the sender it held, whichever channel that belongs to.
      var d := s.channels[c].digest;
      var s1 := SetChannel(s, c, s.channels[c].(phase := Phase.Removed));
      if d in s.inFlight && s.inFlight[d] < |s.channels| then
        var entry := s1.channels[s.inFlight[d]];
        SetChannel(s1, s.inFlight[d], entry.(senders := entry.senders - {MapEntry})).(inFlight := s.inFlight - {d})
      else
        s1.(inFlight := s.inFlight - {d})
    case Finish(c) =>
      var ch := s.channels[c];
      SetChannel(s, c, ch.(phase := Phase.Finished, senders := ch.senders - {TaskTx}))
  }

  function Exec(s: State, acts: seq<Action>): Option<State>
    decreases |acts|
  {
    if acts == [] then Some(s)
    else if Enabled(s, acts[0]) then Exec(Step(s, acts[0]), acts[1..])
    else None
  }

  // ----- the invariant -----

  predicate Live(ch: Channel) {
    Progress(ch.phase) < Progress(Phase.Removed)
  }

  predicate HasSent(ch: Channel) {
    Progress(Phase.Sent) <= Progress(ch.phase)
  }

  // The leader of channel c still holds its own clone of the sender.
  predicate LeaderHolds(s: State, c: nat)
    requires c < |s.channels| && At(s, s.channels[c].leader)
  {
    var pc := s.callers[s.channels[c].leader].pc;
    (pc.HasTx? || pc.Spawned? || pc.Waiting?) && pc.chan == c
  }

  predicate ChannelOk(s: State, c: nat)
    requires c < |s.channels|
  {
    var ch := s.channels[c];
    && At(s, ch.leader)
    && s.callers[ch.leader].digest == ch.digest
    && (Live(ch) <==> (ch.digest in s.inFlight && s.inFlight[ch.digest] == c))
    && (ch.result.Some? <==> Progress(Phase.Downloaded) <= Progress(ch.phase))
    && (ch.log == [] || (HasSent(ch) && ch.log == [ch.result.value]))
    && (MapEntry in ch.senders <==> Live(ch))
    && (TaskTx in ch.senders <==> 1 <= Progress(ch.phase) < 5)
    && (LeaderTx in ch.senders <==> LeaderHolds(s, c))
    && var pc := s.callers[ch.leader].pc;
       if ch.phase.Unspawned? then pc.NeedTx? || pc == HasTx(c)
       else (pc.Spawned? || pc.Waiting? || pc.Returned?) && pc.chan == c
  }

  predicate CallerOk(s: State, i: nat)
    requires At(s, i)
  {
    var caller := s.callers[i];
    match caller.pc
    case Start => true
    case NeedTx =>
      && caller.digest in s.inFlight && s.inFlight[caller.digest] < |s.channels|
      && var ch := s.channels[s.inFlight[caller.digest]];
         ch.leader == i && ch.phase.Unspawned?
    case HasTx(c) => c < |s.channels| && s.channels[c].leader == i && s.channels[c].phase.Unspawned?
    case Spawned(c) => c < |s.channels| && s.channels[c].leader == i && !s.channels[c].phase.Unspawned?
    case Waiting(c, cursor, early) =>
      && c < |s.channels| && s.channels[c].digest == caller.digest && i in s.channels[c].receivers
      && var ch := s.channels[c];
         if early then cursor == 0 && (HasSent(ch) ==> |ch.log| == 1)
         else cursor == |ch.log| && HasSent(ch)
    case Returned(c, reply, early) =>
      && c < |s.channels| && s.channels[c].digest == caller.digest
      && var ch := s.channels[c];
         if early then HasSent(ch) && ch.result.Some? && reply.Got? && SameOutcome(ch.result.value, reply.outcome)
         else reply.Closed? && ch.senders == {} && ch.leader != i
    case Panicked => false
  }

  ghost predicate EntriesInv(s: State) {
    forall d | d in s.inFlight :: s.inFlight[d] < |s.channels| && s.channels[s.inFlight[d]].digest == d
  }

  ghost predicate ChannelsInv(s: State) {
    forall c | 0 <= c < |s.channels| :: ChannelOk(s, c)
  }

  ghost predicate ReceiversInv(s: State) {
    forall c, i | 0 <= c < |s.channels| && i in s.channels[c].receivers ::
      At(s, i) && s.callers[i].pc.Waiting? && s.callers[i].pc.chan == c
  }

  ghost predicate CallersInv(s: State) {
    forall i | 0 <= i < |s.callers| :: CallerOk(s, i)
  }

  ghost predicate Inv(s: State) {
    EntriesInv(s) && ChannelsInv(s) && ReceiversInv(s) && CallersInv(s)
  }

  predicate LockAction(a: Action) {
    a.Enter? || a.Fetch?
  }

  predicate TxAction(a: Action) {
    a.Spawn? || a.Subscribe? || a.Receive?
  }

  predicate TaskAction(a: Action) {
    a.Download? || a.Send? || a.Remove? || a.Finish?
  }

  // The map entry for a digest, if any, names a channel that is well-formed and has that digest.
  predicate EntryOk(s: State, d: string) {
    d in s.inFlight ==>
      && s.inFlight[d] < |s.channels| && s.channels[s.inFlight[d]].digest == d
      && ChannelOk(s, s.inFlight[d])
  }

  lemma LockActionKeepsChannel(s: State, a: Action, c: nat)
    requires LockAction(a) && Enabled(s, a) && c < |s.channels|
    requires ChannelOk(s, c) && CallerOk(s, s.channels[c].leader) && CallerOk(s, a.i) && EntryOk(s, s.callers[a.i].digest)
    ensures ChannelOk(Step(s, a), c)
  {
  }

  lemma SpawnKeepsChannel(s: State, a: Action, c: nat)
    requires a.Spawn? && Enabled(s, a) && c < |s.channels|
    requires ChannelOk(s, c) && CallerOk(s, s.channels[c].leader) && CallerOk(s, a.i)
    ensures ChannelOk(Step(s, a), c)
  {
  }

  lemma SubscribeKeepsChannel(s: State, a: Action, c: nat)
    requires a.Subscribe? && Enabled(s, a) && c < |s.channels|
    requires ChannelOk(s, c) && CallerOk(s, s.channels[c].leader) && CallerOk(s, a.i)
    ensures ChannelOk(Step(s, a), c)
  {
  }

  lemma ReceiveKeepsChannel(s: State, a: Action, c: nat)
    requires a.Receive? && Enabled(s, a) && c < |s.channels|
    requires ChannelOk(s, c) && CallerOk(s, s.channels[c].leader) && CallerOk(s, a.i)
    ensures ChannelOk(Step(s, a), c)
  {
  }

  lemma TxActionKeepsChannel(s: State, a: Action, c: nat)
    requires TxAction(a) && Enabled(s, a) && c < |s.channels|
    requires ChannelOk(s, c) && CallerOk(s, s.channels[c].leader) && CallerOk(s, a.i)
    ensures ChannelOk(Step(s, a), c)
  {
    if a.Spawn? {
      SpawnKeepsChannel(s, a, c);
    } else if a.Subscribe? {
      SubscribeKeepsChannel(s, a, c);
    } else {
      ReceiveKeepsChannel(s, a, c);
    }
  }

  lemma RemoveKeepsChannel(s: State, a: Action, c: nat)
    requires a.Remove? && Enabled(s, a) && c < |s.channels|
    requires ChannelOk(s, c) && ChannelOk(s, a.c)
    ensures ChannelOk(Step(s, a), c)
  {
  }

  lemma SendKeepsChannel(s: State, a: Action, c: nat)
    requires a.Send? && Enabled(s, a) && c < |s.channels|
    requires ChannelOk(s, c) && ChannelOk(s, a.c)
    ensures ChannelOk(Step(s, a), c)
  {
  }

  lemma TaskKeepsChannel(s: State, a: Action, c: nat)
    requires (a.Download? || a.Finish?) && Enabled(s, a) && c < |s.channels|
    requires ChannelOk(s, c) && ChannelOk(s, a.c)
    ensures ChannelOk(Step(s, a), c)
  {
  }

  lemma TaskActionKeepsChannel(s: State, a: Action, c: nat)
    requires TaskAction(a) && Enabled(s, a) && c < |s.channels|
    requires ChannelOk(s, c) && ChannelOk(s, a.c)
    ensures ChannelOk(Step(s, a), c)
  {
    if a.Remove? {
      RemoveKeepsChannel(s, a, c);
    } else if a.Send? {
      SendKeepsChannel(s, a, c);
    } else {
      TaskKeepsChannel(s, a, c);
    }
  }

  predicate ChannelOfCallerOk(s: State, i: nat)
    requires At(s, i)
  {
    var pc := s.callers[i].pc;
    && EntryOk(s, s.callers[i].digest)
    && ((pc.HasTx? || pc.Spawned? || pc.Waiting? || pc.Returned?) ==> pc.chan < |s.channels| && ChannelOk(s, pc.chan))
  }

  lemma LockActionKeepsCaller(s: State, a: Action, i: nat)
    requires LockAction(a) && Enabled(s, a) && At(s, i)
    requires CallerOk(s, i) && ChannelOfCallerOk(s, i) && CallerOk(s, a.i) && ChannelOfCallerOk(s, a.i)
    ensures CallerOk(Step(s, a), i)
  {
  }

  lemma SpawnKeepsCaller(s: State, a: Action, i: nat)
    requires a.Spawn? && Enabled(s, a) && At(s, i)
    requires CallerOk(s, i) && ChannelOfCallerOk(s, i) && CallerOk(s, a.i) && ChannelOfCallerOk(s, a.i)
    ensures CallerOk(Step(s, a), i)
  {
  }

  lemma SubscribeKeepsCaller(s: State, a: Action, i: nat)
    requires a.Subscribe? && Enabled(s, a) && At(s, i)
    requires CallerOk(s, i) && ChannelOfCallerOk(s, i) && CallerOk(s, a.i) && ChannelOfCallerOk(s, a.i)
    ensures CallerOk(Step(s, a), i)
  {
  }

  lemma ReceiveKeepsCaller(s: State, a: Action, i: nat)
    requires a.Receive? && Enabled(s, a) && At(s, i)
    requires CallerOk(s, i) && ChannelOfCallerOk(s, i) && CallerOk(s, a.i) && ChannelOfCallerOk(s, a.i)
    ensures CallerOk(Step(s, a), i)
  {
  }

  lemma TxActionKeepsCaller(s: State, a: Action, i: nat)
    requires TxAction(a) && Enabled(s, a) && At(s, i)
    requires CallerOk(s, i) && ChannelOfCallerOk(s, i) && CallerOk(s, a.i) && ChannelOfCallerOk(s, a.i)
    ensures CallerOk(Step(s, a), i)
  {
    if a.Spawn? {
      SpawnKeepsCaller(s, a, i);
    } else if a.Subscribe? {
      SubscribeKeepsCaller(s, a, i);
    } else {
      ReceiveKeepsCaller(s, a, i);
    }
  }

  lemma RemoveKeepsCaller(s: State, a: Action, i: nat)
    requires a.Remove? && Enabled(s, a) && At(s, i)
    requires CallerOk(s, i) && ChannelOfCallerOk(s, i) && ChannelOk(s, a.c)
    ensures CallerOk(Step(s, a), i)
  {
  }

  lemma SendKeepsCaller(s: State, a: Action, i: nat)
    requires a.Send? && Enabled(s, a) && At(s, i)
    requires CallerOk(s, i) && ChannelOfCallerOk(s, i) && ChannelOk(s, a.c)
    ensures CallerOk(Step(s, a), i)
  {
  }

  lemma TaskKeepsCaller(s: State, a: Action, i: nat)
    requires (a.Download? || a.Finish?) && Enabled(s, a) && At(s, i)
    requires CallerOk(s, i) && ChannelOfCallerOk(s, i) && ChannelOk(s, a.c)
    ensures CallerOk(Step(s, a), i)
  {
  }

  lemma TaskActionKeepsCaller(s: State, a: Action, i: nat)
    requires TaskAction(a) && Enabled(s, a) && At(s, i)
    requires CallerOk(s, i) && ChannelOfCallerOk(s, i) && ChannelOk(s, a.c)
    ensures CallerOk(Step(s, a), i)
  {
    if a.Remove? {
      RemoveKeepsCaller(s, a, i);
    } else if a.Send? {
      SendKeepsCaller(s, a, i);
    } else {
      TaskKeepsCaller(s, a, i);
    }
  }

  lemma StepKeepsEntries(s: State, a: Action)
    requires EntriesInv(s) && Enabled(s, a)
    ensures EntriesInv(Step(s, a))
  {
  }

  lemma StepKeepsChannels(s: State, a: Action)
    requires Inv(s) && Enabled(s, a)
    ensures ChannelsInv(Step(s, a))
  {
    forall c | 0 <= c < |Step(s, a).channels| ensures ChannelOk(Step(s, a), c) {
      if c < |s.channels| {
        assert ChannelOk(s, c);
        if LockAction(a) {
          LockActionKeepsChannel(s, a, c);
        } else if TxAction(a) {
          TxActionKeepsChannel(s, a, c);
        } else if TaskAction(a) {
          TaskActionKeepsChannel(s, a, c);
        }
      }
    }
  }

  lemma StepKeepsReceivers(s: State, a: Action)
    requires ReceiversInv(s) && Enabled(s, a)
    ensures ReceiversInv(Step(s, a))
  {
    var s' := Step(s, a);
    forall c, i | 0 <= c < |s'.channels| && i in s'.channels[c].receivers
      ensures At(s', i) && s'.callers[i].pc.Waiting? && s'.callers[i].pc.chan == c
    {
      if c < |s.channels| && i in s.channels[c].receivers {
        assert At(s, i) && s.callers[i].pc.Waiting?;
      }
    }
  }

  lemma StepKeepsCallers(s: State, a: Action)
    requires Inv(s) && Enabled(s, a)
    ensures CallersInv(Step(s, a))
  {
    forall i | 0 <= i < |Step(s, a).callers| ensures CallerOk(Step(s, a), i) {
      if At(s, i) {
        assert CallerOk(s, i);
        if LockAction(a) {
          assert CallerOk(s, a.i);
          LockActionKeepsCaller(s, a, i);
        } else if TxAction(a) {
          assert CallerOk(s, a.i);
          TxActionKeepsCaller(s, a, i);
        } else if TaskAction(a) {
          TaskActionKeepsCaller(s, a, i);
        }
      }
    }
  }

  /** Every action keeps the invariant. */
  lemma InvStep(s: State, a: Action)
    requires Inv(s) && Enabled(s, a)
    ensures Inv(Step(s, a))
  {
    StepKeepsEntries(s, a);
    StepKeepsChannels(s, a);
    StepKeepsReceivers(s, a);
    StepKeepsCallers(s, a);
  }

  lemma {:induction false} InvExec(s: State, acts: seq<Action>)
    requires Inv(s) && Exec(s, acts).Some?
    ensures Inv(Exec(s, acts).value)
    decreases |acts|
  {
    if acts != [] {
      InvStep(s, acts[0]);
      InvExec(Step(s, acts[0]), acts[1..]);
    }
  }

  ghost predicate Reachable(s: State) {
    exists acts :: Exec(INIT, acts) == Some(s)
  }

  lemma ReachableInv(s: State)
    requires Reachable(s)
    ensures Inv(s)
  {
    var acts :| Exec(INIT, acts) == Some(s);
    InvExec(INIT, acts);
  }

  lemma {:induction false} ExecThen(s: State, acts: seq<Action>, a: Action)
    requires Exec(s, acts).Some? && Enabled(Exec(s, acts).value, a)
    ensures Exec(s, acts + [a]) == Some(Step(Exec(s, acts).value, a))
    decreases |acts|
  {
    if acts == [] {
      assert Exec(Step(s, a), [a][1..]) == Some(Step(s, a));
    } else {
      ExecThen(Step(s, acts[0]), acts[1..], a);
      assert (acts + [a])[1..] == acts[1..] + [a];
    }
  }

  lemma ReachableStep(s: State, a: Action) returns (s': State)
    requires Reachable(s) && Enabled(s, a)
    ensures s' == Step(s, a) && Reachable(s')
  {
    var acts :| Exec(INIT, acts) == Some(s);
    ExecThen(INIT, acts, a);
    s' := Step(s, a);
  }

  // ----- mutual exclusion -----

  /** A digest is in the map exactly from its leader's insert to the removal by that leader's task, no
      caller ever unwraps a missing entry, and a task removes its own entry and no later leader's. */
  lemma MapHoldsExactlyLiveDownloads(s: State, c: nat)
    requires Reachable(s) && c < |s.channels|
    ensures var d := s.channels[c].digest;
      && (Live(s.channels[c]) <==> (d in s.inFlight && s.inFlight[d] == c))
      && (Enabled(s, Remove(c)) ==> Step(s, Remove(c)).inFlight == map e | e in s.inFlight && s.inFlight[e] != c :: s.inFlight[e])
    ensures forall d | d in s.inFlight :: s.inFlight[d] < |s.channels| && s.channels[s.inFlight[d]].digest == d
    ensures forall i | 0 <= i < |s.callers| :: !s.callers[i].pc.Panicked?
  {
    ReachableInv(s);
    assert ChannelOk(s, c);
    forall i | 0 <= i < |s.callers| ensures !s.callers[i].pc.Panicked? {
      assert CallerOk(s, i);
    }
  }

  /** At most one download per digest is between its leader's insert and its task's remove. */
  lemma OneDownloadPerDigest(s: State, c1: nat, c2: nat)
    requires Reachable(s) && c1 < |s.channels| && c2 < |s.channels|
    requires s.channels[c1].digest == s.channels[c2].digest && Live(s.channels[c1]) && Live(s.channels[c2])
    ensures c1 == c2
  {
    ReachableInv(s);
    assert ChannelOk(s, c1) && ChannelOk(s, c2);
  }

  // ----- delivery -----

  /** A channel carries at most one message, so capacity one never lags; a caller that returned with a
      result is one that subscribed before the send, and it has that download's result; a caller that
      returned with an error subscribed after the send, is not the leader, and the leader has returned. */
  lemma DeliveryIsExact(s: State, i: nat)
    requires Reachable(s) && At(s, i) && s.callers[i].pc.Returned?
    ensures var pc := s.callers[i].pc;
      && pc.chan < |s.channels|
      && var ch := s.channels[pc.chan];
         && ch.digest == s.callers[i].digest && |ch.log| <= 1 && !pc.reply.Lagged?
         && (pc.early <==> pc.reply.Got?)
         && (pc.early ==> ch.result.Some? && SameOutcome(ch.result.value, pc.reply.outcome))
         && (!pc.early ==> pc.reply.Closed? && i != ch.leader && At(s, ch.leader) &&
                           s.callers[ch.leader].pc.Returned? && s.callers[ch.leader].pc.early)
  {
    ReachableInv(s);
    assert CallerOk(s, i);
    var ch := s.channels[s.callers[i].pc.chan];
    assert ChannelOk(s, s.callers[i].pc.chan);
    assert CallerOk(s, ch.leader);
  }

  /** Cloning keeps an error as it is or makes it a cache error with its text; cloning again changes nothing. */
  lemma ClonedErrors(e: Error)
    ensures e.Config? || e.Tls? || e.Cache? || e.Registry? ==> CloneError(e) == e
    ensures e.Io? || e.Http? || e.Serialization? ==> CloneError(e) == Cache(e.debug)
    ensures CloneError(CloneError(e)) == CloneError(e)
  {
  }

  /** A caller that subscribed in time receives the download's result itself if it is the last to hold it or if it is
      no error, and otherwise a clone of the error. */
  lemma ReceivedIsExact(s: State, i: nat, last: bool)
    requires Reachable(s) && Enabled(s, Receive(i, last)) && s.callers[i].pc.early
    ensures var c := s.callers[i].pc.chan;
      var pc := Step(s, Receive(i, last)).callers[i].pc;
      && s.channels[c].result.Some? && pc.Returned?
      && var sent := s.channels[c].result.value;
         pc.reply == Got(if sent.Err? && !last then Err(CloneError(sent.error)) else sent)
  {
    ReachableInv(s);
    assert CallerOk(s, i);
    assert ChannelOk(s, s.callers[i].pc.chan);
  }

  // ----- progress -----

  // Work left for a caller before it returns, counting the task it may have to start.
  function PcRank(pc: Pc): nat {
    match pc
    case Start => 9
    case NeedTx => 4
    case HasTx(_) => 3
    case Spawned(_) => 2
    case Waiting(_, _, _) => 1
    case Returned(_, _, _) => 0
    case Panicked => 0
  }

  function TaskRank(p: Phase): nat {
    if p.Unspawned? then 4 else 5 - Progress(p)
  }

  function CallersLeft(callers: seq<Caller>): nat {
    if callers == [] then 0 else PcRank(callers[|callers| - 1].pc) + CallersLeft(callers[..|callers| - 1])
  }

  function TasksLeft(channels: seq<Channel>): nat {
    if channels == [] then 0
    else TaskRank(channels[|channels| - 1].phase) + TasksLeft(channels[..|channels| - 1])
  }

  lemma {:induction false} CallersLeftUpdate(callers: seq<Caller>, i: nat, caller: Caller)
    requires i < |callers|
    ensures CallersLeft(callers[i := caller]) == CallersLeft(callers) - PcRank(callers[i].pc) + PcRank(caller.pc)
  {
    var n := |callers| - 1;
    if i < n {
      assert callers[i := caller][..n] == callers[..n][i := caller];
      CallersLeftUpdate(callers[..n], i, caller);
    } else {
      assert callers[i := caller][..n] == callers[..n];
    }
  }

  lemma {:induction false} TasksLeftUpdate(channels: seq<Channel>, c: nat, ch: Channel)
    requires c < |channels|
    ensures TasksLeft(channels[c := ch]) == TasksLeft(channels) - TaskRank(channels[c].phase) + TaskRank(ch.phase)
  {
    var n := |channels| - 1;
    if c < n {
      assert channels[c := ch][..n] == channels[..n][c := ch];
      TasksLeftUpdate(channels[..n], c, ch);
    } else {
      assert channels[c := ch][..n] == channels[..n];
    }
  }

  function WorkLeft(s: State): nat {
    CallersLeft(s.callers) + TasksLeft(s.channels)
  }

  lemma TaskActionWorks(s: State, a: Action)
    requires TaskAction(a) && Enabled(s, a) && ChannelOk(s, a.c)
    ensures WorkLeft(Step(s, a)) < WorkLeft(s)
  {
    var s' := Step(s, a);
    TasksLeftUpdate(s.channels, a.c, s'.channels[a.c]);
    assert s'.channels == s.channels[a.c := s'.channels[a.c]];
  }

  lemma InsertWorks(s: State, a: Action)
    requires a.Enter? && Enabled(s, a) && s.callers[a.i].digest !in s.inFlight
    ensures WorkLeft(Step(s, a)) < WorkLeft(s)
  {
    var s' := Step(s, a);
    CallersLeftUpdate(s.callers, a.i, s'.callers[a.i]);
    assert s'.callers == s.callers[a.i := s'.callers[a.i]];
    assert s'.channels[..|s.channels|] == s.channels;
  }

  lemma TxActionWorks(s: State, a: Action)
    requires TxAction(a) && Enabled(s, a) && CallerOk(s, a.i)
    ensures WorkLeft(Step(s, a)) < WorkLeft(s)
  {
    var s', c := Step(s, a), s.callers[a.i].pc.chan;
    CallersLeftUpdate(s.callers, a.i, s'.callers[a.i]);
    TasksLeftUpdate(s.channels, c, s'.channels[c]);
    assert s'.callers == s.callers[a.i := s'.callers[a.i]];
    assert s'.channels == s.channels[c := s'.channels[c]];
  }

  lemma LookupWorks(s: State, a: Action)
    requires LockAction(a) && Enabled(s, a) && CallerOk(s, a.i) && s.callers[a.i].digest in s.inFlight
    ensures WorkLeft(Step(s, a)) < WorkLeft(s)
  {
    var s', c := Step(s, a), s.inFlight[s.callers[a.i].digest];
    CallersLeftUpdate(s.callers, a.i, s'.callers[a.i]);
    TasksLeftUpdate(s.channels, c, s'.channels[c]);
    assert s'.callers == s.callers[a.i := s'.callers[a.i]];
    assert s'.channels == s.channels[c := s'.channels[c]];
  }

  lemma CallerActionWorks(s: State, a: Action)
    requires (LockAction(a) || TxAction(a)) && Enabled(s, a) && CallerOk(s, a.i)
    ensures WorkLeft(Step(s, a)) < WorkLeft(s)
  {
    if TxAction(a) {
      TxActionWorks(s, a);
    } else if s.callers[a.i].digest in s.inFlight {
      LookupWorks(s, a);
    } else {
      InsertWorks(s, a);
    }
  }

  lemma StepWorks(s: State, a: Action)
    requires Inv(s) && Enabled(s, a)
    ensures if a.Arrive? then WorkLeft(Step(s, a)) == WorkLeft(s) + 9 else WorkLeft(Step(s, a)) < WorkLeft(s)
  {
    if a.Arrive? {
      assert Step(s, a).callers[..|s.callers|] == s.callers;
    } else if TaskAction(a) {
      TaskActionWorks(s, a);
    } else {
      CallerActionWorks(s, a);
    }
  }

  function Arrivals(acts: seq<Action>): nat
    decreases |acts|
  {
    if acts == [] then 0 else (if acts[0].Arrive? then 1 else 0) + Arrivals(acts[1..])
  }

  /** No run goes on for ever: each arrival is worth at most nine further actions. */
  lemma {:induction false} RunsAreBounded(s: State, acts: seq<Action>)
    requires Inv(s) && Exec(s, acts).Some?
    ensures |acts| <= 10 * Arrivals(acts) + WorkLeft(s)
    decreases |acts|
  {
    if acts != [] {
      InvStep(s, acts[0]);
      StepWorks(s, acts[0]);
      RunsAreBounded(Step(s, acts[0]), acts[1..]);
    }
  }

  ghost predicate Quiescent(s: State) {
    forall a: Action | !a.Arrive? :: !Enabled(s, a)
  }

  // How a caller's wait ends, given when it and its leader subscribed.
  predicate Settled(s: State, i: nat)
    requires At(s, i)
  {
    var pc := s.callers[i].pc;
    && (pc.Returned? || pc.Waiting?) && pc.chan < |s.channels|
    && var ch := s.channels[pc.chan];
       && At(s, ch.leader)
       && var leader := s.callers[ch.leader].pc;
          && (leader.Returned? || leader.Waiting?)
          && if pc.early then pc.Returned? && pc.reply.Got? && ch.result.Some? && SameOutcome(ch.result.value, pc.reply.outcome)
             else if leader.early then pc.Returned? && pc.reply.Closed?
             else pc.Waiting?
  }

  predicate CallerFinal(s: State, i: nat)
    requires At(s, i)
  {
    var pc := s.callers[i].pc;
    || pc.Returned?
    || (pc.Waiting? && pc.chan < |s.channels| &&
        pc.cursor >= |s.channels[pc.chan].log| && s.channels[pc.chan].senders != {})
  }

  lemma QuiescentCaller(s: State, i: nat)
    requires Inv(s) && Quiescent(s) && At(s, i)
    ensures CallerFinal(s, i)
  {
    assert CallerOk(s, i);
    assert !Enabled(s, Enter(i)) && !Enabled(s, Fetch(i)) && !Enabled(s, Spawn(i)) && !Enabled(s, Subscribe(i));
    assert !Enabled(s, Receive(i, true));
  }

  lemma QuiescentChannel(s: State, c: nat)
    requires Inv(s) && Quiescent(s) && c < |s.channels|
    ensures s.channels[c].phase.Finished?
  {
    assert !Enabled(s, Download(c, Ok([]))) && !Enabled(s, Send(c)) && !Enabled(s, Remove(c)) && !Enabled(s, Finish(c));
    assert ChannelOk(s, c);
    QuiescentCaller(s, s.channels[c].leader);
  }

  lemma QuiescentSettled(s: State, i: nat)
    requires Inv(s) && Quiescent(s) && At(s, i)
    ensures Settled(s, i)
  {
    assert CallerOk(s, i);
    QuiescentCaller(s, i);
    var c := s.callers[i].pc.chan;
    var leader := s.channels[c].leader;
    assert ChannelOk(s, c) && CallerOk(s, leader);
    QuiescentCaller(s, leader);
    QuiescentChannel(s, c);
    if s.callers[i].pc.Waiting? {
      var h :| h in s.channels[c].senders;
      assert h == LeaderTx;
    }
  }

  /** When nothing more can happen the map is empty and every task has ended.  Every caller that subscribed
      before its download's send has that download's result; one that subscribed after it has an error if
      the leader was in time, and waits for ever if the leader itself was late. */
  lemma QuiescentOutcomes(s: State)
    requires Reachable(s) && Quiescent(s)
    ensures s.inFlight == map[]
    ensures forall c | 0 <= c < |s.channels| :: s.channels[c].phase.Finished?
    ensures forall i | 0 <= i < |s.callers| :: Settled(s, i)
  {
    ReachableInv(s);
    forall c | 0 <= c < |s.channels| ensures s.channels[c].phase.Finished? && ChannelOk(s, c) { QuiescentChannel(s, c); }
    forall i | 0 <= i < |s.callers| ensures Settled(s, i) { QuiescentSettled(s, i); }
  }

  // Caller i leads its channel and subscribed only after its own task's send.
  predicate LateLeader(s: State, i: nat) {
    && At(s, i) && s.callers[i].pc.Waiting? && !s.callers[i].pc.early
    && s.callers[i].pc.chan < |s.channels| && s.channels[s.callers[i].pc.chan].leader == i
  }

  lemma LateLeaderStep(s: State, a: Action, i: nat)
    requires LateLeader(s, i) && Enabled(s, a) && CallerOk(s, i) && ChannelOk(s, s.callers[i].pc.chan)
    ensures LateLeader(Step(s, a), i) && Step(s, a).callers[i] == s.callers[i]
  {
  }

  /** The wait of a late leader never ends, whatever happens next. */
  lemma {:induction false} LateLeaderWaitsForever(s: State, acts: seq<Action>, i: nat)
    requires Inv(s) && LateLeader(s, i) && Exec(s, acts).Some?
    ensures At(Exec(s, acts).value, i) && Exec(s, acts).value.callers[i] == s.callers[i]
    decreases |acts|
  {
    if acts != [] {
      InvStep(s, acts[0]);
      assert ChannelOk(s, s.callers[i].pc.chan) && CallerOk(s, i);
      LateLeaderStep(s, acts[0], i);
      LateLeaderWaitsForever(Step(s, acts[0]), acts[1..], i);
    }
  }

  /** Such a leader exists, even with no other caller: its download returned and it never will. */
  lemma LoneLeaderCanMissItsOwnDownload(d: string, o: Outcome) returns (s: State)
    ensures Reachable(s) && |s.callers| == |s.channels| == 1
    ensures s.callers[0].digest == d && s.channels[0].result == Some(o)
    ensures forall acts | Exec(s, acts).Some? :: At(Exec(s, acts).value, 0) && Exec(s, acts).value.callers[0].pc.Waiting?
  {
    var ch := Channel(d, 0, Phase.Unspawned, None, [], {MapEntry}, {});
    var all := {MapEntry} + {LeaderTx} + {TaskTx};
    assert Exec(INIT, []) == Some(INIT);
    var s1 := ReachableStep(INIT, Arrive(d));
    assert s1 == State(map[], [], [Caller(d, Start)]);
    var s2 := ReachableStep(s1, Enter(0));
    assert s2 == State(map[d := 0], [ch], [Caller(d, NeedTx)]);
    var s3 := ReachableStep(s2, Fetch(0));
    assert s3 == State(map[d := 0], [ch.(senders := {MapEntry} + {LeaderTx})], [Caller(d, HasTx(0))]);
    var s4 := ReachableStep(s3, Spawn(0));
    assert s4 == State(map[d := 0], [ch.(senders := all, phase := Phase.Running)], [Caller(d, Spawned(0))]);
    s := LateSubscription(s4, d, o);
    ReachableInv(s);
    forall acts | Exec(s, acts).Some?
      ensures At(Exec(s, acts).value, 0) && Exec(s, acts).value.callers[0].pc.Waiting?
    {
      LateLeaderWaitsForever(s, acts, 0);
    }
  }

  lemma LateSubscription(s4: State, d: string, o: Outcome) returns (s: State)
    requires Reachable(s4) && s4.callers == [Caller(d, Spawned(0))] && |s4.channels| == 1
    requires var ch := s4.channels[0]; ch.phase == Phase.Running && ch.leader == 0 && ch.log == [] && ch.receivers == {}
    ensures Reachable(s) && |s.callers| == |s.channels| == 1 && LateLeader(s, 0)
    ensures s.callers[0].digest == d && s.channels[0].result == Some(o)
  {
    var s5 := ReachableStep(s4, Download(0, o));
    var s6 := ReachableStep(s5, Send(0));
    s := ReachableStep(s6, Subscribe(0));
  }
}
