/**
 Racing mirrors (`race_mirrors`, the paths other than hedging): every raced mirror is asked at once, the
 answers arrive in any order, and the statistics are updated as they do.
 */
module MirrorRace {
  import opened Wrappers
  import opened MirrorStats

  // How one raced request ends.  Bytes are those of Content-Length, zero when it is missing.
  datatype Outcome =
    | Response(status: nat, bytes: nat, rtt: real, elapsed: real)
    | RequestFailed
    | Panicked

  predicate IsSuccess(o: Outcome) {
    o.Response? && 200 <= o.status < 300
  }

  predicate IsUnauthorized(o: Outcome) {
    o.Response? && o.status == 401
  }

  predicate IsOther(o: Outcome) {
    o.Response? && !IsSuccess(o) && !IsUnauthorized(o)
  }

  // The mirrors raced: all of them, or under the adaptive strategy those the selector picks.
  function Raced(mirrors: seq<string>, strategy: Strategy, selecting: Strategy, table: map<string, Stats>): seq<string>
    requires mirrors != []
  {
    if strategy.Adaptive? then
      var picked := Select(selecting, mirrors, table);
      SelectInRange(selecting, mirrors, table);
      seq(|picked|, i requires 0 <= i < |picked| => mirrors[picked[i]])
    else mirrors
  }

  lemma SelectInRange(selecting: Strategy, mirrors: seq<string>, table: map<string, Stats>)
    requires mirrors != []
    ensures var picked := Select(selecting, mirrors, table);
      0 < |picked| <= |mirrors| && forall i | 0 <= i < |picked| :: picked[i] < |mirrors|
  {
    SelectionIsStableTopK(mirrors, table);
  }

  // An order of completion: every raced request once.
  predicate Schedule(order: seq<nat>, n: nat) {
    && |order| == n
    && InRange(order, n)
    && multiset(order) == multiset(AllIndices(n))
  }

  // The outcomes as they arrive.
  function Arrivals(outcomes: seq<Outcome>, order: seq<nat>): seq<Outcome>
    requires Schedule(order, |outcomes|)
  {
    seq(|order|, i requires 0 <= i < |order| => outcomes[order[i]])
  }

  function Last(arrivals: seq<Outcome>, wanted: Outcome -> bool): (i: Option<nat>)
    ensures i.Some? ==> i.value < |arrivals| && wanted(arrivals[i.value]) &&
                        forall j | i.value < j < |arrivals| :: !wanted(arrivals[j])
    ensures i.None? ==> forall j | 0 <= j < |arrivals| :: !wanted(arrivals[j])
  {
    if arrivals == [] then None
    else if wanted(arrivals[|arrivals| - 1]) then Some(|arrivals| - 1)
    else Last(arrivals[..|arrivals| - 1], wanted)
  }

  // The arrival that is returned: the first success, else the first 401, else the last other response.
  function Winner(arrivals: seq<Outcome>): Option<nat> {
    var success := First(arrivals, IsSuccess);
    if success.Some? then success
    else
      var unauthorized := First(arrivals, IsUnauthorized);
      if unauthorized.Some? then unauthorized else Last(arrivals, IsOther)
  }

  datatype Answer = Answer(idx: nat, outcome: Outcome) | NoAnswer

  function AnswerOf(outcomes: seq<Outcome>, order: seq<nat>): Answer
    requires Schedule(order, |outcomes|)
  {
    var w := Winner(Arrivals(outcomes, order));
    if w.Some? then Answer(order[w.value], outcomes[order[w.value]]) else NoAnswer
  }

  lemma EveryOutcomeArrives(outcomes: seq<Outcome>, order: seq<nat>, k: nat) returns (i: nat)
    requires Schedule(order, |outcomes|) && k < |outcomes|
    ensures i < |order| && order[i] == k
  {
    assert AllIndices(|outcomes|)[k] == k;
    assert k in multiset(order);
    i :| i < |order| && order[i] == k;
  }

  predicate Any(outcomes: seq<Outcome>, wanted: Outcome -> bool) {
    exists k :: 0 <= k < |outcomes| && wanted(outcomes[k])
  }

  lemma ArrivesIff(outcomes: seq<Outcome>, order: seq<nat>, wanted: Outcome -> bool)
    requires Schedule(order, |outcomes|)
    ensures Any(Arrivals(outcomes, order), wanted) <==> Any(outcomes, wanted)
  {
    var arrivals := Arrivals(outcomes, order);
    if Any(outcomes, wanted) {
      var k :| 0 <= k < |outcomes| && wanted(outcomes[k]);
      var i := EveryOutcomeArrives(outcomes, order, k);
      assert wanted(arrivals[i]);
    }
    if Any(arrivals, wanted) {
      var i :| 0 <= i < |arrivals| && wanted(arrivals[i]);
      assert wanted(outcomes[order[i]]);
    }
  }

  // ----- what is answered -----

  predicate HasStatus(o: Outcome, low: nat, high: nat) {
    o.Response? && low <= o.status <= high
  }

  predicate AnyStatus(outcomes: seq<Outcome>, low: nat, high: nat) {
    exists k :: 0 <= k < |outcomes| && HasStatus(outcomes[k], low, high)
  }

  // The response of `idx` is the first to arrive with such a status.
  predicate FirstToArrive(outcomes: seq<Outcome>, order: seq<nat>, low: nat, high: nat, idx: nat)
    requires InRange(order, |outcomes|)
  {
    exists i :: 0 <= i < |order| && order[i] == idx && HasStatus(outcomes[order[i]], low, high)
                && forall j | 0 <= j < i :: !HasStatus(outcomes[order[j]], low, high)
  }

  // It is the last response to arrive.
  predicate LastToArrive(outcomes: seq<Outcome>, order: seq<nat>, idx: nat)
    requires InRange(order, |outcomes|)
  {
    exists i :: 0 <= i < |order| && order[i] == idx && outcomes[order[i]].Response?
                && forall j | i < j < |order| :: !outcomes[order[j]].Response?
  }

  // The first 2xx to arrive, else the first 401, else the last response there is.
  predicate RightAnswer(outcomes: seq<Outcome>, order: seq<nat>, answer: Answer)
    requires InRange(order, |outcomes|)
  {
    if answer.NoAnswer? then forall k | 0 <= k < |outcomes| :: !outcomes[k].Response?
    else
      && answer.idx < |outcomes| && answer.outcome == outcomes[answer.idx]
      && (if AnyStatus(outcomes, 200, 299) then FirstToArrive(outcomes, order, 200, 299, answer.idx)
          else if AnyStatus(outcomes, 401, 401) then FirstToArrive(outcomes, order, 401, 401, answer.idx)
          else LastToArrive(outcomes, order, answer.idx))
  }

  lemma AnyOfStatus(outcomes: seq<Outcome>, wanted: Outcome -> bool, low: nat, high: nat)
    requires forall o :: wanted(o) <==> HasStatus(o, low, high)
    ensures Any(outcomes, wanted) <==> AnyStatus(outcomes, low, high)
  {
    if Any(outcomes, wanted) {
      var k :| 0 <= k < |outcomes| && wanted(outcomes[k]);
      assert HasStatus(outcomes[k], low, high);
    }
    if AnyStatus(outcomes, low, high) {
      var k :| 0 <= k < |outcomes| && HasStatus(outcomes[k], low, high);
      assert wanted(outcomes[k]);
    }
  }

  lemma FirstArrives(outcomes: seq<Outcome>, order: seq<nat>, wanted: Outcome -> bool, low: nat, high: nat)
    requires Schedule(order, |outcomes|) && forall o :: wanted(o) <==> HasStatus(o, low, high)
    ensures var i := First(Arrivals(outcomes, order), wanted);
      && (i.Some? <==> AnyStatus(outcomes, low, high))
      && (i.Some? ==> FirstToArrive(outcomes, order, low, high, order[i.value]))
  {
    AnyOfStatus(outcomes, wanted, low, high);
    ArrivesIff(outcomes, order, wanted);
    var arrivals := Arrivals(outcomes, order);
    var i := First(arrivals, wanted);
    if i.Some? {
      assert arrivals[i.value] == outcomes[order[i.value]];
      forall j | 0 <= j < i.value ensures !HasStatus(outcomes[order[j]], low, high) {
        assert !wanted(arrivals[j]);
      }
    }
  }

  // With neither a 2xx nor a 401, every response is another.
  lemma LastArrives(outcomes: seq<Outcome>, order: seq<nat>)
    requires Schedule(order, |outcomes|) && !AnyStatus(outcomes, 200, 299) && !AnyStatus(outcomes, 401, 401)
    ensures var i := Last(Arrivals(outcomes, order), IsOther);
      && (i.Some? ==> LastToArrive(outcomes, order, order[i.value]))
      && (i.None? ==> forall k | 0 <= k < |outcomes| :: !outcomes[k].Response?)
  {
    var arrivals := Arrivals(outcomes, order);
    var i := Last(arrivals, IsOther);
    forall k | 0 <= k < |outcomes| ensures IsOther(outcomes[k]) <==> outcomes[k].Response? {
      assert !HasStatus(outcomes[k], 200, 299) && !HasStatus(outcomes[k], 401, 401);
    }
    if i.Some? {
      assert arrivals[i.value] == outcomes[order[i.value]];
      forall j | i.value < j < |order| ensures !outcomes[order[j]].Response? {
        assert !IsOther(arrivals[j]);
      }
    } else {
      ArrivesIff(outcomes, order, IsOther);
    }
  }

  /** In every order of completion the answer is the first 2xx to arrive, else the first 401, else the last response,
      and there is none only if no mirror responds. */
  lemma AnswerIsRight(outcomes: seq<Outcome>, order: seq<nat>)
    requires Schedule(order, |outcomes|)
    ensures RightAnswer(outcomes, order, AnswerOf(outcomes, order))
  {
    FirstArrives(outcomes, order, IsSuccess, 200, 299);
    FirstArrives(outcomes, order, IsUnauthorized, 401, 401);
    if !AnyStatus(outcomes, 200, 299) && !AnyStatus(outcomes, 401, 401) {
      LastArrives(outcomes, order);
    }
  }

  datatype Class = Won | NeedsAuth | Refused | Silent

  function ClassOf(a: Answer): Class {
    if a.NoAnswer? then Silent
    else if HasStatus(a.outcome, 200, 299) then Won
    else if HasStatus(a.outcome, 401, 401) then NeedsAuth
    else Refused
  }

  /** The class of the answer depends only on the outcomes: a 2xx if any mirror gives one, else a 401 if any
      does, else some other response if there is one, else an error. */
  lemma ClassIsScheduleIndependent(outcomes: seq<Outcome>, order: seq<nat>, answer: Answer)
    requires Schedule(order, |outcomes|) && RightAnswer(outcomes, order, answer)
    ensures ClassOf(answer) ==
      if AnyStatus(outcomes, 200, 299) then Won
      else if AnyStatus(outcomes, 401, 401) then NeedsAuth
      else if exists k :: 0 <= k < |outcomes| && outcomes[k].Response? then Refused
      else Silent
  {
  }

  // ----- statistics -----

  // The update an answer causes, if any: none for a 401 or a failed request.
  function UpdateFor(name: string, o: Outcome): seq<Update> {
    if IsSuccess(o) then [Update(name, Measured(o.rtt, o.bytes, o.elapsed))]
    else if IsOther(o) then [Update(name, Failure)]
    else []
  }

  predicate InRange(order: seq<nat>, n: nat) {
    forall i | 0 <= i < |order| :: order[i] < n
  }

  // The updates made from the k-th answer on, each to the mirror its index names in `names`.
  function UpdatesFrom(names: seq<string>, outcomes: seq<Outcome>, order: seq<nat>, k: nat): seq<Update>
    requires |outcomes| <= |names| && InRange(order, |outcomes|) && k <= |order|
    decreases |order| - k
  {
    if k == |order| then []
    else
      var o := outcomes[order[k]];
      UpdateFor(names[order[k]], o) + if IsSuccess(o) then [] else UpdatesFrom(names, outcomes, order, k + 1)
  }

  function Updates(names: seq<string>, outcomes: seq<Outcome>, order: seq<nat>): seq<Update>
    requires |outcomes| <= |names| && InRange(order, |outcomes|)
  {
    UpdatesFrom(names, outcomes, order, 0)
  }

  lemma OneMoreUpdate(names: seq<string>, outcomes: seq<Outcome>, order: seq<nat>, k: nat)
    requires |outcomes| <= |names| && InRange(order, |outcomes|) && k < |order|
    ensures var o := outcomes[order[k]];
      UpdatesFrom(names, outcomes, order, k) ==
        UpdateFor(names[order[k]], o) + if IsSuccess(o) then [] else UpdatesFrom(names, outcomes, order, k + 1)
  {
  }

  lemma SameNext(a: seq<string>, b: seq<string>, outcomes: seq<Outcome>, order: seq<nat>, k: nat)
    requires |outcomes| <= |a| && |outcomes| <= |b| && InRange(order, |outcomes|) && k < |order|
    requires a[order[k]] == b[order[k]] && UpdatesFrom(a, outcomes, order, k + 1) == UpdatesFrom(b, outcomes, order, k + 1)
    ensures UpdatesFrom(a, outcomes, order, k) == UpdatesFrom(b, outcomes, order, k)
  {
    OneMoreUpdate(a, outcomes, order, k);
    OneMoreUpdate(b, outcomes, order, k);
  }

  lemma {:induction false} SameNamesSameUpdates(a: seq<string>, b: seq<string>, outcomes: seq<Outcome>, order: seq<nat>, k: nat)
    requires |outcomes| <= |a| && |outcomes| <= |b| && InRange(order, |outcomes|) && k <= |order|
    requires forall i | 0 <= i < |outcomes| :: a[i] == b[i]
    ensures UpdatesFrom(a, outcomes, order, k) == UpdatesFrom(b, outcomes, order, k)
    decreases |order| - k
  {
    if k < |order| {
      SameNamesSameUpdates(a, b, outcomes, order, k + 1);
      SameNext(a, b, outcomes, order, k);
    }
  }

  // The i-th answer comes before the race is won, and is worth this update: its measurements for a 2xx, an error
  // for any other response but a 401.
  predicate Earns(names: seq<string>, outcomes: seq<Outcome>, order: seq<nat>, k: nat, i: nat, u: Update)
    requires |outcomes| <= |names| && InRange(order, |outcomes|) && k <= i < |order|
  {
    var o := outcomes[order[i]];
    && u.mirror == names[order[i]]
    && (forall j | k <= j < i :: !HasStatus(outcomes[order[j]], 200, 299))
    && (if HasStatus(o, 200, 299) then u.sample == Measured(o.rtt, o.bytes, o.elapsed)
        else o.Response? && o.status != 401 && u.sample == Failure)
  }

  /** The updates are exactly those the answers earn up to the first 2xx. */
  lemma {:induction false} UpdatesAreEarned(names: seq<string>, outcomes: seq<Outcome>, order: seq<nat>, k: nat, u: Update)
    requires |outcomes| <= |names| && InRange(order, |outcomes|) && k <= |order|
    ensures u in UpdatesFrom(names, outcomes, order, k) <==> exists i :: k <= i < |order| && Earns(names, outcomes, order, k, i, u)
    decreases |order| - k
  {
    if k < |order| {
      UpdatesAreEarned(names, outcomes, order, k + 1, u);
      var o, rest := outcomes[order[k]], UpdatesFrom(names, outcomes, order, k + 1);
      if u in UpdateFor(names[order[k]], o) {
        assert Earns(names, outcomes, order, k, k, u);
      } else if !IsSuccess(o) && u in rest {
        var i :| k + 1 <= i < |order| && Earns(names, outcomes, order, k + 1, i, u);
        assert Earns(names, outcomes, order, k, i, u);
      }
      if i :| k <= i < |order| && Earns(names, outcomes, order, k, i, u) {
        if i > k {
          assert !HasStatus(outcomes[order[k]], 200, 299);
          assert Earns(names, outcomes, order, k + 1, i, u);
        }
      }
    }
  }

  // Every update goes to the mirror that answered, however the race goes.
  ghost predicate Attributed(mirrors: seq<string>, raced: seq<string>)
    requires |raced| <= |mirrors|
  {
    forall outcomes, order | |outcomes| == |raced| && Schedule(order, |outcomes|) ::
      Updates(mirrors, outcomes, order) == Updates(raced, outcomes, order)
  }

  lemma RefusedFirst(names: seq<string>, outcomes: seq<Outcome>, order: seq<nat>, k: nat)
    requires |outcomes| <= |names| && InRange(order, |outcomes|) && k < |order| && IsOther(outcomes[order[k]])
    ensures UpdatesFrom(names, outcomes, order, k) == [Update(names[order[k]], Failure)] + UpdatesFrom(names, outcomes, order, k + 1)
  {
  }

  lemma {:induction false} AllRefused(names: seq<string>, outcomes: seq<Outcome>, order: seq<nat>, k: nat, i: nat)
    requires |outcomes| <= |names| && InRange(order, |outcomes|) && k + i < |order|
    requires forall j | 0 <= j < |outcomes| :: IsOther(outcomes[j])
    ensures i < |UpdatesFrom(names, outcomes, order, k)|
    ensures UpdatesFrom(names, outcomes, order, k)[i].mirror == names[order[k + i]]
    decreases i
  {
    RefusedFirst(names, outcomes, order, k);
    if i > 0 {
      AllRefused(names, outcomes, order, k + 1, i - 1);
    }
  }

  /** Statistics go to the mirrors that answered exactly when the raced list is a prefix of the configured
      one: the index into the raced list is used to name a configured mirror. */
  lemma AttributionIff(mirrors: seq<string>, raced: seq<string>)
    requires |raced| <= |mirrors|
    ensures Attributed(mirrors, raced) <==> raced <= mirrors
  {
    var n := |raced|;
    if raced <= mirrors {
      forall outcomes, order | |outcomes| == n && Schedule(order, |outcomes|)
        ensures Updates(mirrors, outcomes, order) == Updates(raced, outcomes, order)
      {
        SameNamesSameUpdates(mirrors, raced, outcomes, order, 0);
      }
    } else {
      var outcomes := seq(n, i => Response(500, 0, 0.0, 0.0));
      var order := AllIndices(n);
      var i :| 0 <= i < n && raced[i] != mirrors[i];
      AllRefused(mirrors, outcomes, order, 0, i);
      AllRefused(raced, outcomes, order, 0, i);
      assert Updates(mirrors, outcomes, order)[i].mirror != Updates(raced, outcomes, order)[i].mirror;
      assert !Attributed(mirrors, raced);
    }
  }

  // Each of the first three mirrors scores at least as high as every mirror listed after it.
  predicate LeadersFirst(mirrors: seq<string>, table: map<string, Stats>) {
    forall i, j | 0 <= i < 3 && i < j < |mirrors| ::
      ScoreOf(table, mirrors[i]) >= ScoreOf(table, mirrors[j])
  }

  lemma PicksDiffer(mirrors: seq<string>, table: map<string, Stats>, i: nat, k: nat)
    requires i < k < |SelectAdaptive(mirrors, table)|
    ensures SelectAdaptive(mirrors, table)[i] != SelectAdaptive(mirrors, table)[k]
  {
    SelectionIsStableTopK(mirrors, table);
    assert RanksBefore(mirrors, table, SelectAdaptive(mirrors, table)[i], SelectAdaptive(mirrors, table)[k]);
  }

  lemma {:induction false} PickedInPlace(mirrors: seq<string>, table: map<string, Stats>, k: nat)
    requires LeadersFirst(mirrors, table) && k < |SelectAdaptive(mirrors, table)|
    ensures SelectAdaptive(mirrors, table)[k] == k
    decreases k
  {
    var picked := SelectAdaptive(mirrors, table);
    SelectionIsStableTopK(mirrors, table);
    forall i: nat | i < k ensures picked[i] == i {
      PickedInPlace(mirrors, table, i);
    }
    var p := picked[k];
    if p < k {
      PicksDiffer(mirrors, table, p, k);
    }
    if k in picked {
      var l :| 0 <= l < |picked| && picked[l] == k;
      assert l > k ==> RanksBefore(mirrors, table, p, k);
    } else {
      assert RanksBefore(mirrors, table, p, k);
    }
  }

  lemma InPlaceMeansLeadersFirst(mirrors: seq<string>, table: map<string, Stats>)
    requires forall k | 0 <= k < |SelectAdaptive(mirrors, table)| :: SelectAdaptive(mirrors, table)[k] == k
    ensures LeadersFirst(mirrors, table)
  {
    var picked := SelectAdaptive(mirrors, table);
    SelectionIsStableTopK(mirrors, table);
    forall i, j | 0 <= i < 3 && i < j < |mirrors|
      ensures ScoreOf(table, mirrors[i]) >= ScoreOf(table, mirrors[j])
    {
      assert picked[i] == i;
      if j < |picked| {
        assert RanksBefore(mirrors, table, picked[i], picked[j]);
      } else {
        assert j !in picked;
        assert RanksBefore(mirrors, table, picked[i], j);
      }
    }
  }

  /** For distinct mirrors raced adaptively, statistics go to the mirrors that answered exactly when the first
      three are already in order of score and nothing listed later scores higher. */
  lemma AdaptiveAttributionIff(mirrors: seq<string>, table: map<string, Stats>)
    requires mirrors != [] && forall i, j | 0 <= i < j < |mirrors| :: mirrors[i] != mirrors[j]
    ensures var raced := Raced(mirrors, Adaptive, Adaptive, table);
      |raced| <= |mirrors| && (Attributed(mirrors, raced) <==> LeadersFirst(mirrors, table))
  {
    var raced, picked := Raced(mirrors, Adaptive, Adaptive, table), SelectAdaptive(mirrors, table);
    SelectInRange(Adaptive, mirrors, table);
    AttributionIff(mirrors, raced);
    if LeadersFirst(mirrors, table) {
      forall k: nat | k < |picked| ensures raced[k] == mirrors[k] {
        PickedInPlace(mirrors, table, k);
      }
    }
    if raced <= mirrors {
      assert forall k | 0 <= k < |picked| :: raced[k] == mirrors[picked[k]] && raced[k] == mirrors[k];
      InPlaceMeansLeadersFirst(mirrors, table);
    }
  }

  /** Adaptive racing loses the attribution after a single error: the first mirror then scores below the
      second, which is raced in its place. */
  lemma OneErrorMisattributes(a: string, b: string)
    requires a != b
    ensures var table := ApplyAll(map[], [Update(a, Failure)]);
      var raced := Raced([a, b], Adaptive, Adaptive, table);
      |raced| == 2 && raced[0] == b && !Attributed([a, b], raced)
  {
    var mirrors := [a, b];
    var updates := [Update(a, Failure)];
    assert updates[..0] == [];
    var table := ApplyAll(map[], updates);
    assert ApplyAll(map[], updates) == Apply(map[], updates[0]);
    assert table[a] == After(DEFAULT_STATS, Failure) && b !in table;
    assert ScoreOf(table, a) == 0.0 && ScoreOf(table, b) == DEFAULT_MIRROR_SCORE;
    SelectionIsStableTopK(mirrors, table);
    var raced := Raced(mirrors, Adaptive, Adaptive, table);
    var picked := SelectAdaptive(mirrors, table);
    assert RanksBefore(mirrors, table, picked[0], picked[1]);
    AttributionIff(mirrors, raced);
  }

  function Recorded(table: map<string, Stats>, name: string, o: Outcome): map<string, Stats> {
    if IsSuccess(o) then Apply(table, Update(name, Measured(o.rtt, o.bytes, o.elapsed)))
    else if IsOther(o) then Apply(table, Update(name, Failure))
    else table
  }

  // The table once every answer from the k-th on is recorded, up to the first success.
  function TableFrom(table: map<string, Stats>, names: seq<string>, outcomes: seq<Outcome>, order: seq<nat>, k: nat): map<string, Stats>
    requires |outcomes| <= |names| && InRange(order, |outcomes|) && k <= |order|
    decreases |order| - k
  {
    if k == |order| then table
    else
      var o := outcomes[order[k]];
      var next := Recorded(table, names[order[k]], o);
      if IsSuccess(o) then next else TableFrom(next, names, outcomes, order, k + 1)
  }

  lemma {:induction false} ApplyInTurn(table: map<string, Stats>, a: seq<Update>, b: seq<Update>)
    ensures ApplyAll(table, a + b) == ApplyAll(ApplyAll(table, a), b)
  {
    if b == [] {
      assert a + b == a;
    } else {
      assert (a + b)[..|a + b| - 1] == a + b[..|b| - 1];
      ApplyInTurn(table, a, b[..|b| - 1]);
    }
  }

  lemma RecordedIsApplied(table: map<string, Stats>, name: string, o: Outcome)
    ensures Recorded(table, name, o) == ApplyAll(table, UpdateFor(name, o))
  {
    assert UpdateFor(name, o) != [] ==> UpdateFor(name, o)[..0] == [];
  }

  lemma {:induction false} RecordingAppliesUpdates(table: map<string, Stats>, names: seq<string>, outcomes: seq<Outcome>, order: seq<nat>, k: nat)
    requires |outcomes| <= |names| && InRange(order, |outcomes|) && k <= |order|
    ensures TableFrom(table, names, outcomes, order, k) == ApplyAll(table, UpdatesFrom(names, outcomes, order, k))
    decreases |order| - k
  {
    if k < |order| {
      var name, o := names[order[k]], outcomes[order[k]];
      RecordedIsApplied(table, name, o);
      if IsSuccess(o) {
        assert UpdateFor(name, o) + [] == UpdateFor(name, o);
      } else {
        RecordingAppliesUpdates(Recorded(table, name, o), names, outcomes, order, k + 1);
        ApplyInTurn(table, UpdateFor(name, o), UpdatesFrom(names, outcomes, order, k + 1));
      }
    }
  }

  method RecordAnswer(selector: MirrorSelector, mirror: string, o: Outcome)
    requires selector.Valid()
    modifies selector, selector.stats.Values
    ensures selector.Valid() && fresh(selector.stats.Values - old(selector.stats.Values))
    ensures selector.Table() == Recorded(old(selector.Table()), mirror, o)
  {
    if IsSuccess(o) {
      selector.UpdateStats(mirror, true, Some(o.rtt), Some(o.bytes), Some(o.elapsed));
    } else if IsOther(o) {
      selector.UpdateStats(mirror, false, Some(o.rtt), None, None);
    }
  }

  /** The race: whatever the order of completion, it returns the right answer and records the updates made on the way.  Every index it uses is in range. */
  method RaceMirrors(mirrors: seq<string>, strategy: Strategy, selector: MirrorSelector,
                     outcomes: seq<Outcome>, order: seq<nat>) returns (answer: Answer)
    requires selector.Valid()
    requires mirrors != [] && !(strategy.Hedged? && |mirrors| >= 2)
    requires |outcomes| == |Raced(mirrors, strategy, selector.strategy, selector.Table())|
    requires Schedule(order, |outcomes|)
    modifies selector, selector.stats.Values
    ensures selector.Valid() && |outcomes| <= |mirrors|
    ensures selector.Table() == ApplyAll(old(selector.Table()), Updates(mirrors, outcomes, order))
    ensures RightAnswer(outcomes, order, answer)
  {
    AnswerIsRight(outcomes, order);
    SelectInRange(selector.strategy, mirrors, selector.Table());
    ghost var table := selector.Table();
    answer := AwaitAnswers(mirrors, selector, outcomes, order);
    RecordingAppliesUpdates(table, mirrors, outcomes, order, 0);
  }

  // The loop over the answers as they arrive.
  method AwaitAnswers(mirrors: seq<string>, selector: MirrorSelector, outcomes: seq<Outcome>, order: seq<nat>)
    returns (answer: Answer)
    requires selector.Valid()
    requires |outcomes| <= |mirrors| && Schedule(order, |outcomes|)
    modifies selector, selector.stats.Values
    ensures selector.Valid()
    ensures selector.Table() == TableFrom(old(selector.Table()), mirrors, outcomes, order, 0)
    ensures answer == AnswerOf(outcomes, order)
  {
    ghost var final := TableFrom(selector.Table(), mirrors, outcomes, order, 0);
    var lastResponse: Option<nat> := None;
    var authResponse: Option<nat> := None;
    var answered := 0;
    while answered < |order|
      invariant answered <= |order|
      invariant selector.Valid() && fresh(selector.stats.Values - old(selector.stats.Values))
      invariant TableFrom(selector.Table(), mirrors, outcomes, order, answered) == final
      invariant Scanned(outcomes, order, answered, authResponse, lastResponse)
    {
      var idx := order[answered];
      var o := outcomes[idx];
      RecordAnswer(selector, mirrors[idx], o);
      ScanOneMore(outcomes, order, answered, authResponse, lastResponse);
      if IsSuccess(o) {
        return Answer(idx, o);
      } else if IsUnauthorized(o) {
        if authResponse.None? {
          authResponse := Some(idx);
        }
      } else if IsOther(o) {
        lastResponse := Some(idx);
      }
      answered := answered + 1;
    }
    answer := StoredAnswer(outcomes, order, authResponse, lastResponse);
  }

  method StoredAnswer(outcomes: seq<Outcome>, order: seq<nat>, authResponse: Option<nat>, lastResponse: Option<nat>)
    returns (answer: Answer)
    requires Schedule(order, |outcomes|)
    requires Scanned(outcomes, order, |order|, authResponse, lastResponse)
    ensures answer == AnswerOf(outcomes, order)
  {
    assert Arrivals(outcomes, order)[..|order|] == Arrivals(outcomes, order);
    if authResponse.Some? {
      return Answer(authResponse.value, outcomes[authResponse.value]);
    }
    if lastResponse.Some? {
      return Answer(lastResponse.value, outcomes[lastResponse.value]);
    }
    return NoAnswer;
  }

  ghost function Named(i: Option<nat>, order: seq<nat>): Option<nat>
    requires i.Some? ==> i.value < |order|
  {
    if i.Some? then Some(order[i.value]) else None
  }

  // No success among the first k arrivals, and the two stored responses are the first 401 and the last other.
  ghost predicate Scanned(outcomes: seq<Outcome>, order: seq<nat>, k: nat, auth: Option<nat>, last: Option<nat>)
    requires Schedule(order, |outcomes|) && k <= |order|
  {
    var seen := Arrivals(outcomes, order)[..k];
    && First(seen, IsSuccess).None?
    && auth == Named(First(seen, IsUnauthorized), order)
    && last == Named(Last(seen, IsOther), order)
  }

  lemma ScanOneMore(outcomes: seq<Outcome>, order: seq<nat>, k: nat, auth: Option<nat>, last: Option<nat>)
    requires Schedule(order, |outcomes|) && k < |order| && Scanned(outcomes, order, k, auth, last)
    ensures var o := outcomes[order[k]];
      if IsSuccess(o) then AnswerOf(outcomes, order) == Answer(order[k], o)
      else Scanned(outcomes, order, k + 1,
                   if IsUnauthorized(o) && auth.None? then Some(order[k]) else auth,
                   if IsOther(o) then Some(order[k]) else last)
  {
    var arrivals := Arrivals(outcomes, order);
    var o := arrivals[k];
    assert arrivals[..k + 1] == arrivals[..k] + [o];
    FirstGrows(arrivals[..k], o, IsSuccess);
    FirstGrows(arrivals[..k], o, IsUnauthorized);
    LastGrows(arrivals[..k], o, IsOther);
    if IsSuccess(o) {
      FirstOfPrefix(arrivals, k + 1, IsSuccess);
    }
  }

  lemma {:induction false} FirstGrows(seen: seq<Outcome>, o: Outcome, wanted: Outcome -> bool)
    ensures First(seen + [o], wanted) ==
      if First(seen, wanted).Some? then First(seen, wanted) else if wanted(o) then Some(|seen|) else None
  {
    if seen == [] {
      assert seen + [o] == [o] && [o][1..] == [];
    } else {
      assert (seen + [o])[1..] == seen[1..] + [o];
      FirstGrows(seen[1..], o, wanted);
    }
  }

  lemma LastGrows(seen: seq<Outcome>, o: Outcome, wanted: Outcome -> bool)
    ensures Last(seen + [o], wanted) == if wanted(o) then Some(|seen|) else Last(seen, wanted)
  {
    assert (seen + [o])[..|seen|] == seen;
  }

  lemma {:induction false} FirstOfPrefix(arrivals: seq<Outcome>, k: nat, wanted: Outcome -> bool)
    requires k <= |arrivals| && First(arrivals[..k], wanted).Some?
    ensures First(arrivals, wanted) == First(arrivals[..k], wanted)
  {
    if !wanted(arrivals[0]) {
      assert arrivals[..k][1..] == arrivals[1..][..k - 1];
      FirstOfPrefix(arrivals[1..], k - 1, wanted);
    }
  }
}
