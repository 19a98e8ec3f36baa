/**
 Mirror statistics: what `record_success`, `record_error` and `update_stats` make of a history of requests,
 and the adaptive selection that ranks mirrors by score.  Floating point is modelled by reals.
 */
module MirrorStats {
  import opened Wrappers
  import opened StableSort

  const ALPHA: real := 0.3
  const DEFAULT_INITIAL_RTT_MS: real := 1000.0
  const DEFAULT_MIRROR_SCORE: real := 1000.0
  const ERROR_PENALTY_MS: real := 1000.0
  const MAX_ADAPTIVE_MIRRORS: nat := 3

  datatype Stats = Stats(rtt: real, throughput: real, errors: nat, successes: nat)

  const DEFAULT_STATS := Stats(DEFAULT_INITIAL_RTT_MS, 0.0, 0, 0)

  // One request to a mirror: a success with or without a full measurement, or an error.
  datatype Sample = Measured(rtt: real, bytes: nat, secs: real) | Unmeasured | Failure

  // `update_stats` measures only when round-trip time, bytes and duration are all given.
  function SampleOf(success: bool, rtt: Option<real>, bytes: Option<nat>, secs: Option<real>): Sample {
    if !success then Failure
    else if rtt.Some? && bytes.Some? && secs.Some? then Measured(rtt.value, bytes.value, secs.value)
    else Unmeasured
  }

  function After(s: Stats, sample: Sample): Stats {
    match sample
    case Measured(rtt, bytes, secs) =>
      Stats(ALPHA * rtt + (1.0 - ALPHA) * s.rtt,
            if secs > 0.0 then ALPHA * (bytes as real / secs) + (1.0 - ALPHA) * s.throughput else s.throughput,
            if s.errors > 0 then s.errors - 1 else 0,
            s.successes + 1)
    case Unmeasured => s.(successes := s.successes + 1)
    case Failure => s.(errors := s.errors + 1)
  }

  function History(samples: seq<Sample>): Stats {
    if samples == [] then DEFAULT_STATS
    else After(History(samples[..|samples| - 1]), samples[|samples| - 1])
  }

  function Score(s: Stats): real {
    var rttWithPenalty := s.rtt + s.errors as real * ERROR_PENALTY_MS;
    if rttWithPenalty <= 0.0 then 0.0 else s.throughput / (rttWithPenalty + 1.0)
  }

  /** A success counts as one whether it is measured or not, never raises the error count, and moves the averages
      only if round trip, bytes and time are all known; a failure only adds an error. */
  lemma SampleCounts(s: Stats, success: bool, rtt: Option<real>, bytes: Option<nat>, secs: Option<real>)
    ensures var t := After(s, SampleOf(success, rtt, bytes, secs));
      if !success then t == s.(errors := s.errors + 1)
      else
        && t.successes == s.successes + 1
        && (rtt.None? || bytes.None? || secs.None? ==> t == s.(successes := s.successes + 1))
        && (rtt.Some? && bytes.Some? && secs.Some? ==>
              t.rtt == 0.3 * rtt.value + 0.7 * s.rtt && t.errors == if s.errors == 0 then 0 else s.errors - 1)
  {
  }

  // ----- the error count over a history -----

  function Weight(sample: Sample): int {
    match sample
    case Measured(_, _, _) => -1
    case Unmeasured => 0
    case Failure => 1
  }

  // Errors minus fully measured successes.
  function Balance(samples: seq<Sample>): int {
    if samples == [] then 0 else Balance(samples[..|samples| - 1]) + Weight(samples[|samples| - 1])
  }

  /** The error count is the largest balance of any suffix of the history, the empty one included. */
  lemma {:induction false} ErrorCountIsWorstSuffix(samples: seq<Sample>)
    ensures exists i :: 0 <= i <= |samples| && Balance(samples[i..]) == History(samples).errors
    ensures forall i | 0 <= i <= |samples| :: Balance(samples[i..]) <= History(samples).errors
  {
    var n := |samples| - 1;
    if n >= 0 {
      var front, last := samples[..n], samples[n];
      ErrorCountIsWorstSuffix(front);
      forall i | 0 <= i <= n ensures Balance(samples[i..]) == Balance(front[i..]) + Weight(last) {
        assert samples[i..][..|samples[i..]| - 1] == front[i..];
      }
      var best :| 0 <= best <= n && Balance(front[best..]) == History(front).errors;
      assert Balance(samples[best..]) == History(front).errors + Weight(last);
      assert samples[|samples|..] == [];
      assert Balance(samples[|samples|..]) == 0;
      assert History(samples).errors == if History(front).errors + Weight(last) > 0 then History(front).errors + Weight(last) else 0;
    } else {
      assert Balance(samples[0..]) == 0;
    }
  }

  // ----- the round-trip average over a history -----

  function Rtts(samples: seq<Sample>): seq<real> {
    if samples == [] then []
    else
      var last := samples[|samples| - 1];
      Rtts(samples[..|samples| - 1]) + if last.Measured? then [last.rtt] else []
  }

  function Pow(x: real, n: nat): real {
    if n == 0 then 1.0 else x * Pow(x, n - 1)
  }

  // The first `m` of `n` observations, each weighted by how long ago it was made.
  function WeightedSum(rtts: seq<real>, n: nat, m: nat): real
    requires m <= n && m <= |rtts|
  {
    if m == 0 then 0.0
    else WeightedSum(rtts, n, m - 1) + 0.3 * Pow(0.7, n - m) * rtts[m - 1]
  }

  lemma {:induction false} WeightsDecay(rtts: seq<real>, more: seq<real>, n: nat, m: nat)
    requires m <= n && m <= |rtts| && rtts <= more
    ensures WeightedSum(more, n + 1, m) == 0.7 * WeightedSum(rtts, n, m)
  {
    if m > 0 {
      WeightsDecay(rtts, more, n, m - 1);
      var p := Pow(0.7, n - m);
      assert Pow(0.7, n + 1 - m) == 0.7 * p;
    }
  }

  /** The moving average is the weighted sum of the initial value and every measured round trip. */
  lemma {:induction false} RttInClosedForm(samples: seq<Sample>)
    ensures var rtts := Rtts(samples); var n := |rtts|;
      History(samples).rtt == Pow(0.7, n) * 1000.0 + WeightedSum(rtts, n, n)
  {
    if samples != [] {
      var front, last := samples[..|samples| - 1], samples[|samples| - 1];
      RttInClosedForm(front);
      if last.Measured? {
        var before := Rtts(front);
        var n := |before|;
        var now := Rtts(samples);
        assert now == before + [last.rtt];
        WeightsDecay(before, now, n, n);
        assert WeightedSum(now, n + 1, n + 1) == WeightedSum(now, n + 1, n) + 0.3 * 1.0 * last.rtt;
      } else {
        assert Rtts(samples) == Rtts(front);
      }
    }
  }

  /** The average stays between any bounds on the initial value and the observations. */
  lemma {:induction false} RttStaysWithin(samples: seq<Sample>, low: real, high: real)
    requires low <= DEFAULT_INITIAL_RTT_MS <= high
    requires forall s: Sample | s in samples && s.Measured? :: low <= s.rtt <= high
    ensures low <= History(samples).rtt <= high
  {
    if samples != [] {
      var front, last := samples[..|samples| - 1], samples[|samples| - 1];
      RttStaysWithin(front, low, high);
      assert last in samples;
    }
  }

  // The rates of the measurements that took time.
  function Rates(samples: seq<Sample>): seq<real> {
    if samples == [] then []
    else
      var last := samples[|samples| - 1];
      Rates(samples[..|samples| - 1]) + if last.Measured? && last.secs > 0.0 then [last.bytes as real / last.secs] else []
  }

  /** The throughput is the same weighted sum over the measured rates, from zero. */
  lemma {:induction false} ThroughputInClosedForm(samples: seq<Sample>)
    ensures var rates := Rates(samples); History(samples).throughput == WeightedSum(rates, |rates|, |rates|)
  {
    if samples != [] {
      var front, last := samples[..|samples| - 1], samples[|samples| - 1];
      ThroughputInClosedForm(front);
      var before, now := Rates(front), Rates(samples);
      var n := |before|;
      if last.Measured? && last.secs > 0.0 {
        assert now == before + [last.bytes as real / last.secs];
        WeightsDecay(before, now, n, n);
        assert WeightedSum(now, n + 1, n + 1) == WeightedSum(now, n + 1, n) + 0.3 * 1.0 * now[n];
      } else {
        assert now == before;
      }
    }
  }

  function Successes(samples: seq<Sample>): nat {
    if samples == [] then 0
    else Successes(samples[..|samples| - 1]) + if samples[|samples| - 1].Failure? then 0 else 1
  }

  /** Every success is counted, measured or not. */
  lemma {:induction false} SuccessesAreCounted(samples: seq<Sample>)
    ensures History(samples).successes == Successes(samples)
  {
    if samples != [] {
      SuccessesAreCounted(samples[..|samples| - 1]);
    }
  }

  lemma {:induction false} RttStaysPositive(samples: seq<Sample>)
    requires forall s: Sample | s in samples && s.Measured? :: s.rtt >= 0.0
    ensures History(samples).rtt > 0.0
  {
    if samples != [] {
      RttStaysPositive(samples[..|samples| - 1]);
      assert samples[|samples| - 1] in samples;
    }
  }

  /** For every reachable average and positive throughput, more errors mean a strictly lower score, and an error
      counts like one more second of round trip. */
  lemma ScoreFallsWithErrors(samples: seq<Sample>, few: nat, many: nat)
    requires forall s: Sample | s in samples && s.Measured? :: s.rtt >= 0.0
    requires History(samples).throughput > 0.0 && few < many
    ensures Score(History(samples).(errors := many)) < Score(History(samples).(errors := few))
    ensures Score(History(samples).(errors := many)) > 0.0
    ensures var s := History(samples); Score(s.(errors := few + 1)) == Score(s.(errors := few, rtt := s.rtt + 1000.0))
  {
    RttStaysPositive(samples);
    var s := History(samples);
    ScoreFallsWithTime(s.(errors := few), s.(errors := many));
  }

  /** With the same throughput the mirror with the longer round trip, errors included, scores strictly lower. */
  lemma ScoreFallsWithTime(a: Stats, b: Stats)
    requires a.throughput == b.throughput > 0.0
    requires 0.0 < a.rtt + a.errors as real * 1000.0 < b.rtt + b.errors as real * 1000.0
    ensures 0.0 < Score(b) < Score(a)
  {
    QuotientFalls(a.throughput, a.rtt + a.errors as real * 1000.0 + 1.0, b.rtt + b.errors as real * 1000.0 + 1.0);
  }

  /** The score is in proportion to the throughput, and the throughput itself for a round trip of no time. */
  lemma ScoreIsProportional(s: Stats, factor: real)
    requires s.rtt + s.errors as real * 1000.0 > 0.0
    ensures Score(s.(throughput := factor * s.throughput)) == factor * Score(s)
    ensures Score(s) * (s.rtt + s.errors as real * 1000.0 + 1.0) == s.throughput
  {
    var d := s.rtt + s.errors as real * 1000.0 + 1.0;
    assert s.throughput / d * d == s.throughput;
    assert (factor * s.throughput) / d * d == factor * s.throughput;
    QuotientIs(factor * s.throughput, d, factor * (s.throughput / d));
  }

  lemma QuotientIs(t: real, d: real, q: real)
    requires d > 0.0 && q * d == t
    ensures t / d == q
  {
  }

  lemma QuotientFalls(t: real, a: real, b: real)
    requires t > 0.0 && 0.0 < a < b
    ensures 0.0 < t / b < t / a
  {
    var q := t / b;
    assert q * b == t;
    assert q > 0.0;
    assert (t / a - q) * a == q * (b - a);
  }

  // ----- the table of mirrors -----

  datatype Update = Update(mirror: string, sample: Sample)

  function Current(table: map<string, Stats>, mirror: string): Stats {
    if mirror in table then table[mirror] else DEFAULT_STATS
  }

  function Apply(table: map<string, Stats>, u: Update): map<string, Stats> {
    table[u.mirror := After(Current(table, u.mirror), u.sample)]
  }

  function ApplyAll(table: map<string, Stats>, updates: seq<Update>): map<string, Stats> {
    if updates == [] then table
    else Apply(ApplyAll(table, updates[..|updates| - 1]), updates[|updates| - 1])
  }

  function SamplesOf(updates: seq<Update>, mirror: string): seq<Sample> {
    if updates == [] then []
    else
      var last := updates[|updates| - 1];
      SamplesOf(updates[..|updates| - 1], mirror) + if last.mirror == mirror then [last.sample] else []
  }

  /** Each mirror's entry is the history of its own requests, whatever happened to the others. */
  lemma {:induction false} EntriesAreHistories(updates: seq<Update>, mirror: string)
    ensures Current(ApplyAll(map[], updates), mirror) == History(SamplesOf(updates, mirror))
    ensures mirror in ApplyAll(map[], updates) <==> SamplesOf(updates, mirror) != []
  {
    if updates != [] {
      var front, last := updates[..|updates| - 1], updates[|updates| - 1];
      EntriesAreHistories(front, mirror);
      var before := SamplesOf(front, mirror);
      if last.mirror == mirror {
        assert (before + [last.sample])[..|before|] == before;
      } else {
        assert SamplesOf(updates, mirror) == before;
      }
    }
  }

  // ----- adaptive selection -----

  type Scored = (nat, real)

  predicate NoWorse(a: Scored, b: Scored) {
    a.1 >= b.1
  }

  function ScoreOf(table: map<string, Stats>, mirror: string): real {
    if mirror in table then Score(table[mirror]) else DEFAULT_MIRROR_SCORE
  }

  function ScoreAll(mirrors: seq<string>, table: map<string, Stats>): seq<Scored> {
    seq(|mirrors|, i requires 0 <= i < |mirrors| => (i, ScoreOf(table, mirrors[i])))
  }

  function SelectAdaptive(mirrors: seq<string>, table: map<string, Stats>): seq<nat> {
    var scored := SortBy(NoWorse, ScoreAll(mirrors, table));
    var n := if MAX_ADAPTIVE_MIRRORS < |scored| then MAX_ADAPTIVE_MIRRORS else |scored|;
    seq(n, i requires 0 <= i < n => scored[i].0)
  }

  // A history without a measurement of time that passed.
  lemma {:induction false} UnmeasuredHasNoRate(samples: seq<Sample>)
    requires forall x: Sample | x in samples && x.Measured? :: x.secs <= 0.0
    ensures History(samples).throughput == 0.0
  {
    if samples != [] {
      var n := |samples| - 1;
      assert samples[n] in samples;
      UnmeasuredHasNoRate(samples[..n]);
    }
  }

  /** A mirror that was never asked scores 1000, and one that was asked but never measured scores nothing, so that one
      error puts it behind every mirror not asked yet. */
  lemma UnaskedMirrorsLead(updates: seq<Update>, mirror: string)
    ensures SamplesOf(updates, mirror) == [] ==> ScoreOf(ApplyAll(map[], updates), mirror) == 1000.0
    ensures SamplesOf(updates, mirror) != [] && (forall x: Sample | x in SamplesOf(updates, mirror) && x.Measured? :: x.secs <= 0.0) ==>
      ScoreOf(ApplyAll(map[], updates), mirror) == 0.0
  {
    EntriesAreHistories(updates, mirror);
    var samples := SamplesOf(updates, mirror);
    if samples != [] && forall x: Sample | x in samples && x.Measured? :: x.secs <= 0.0 {
      UnmeasuredHasNoRate(samples);
      NoRateNoScore(History(samples));
    }
  }

  lemma NoRateNoScore(s: Stats)
    requires s.throughput == 0.0 || s.rtt + s.errors as real * 1000.0 <= 0.0
    ensures Score(s) == 0.0
  {
  }

  // Mirror i ranks before mirror j: a higher score, or the same score and listed first.
  predicate RanksBefore(mirrors: seq<string>, table: map<string, Stats>, i: nat, j: nat)
    requires i < |mirrors| && j < |mirrors|
  {
    var a, b := ScoreOf(table, mirrors[i]), ScoreOf(table, mirrors[j]);
    a > b || (a == b && i < j)
  }

  lemma RankedInOrder(mirrors: seq<string>, table: map<string, Stats>)
    ensures var sorted := SortBy(NoWorse, ScoreAll(mirrors, table));
      && |sorted| == |mirrors|
      && (forall k | 0 <= k < |sorted| :: sorted[k].0 < |mirrors| && sorted[k].1 == ScoreOf(table, mirrors[sorted[k].0]))
      && (forall k, l | 0 <= k < l < |sorted| :: RanksBefore(mirrors, table, sorted[k].0, sorted[l].0))
  {
    var all := ScoreAll(mirrors, table);
    var sorted := SortBy(NoWorse, all);
    SortIsStable(NoWorse, (s: Scored) => s.0, all);
    assert |sorted| == |multiset(sorted)| == |multiset(all)| == |all|;
    forall k | 0 <= k < |sorted| ensures sorted[k].0 < |mirrors| && sorted[k].1 == ScoreOf(table, mirrors[sorted[k].0]) {
      assert sorted[k] in multiset(sorted);
      assert sorted[k] in all;
    }
    forall k, l | 0 <= k < l < |sorted| ensures RanksBefore(mirrors, table, sorted[k].0, sorted[l].0) {
      assert NoWorse(sorted[k], sorted[l]);
    }
  }

  lemma EveryMirrorIsRanked(mirrors: seq<string>, table: map<string, Stats>, j: nat) returns (m: nat)
    requires j < |mirrors|
    ensures var sorted := SortBy(NoWorse, ScoreAll(mirrors, table)); m < |sorted| && sorted[m].0 == j
  {
    var all := ScoreAll(mirrors, table);
    var sorted := SortBy(NoWorse, all);
    assert all[j] in multiset(all);
    assert all[j] in sorted;
    m :| m < |sorted| && sorted[m] == all[j];
  }

  /** Adaptive selection is a stable top three: distinct mirrors in rank order, and every mirror left out
      ranks after every mirror chosen. */
  lemma SelectionIsStableTopK(mirrors: seq<string>, table: map<string, Stats>)
    ensures var picked := SelectAdaptive(mirrors, table);
      && |picked| == (if |mirrors| < 3 then |mirrors| else 3)
      && (forall k | 0 <= k < |picked| :: picked[k] < |mirrors|)
      && (forall k, l | 0 <= k < l < |picked| :: RanksBefore(mirrors, table, picked[k], picked[l]))
      && (forall k, j | 0 <= k < |picked| && 0 <= j < |mirrors| && j !in picked ::
            RanksBefore(mirrors, table, picked[k], j))
  {
    RankedInOrder(mirrors, table);
    var picked := SelectAdaptive(mirrors, table);
    forall k, j | 0 <= k < |picked| && 0 <= j < |mirrors| && j !in picked
      ensures RanksBefore(mirrors, table, picked[k], j)
    {
      var m := EveryMirrorIsRanked(mirrors, table, j);
      assert forall i | 0 <= i < |picked| :: picked[i] in picked && picked[i] == SortBy(NoWorse, ScoreAll(mirrors, table))[i].0;
    }
  }

  // ----- the objects that hold them -----

  class MirrorEntry {
    var rtt: real
    var throughput: real
    var errors: nat
    var successes: nat

    constructor ()
      ensures View() == DEFAULT_STATS
    {
      rtt, throughput, errors, successes := DEFAULT_INITIAL_RTT_MS, 0.0, 0, 0;
    }

    function View(): Stats
      reads this
    {
      Stats(rtt, throughput, errors, successes)
    }

    method RecordSuccess(rttMs: real, bytes: nat, secs: real)
      modifies this
      ensures View() == After(old(View()), Measured(rttMs, bytes, secs))
    {
      rtt := ALPHA * rttMs + (1.0 - ALPHA) * rtt;
      if secs > 0.0 {
        var observed := bytes as real / secs;
        throughput := ALPHA * observed + (1.0 - ALPHA) * throughput;
      }
      successes := successes + 1;
      if errors > 0 {
        errors := errors - 1;
      }
    }

    method RecordError()
      modifies this
      ensures View() == After(old(View()), Failure)
    {
      errors := errors + 1;
    }

    method Record(success: bool, rttMs: Option<real>, bytes: Option<nat>, secs: Option<real>)
      modifies this
      ensures View() == After(old(View()), SampleOf(success, rttMs, bytes, secs))
    {
      if success {
        if rttMs.Some? && bytes.Some? && secs.Some? {
          RecordSuccess(rttMs.value, bytes.value, secs.value);
        } else {
          successes := successes + 1;
        }
      } else {
        RecordError();
      }
    }
  }

  datatype Strategy = Failover | Hedged | Striped | Adaptive

  function AllIndices(n: nat): seq<nat> {
    seq(n, i requires 0 <= i < n => i)
  }

  function Select(strategy: Strategy, mirrors: seq<string>, table: map<string, Stats>): seq<nat> {
    match strategy
    case Hedged => if |mirrors| >= 2 then [0, 1] else [0]
    case Adaptive => SelectAdaptive(mirrors, table)
    case _ => AllIndices(|mirrors|)
  }

  /** The strategies that do not rank mirrors take all of them in order, or with hedging the first two. */
  lemma UnrankedSelection(strategy: Strategy, mirrors: seq<string>, table: map<string, Stats>, k: nat)
    requires mirrors != [] && !strategy.Adaptive?
    ensures var picked := Select(strategy, mirrors, table);
      && |picked| == (if strategy.Hedged? && |mirrors| > 2 then 2 else |mirrors|)
      && (k < |picked| ==> picked[k] == k)
  {
  }

  class MirrorSelector {
    const strategy: Strategy
    var stats: map<string, MirrorEntry>

    constructor (strategy: Strategy)
      ensures Valid() && stats == map[] && this.strategy == strategy
    {
      this.strategy := strategy;
      stats := map[];
    }

    // No two mirrors share an entry.
    ghost predicate Valid()
      reads this
    {
      forall a, b | a in stats && b in stats && a != b :: stats[a] != stats[b]
    }

    ghost function Table(): map<string, Stats>
      reads this, stats.Values
    {
      map m | m in stats :: stats[m].View()
    }

    // The mirror's entry, created with the defaults when it has none.
    method EntryFor(mirror: string) returns (entry: MirrorEntry)
      requires Valid()
      modifies this
      ensures Valid() && mirror in stats && stats[mirror] == entry
      ensures stats == old(stats) || (mirror !in old(stats) && fresh(entry) && stats == old(stats)[mirror := entry])
      ensures entry.View() == Current(old(Table()), mirror)
    {
      if mirror !in stats {
        entry := new MirrorEntry();
        stats := stats[mirror := entry];
      } else {
        entry := stats[mirror];
      }
    }

    /** One update changes the named mirror's entry and no other. */
    method UpdateStats(mirror: string, success: bool, rtt: Option<real>, bytes: Option<nat>, secs: Option<real>)
      requires Valid()
      modifies this, stats.Values
      ensures Valid() && fresh(stats.Values - old(stats.Values))
      ensures Table() == Apply(old(Table()), Update(mirror, SampleOf(success, rtt, bytes, secs)))
    {
      ghost var before := stats;
      var entry := EntryFor(mirror);
      entry.Record(success, rtt, bytes, secs);
      assert forall m | m in before && m != mirror :: before[m] != entry;
    }
  }
}
