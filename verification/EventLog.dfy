/**
 The bounded log of pull events and the pull metrics.  A recorder takes its sequence number and pushes its event
 in two separate steps, so recorders may push in another order than they allocated.
 */
module EventLog {
  import opened Wrappers

  datatype Event = Event(sequence: nat, name: string)

  // ----- what a poll returns -----

  // The last events pushed, as many as fit.
  function Buffer(pushed: seq<Event>, capacity: nat): seq<Event> {
    if |pushed| <= capacity then pushed else pushed[|pushed| - capacity..]
  }

  function Newer(events: seq<Event>, cursor: nat): seq<Event> {
    if events == [] then []
    else
      var n := |events| - 1;
      Newer(events[..n], cursor) + if events[n].sequence > cursor then [events[n]] else []
  }

  function Poll(pushed: seq<Event>, capacity: nat, cursor: nat): seq<Event> {
    Newer(Buffer(pushed, capacity), cursor)
  }

  // The cursor of a client that has seen these events.
  function Highest(seen: seq<Event>): nat {
    if seen == [] then 0
    else
      var n := |seen| - 1;
      var h := Highest(seen[..n]);
      if seen[n].sequence > h then seen[n].sequence else h
  }

  lemma {:induction false} HighestIsHighest(seen: seq<Event>)
    ensures forall e | e in seen :: e.sequence <= Highest(seen)
  {
    if seen != [] {
      var n := |seen| - 1;
      HighestIsHighest(seen[..n]);
      assert forall e | e in seen :: e in seen[..n] || e == seen[n];
      if seen[n].sequence > Highest(seen[..n]) {
        assert seen[n] in seen;
      }
    }
  }

  lemma {:induction false} NewerOfBoth(a: seq<Event>, b: seq<Event>, cursor: nat)
    ensures Newer(a + b, cursor) == Newer(a, cursor) + Newer(b, cursor)
  {
    if b == [] {
      assert a + b == a;
    } else {
      assert (a + b)[..|a + b| - 1] == a + b[..|b| - 1];
      NewerOfBoth(a, b[..|b| - 1], cursor);
    }
  }

  predicate AllNewer(events: seq<Event>, cursor: nat) {
    forall e | e in events :: e.sequence > cursor
  }

  lemma {:induction false} NewerKeepsAllIff(events: seq<Event>, cursor: nat)
    ensures |Newer(events, cursor)| <= |events|
    ensures Newer(events, cursor) == events <==> AllNewer(events, cursor)
    ensures (forall e | e in events :: e.sequence <= cursor) ==> Newer(events, cursor) == []
  {
    if events != [] {
      var n := |events| - 1;
      NewerKeepsAllIff(events[..n], cursor);
      assert events == events[..n] + [events[n]];
      assert events[n] in events;
      assert AllNewer(events, cursor) <==> AllNewer(events[..n], cursor) && events[n].sequence > cursor;
    }
  }

  /** A client that has seen the first m pushes, and polls at n, gets exactly the pushes in between iff no more
      were made than the log holds and every one of them has a higher sequence than all it has seen. */
  lemma PollIsExactIff(pushed: seq<Event>, capacity: nat, m: nat, n: nat)
    requires m <= n <= |pushed|
    ensures Poll(pushed[..n], capacity, Highest(pushed[..m])) == pushed[m..n] <==>
      n - m <= capacity && AllNewer(pushed[m..n], Highest(pushed[..m]))
  {
    var cursor := Highest(pushed[..m]);
    var buffer := Buffer(pushed[..n], capacity);
    NewerKeepsAllIff(buffer, cursor);
    if n - m <= capacity {
      var low := if n <= capacity then 0 else n - capacity;
      assert buffer == pushed[low..m] + pushed[m..n];
      NewerOfBoth(pushed[low..m], pushed[m..n], cursor);
      HighestIsHighest(pushed[..m]);
      assert forall e | e in pushed[low..m] :: e in pushed[..m];
      NewerKeepsAllIff(pushed[low..m], cursor);
      NewerKeepsAllIff(pushed[m..n], cursor);
      assert [] + Newer(pushed[m..n], cursor) == Newer(pushed[m..n], cursor);
    }
  }

  // ----- a client that polls -----

  // Everything a client sees that polls when marks[0], marks[1], … events have been pushed.
  function Seen(pushed: seq<Event>, capacity: nat, marks: seq<nat>): seq<Event>
    requires forall i | 0 <= i < |marks| :: marks[i] <= |pushed|
  {
    if marks == [] then []
    else
      var n := |marks| - 1;
      var before := Seen(pushed, capacity, marks[..n]);
      before + Poll(pushed[..marks[n]], capacity, Highest(before))
  }

  predicate Ascending(marks: seq<nat>) {
    forall i, j | 0 <= i < j < |marks| :: marks[i] <= marks[j]
  }

  function Mark(marks: seq<nat>, i: nat): nat
    requires i <= |marks|
  {
    if i == 0 then 0 else marks[i - 1]
  }

  predicate KeepsUp(marks: seq<nat>, capacity: nat) {
    forall i | 0 <= i < |marks| :: marks[i] - Mark(marks, i) <= capacity
  }

  // Consecutive sequence numbers, the first following `low`.
  predicate RunFrom(events: seq<Event>, low: nat) {
    forall i | 0 <= i < |events| :: events[i].sequence == low + i + 1
  }

  // Pushed in the order of their sequence numbers, none missing.
  predicate InAllocationOrder(pushed: seq<Event>) {
    RunFrom(pushed, 0)
  }

  lemma {:induction false} HighestOfRun(events: seq<Event>, low: nat)
    requires RunFrom(events, low)
    ensures Highest(events) == if events == [] then 0 else low + |events|
  {
    if events != [] {
      HighestOfRun(events[..|events| - 1], low);
    }
  }

  lemma SuffixGrows(events: seq<Event>, k: nat)
    requires k < |events|
    ensures events[..|events| - 1][k..] + [events[|events| - 1]] == events[k..]
  {
  }

  lemma {:induction false} NewerOfRun(events: seq<Event>, low: nat, cursor: nat)
    requires RunFrom(events, low)
    ensures var k := Later(cursor, low) - low;
      Newer(events, cursor) == if k <= |events| then events[k..] else []
  {
    if events != [] {
      var n := |events| - 1;
      var k := Later(cursor, low) - low;
      NewerOfRun(events[..n], low, cursor);
      if k <= n {
        SuffixGrows(events, k);
      } else {
        assert events[n].sequence <= cursor;
      }
    }
  }

  function Later(a: nat, b: nat): nat {
    if a < b then b else a
  }

  // Where the buffer of n events starts.
  function Oldest(n: nat, capacity: nat): nat {
    if n <= capacity then 0 else n - capacity
  }

  lemma PollInOrder(pushed: seq<Event>, capacity: nat, m: nat)
    requires InAllocationOrder(pushed) && m <= |pushed|
    ensures Poll(pushed, capacity, m) == pushed[Later(m, Oldest(|pushed|, capacity))..]
  {
    var low := Oldest(|pushed|, capacity);
    assert Buffer(pushed, capacity) == pushed[low..];
    NewerOfRun(pushed[low..], low, m);
  }

  lemma {:induction false} HighestOfBoth(a: seq<Event>, b: seq<Event>)
    ensures Highest(a + b) == Later(Highest(a), Highest(b))
  {
    if b == [] {
      assert a + b == a;
    } else {
      assert (a + b)[..|a + b| - 1] == a + b[..|b| - 1];
      HighestOfBoth(a, b[..|b| - 1]);
    }
  }

  // What one poll adds for a client that is at m when n events have been pushed.
  lemma OnePoll(pushed: seq<Event>, capacity: nat, m: nat, before: seq<Event>, after: seq<Event>)
    requires InAllocationOrder(pushed) && m <= |pushed| && capacity >= 1
    requires Highest(before) == m && after == before + Poll(pushed, capacity, m)
    ensures Highest(after) == |pushed|
    ensures |after| - |before| <= |pushed| - m
    ensures |after| - |before| == |pushed| - m <==> |pushed| - m <= capacity
    ensures |pushed| - m <= capacity ==> after == before + pushed[m..]
  {
    var k := Later(m, Oldest(|pushed|, capacity));
    PollInOrder(pushed, capacity, m);
    HighestOfBoth(before, pushed[k..]);
    HighestOfRun(pushed[k..], k);
  }

  /** When events are pushed in allocation order, a client sees every event exactly once and in order iff it
      never lets more events be pushed between two polls than the log holds; otherwise some are lost. */
  lemma {:induction false} ClientSeesEachEventOnceIff(pushed: seq<Event>, capacity: nat, marks: seq<nat>)
    requires InAllocationOrder(pushed) && Ascending(marks) && capacity >= 1
    requires forall i | 0 <= i < |marks| :: marks[i] <= |pushed|
    ensures Highest(Seen(pushed, capacity, marks)) == Mark(marks, |marks|)
    ensures |Seen(pushed, capacity, marks)| <= Mark(marks, |marks|)
    ensures |Seen(pushed, capacity, marks)| == Mark(marks, |marks|) <==> KeepsUp(marks, capacity)
    ensures Seen(pushed, capacity, marks) == pushed[..Mark(marks, |marks|)] <==> KeepsUp(marks, capacity)
  {
    if marks != [] {
      var n := |marks| - 1;
      var front, m := marks[..n], Mark(marks, n);
      KeepsUpBefore(marks, capacity, n);
      ClientSeesEachEventOnceIff(pushed, capacity, front);
      var now := pushed[..marks[n]];
      OnePoll(now, capacity, m, Seen(pushed, capacity, front), Seen(pushed, capacity, marks));
      Extended(pushed, m, marks[n]);
    }
  }

  lemma Extended(pushed: seq<Event>, m: nat, n: nat)
    requires m <= n <= |pushed|
    ensures pushed[..m] + pushed[..n][m..] == pushed[..n]
  {
  }

  lemma KeepsUpBefore(marks: seq<nat>, capacity: nat, n: nat)
    requires n + 1 == |marks| && Ascending(marks)
    ensures Ascending(marks[..n]) && Mark(marks[..n], n) == Mark(marks, n) <= marks[n]
    ensures KeepsUp(marks, capacity) <==> KeepsUp(marks[..n], capacity) && marks[n] - Mark(marks, n) <= capacity
  {
    forall i: nat | i <= n ensures Mark(marks[..n], i) == Mark(marks, i) && (i < n ==> marks[..n][i] == marks[i]) {
    }
    if KeepsUp(marks[..n], capacity) && marks[n] - Mark(marks, n) <= capacity {
      forall i | 0 <= i < |marks| ensures marks[i] - Mark(marks, i) <= capacity {
        assert i < n ==> marks[..n][i] - Mark(marks[..n], i) <= capacity;
      }
    }
    if KeepsUp(marks, capacity) {
      forall i | 0 <= i < n ensures marks[..n][i] - Mark(marks[..n], i) <= capacity {
        assert marks[i] - Mark(marks, i) <= capacity;
      }
    }
  }

  /** The buffer of a log pushed in order holds consecutive sequence numbers up to the last. */
  lemma BufferIsContiguous(pushed: seq<Event>, capacity: nat, i: nat)
    requires InAllocationOrder(pushed)
    ensures var buffer := Buffer(pushed, capacity);
      i < |buffer| ==> buffer[i].sequence == |pushed| - |buffer| + i + 1
  {
    var buffer := Buffer(pushed, capacity);
    if i < |buffer| {
      assert buffer[i] == pushed[|pushed| - |buffer| + i];
    }
  }

  lemma NewerOfOne(e: Event, cursor: nat)
    ensures Newer([e], cursor) == if e.sequence > cursor then [e] else []
    ensures Highest([e]) == e.sequence
  {
    assert [e][..0] == [];
  }

  /** Out of order, an event pushed after a later one was polled is never seen, although it is in the log; and a
      client that follows the last line instead of the highest sequence sees an event twice. */
  lemma OutOfOrderIsMissed(first: Event, second: Event, capacity: nat)
    requires first.sequence == 1 && second.sequence == 2 && capacity >= 2
    ensures Buffer([second, first], capacity) == [second, first]
    ensures Seen([second, first], capacity, [1, 2]) == [second]
    ensures Poll([second, first], capacity, first.sequence) == [second]
  {
    var pushed := [second, first];
    assert pushed[..1] == [second] && pushed[..2] == pushed && [1, 2][..1] == [1] && [1][..0] == [];
    NewerOfOne(second, 0);
    NewerOfOne(second, 1);
    NewerOfOne(second, 2);
    assert Seen(pushed, capacity, [1]) == [second];
  }

  lemma BufferGrows(pushed: seq<Event>, event: Event, capacity: nat)
    requires capacity >= 1
    ensures var buffer := Buffer(pushed, capacity);
      Buffer(pushed + [event], capacity) == (if |buffer| >= capacity then buffer[1..] else buffer) + [event]
  {
  }

  // ----- the log -----

  // The numbers below the next one are each pushed once or pending.
  ghost predicate Accounted(pushed: seq<Event>, pending: set<nat>, nextSequence: nat) {
    && (forall i, j | 0 <= i < j < |pushed| :: pushed[i].sequence != pushed[j].sequence)
    && (forall i | 0 <= i < |pushed| :: 1 <= pushed[i].sequence < nextSequence && pushed[i].sequence !in pending)
    && (forall s | s in pending :: 1 <= s < nextSequence)
    && |pushed| + |pending| == nextSequence - 1
  }

  lemma PushAccounted(pushed: seq<Event>, pending: set<nat>, nextSequence: nat, event: Event)
    requires Accounted(pushed, pending, nextSequence) && event.sequence in pending
    ensures Accounted(pushed + [event], pending - {event.sequence}, nextSequence)
  {
  }

  class PullEventLog {
    const capacity: nat
    var nextSequence: nat
    var events: seq<Event>
    // The history: every event pushed so far, and the sequence numbers allocated but not pushed.
    ghost var pushed: seq<Event>
    ghost var pending: set<nat>

    constructor (capacity: nat)
      ensures Valid() && pushed == [] && pending == {}
      ensures this.capacity == if capacity < 1 then 1 else capacity
    {
      this.capacity := if capacity < 1 then 1 else capacity;
      nextSequence := 1;
      events := [];
      pushed := [];
      pending := {};
    }

    /** The buffer holds the last events pushed; every number allocated is pushed once or pending. */
    ghost predicate Valid()
      reads this
    {
      && capacity >= 1 && nextSequence >= 1
      && events == Buffer(pushed, capacity)
      && Accounted(pushed, pending, nextSequence)
    }

    // `fetch_add` on the counter.
    method Allocate() returns (sequence: nat)
      requires Valid()
      modifies this
      ensures Valid()
      ensures sequence == old(nextSequence) && nextSequence == sequence + 1
      ensures pending == old(pending) + {sequence} && sequence !in old(pending)
      ensures pushed == old(pushed) && events == old(events)
    {
      sequence := nextSequence;
      nextSequence := nextSequence + 1;
      pending := pending + {sequence};
    }

    // The part of `record` under the write lock.
    method Push(event: Event)
      requires Valid() && event.sequence in pending
      modifies this
      ensures Valid()
      ensures pushed == old(pushed) + [event] && pending == old(pending) - {event.sequence}
      ensures nextSequence == old(nextSequence)
    {
      BufferGrows(pushed, event, capacity);
      PushAccounted(pushed, pending, nextSequence, event);
      if |events| >= capacity {
        events := events[1..];
      }
      events := events + [event];
      pushed := pushed + [event];
      pending := pending - {event.sequence};
    }

    method After(sequence: nat) returns (newer: seq<Event>)
      requires Valid()
      ensures newer == Poll(pushed, capacity, sequence)
    {
      newer := [];
      for i := 0 to |events|
        invariant newer == Newer(events[..i], sequence)
      {
        assert events[..i + 1][..i] == events[..i];
        if events[i].sequence > sequence {
          newer := newer + [events[i]];
        }
      }
      assert events[..|events|] == events;
    }

    /** No event pushed has a sequence beyond the latest, and when no recorder is between its two steps, exactly
        that many events have been pushed. */
    method LatestSequence() returns (latest: nat)
      requires Valid()
      ensures forall e | e in pushed :: e.sequence <= latest
      ensures latest == |pushed| + |pending|
    {
      latest := nextSequence - 1;
    }
  }

  lemma {:induction false} Interval(low: nat, high: nat) returns (s: set<nat>)
    requires low <= high
    ensures forall i :: i in s <==> low <= i < high
    ensures |s| == high - low
    decreases high - low
  {
    if low == high {
      s := {};
    } else {
      var t := Interval(low, high - 1);
      s := t + {high - 1};
    }
  }

  lemma PushedInOrder(pushed: seq<Event>, s: nat)
    requires InAllocationOrder(pushed)
    ensures 1 <= s <= |pushed| ==> exists i :: 0 <= i < |pushed| && pushed[i].sequence == s
  {
    if 1 <= s <= |pushed| {
      assert pushed[s - 1].sequence == s;
    }
  }

  /** Recorders that push in the order they allocated keep the log in order: when 1, …, n are pushed, the least
      pending number is n + 1. */
  lemma PushInTurn(log: PullEventLog, event: Event)
    requires log.Valid() && InAllocationOrder(log.pushed)
    requires event.sequence in log.pending && forall s | s in log.pending :: event.sequence <= s
    ensures event.sequence == |log.pushed| + 1
    ensures InAllocationOrder(log.pushed + [event])
  {
    PushedInOrder(log.pushed, event.sequence);
    var rest := Interval(event.sequence, log.nextSequence);
    Subset(log.pending, rest);
  }

  lemma {:induction false} Subset(a: set<nat>, b: set<nat>)
    requires a <= b
    ensures |a| <= |b|
  {
    if a != {} {
      var x :| x in a;
      Subset(a - {x}, b - {x});
    }
  }

  // ----- metrics -----

  datatype Record = Record(event: string, method_: Option<string>, status: Option<string>, cache: Option<string>)

  datatype MetricKey = MetricKey(event: string, method_: string, status: string, cache: string)

  function Underscored(s: string): string {
    seq(|s|, i requires 0 <= i < |s| => if s[i] == ' ' then '_' else s[i])
  }

  function OrDash(s: Option<string>): string {
    if s.Some? then s.value else "-"
  }

  function KeyOf(r: Record): MetricKey {
    MetricKey(r.event, OrDash(r.method_), if r.status.Some? then Underscored(r.status.value) else "-", OrDash(r.cache))
  }

  // A missing label is read as "-".
  predicate SameLabel(a: Option<string>, b: Option<string>) {
    a == b || (a == Some("-") && b.None?) || (a.None? && b == Some("-"))
  }

  predicate SameStatus(a: string, b: string) {
    |a| == |b| && forall i | 0 <= i < |a| :: a[i] == b[i] || (a[i] in " _" && b[i] in " _")
  }

  /** Two records share a counter exactly if their labels are the same, except that a missing one is "-" and that in
      a status spaces and underscores are one. */
  lemma CountedTogetherIff(a: Record, b: Record)
    ensures KeyOf(a) == KeyOf(b) <==>
      && a.event == b.event && SameLabel(a.method_, b.method_) && SameLabel(a.cache, b.cache)
      && SameStatus(OrDash(a.status), OrDash(b.status))
  {
    assert Underscored("-") == "-";
    var s, t := OrDash(a.status), OrDash(b.status);
    assert KeyOf(a).status == Underscored(s) && KeyOf(b).status == Underscored(t);
    if Underscored(s) == Underscored(t) {
      forall i | 0 <= i < |s| ensures s[i] == t[i] || (s[i] in " _" && t[i] in " _") {
        assert Underscored(s)[i] == Underscored(t)[i];
      }
    }
    if SameStatus(s, t) {
      assert Underscored(s) == Underscored(t);
    }
  }

  function Count(records: seq<Record>, key: MetricKey): nat {
    if records == [] then 0
    else Count(records[..|records| - 1], key) + if KeyOf(records[|records| - 1]) == key then 1 else 0
  }

  ghost function Total(counters: map<MetricKey, nat>): nat
    decreases |counters|
  {
    if counters == map[] then 0
    else
      var key :| key in counters;
      counters[key] + Total(counters - {key})
  }

  lemma {:induction false} TotalWithout(counters: map<MetricKey, nat>, key: MetricKey)
    requires key in counters
    ensures Total(counters) == counters[key] + Total(counters - {key})
    decreases |counters|
  {
    var first :| first in counters && Total(counters) == counters[first] + Total(counters - {first});
    if first != key {
      TotalWithout(counters - {first}, key);
      TotalWithout(counters - {key}, first);
      assert counters - {first} - {key} == counters - {key} - {first};
    }
  }

  class PullMetrics {
    var eventsTotal: map<MetricKey, nat>
    ghost var records: seq<Record>

    constructor ()
      ensures Valid() && records == []
    {
      eventsTotal := map[];
      records := [];
    }

    /** Each counter is the number of records with its key, and together they count every record. */
    ghost predicate Valid()
      reads this
    {
      && (forall key | key in eventsTotal :: eventsTotal[key] == Count(records, key))
      && (forall key | key !in eventsTotal :: Count(records, key) == 0)
      && Total(eventsTotal) == |records|
    }

    method Increment(r: Record)
      requires Valid()
      modifies this
      ensures Valid() && records == old(records) + [r]
    {
      var key := KeyOf(r);
      ghost var before := eventsTotal;
      eventsTotal := eventsTotal[key := (if key in eventsTotal then eventsTotal[key] else 0) + 1];
      records := records + [r];
      assert records[..|records| - 1] == old(records);
      TotalWithout(eventsTotal, key);
      assert eventsTotal - {key} == before - {key};
      if key in before {
        TotalWithout(before, key);
      } else {
        assert before - {key} == before;
      }
    }
  }
}
