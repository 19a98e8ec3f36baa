/** The stable sort behind `sort_by` and `sort_by_key`, for an order given as a "comes no later" test. */
module StableSort {
  function Insert<T>(le: (T, T) -> bool, x: T, s: seq<T>): (r: seq<T>)
    ensures multiset(r) == multiset(s) + multiset{x}
  {
    if s == [] || le(x, s[0]) then [x] + s
    else
      assert s == [s[0]] + s[1..];
      [s[0]] + Insert(le, x, s[1..])
  }

  function SortBy<T>(le: (T, T) -> bool, s: seq<T>): (r: seq<T>)
    ensures multiset(r) == multiset(s)
  {
    if s == [] then []
    else
      assert s == [s[0]] + s[1..];
      Insert(le, s[0], SortBy(le, s[1..]))
  }

  ghost predicate TotalOrder<T(!new)>(le: (T, T) -> bool) {
    && (forall x, y :: le(x, y) || le(y, x))
    && (forall x, y, z :: le(x, y) && le(y, z) ==> le(x, z))
  }

  // In order, and elements that compare equal are in order of position.
  ghost predicate StablyOrdered<T>(le: (T, T) -> bool, pos: T -> int, s: seq<T>) {
    forall i, j | 0 <= i < j < |s| :: le(s[i], s[j]) && (le(s[j], s[i]) ==> pos(s[i]) < pos(s[j]))
  }

  lemma {:induction false} InsertIsStable<T(!new)>(le: (T, T) -> bool, pos: T -> int, x: T, s: seq<T>)
    requires TotalOrder(le) && StablyOrdered(le, pos, s)
    requires forall y | y in s :: pos(x) < pos(y)
    ensures StablyOrdered(le, pos, Insert(le, x, s))
  {
    if s != [] && !le(x, s[0]) {
      InsertIsStable(le, pos, x, s[1..]);
      HeadStaysFirst(le, pos, x, s);
      Prefixed(le, pos, s[0], Insert(le, x, s[1..]));
    }
  }

  lemma Prefixed<T(!new)>(le: (T, T) -> bool, pos: T -> int, x: T, s: seq<T>)
    requires StablyOrdered(le, pos, s)
    requires forall y | y in s :: le(x, y) && (le(y, x) ==> pos(x) < pos(y))
    ensures StablyOrdered(le, pos, [x] + s)
  {
  }

  lemma HeadStaysFirst<T(!new)>(le: (T, T) -> bool, pos: T -> int, x: T, s: seq<T>)
    requires TotalOrder(le) && s != [] && StablyOrdered(le, pos, s) && !le(x, s[0])
    ensures forall y | y in Insert(le, x, s[1..]) :: le(s[0], y) && (le(y, s[0]) ==> pos(s[0]) < pos(y))
  {
    forall y | y in Insert(le, x, s[1..]) ensures le(s[0], y) && (le(y, s[0]) ==> pos(s[0]) < pos(y)) {
      assert y in multiset(Insert(le, x, s[1..]));
      assert y == x || y in s[1..];
    }
  }

  /** Sorting a sequence in order of position is stable. */
  lemma {:induction false} SortIsStable<T(!new)>(le: (T, T) -> bool, pos: T -> int, s: seq<T>)
    requires TotalOrder(le)
    requires forall i, j | 0 <= i < j < |s| :: pos(s[i]) < pos(s[j])
    ensures StablyOrdered(le, pos, SortBy(le, s))
  {
    if s != [] {
      SortIsStable(le, pos, s[1..]);
      forall y | y in SortBy(le, s[1..]) ensures pos(s[0]) < pos(y) {
        assert y in multiset(SortBy(le, s[1..]));
        assert y in s[1..];
      }
      InsertIsStable(le, pos, s[0], SortBy(le, s[1..]));
    }
  }
}
