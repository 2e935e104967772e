/** The order in which a rule's approvers are read everywhere:
    ORDER BY COALESCE(sequence, 999999), id. */
module Ordering {
  import opened Common
  import opened Domain

  /** The rank that stands in for a missing sequence. */
  const UnsequencedRank := 999999

  /** COALESCE(sequence, 999999). */
  function Rank(s: Option<int>): int {
    if s.Some? then s.value else UnsequencedRank
  }

  /** `a` strictly precedes `b`: smaller rank, or equal rank and smaller id. */
  predicate Before(a: RuleApprover, b: RuleApprover) {
    Rank(a.sequence) < Rank(b.sequence) || (Rank(a.sequence) == Rank(b.sequence) && a.id < b.id)
  }

  predicate Sorted(s: seq<RuleApprover>) {
    forall i, j :: 0 <= i < j < |s| ==> !Before(s[j], s[i])
  }

  /** Different rows never share an id (the primary key). */
  predicate KeysDistinct(s: seq<RuleApprover>) {
    forall x, y :: x in s && y in s && x != y ==> x.id != y.id
  }

  /** Rows with distinct ids are totally ordered by Before. */
  lemma BeforeTotal(a: RuleApprover, b: RuleApprover)
    requires a.id != b.id
    ensures Before(a, b) != Before(b, a)
  {
  }

  /** A sequenced row ranked below the placeholder comes before any
      unsequenced row; two unsequenced rows are ordered by id. */
  lemma NullSequenceLast(a: RuleApprover, b: RuleApprover)
    requires a.sequence.Some? && a.sequence.value < UnsequencedRank && b.sequence.None?
    ensures Before(a, b) && !Before(b, a)
  {
  }

  /** Every element of a multiset union of `s` and `x` is bounded below by
      `y` when all of `s` and `x` are. */
  lemma AllNotBefore(t: seq<RuleApprover>, s: seq<RuleApprover>, x: RuleApprover, y: RuleApprover)
    requires multiset(t) == multiset(s) + multiset{x}
    requires !Before(x, y) && forall k :: 0 <= k < |s| ==> !Before(s[k], y)
    ensures forall j :: 0 <= j < |t| ==> !Before(t[j], y)
  {
    forall j | 0 <= j < |t| ensures !Before(t[j], y) {
      assert t[j] in multiset(t);
      if t[j] != x {
        assert t[j] in multiset(s);
      }
    }
  }

  function Insert(x: RuleApprover, s: seq<RuleApprover>): (r: seq<RuleApprover>)
    requires Sorted(s)
    ensures Sorted(r)
    ensures multiset(r) == multiset(s) + multiset{x}
  {
    if s == [] then [x]
    else if Before(s[0], x) then
      assert s == [s[0]] + s[1..];
      var t := Insert(x, s[1..]);
      AllNotBefore(t, s[1..], x, s[0]);
      [s[0]] + t
    else
      [x] + s
  }

  /** The rows of `s` in ORDER BY COALESCE(sequence, 999999), id. */
  function SortByRank(s: seq<RuleApprover>): (r: seq<RuleApprover>)
    ensures Sorted(r)
    ensures multiset(r) == multiset(s)
  {
    if s == [] then []
    else
      assert s == [s[0]] + s[1..];
      Insert(s[0], SortByRank(s[1..]))
  }

  lemma MultisetTail(a: seq<RuleApprover>, b: seq<RuleApprover>)
    requires a != [] && b != [] && a[0] == b[0] && multiset(a) == multiset(b)
    ensures multiset(a[1..]) == multiset(b[1..])
  {
    assert a == [a[0]] + a[1..] && b == [b[0]] + b[1..];
    assert multiset(a) == multiset{a[0]} + multiset(a[1..]);
    assert multiset(b) == multiset{a[0]} + multiset(b[1..]);
    forall y ensures multiset(a[1..])[y] == multiset(b[1..])[y] {
      assert (multiset{a[0]} + multiset(a[1..]))[y] == (multiset{a[0]} + multiset(b[1..]))[y];
    }
  }

  /** With distinct keys the ordering is unique: any two sorted arrangements
      of the same rows are equal, so the query's order is fully determined. */
  lemma {:induction false} SortedUnique(a: seq<RuleApprover>, b: seq<RuleApprover>)
    requires Sorted(a) && Sorted(b) && multiset(a) == multiset(b) && KeysDistinct(a)
    ensures a == b
  {
    assert |b| == |multiset(b)| == |multiset(a)| == |a|;
    if a != [] {
      assert b[0] in multiset(a);
      var m :| 0 <= m < |a| && a[m] == b[0];
      assert a[0] in multiset(b);
      var k :| 0 <= k < |b| && b[k] == a[0];
      if a[0] != b[0] {
        BeforeTotal(a[0], a[m]);
        assert false;
      }
      MultisetTail(a, b);
      assert forall x :: x in a[1..] ==> x in a;
      SortedUnique(a[1..], b[1..]);
    }
  }
}
