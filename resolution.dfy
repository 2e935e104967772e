/** determineExpenseStatus: the pure function that turns the decisions on an
    expense's approval tasks, and the rule's minimum approval percentage,
    into the expense's new status, or into "no change" (None). */
module Resolution {
  import opened Common
  import opened Domain

  /** How many tasks carry decision `d` (the length of a filter). */
  function Count(ts: seq<Task>, d: Decision): nat
  {
    if ts == [] then 0 else (if ts[0].decision == d then 1 else 0) + Count(ts[1..], d)
  }

  predicate PendingMandatory(ts: seq<Task>) {
    exists i :: 0 <= i < |ts| && ts[i].isMandatory && ts[i].decision == Pending
  }

  /** The percentage test `(approved / total) * 100 >= pct`, stated exactly in
      integers. With no tasks the quotient is NaN and the test fails. */
  predicate ThresholdMet(approved: nat, total: nat, pct: int) {
    total > 0 && approved * 100 >= pct * total
  }

  /** The status an expense resolves to, or None when it stays as it is. */
  function ResolveStatus(minPct: Option<int>, ts: seq<Task>): Option<Status>
  {
    if Count(ts, Decision.Rejected) > 0 then Some(Status.Rejected)
    else if PendingMandatory(ts) then None
    else if minPct.Some? then
      (if ThresholdMet(Count(ts, Decision.Approved), |ts|, minPct.value) then Some(Status.Approved) else None)
    else if Count(ts, Pending) == 0 && Count(ts, Decision.Approved) == |ts| then Some(Status.Approved)
    else None
  }

  /** A decision is counted iff some task carries it. */
  lemma {:induction false} CountPositive(ts: seq<Task>, d: Decision)
    ensures Count(ts, d) > 0 <==> exists i :: 0 <= i < |ts| && ts[i].decision == d
  {
    if ts != [] {
      CountPositive(ts[1..], d);
      if Count(ts[1..], d) > 0 {
        var i :| 0 <= i < |ts[1..]| && ts[1..][i].decision == d;
        assert ts[i + 1].decision == d;
      }
      forall i | 1 <= i < |ts| && ts[i].decision == d
        ensures Count(ts[1..], d) > 0
      {
        assert ts[1..][i - 1].decision == d;
      }
    }
  }

  /** A decision is carried by every task iff its count is the task count. */
  lemma {:induction false} CountAll(ts: seq<Task>, d: Decision)
    ensures Count(ts, d) <= |ts|
    ensures Count(ts, d) == |ts| <==> forall i :: 0 <= i < |ts| ==> ts[i].decision == d
  {
    if ts != [] {
      CountAll(ts[1..], d);
      if Count(ts, d) == |ts| {
        forall i | 0 <= i < |ts| ensures ts[i].decision == d {
          if i > 0 { assert ts[1..][i - 1] == ts[i]; }
        }
      }
      if forall i :: 0 <= i < |ts| ==> ts[i].decision == d {
        forall i | 0 <= i < |ts[1..]| ensures ts[1..][i].decision == d {
          assert ts[1..][i] == ts[i + 1];
        }
      }
    }
  }

  /** Every task carries exactly one of the three decisions. */
  lemma {:induction false} CountsPartition(ts: seq<Task>)
    ensures Count(ts, Pending) + Count(ts, Decision.Approved) + Count(ts, Decision.Rejected) == |ts|
  {
    if ts != [] { CountsPartition(ts[1..]); }
  }

  /** The resolved status is always a terminal one. */
  lemma ResolvedIsTerminal(minPct: Option<int>, ts: seq<Task>)
    ensures ResolveStatus(minPct, ts) in {None, Some(Status.Approved), Some(Status.Rejected)}
  {
  }

  /** Any rejected task rejects the expense, whatever is still pending, and
      nothing else does. */
  lemma RejectionWins(minPct: Option<int>, ts: seq<Task>)
    ensures ResolveStatus(minPct, ts) == Some(Status.Rejected)
        <==> exists i :: 0 <= i < |ts| && ts[i].decision == Decision.Rejected
  {
    CountPositive(ts, Decision.Rejected);
  }

  /** Without a rejection, a mandatory task still pending keeps the expense
      waiting, even when the percentage threshold is already met. */
  lemma MandatoryBlocks(minPct: Option<int>, ts: seq<Task>, k: nat)
    requires k < |ts| && ts[k].isMandatory && ts[k].decision == Pending
    requires forall i :: 0 <= i < |ts| ==> ts[i].decision != Decision.Rejected
    ensures ResolveStatus(minPct, ts) == None
  {
    CountPositive(ts, Decision.Rejected);
  }

  /** With a percentage set (and no rejection, no pending mandatory task) the
      expense is approved iff approved * 100 >= pct * total; otherwise it
      keeps its status. Pending non-mandatory tasks do not matter. */
  lemma PercentageRule(pct: int, ts: seq<Task>)
    requires forall i :: 0 <= i < |ts| ==> ts[i].decision != Decision.Rejected
    requires !PendingMandatory(ts)
    ensures ResolveStatus(Some(pct), ts) == Some(Status.Approved)
        <==> |ts| > 0 && Count(ts, Decision.Approved) * 100 >= pct * |ts|
    ensures ResolveStatus(Some(pct), ts) != Some(Status.Approved) ==> ResolveStatus(Some(pct), ts) == None
  {
    CountPositive(ts, Decision.Rejected);
  }

  /** With no percentage the rule is unanimity: the expense is approved
      iff every task is approved. */
  lemma UnanimityRule(ts: seq<Task>)
    ensures ResolveStatus(None, ts) == Some(Status.Approved)
        <==> forall i :: 0 <= i < |ts| ==> ts[i].decision == Decision.Approved
  {
    CountPositive(ts, Decision.Rejected);
    CountAll(ts, Decision.Approved);
    CountsPartition(ts);
    if forall i :: 0 <= i < |ts| ==> ts[i].decision == Decision.Approved {
      assert !PendingMandatory(ts);
    }
  }

  /** Removing the task at position k takes its decision out of the counts. */
  lemma {:induction false} CountRemove(ts: seq<Task>, k: nat, d: Decision)
    requires k < |ts|
    ensures Count(ts, d) == Count(ts[..k] + ts[k + 1..], d) + (if ts[k].decision == d then 1 else 0)
  {
    if k > 0 {
      CountRemove(ts[1..], k - 1, d);
      assert ts[1..][..k - 1] + ts[1..][k..] == (ts[..k] + ts[k + 1..])[1..];
    } else {
      assert ts[..k] + ts[k + 1..] == ts[1..];
    }
  }

  /** Taking out the element at position k takes it out of the multiset. */
  lemma MultisetRemove(us: seq<Task>, k: nat)
    requires k < |us|
    ensures multiset(us) == multiset(us[..k] + us[k + 1..]) + multiset{us[k]}
  {
    assert us == us[..k] + [us[k]] + us[k + 1..];
  }

  /** Matching the first task of `ts` with position k of `us` leaves two
      rests with equal multisets. */
  lemma RemoveMatched(ts: seq<Task>, us: seq<Task>, k: nat)
    requires ts != [] && k < |us| && us[k] == ts[0] && multiset(ts) == multiset(us)
    ensures multiset(ts[1..]) == multiset(us[..k] + us[k + 1..])
  {
    MultisetRemove(us, k);
    assert ts == [ts[0]] + ts[1..];
    assert multiset(ts) == multiset(ts[1..]) + multiset{ts[0]};
    calc {
      multiset(ts[1..]);
      multiset(ts) - multiset{ts[0]};
      multiset(us) - multiset{us[k]};
      multiset(us[..k] + us[k + 1..]);
    }
  }

  /** Counts depend only on the multiset of tasks, not their order. */
  lemma {:induction false} CountPermutation(ts: seq<Task>, us: seq<Task>, d: Decision)
    requires multiset(ts) == multiset(us)
    ensures Count(ts, d) == Count(us, d)
  {
    if ts != [] {
      assert ts[0] in multiset(us);
      var k :| 0 <= k < |us| && us[k] == ts[0];
      var rest := us[..k] + us[k + 1..];
      RemoveMatched(ts, us, k);
      CountPermutation(ts[1..], rest, d);
      CountRemove(us, k, d);
    } else {
      assert |us| == |multiset(us)| == 0;
    }
  }

  /** The resolution does not depend on the order in which the tasks are
      read: the rows of an unordered query give one answer. */
  lemma ResolveIgnoresOrder(minPct: Option<int>, ts: seq<Task>, us: seq<Task>)
    requires multiset(ts) == multiset(us)
    ensures ResolveStatus(minPct, ts) == ResolveStatus(minPct, us)
  {
    CountPermutation(ts, us, Decision.Rejected);
    CountPermutation(ts, us, Decision.Approved);
    CountPermutation(ts, us, Pending);
    assert |ts| == |multiset(ts)| == |multiset(us)| == |us|;
    if PendingMandatory(ts) {
      var i :| 0 <= i < |ts| && ts[i].isMandatory && ts[i].decision == Pending;
      assert ts[i] in multiset(us);
    }
    if PendingMandatory(us) {
      var i :| 0 <= i < |us| && us[i].isMandatory && us[i].decision == Pending;
      assert us[i] in multiset(ts);
    }
  }
}
