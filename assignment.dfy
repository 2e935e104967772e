/** The assignment builder: turns a rule's approvers (and, when the rule
    asks for it, the employee's manager) into one pending approval task
    per distinct approver of an expense. */
module Assignment {
  import opened Common
  import opened Domain
  import opened Store

  /** One approver to be assigned, before it becomes a task row. */
  datatype Entry = Entry(approverId: Id, sequence: Option<int>, isMandatory: bool)

  /** Some rule approver carries a (non-null) sequence. */
  predicate HasSequence(ras: seq<RuleApprover>) {
    exists k :: 0 <= k < |ras| && ras[k].sequence.Some?
  }

  /** The manager is already one of the rule's approvers. */
  predicate ManagerListed(ras: seq<RuleApprover>, managerId: Id) {
    exists k :: 0 <= k < |ras| && ras[k].approverId == managerId
  }

  /** The entry for one rule approver: its sequence survives only when the
      rule is sequenced at all. */
  function FromRow(ra: RuleApprover, hasSequence: bool): Entry {
    Entry(ra.approverId, if hasSequence then ra.sequence else None, ra.isMandatory)
  }

  function FromRule(ras: seq<RuleApprover>, hasSequence: bool): seq<Entry> {
    seq(|ras|, k requires 0 <= k < |ras| => FromRow(ras[k], hasSequence))
  }

  /** The manager's entry: mandatory, and first in line when sequenced. */
  function ManagerEntry(managerId: Id, hasSequence: bool): Entry {
    Entry(managerId, if hasSequence then Some(0) else None, true)
  }

  /** The list built before de-duplication: the manager (if the rule asks
      for one and does not already list them) followed by the rule's
      approvers in the order given. A manager rule without a manager fails. */
  function Candidates(rule: Rule, ras: seq<RuleApprover>, managerId: Option<Id>): Result<seq<Entry>> {
    var hs := HasSequence(ras);
    if !rule.isManagerApprover then Ok(FromRule(ras, hs))
    else if managerId.None? then Err(Error(BadRequest, ManagerMissing))
    else if ManagerListed(ras, managerId.value) then Ok(FromRule(ras, hs))
    else Ok([ManagerEntry(managerId.value, hs)] + FromRule(ras, hs))
  }

  // ---------------------------------------------------------------------
  // De-duplication keeping the first occurrence
  // ---------------------------------------------------------------------

  function Ids(s: seq<Entry>): set<Id> {
    set e | e in s :: e.approverId
  }

  predicate DistinctEntries(s: seq<Entry>) {
    forall i, j :: 0 <= i < j < |s| ==> s[i].approverId != s[j].approverId
  }

  /** The first entry of `s` for approver `id`. */
  function FirstWith(s: seq<Entry>, id: Id): (r: Option<Entry>)
    ensures r.Some? ==> r.value in s && r.value.approverId == id
    ensures r.None? <==> id !in Ids(s)
  {
    if s == [] then None
    else if s[0].approverId == id then Some(s[0])
    else
      assert s == [s[0]] + s[1..];
      FirstWith(s[1..], id)
  }

  /** The filter with a `seen` set: an entry is kept iff its approver has not
      been seen yet. */
  function DedupFrom(s: seq<Entry>, seen: set<Id>): seq<Entry> {
    if s == [] then []
    else if s[0].approverId in seen then DedupFrom(s[1..], seen)
    else [s[0]] + DedupFrom(s[1..], seen + {s[0].approverId})
  }

  function Dedup(s: seq<Entry>): seq<Entry> {
    DedupFrom(s, {})
  }

  lemma IdsCons(s: seq<Entry>)
    requires s != []
    ensures Ids(s) == {s[0].approverId} + Ids(s[1..])
  {
    assert s == [s[0]] + s[1..];
  }

  /** The filter keeps one entry per approver not seen before, and that entry
      is the approver's first one. */
  lemma {:induction false} DedupFromSpec(s: seq<Entry>, seen: set<Id>)
    ensures Ids(DedupFrom(s, seen)) == Ids(s) - seen
    ensures DistinctEntries(DedupFrom(s, seen))
    ensures forall e :: e in DedupFrom(s, seen) ==> FirstWith(s, e.approverId) == Some(e)
  {
    if s != [] {
      IdsCons(s);
      var x := s[0];
      if x.approverId in seen {
        DedupFromSpec(s[1..], seen);
        forall e | e in DedupFrom(s, seen) ensures FirstWith(s, e.approverId) == Some(e) {
          assert e.approverId in Ids(DedupFrom(s[1..], seen));
        }
      } else {
        var seen' := seen + {x.approverId};
        var rest := DedupFrom(s[1..], seen');
        DedupFromSpec(s[1..], seen');
        assert DedupFrom(s, seen) == [x] + rest;
        IdsCons([x] + rest);
        assert ([x] + rest)[1..] == rest;
        forall i, j | 0 <= i < j < |[x] + rest| ensures ([x] + rest)[i].approverId != ([x] + rest)[j].approverId {
          if i == 0 {
            assert ([x] + rest)[j] == rest[j - 1];
            assert rest[j - 1].approverId in Ids(rest);
          } else {
            assert ([x] + rest)[i] == rest[i - 1] && ([x] + rest)[j] == rest[j - 1];
          }
        }
        forall e | e in [x] + rest ensures FirstWith(s, e.approverId) == Some(e) {
          if e != x {
            assert e in rest;
            assert e.approverId in Ids(rest);
          }
        }
      }
    }
  }

  /** `d` is `s` with some entries dropped and the rest kept in order: entry
      `k` of `d` is entry `p[k]` of `s`, and `p` is strictly increasing. */
  predicate Embeds(p: seq<nat>, d: seq<Entry>, s: seq<Entry>) {
    && |p| == |d|
    && (forall k :: 0 <= k < |p| ==> p[k] < |s| && d[k] == s[p[k]])
    && (forall k, l :: 0 <= k < l < |p| ==> p[k] < p[l])
  }

  function Shift(p: seq<nat>): (r: seq<nat>)
    ensures |r| == |p| && forall k :: 0 <= k < |p| ==> r[k] == p[k] + 1
  {
    seq(|p|, k requires 0 <= k < |p| => p[k] + 1)
  }

  /** The positions of `s` whose entries the filter keeps. */
  function KeptAt(s: seq<Entry>, seen: set<Id>): seq<nat> {
    if s == [] then []
    else if s[0].approverId in seen then Shift(KeptAt(s[1..], seen))
    else [0] + Shift(KeptAt(s[1..], seen + {s[0].approverId}))
  }

  lemma ShiftEmbeds(p: seq<nat>, d: seq<Entry>, s: seq<Entry>)
    requires s != [] && Embeds(p, d, s[1..])
    ensures Embeds(Shift(p), d, s)
  {
    forall k | 0 <= k < |p| ensures d[k] == s[Shift(p)[k]] {
      assert d[k] == s[1..][p[k]];
    }
  }

  lemma ConsEmbeds(q: seq<nat>, d: seq<Entry>, s: seq<Entry>)
    requires s != [] && Embeds(q, d, s) && forall k :: 0 <= k < |q| ==> 0 < q[k]
    ensures Embeds([0] + q, [s[0]] + d, s)
  {
    forall k | 0 < k < |[0] + q| ensures ([s[0]] + d)[k] == s[([0] + q)[k]] {
      assert ([s[0]] + d)[k] == d[k - 1] && ([0] + q)[k] == q[k - 1];
    }
  }

  /** The filter keeps the entries it keeps in the order of its input. */
  lemma {:induction false} DedupFromOrder(s: seq<Entry>, seen: set<Id>)
    ensures Embeds(KeptAt(s, seen), DedupFrom(s, seen), s)
  {
    if s != [] {
      var x := s[0];
      if x.approverId in seen {
        DedupFromOrder(s[1..], seen);
        ShiftEmbeds(KeptAt(s[1..], seen), DedupFrom(s[1..], seen), s);
      } else {
        var seen' := seen + {x.approverId};
        DedupFromOrder(s[1..], seen');
        ShiftEmbeds(KeptAt(s[1..], seen'), DedupFrom(s[1..], seen'), s);
        ConsEmbeds(Shift(KeptAt(s[1..], seen')), DedupFrom(s[1..], seen'), s);
      }
    }
  }

  /** Every position in `p` holds an approver outside `seen` that no earlier
      entry of `s` has: the first occurrence of an unseen approver. */
  predicate FirstUnseen(p: seq<nat>, s: seq<Entry>, seen: set<Id>) {
    forall k :: 0 <= k < |p| ==>
      && p[k] < |s| && s[p[k]].approverId !in seen
      && forall j :: 0 <= j < p[k] ==> s[j].approverId != s[p[k]].approverId
  }

  lemma ShiftFirstUnseen(p: seq<nat>, s: seq<Entry>, seen: set<Id>)
    requires s != [] && s[0].approverId in seen && FirstUnseen(p, s[1..], seen)
    ensures FirstUnseen(Shift(p), s, seen)
  {
    forall k, j | 0 <= k < |p| && 0 <= j < Shift(p)[k]
      ensures s[j].approverId != s[Shift(p)[k]].approverId
    {
      assert s[Shift(p)[k]] == s[1..][p[k]];
      if j > 0 {
        assert s[j] == s[1..][j - 1];
      }
    }
  }

  lemma ConsFirstUnseen(q: seq<nat>, s: seq<Entry>, seen: set<Id>)
    requires s != [] && s[0].approverId !in seen && FirstUnseen(q, s[1..], seen + {s[0].approverId})
    ensures FirstUnseen([0] + Shift(q), s, seen)
  {
    var p := [0] + Shift(q);
    forall k | 0 < k < |p|
      ensures p[k] < |s| && s[p[k]].approverId !in seen
      ensures forall j :: 0 <= j < p[k] ==> s[j].approverId != s[p[k]].approverId
    {
      assert p[k] == q[k - 1] + 1 && s[p[k]] == s[1..][q[k - 1]];
      forall j | 0 < j < p[k] ensures s[j].approverId != s[p[k]].approverId {
        assert s[j] == s[1..][j - 1];
      }
    }
  }

  /** The positions the filter keeps are, by position, the first occurrences
      of the approvers not seen before. */
  lemma {:induction false} DedupKeepsFirst(s: seq<Entry>, seen: set<Id>)
    ensures FirstUnseen(KeptAt(s, seen), s, seen)
  {
    if s != [] {
      if s[0].approverId in seen {
        DedupKeepsFirst(s[1..], seen);
        ShiftFirstUnseen(KeptAt(s[1..], seen), s, seen);
      } else {
        DedupKeepsFirst(s[1..], seen + {s[0].approverId});
        ConsFirstUnseen(KeptAt(s[1..], seen + {s[0].approverId}), s, seen);
      }
    }
  }

  /** A list with no repeated approver, none of them seen, passes unchanged. */
  lemma {:induction false} DedupFromIdentity(s: seq<Entry>, seen: set<Id>)
    requires DistinctEntries(s) && Ids(s) * seen == {}
    ensures DedupFrom(s, seen) == s
  {
    if s != [] {
      IdsCons(s);
      var t := s[1..];
      assert DistinctEntries(t) by {
        forall i, j | 0 <= i < j < |t| ensures t[i].approverId != t[j].approverId {
          assert t[i] == s[i + 1] && t[j] == s[j + 1];
        }
      }
      assert s[0].approverId !in Ids(t) by {
        forall e | e in t ensures e.approverId != s[0].approverId {
          var j :| 0 <= j < |t| && t[j] == e;
          assert s[j + 1] == e;
        }
      }
      DedupFromIdentity(t, seen + {s[0].approverId});
    }
  }

  /** buildApproverEntries as a value: the candidates, de-duplicated. */
  function ApproverEntries(rule: Rule, ras: seq<RuleApprover>, managerId: Option<Id>): Result<seq<Entry>> {
    match Candidates(rule, ras, managerId)
    case Err(e) => Err(e)
    case Ok(c) => Ok(Dedup(c))
  }

  /** The set of approvers of a rule's rows. */
  function RuleApproverIds(ras: seq<RuleApprover>): set<Id> {
    set ra | ra in ras :: ra.approverId
  }

  lemma FromRuleIds(ras: seq<RuleApprover>, hs: bool)
    ensures Ids(FromRule(ras, hs)) == RuleApproverIds(ras)
  {
    var f := FromRule(ras, hs);
    forall id | id in RuleApproverIds(ras) ensures id in Ids(f) {
      var ra :| ra in ras && ra.approverId == id;
      var k :| 0 <= k < |ras| && ras[k] == ra;
      assert f[k] in f;
    }
  }

  /** A manager rule without a manager is the only way the builder fails. */
  lemma ManagerRequired(rule: Rule, ras: seq<RuleApprover>, managerId: Option<Id>)
    ensures ApproverEntries(rule, ras, managerId).Err?
        <==> rule.isManagerApprover && managerId.None?
    ensures ApproverEntries(rule, ras, managerId).Err? ==>
        ApproverEntries(rule, ras, managerId).error == Error(BadRequest, ManagerMissing)
  {
  }

  /** Every rule approver, and the manager when the rule asks for one, gets
      exactly one entry; nobody else does. */
  lemma EntriesCoverApprovers(rule: Rule, ras: seq<RuleApprover>, managerId: Option<Id>)
    requires ApproverEntries(rule, ras, managerId).Ok?
    ensures DistinctEntries(ApproverEntries(rule, ras, managerId).value)
    ensures Ids(ApproverEntries(rule, ras, managerId).value)
        == RuleApproverIds(ras) + (if rule.isManagerApprover then {managerId.value} else {})
  {
    var c := Candidates(rule, ras, managerId).value;
    DedupFromSpec(c, {});
    FromRuleIds(ras, HasSequence(ras));
    if rule.isManagerApprover {
      if ManagerListed(ras, managerId.value) {
        var k :| 0 <= k < |ras| && ras[k].approverId == managerId.value;
        assert ras[k] in ras;
      } else {
        IdsCons(c);
        assert c[1..] == FromRule(ras, HasSequence(ras));
      }
    }
  }

  /** Each entry is the first candidate for its approver: the manager's entry
      or a copy of a rule approver row (sequence dropped when unsequenced). */
  lemma EntriesFromCandidates(rule: Rule, ras: seq<RuleApprover>, managerId: Option<Id>)
    requires ApproverEntries(rule, ras, managerId).Ok?
    ensures forall e :: e in ApproverEntries(rule, ras, managerId).value ==>
        FirstWith(Candidates(rule, ras, managerId).value, e.approverId) == Some(e)
    ensures forall e :: e in ApproverEntries(rule, ras, managerId).value ==>
        (rule.isManagerApprover && e == ManagerEntry(managerId.value, HasSequence(ras)))
        || exists k :: 0 <= k < |ras| && e == FromRow(ras[k], HasSequence(ras))
  {
    var c := Candidates(rule, ras, managerId).value;
    DedupFromSpec(c, {});
    forall e | e in Dedup(c)
      ensures (rule.isManagerApprover && e == ManagerEntry(managerId.value, HasSequence(ras)))
              || exists k :: 0 <= k < |ras| && e == FromRow(ras[k], HasSequence(ras))
    {
      assert e in c;
      var i :| 0 <= i < |c| && c[i] == e;
      if c != FromRule(ras, HasSequence(ras)) && i > 0 {
        assert e == FromRule(ras, HasSequence(ras))[i - 1];
      }
    }
  }

  /** An unlisted manager is the first entry, mandatory, with sequence 0 on a
      sequenced rule and null otherwise. */
  lemma ManagerFirst(rule: Rule, ras: seq<RuleApprover>, managerId: Id)
    requires rule.isManagerApprover && !ManagerListed(ras, managerId)
    ensures ApproverEntries(rule, ras, Some(managerId)).Ok?
    ensures ApproverEntries(rule, ras, Some(managerId)).value != []
    ensures ApproverEntries(rule, ras, Some(managerId)).value[0] == ManagerEntry(managerId, HasSequence(ras))
  {
  }

  /** Rows with distinct approvers (as the rule registry stores them) all
      survive, in the order read. */
  lemma NothingDropped(rule: Rule, ras: seq<RuleApprover>, managerId: Option<Id>)
    requires forall i, j :: 0 <= i < j < |ras| ==> ras[i].approverId != ras[j].approverId
    requires !rule.isManagerApprover
    ensures ApproverEntries(rule, ras, managerId) == Ok(FromRule(ras, HasSequence(ras)))
  {
    DedupFromIdentity(FromRule(ras, HasSequence(ras)), {});
  }

  /** An unsequenced rule yields entries without sequences. */
  lemma UnsequencedEntries(rule: Rule, ras: seq<RuleApprover>, managerId: Option<Id>)
    requires !HasSequence(ras) && ApproverEntries(rule, ras, managerId).Ok?
    ensures forall e :: e in ApproverEntries(rule, ras, managerId).value ==> e.sequence.None?
  {
    EntriesFromCandidates(rule, ras, managerId);
  }

  /** ruleApprovers.some(ra => ra.sequence is neither null nor undefined). */
  method ScanHasSequence(ras: seq<RuleApprover>) returns (b: bool)
    ensures b == HasSequence(ras)
  {
    b := false;
    for k := 0 to |ras|
      invariant b <==> exists j :: 0 <= j < k && ras[j].sequence.Some?
    {
      if ras[k].sequence.Some? {
        b := true;
      }
    }
  }

  /** ruleApprovers.some(ra => ra.approver_id === managerId). */
  method ScanManagerListed(ras: seq<RuleApprover>, managerId: Id) returns (b: bool)
    ensures b == ManagerListed(ras, managerId)
  {
    b := false;
    for k := 0 to |ras|
      invariant b <==> exists j :: 0 <= j < k && ras[j].approverId == managerId
    {
      if ras[k].approverId == managerId {
        b := true;
      }
    }
  }

  /** The filter over the built list, with a `seen` set. */
  method DedupLoop(approvers: seq<Entry>) returns (out: seq<Entry>)
    ensures out == Dedup(approvers)
  {
    var seen: set<Id> := {};
    out := [];
    for i := 0 to |approvers|
      invariant out + DedupFrom(approvers[i..], seen) == Dedup(approvers)
    {
      assert approvers[i..] == [approvers[i]] + approvers[i + 1..];
      if approvers[i].approverId !in seen {
        out := out + [approvers[i]];
        seen := seen + {approvers[i].approverId};
      }
    }
    assert approvers[|approvers|..] == [];
  }

  /** buildApproverEntries: compute hasSequence, push the manager and then
      each rule approver, and filter out repeated approvers. */
  method BuildApproverEntries(rule: Rule, ras: seq<RuleApprover>, managerId: Option<Id>)
    returns (r: Result<seq<Entry>>)
    ensures r == ApproverEntries(rule, ras, managerId)
  {
    var hasSequence := ScanHasSequence(ras);
    var approvers: seq<Entry> := [];
    if rule.isManagerApprover {
      if managerId.None? {
        return Err(Error(BadRequest, ManagerMissing));
      }
      var listed := ScanManagerListed(ras, managerId.value);
      if !listed {
        approvers := [ManagerEntry(managerId.value, hasSequence)];
      }
    }
    var head := approvers;
    for k := 0 to |ras|
      invariant approvers == head + FromRule(ras[..k], hasSequence)
    {
      approvers := approvers + [FromRow(ras[k], hasSequence)];
    }
    assert ras[..|ras|] == ras;
    assert approvers == head + FromRule(ras, hasSequence);
    if !rule.isManagerApprover {
      assert approvers == FromRule(ras, hasSequence);
    } else if ManagerListed(ras, managerId.value) {
      assert approvers == FromRule(ras, hasSequence);
    } else {
      assert head == [ManagerEntry(managerId.value, hasSequence)];
    }
    assert Candidates(rule, ras, managerId) == Ok(approvers);
    var out := DedupLoop(approvers);
    return Ok(out);
  }

  // ---------------------------------------------------------------------
  // createExpenseApprovals
  // ---------------------------------------------------------------------

  /** The expense_approvals row inserted for one entry: pending, undecided. */
  function PendingTask(id: Id, expenseId: Id, e: Entry): Task {
    Task(id, expenseId, e.approverId, e.sequence, e.isMandatory, Decision.Pending, None, None)
  }

  /** The rows inserted for `es`, with ids handed out from `firstId` on. */
  function NewTasks(expenseId: Id, es: seq<Entry>, firstId: Id): (r: seq<Task>)
    ensures |r| == |es|
    ensures forall k :: 0 <= k < |es| ==> r[k] == PendingTask(firstId + k, expenseId, es[k])
  {
    if es == [] then [] else NewTasks(expenseId, es[..|es| - 1], firstId) + [PendingTask(firstId + |es| - 1, expenseId, es[|es| - 1])]
  }

  /** The refusal of createExpenseApprovals, if any. */
  function AssignmentRefusal(rule: Rule, ras: seq<RuleApprover>, managerId: Option<Id>): Option<Error> {
    match ApproverEntries(rule, ras, managerId)
    case Err(e) => Some(e)
    case Ok(es) => if es == [] then Some(Error(BadRequest, NoApprovers)) else None
  }

  /** With no approvers at all the expense cannot be routed: an empty
      unsequenced rule without a manager is refused. */
  lemma EmptyRuleRefused(rule: Rule, managerId: Option<Id>)
    ensures AssignmentRefusal(rule, [], managerId).Some?
        <==> !rule.isManagerApprover || managerId.None?
  {
    if rule.isManagerApprover && managerId.Some? {
      assert ApproverEntries(rule, [], managerId).value[0] == ManagerEntry(managerId.value, false);
    }
  }

  /** createExpenseApprovals inside a transaction, as a value: its refusal,
      or the tables with the expense's tasks replaced by one pending task per
      entry, numbered from `firstId` on. */
  function AssignOutcome(t: Tables, expenseId: Id, rule: Rule, ras: seq<RuleApprover>, managerId: Option<Id>, firstId: Id)
    : Result<Tables>
  {
    match AssignmentRefusal(rule, ras, managerId)
    case Some(e) => Err(e)
    case None =>
      Ok(t.(tasks := TasksNotOf(t.tasks, expenseId) + NewTasks(expenseId, ApproverEntries(rule, ras, managerId).value, firstId)))
  }

  /** A committed assignment leaves the expense with a non-empty list of
      pending tasks, one per entry, keeps every other expense's tasks and
      touches no other table; it fails exactly with the refusal. */
  lemma AssignOutcomeTasks(t: Tables, expenseId: Id, rule: Rule, ras: seq<RuleApprover>, managerId: Option<Id>,
                           firstId: Id, other: Id)
    requires other != expenseId
    ensures AssignOutcome(t, expenseId, rule, ras, managerId, firstId).Err? <==> AssignmentRefusal(rule, ras, managerId).Some?
    ensures AssignOutcome(t, expenseId, rule, ras, managerId, firstId).Err? ==>
        AssignOutcome(t, expenseId, rule, ras, managerId, firstId).error == AssignmentRefusal(rule, ras, managerId).value
    ensures AssignOutcome(t, expenseId, rule, ras, managerId, firstId).Ok? ==>
        var t' := AssignOutcome(t, expenseId, rule, ras, managerId, firstId).value;
        && ApproverEntries(rule, ras, managerId).Ok?
        && var es := ApproverEntries(rule, ras, managerId).value;
        && es != []
        && TasksOf(t'.tasks, expenseId) == NewTasks(expenseId, es, firstId)
        && (forall x :: x in TasksOf(t'.tasks, expenseId) ==> x.decision == Decision.Pending)
        && TasksOf(t'.tasks, other) == TasksOf(t.tasks, other)
        && t' == t.(tasks := t'.tasks)
  {
    if AssignmentRefusal(rule, ras, managerId).None? {
      var es := ApproverEntries(rule, ras, managerId).value;
      AssignedTasks(t.tasks, expenseId, es, firstId, other);
    }
  }

  /** createExpenseApprovals: delete the expense's tasks, build the entries,
      refuse an empty list, insert one pending task per entry. A refusal
      leaves the delete in place; the enclosing transaction rolls it back. */
  method CreateExpenseApprovals(db: Store, expenseId: Id, rule: Rule, ras: seq<RuleApprover>, managerId: Option<Id>)
    returns (err: Option<Error>)
    requires db.Valid() && expenseId in db.expenses
    modifies db
    ensures db.Valid()
    ensures err == AssignmentRefusal(rule, ras, managerId)
    ensures err.Some? ==>
        db.Snapshot() == old(db.Snapshot()).(tasks := TasksNotOf(old(db.tasks), expenseId)) && db.nextId == old(db.nextId)
    ensures err.None? ==>
        var es := ApproverEntries(rule, ras, managerId).value;
        && db.Snapshot() == old(db.Snapshot()).(tasks := TasksNotOf(old(db.tasks), expenseId) + NewTasks(expenseId, es, old(db.nextId)))
        && db.nextId == old(db.nextId) + |es|
  {
    DeleteTasksValid(db.Snapshot(), db.nextId, expenseId);
    db.tasks := TasksNotOf(db.tasks, expenseId);
    var built := BuildApproverEntries(rule, ras, managerId);
    if built.Err? {
      return Some(built.error);
    }
    var es := built.value;
    if es == [] {
      return Some(Error(BadRequest, NoApprovers));
    }
    InsertTasks(db, expenseId, es);
    err := None;
  }

  /** The INSERTs of createExpenseApprovals, one pending row per entry. */
  method InsertTasks(db: Store, expenseId: Id, es: seq<Entry>)
    requires db.Valid() && expenseId in db.expenses
    modifies db
    ensures db.Valid()
    ensures db.Snapshot() == old(db.Snapshot()).(tasks := old(db.tasks) + NewTasks(expenseId, es, old(db.nextId)))
    ensures db.nextId == old(db.nextId) + |es|
  {
    var kept := db.tasks;
    var start := db.nextId;
    for k := 0 to |es|
      invariant db.Valid()
      invariant db.nextId == start + k
      invariant db.tasks == kept + NewTasks(expenseId, es[..k], start)
      invariant db.users == old(db.users) && db.companies == old(db.companies) && db.rules == old(db.rules)
      invariant db.ruleApprovers == old(db.ruleApprovers) && db.expenses == old(db.expenses)
    {
      var task := PendingTask(db.nextId, expenseId, es[k]);
      ghost var before := db.Snapshot();
      AppendTaskValid(before, db.nextId, task);
      NewTasksStep(expenseId, es, k, start);
      var id := db.FreshId();
      db.tasks := db.tasks + [task];
      assert db.Snapshot() == before.(tasks := before.tasks + [task]);
    }
    assert es[..|es|] == es;
  }

  /** One more entry adds one more task, under the next id. */
  lemma NewTasksStep(expenseId: Id, es: seq<Entry>, k: nat, firstId: Id)
    requires k < |es|
    ensures NewTasks(expenseId, es[..k + 1], firstId) == NewTasks(expenseId, es[..k], firstId) + [PendingTask(firstId + k, expenseId, es[k])]
  {
    assert es[..k + 1][..k] == es[..k];
  }

  /** Appending a task of an existing expense under the next id keeps the
      store consistent. */
  lemma AppendTaskValid(t: Tables, n: int, task: Task)
    requires TablesValid(t, n) && task.id == n && task.expenseId in t.expenses
    ensures TablesValid(t.(tasks := t.tasks + [task]), n + 1)
  {
  }

  /** After assignment the expense's tasks are exactly the new pending ones,
      one per entry, and other expenses' tasks are untouched. */
  lemma AssignedTasks(ts: seq<Task>, expenseId: Id, es: seq<Entry>, firstId: Id, other: Id)
    requires other != expenseId
    ensures TasksOf(TasksNotOf(ts, expenseId) + NewTasks(expenseId, es, firstId), expenseId)
         == NewTasks(expenseId, es, firstId)
    ensures TasksOf(TasksNotOf(ts, expenseId) + NewTasks(expenseId, es, firstId), other)
         == TasksOf(ts, other)
    ensures forall t :: t in NewTasks(expenseId, es, firstId) ==> t.decision == Decision.Pending
  {
    var n := NewTasks(expenseId, es, firstId);
    TasksOfAppend(TasksNotOf(ts, expenseId), n, expenseId);
    TasksOfAppend(TasksNotOf(ts, expenseId), n, other);
    TasksOfDeleted(ts, expenseId);
    TasksOfAll(n, expenseId);
    TasksOfNone(n, other);
    TasksOfOther(ts, expenseId, other);
  }

  lemma {:induction false} TasksOfAll(ts: seq<Task>, e: Id)
    requires forall i :: 0 <= i < |ts| ==> ts[i].expenseId == e
    ensures TasksOf(ts, e) == ts
  {
    if ts != [] {
      TasksOfAll(ts[1..], e);
      assert ts == [ts[0]] + ts[1..];
    }
  }

  lemma {:induction false} TasksOfNone(ts: seq<Task>, e: Id)
    requires forall i :: 0 <= i < |ts| ==> ts[i].expenseId != e
    ensures TasksOf(ts, e) == []
  {
    if ts != [] {
      TasksOfNone(ts[1..], e);
    }
  }

  lemma {:induction false} TasksOfOther(ts: seq<Task>, e: Id, other: Id)
    requires other != e
    ensures TasksOf(TasksNotOf(ts, e), other) == TasksOf(ts, other)
  {
    if ts != [] {
      TasksOfOther(ts[1..], e, other);
      var head := if ts[0].expenseId != e then [ts[0]] else [];
      TasksOfAppend(head, TasksNotOf(ts[1..], e), other);
      if head != [] {
        assert head[1..] == [];
      }
    }
  }
}
