/** The decision processor: an assigned approver approves or rejects one
    pending task, subject to the sequencing gate, and the expense's status
    is re-resolved from all of its tasks. */
module Approval {
  import opened Common
  import opened Domain
  import opened Store
  import opened Rules
  import opened Resolution

  /** The decision strings a caller may submit. */
  function DecisionName(d: Decision): string {
    match d
    case Pending => "Pending"
    case Approved => "Approved"
    case Rejected => "Rejected"
  }

  /** Only 'Approved' and 'Rejected' are accepted. */
  function ParseDecision(s: string): (r: Option<Decision>)
    ensures r.Some? ==> r.value != Decision.Pending && DecisionName(r.value) == s
  {
    if s == "Approved" then Some(Decision.Approved)
    else if s == "Rejected" then Some(Decision.Rejected)
    else None
  }

  /** Parsing inverts naming on the two decisions a caller can make, and
      'Pending' is refused. */
  lemma DecisionRoundTrip(d: Decision)
    ensures d != Decision.Pending ==> ParseDecision(DecisionName(d)) == Some(d)
    ensures ParseDecision(DecisionName(Decision.Pending)) == None
  {
  }

  // ---------------------------------------------------------------------
  // The sequencing gate
  // ---------------------------------------------------------------------

  /** The number a sequence stands for in a JavaScript `<`: null becomes 0. */
  function SeqValue(s: Option<int>): int {
    if s.Some? then s.value else 0
  }

  /** `a` is sequenced before the target and not yet approved. */
  predicate Blocks(a: Task, target: Task) {
    a.sequence.Some? && a.sequence.value < SeqValue(target.sequence) && a.decision != Decision.Approved
  }

  predicate AnySequenced(ts: seq<Task>) {
    exists k :: 0 <= k < |ts| && ts[k].sequence.Some?
  }

  /** The gate is open when the expense is unsequenced, or when every task
      sequenced before the target is approved. */
  predicate GatePasses(ts: seq<Task>, target: Task) {
    !AnySequenced(ts) || forall k :: 0 <= k < |ts| ==> !Blocks(ts[k], target)
  }

  /** hasSequence, then the first earlier task that is not approved. */
  method FindPriorPending(ts: seq<Task>, target: Task) returns (blocker: Option<Task>)
    ensures blocker.None? <==> GatePasses(ts, target)
    ensures blocker.Some? ==> blocker.value in ts && Blocks(blocker.value, target)
  {
    var hasSequence := false;
    for k := 0 to |ts|
      invariant hasSequence <==> exists j :: 0 <= j < k && ts[j].sequence.Some?
    {
      if ts[k].sequence.Some? {
        hasSequence := true;
      }
    }
    if !hasSequence {
      return None;
    }
    for k := 0 to |ts|
      invariant forall j :: 0 <= j < k ==> !Blocks(ts[j], target)
    {
      if ts[k].sequence.Some? && ts[k].sequence.value < SeqValue(target.sequence) && ts[k].decision != Decision.Approved {
        return Some(ts[k]);
      }
    }
    return None;
  }

  /** Once the gate is open, every task sequenced before the target has
      been approved. */
  lemma GateOrdersStages(ts: seq<Task>, target: Task, k: nat)
    requires k < |ts| && ts[k].sequence.Some? && ts[k].sequence.value < SeqValue(target.sequence)
    requires GatePasses(ts, target)
    ensures ts[k].decision == Decision.Approved
  {
  }

  /** Unsequenced tasks never block, and with no sequence at all the gate is open. */
  lemma UnsequencedNeverBlocks(ts: seq<Task>, target: Task)
    requires forall k :: 0 <= k < |ts| ==> ts[k].sequence.None?
    ensures GatePasses(ts, target)
  {
  }

  // ---------------------------------------------------------------------
  // decideApproval
  // ---------------------------------------------------------------------

  /** The row the first query returns: the task joined with its expense and
      the employee who filed it. */
  datatype Located = Located(index: nat, task: Task, expense: Expense, companyId: Id)

  function Locate(t: Tables, approvalId: Id): (r: Option<Located>)
    ensures r.Some? ==> r.value.index < |t.tasks| && t.tasks[r.value.index] == r.value.task && r.value.task.id == approvalId
    ensures r.Some? ==> TaskIndex(t.tasks, approvalId) == Some(r.value.index)
    ensures r.Some? ==>
        && r.value.task.expenseId in t.expenses && r.value.expense == t.expenses[r.value.task.expenseId]
        && r.value.expense.employeeId in t.users && r.value.companyId == t.users[r.value.expense.employeeId].companyId
    ensures r.None? <==>
        || TaskIndex(t.tasks, approvalId).None?
        || t.tasks[TaskIndex(t.tasks, approvalId).value].expenseId !in t.expenses
        || t.expenses[t.tasks[TaskIndex(t.tasks, approvalId).value].expenseId].employeeId !in t.users
  {
    match TaskIndex(t.tasks, approvalId)
    case None => None
    case Some(i) =>
      var task := t.tasks[i];
      if task.expenseId in t.expenses && t.expenses[task.expenseId].employeeId in t.users
      then Some(Located(i, task, t.expenses[task.expenseId], t.users[t.expenses[task.expenseId].employeeId].companyId))
      else None
  }

  /** In a consistent database approval ids are unique and every task's
      expense exists, so the query finds the task row with that id exactly
      when the employee who filed its expense still exists. */
  lemma LocateFindsRow(t: Tables, nextId: int, approvalId: Id, j: nat)
    requires TablesValid(t, nextId) && j < |t.tasks| && t.tasks[j].id == approvalId
    ensures Locate(t, approvalId).Some? <==> t.expenses[t.tasks[j].expenseId].employeeId in t.users
    ensures Locate(t, approvalId).Some? ==> Locate(t, approvalId).value.index == j
  {
  }

  /** The tasks the re-query sees: inner join with users on the approver. */
  function WithUser(ts: seq<Task>, users: map<Id, User>): (r: seq<Task>)
    ensures forall x :: x in r <==> x in ts && x.approverId in users
  {
    if ts == [] then []
    else (if ts[0].approverId in users then [ts[0]] else []) + WithUser(ts[1..], users)
  }

  /** The task after the UPDATE: decision, `comments || null`, decidedAt. */
  function DecidedTask(task: Task, d: Decision, comments: Option<string>, now: int): Task {
    task.(decision := d, comments := OrNull(comments), decidedAt := Some(now))
  }

  /** What decideApproval returns: the updated task and `newStatus || status`. */
  datatype Outcome = Decided(task: Task, expenseStatus: Status)

  datatype Effect = Effect(tables: Tables, outcome: Outcome)

  /** decideApproval on the tables at BEGIN: the refusals in the order the
      source checks them, or the committed tables and the returned value. */
  function Decide(t: Tables, userId: Id, approvalId: Id, decision: string, comments: Option<string>, now: int): Result<Effect> {
    match ParseDecision(decision)
    case None => Err(Error(BadRequest, InvalidDecision))
    case Some(d) =>
      match Locate(t, approvalId)
      case None => Err(Error(NotFound, TaskNotFound))
      case Some(loc) =>
        if loc.task.approverId != userId then Err(Error(Forbidden, NotAssignee))
        else if loc.task.decision != Decision.Pending then Err(Error(BadRequest, AlreadyDecided))
        else if loc.expense.status != WaitingApproval then Err(Error(BadRequest, NotAwaitingApproval))
        else match RuleOfCompany(t.rules, loc.expense.ruleId, loc.companyId)
          case Err(e) => Err(e)
          case Ok(rule) =>
            if !GatePasses(TasksOf(t.tasks, loc.task.expenseId), loc.task) then Err(Error(BadRequest, AwaitingPrevious))
            else Ok(Commit(t, loc, rule, d, comments, now))
  }

  /** The writes of a decision that passed every guard: the task row, then
      the expense status when the expense is resolved. */
  function Commit(t: Tables, loc: Located, rule: Rule, d: Decision, comments: Option<string>, now: int): Effect
    requires loc.index < |t.tasks|
  {
    var task' := DecidedTask(loc.task, d, comments, now);
    var tasks' := t.tasks[loc.index := task'];
    var status := ResolveStatus(rule.minApprovalPercentage, WithUser(TasksOf(tasks', loc.task.expenseId), t.users));
    var expenses' := if status.Some? then t.expenses[loc.task.expenseId := loc.expense.(status := status.value)] else t.expenses;
    Effect(t.(tasks := tasks', expenses := expenses'),
           Decided(task', if status.Some? then status.value else loc.expense.status))
  }

  /** A decision succeeds only for the assignee, on a pending task of an
      expense awaiting approval whose rule is in the employee's company, and
      only once every earlier sequenced task is approved. */
  lemma OnlyAssigneeDecides(t: Tables, userId: Id, approvalId: Id, decision: string, comments: Option<string>, now: int)
    requires Decide(t, userId, approvalId, decision, comments, now).Ok?
    ensures Locate(t, approvalId).Some?
    ensures var loc := Locate(t, approvalId).value;
        && loc.task.approverId == userId
        && loc.task.decision == Decision.Pending
        && loc.expense.status == WaitingApproval
        && RuleOfCompany(t.rules, loc.expense.ruleId, loc.companyId).Ok?
        && GatePasses(TasksOf(t.tasks, loc.task.expenseId), loc.task)
        && (decision == "Approved" || decision == "Rejected")
  {
  }

  /** Exactly one task row changes: it takes the submitted decision, the
      normalised comments and the caller's time, and is the returned task.
      The task's expense changes only in its status, which becomes the
      returned status; no other row of any table changes. */
  lemma DecisionWritesOneTask(t: Tables, userId: Id, approvalId: Id, decision: string, comments: Option<string>, now: int)
    requires Decide(t, userId, approvalId, decision, comments, now).Ok?
    ensures var eff := Decide(t, userId, approvalId, decision, comments, now).value;
        var i := Locate(t, approvalId).value.index;
        var eid := t.tasks[i].expenseId;
        && eff.tables.tasks == t.tasks[i := t.tasks[i].(decision := ParseDecision(decision).value,
                                                        comments := OrNull(comments), decidedAt := Some(now))]
        && eff.outcome.task == eff.tables.tasks[i]
        && eid in t.expenses
        && eff.tables.expenses == t.expenses[eid := t.expenses[eid].(status := eff.outcome.expenseStatus)]
        && eff.tables == t.(tasks := eff.tables.tasks, expenses := eff.tables.expenses)
  {
  }

  /** The expense's status is written iff the resolution returns one, and
      the returned status is the stored one. */
  lemma StatusFollowsResolution(t: Tables, userId: Id, approvalId: Id, decision: string, comments: Option<string>, now: int)
    requires Decide(t, userId, approvalId, decision, comments, now).Ok?
    ensures var eff := Decide(t, userId, approvalId, decision, comments, now).value;
        var loc := Locate(t, approvalId).value;
        var rule := RuleOfCompany(t.rules, loc.expense.ruleId, loc.companyId).value;
        var status := ResolveStatus(rule.minApprovalPercentage, WithUser(TasksOf(eff.tables.tasks, loc.task.expenseId), t.users));
        && eff.tables.expenses[loc.task.expenseId].status == eff.outcome.expenseStatus
        && eff.outcome.expenseStatus == (if status.Some? then status.value else WaitingApproval)
  {
  }

  /** A rejection by an approver who is a user rejects the expense at once. */
  lemma RejectionRejectsExpense(t: Tables, userId: Id, approvalId: Id, comments: Option<string>, now: int)
    requires userId in t.users
    requires Decide(t, userId, approvalId, "Rejected", comments, now).Ok?
    ensures Decide(t, userId, approvalId, "Rejected", comments, now).value.outcome.expenseStatus == Status.Rejected
  {
    var loc := Locate(t, approvalId).value;
    var eff := Decide(t, userId, approvalId, "Rejected", comments, now).value;
    var rule := RuleOfCompany(t.rules, loc.expense.ruleId, loc.companyId).value;
    var w := WithUser(TasksOf(eff.tables.tasks, loc.task.expenseId), t.users);
    assert eff.tables.tasks[loc.index] in TasksOf(eff.tables.tasks, loc.task.expenseId);
    assert eff.outcome.task in w;
    var k :| 0 <= k < |w| && w[k] == eff.outcome.task;
    CountPositive(w, Decision.Rejected);
    RejectionWins(rule.minApprovalPercentage, w);
  }

  /** Once decided, a task cannot be decided again: a repeat by the same
      approver is refused as already decided, whatever the new decision. */
  lemma DecidingTwiceFails(t: Tables, userId: Id, approvalId: Id, decision: string, comments: Option<string>, now: int,
                           decision2: string, comments2: Option<string>, now2: int)
    requires Decide(t, userId, approvalId, decision, comments, now).Ok?
    requires ParseDecision(decision2).Some?
    ensures Decide(Decide(t, userId, approvalId, decision, comments, now).value.tables, userId, approvalId, decision2, comments2, now2)
         == Err(Error(BadRequest, AlreadyDecided))
  {
    DecisionWritesOneTask(t, userId, approvalId, decision, comments, now);
    var t' := Decide(t, userId, approvalId, decision, comments, now).value.tables;
    var i := Locate(t, approvalId).value.index;
    TaskIndexUpdate(t.tasks, i, t'.tasks[i]);
    assert Locate(t', approvalId).value.task.decision != Decision.Pending;
  }

  /** Replacing a row by one with the same key leaves the first index of
      that key where it was. */
  lemma {:induction false} TaskIndexUpdate(ts: seq<Task>, i: nat, x: Task)
    requires i < |ts| && TaskIndex(ts, ts[i].id) == Some(i) && x.id == ts[i].id
    ensures TaskIndex(ts[i := x], x.id) == Some(i)
  {
    if i > 0 {
      assert ts[i := x][1..] == ts[1..][i - 1 := x];
      TaskIndexUpdate(ts[1..], i - 1, x);
    }
  }

  /** Decisions on an expense that is already Approved or Rejected (or still
      a Draft) are always refused. */
  lemma ClosedExpenseFrozen(t: Tables, userId: Id, approvalId: Id, decision: string, comments: Option<string>, now: int)
    requires Locate(t, approvalId).Some? && Locate(t, approvalId).value.expense.status != WaitingApproval
    ensures Decide(t, userId, approvalId, decision, comments, now).Err?
  {
  }

  /** A successful decision keeps the store consistent. */
  lemma DecideKeepsValid(t: Tables, n: int, userId: Id, approvalId: Id, decision: string, comments: Option<string>, now: int)
    requires TablesValid(t, n)
    requires Decide(t, userId, approvalId, decision, comments, now).Ok?
    ensures TablesValid(Decide(t, userId, approvalId, decision, comments, now).value.tables, n)
  {
    DecisionWritesOneTask(t, userId, approvalId, decision, comments, now);
    var eff := Decide(t, userId, approvalId, decision, comments, now).value;
    var i := Locate(t, approvalId).value.index;
    var eid := t.tasks[i].expenseId;
    RewriteKeepsValid(t, n, i, eff.tables.tasks[i], t.expenses[eid].(status := eff.outcome.expenseStatus));
  }

  /** Rewriting one task row without changing its id or expense, and one
      existing expense row, keeps the tables consistent. */
  lemma RewriteKeepsValid(t: Tables, n: int, i: nat, task: Task, e: Expense)
    requires TablesValid(t, n) && i < |t.tasks|
    requires task.id == t.tasks[i].id && task.expenseId == t.tasks[i].expenseId
    ensures TablesValid(t.(tasks := t.tasks[i := task],
                           expenses := t.expenses[t.tasks[i].expenseId := e]), n)
  {
  }

  /** decideApproval inside its transaction. Every refusal comes before the
      first write, so a rolled-back call leaves the tables as they were. */
  method DecideApproval(db: Store, userId: Id, approvalId: Id, decision: string, comments: Option<string>, now: int)
    returns (r: Result<Outcome>)
    requires db.Valid()
    modifies db
    ensures db.Valid() && db.nextId == old(db.nextId)
    ensures match Decide(old(db.Snapshot()), userId, approvalId, decision, comments, now)
            case Err(e) => r == Err(e) && db.Snapshot() == old(db.Snapshot())
            case Ok(eff) => r == Ok(eff.outcome) && db.Snapshot() == eff.tables
  {
    var d := ParseDecision(decision);
    if d.None? {
      return Err(Error(BadRequest, InvalidDecision));
    }
    var loc := Locate(db.Snapshot(), approvalId);
    if loc.None? {
      return Err(Error(NotFound, TaskNotFound));
    }
    var approval := loc.value.task;
    if approval.approverId != userId {
      return Err(Error(Forbidden, NotAssignee));
    }
    if approval.decision != Decision.Pending {
      return Err(Error(BadRequest, AlreadyDecided));
    }
    var expense := loc.value.expense;
    if expense.status != WaitingApproval {
      return Err(Error(BadRequest, NotAwaitingApproval));
    }
    var rule := RuleOfCompany(db.rules, expense.ruleId, loc.value.companyId);
    if rule.Err? {
      return Err(rule.error);
    }
    var blocker := FindPriorPending(TasksOf(db.tasks, approval.expenseId), approval);
    if blocker.Some? {
      return Err(Error(BadRequest, AwaitingPrevious));
    }
    ghost var t := db.Snapshot();
    DecideKeepsValid(t, db.nextId, userId, approvalId, decision, comments, now);
    assert Decide(t, userId, approvalId, decision, comments, now) == Ok(Commit(t, loc.value, rule.value, d.value, comments, now));
    r := WriteDecision(db, loc.value, rule.value, d.value, comments, now);
  }

  /** The UPDATEs of decideApproval once every guard has passed. */
  method WriteDecision(db: Store, loc: Located, rule: Rule, d: Decision, comments: Option<string>, now: int)
    returns (r: Result<Outcome>)
    requires loc.index < |db.tasks| && db.tasks[loc.index] == loc.task
    requires loc.task.expenseId in db.expenses && db.expenses[loc.task.expenseId] == loc.expense
    modifies db
    ensures db.nextId == old(db.nextId)
    ensures var eff := Commit(old(db.Snapshot()), loc, rule, d, comments, now);
        r == Ok(eff.outcome) && db.Snapshot() == eff.tables
  {
    var task' := DecidedTask(loc.task, d, comments, now);
    db.tasks := db.tasks[loc.index := task'];
    var updated := WithUser(TasksOf(db.tasks, loc.task.expenseId), db.users);
    var newStatus := ResolveStatus(rule.minApprovalPercentage, updated);
    if newStatus.Some? {
      db.expenses := db.expenses[loc.task.expenseId := loc.expense.(status := newStatus.value)];
    }
    r := Ok(Decided(task', if newStatus.Some? then newStatus.value else loc.expense.status));
  }

  /** A client of the processor: the second of two identical calls is
      refused and leaves the tables as the first call committed them. */
  method DecideTwice(db: Store, userId: Id, approvalId: Id, decision: string, now: int)
    returns (first: Result<Outcome>, second: Result<Outcome>)
    requires db.Valid()
    modifies db
    ensures first.Ok? ==> second == Err(Error(BadRequest, AlreadyDecided))
  {
    first := DecideApproval(db, userId, approvalId, decision, None, now);
    if first.Ok? {
      ghost var t0 := old(db.Snapshot());
      assert Decide(t0, userId, approvalId, decision, None, now).Ok?;
      DecidingTwiceFails(t0, userId, approvalId, decision, None, now, decision, None, now);
    }
    second := DecideApproval(db, userId, approvalId, decision, None, now);
  }
}
