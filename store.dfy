/** The database as an in-memory store. Each table is a field of one `Store`
    object: keyed tables are maps, the two row tables the engine scans
    (rule_approvers and expense_approvals) are sequences of rows with
    distinct ids. `nextId` stands for the database's id sequences. */
module Store {
  import opened Common
  import opened Domain

  /** The contents of every table, the part of the store a transaction
      rolls back. */
  datatype Tables = Tables(
    users: map<Id, User>,
    companies: map<Id, Company>,
    rules: map<Id, Rule>,
    ruleApprovers: seq<RuleApprover>,
    expenses: map<Id, Expense>,
    tasks: seq<Task>)

  /** Primary keys are distinct and were handed out below `nextId`, and every
      approval task belongs to an existing expense. */
  ghost predicate TablesValid(t: Tables, nextId: int) {
    && (forall i, j :: 0 <= i < j < |t.tasks| ==> t.tasks[i].id != t.tasks[j].id)
    && (forall i :: 0 <= i < |t.tasks| ==> t.tasks[i].id < nextId && t.tasks[i].expenseId in t.expenses)
    && (forall i, j :: 0 <= i < j < |t.ruleApprovers| ==> t.ruleApprovers[i].id != t.ruleApprovers[j].id)
    && (forall i :: 0 <= i < |t.ruleApprovers| ==> t.ruleApprovers[i].id < nextId)
    && (forall e :: e in t.expenses ==> e < nextId)
    && (forall r :: r in t.rules ==> r < nextId)
  }

  /** Id sequences only move forward, and a valid state stays valid when they do. */
  lemma TablesValidMonotonic(t: Tables, n: int, n': int)
    requires TablesValid(t, n) && n <= n'
    ensures TablesValid(t, n')
  {
  }

  class Store {
    var users: map<Id, User>
    var companies: map<Id, Company>
    var rules: map<Id, Rule>
    var ruleApprovers: seq<RuleApprover>
    var expenses: map<Id, Expense>
    var tasks: seq<Task>
    var nextId: Id

    function Snapshot(): Tables
      reads this
    {
      Tables(users, companies, rules, ruleApprovers, expenses, tasks)
    }

    ghost predicate Valid()
      reads this
    {
      TablesValid(Snapshot(), nextId)
    }

    /** A database holding a user directory and nothing else. */
    constructor (users: map<Id, User>, companies: map<Id, Company>)
      ensures Valid()
      ensures Snapshot() == Tables(users, companies, map[], [], map[], [])
    {
      this.users := users;
      this.companies := companies;
      rules := map[];
      ruleApprovers := [];
      expenses := map[];
      tasks := [];
      nextId := 1;
    }

    /** nextval: a fresh id, never handed out before. It is not rolled back. */
    method FreshId() returns (id: Id)
      requires Valid()
      modifies this`nextId
      ensures Valid()
      ensures id == old(nextId) && nextId == id + 1
    {
      id := nextId;
      nextId := nextId + 1;
    }

    /** ROLLBACK: every table gets back the contents it had at BEGIN. */
    method Restore(t: Tables)
      requires TablesValid(t, nextId)
      modifies this
      ensures Valid()
      ensures Snapshot() == t && nextId == old(nextId)
    {
      users, companies, rules := t.users, t.companies, t.rules;
      ruleApprovers, expenses, tasks := t.ruleApprovers, t.expenses, t.tasks;
    }
  }

  /** The position of the task row with primary key `id`, if any. */
  function TaskIndex(ts: seq<Task>, id: Id): (r: Option<nat>)
    ensures r.Some? ==> r.value < |ts| && ts[r.value].id == id
    ensures r.Some? ==> forall j :: 0 <= j < r.value ==> ts[j].id != id
    ensures r.None? <==> forall j :: 0 <= j < |ts| ==> ts[j].id != id
  {
    if ts == [] then None
    else if ts[0].id == id then Some(0)
    else match TaskIndex(ts[1..], id)
      case None => None
      case Some(k) => Some(k + 1)
  }

  /** The rows of `ts` that belong to expense `e`, in table order. */
  function TasksOf(ts: seq<Task>, e: Id): (r: seq<Task>)
    ensures |r| <= |ts|
    ensures forall i :: 0 <= i < |r| ==> r[i].expenseId == e && r[i] in ts
    ensures forall i :: 0 <= i < |ts| && ts[i].expenseId == e ==> ts[i] in r
  {
    if ts == [] then []
    else (if ts[0].expenseId == e then [ts[0]] else []) + TasksOf(ts[1..], e)
  }

  /** DELETE FROM expense_approvals WHERE expense_id = e. */
  function TasksNotOf(ts: seq<Task>, e: Id): (r: seq<Task>)
    ensures |r| <= |ts|
    ensures forall i :: 0 <= i < |r| ==> r[i].expenseId != e && r[i] in ts
    ensures forall i :: 0 <= i < |ts| && ts[i].expenseId != e ==> ts[i] in r
  {
    if ts == [] then []
    else (if ts[0].expenseId != e then [ts[0]] else []) + TasksNotOf(ts[1..], e)
  }

  /** Deleting one expense's tasks keeps the remaining primary keys distinct. */
  lemma {:induction false} TasksNotOfDistinct(ts: seq<Task>, e: Id)
    requires forall i, j :: 0 <= i < j < |ts| ==> ts[i].id != ts[j].id
    ensures forall i, j :: 0 <= i < j < |TasksNotOf(ts, e)| ==> TasksNotOf(ts, e)[i].id != TasksNotOf(ts, e)[j].id
  {
    if ts != [] {
      var t := ts[1..];
      TasksNotOfDistinct(t, e);
      var r := TasksNotOf(t, e);
      forall i | 0 <= i < |r| ensures r[i].id != ts[0].id {
        var j :| 0 <= j < |t| && t[j] == r[i];
        assert ts[j + 1] == t[j];
      }
    }
  }

  /** DELETE FROM expense_approvals WHERE expense_id = e keeps the store consistent. */
  lemma DeleteTasksValid(t: Tables, n: int, e: Id)
    requires TablesValid(t, n)
    ensures TablesValid(t.(tasks := TasksNotOf(t.tasks, e)), n)
  {
    TasksNotOfDistinct(t.tasks, e);
    var r := TasksNotOf(t.tasks, e);
    forall i | 0 <= i < |r| ensures r[i].id < n && r[i].expenseId in t.expenses {
      var j :| 0 <= j < |t.tasks| && t.tasks[j] == r[i];
    }
  }

  /** Selecting one expense's tasks distributes over concatenation. */
  lemma {:induction false} TasksOfAppend(a: seq<Task>, b: seq<Task>, e: Id)
    ensures TasksOf(a + b, e) == TasksOf(a, e) + TasksOf(b, e)
  {
    if a != [] {
      assert (a + b)[1..] == a[1..] + b;
      TasksOfAppend(a[1..], b, e);
    } else {
      assert a + b == b;
    }
  }

  /** After the delete, none of the expense's tasks is left. */
  lemma {:induction false} TasksOfDeleted(ts: seq<Task>, e: Id)
    ensures TasksOf(TasksNotOf(ts, e), e) == []
  {
    if ts != [] {
      TasksOfDeleted(ts[1..], e);
      var head := if ts[0].expenseId != e then [ts[0]] else [];
      TasksOfAppend(head, TasksNotOf(ts[1..], e), e);
      assert TasksOf(head, e) == [];
    }
  }
}
