/** Expense creation and update: the request checks, the only legal status
    change (Draft to Waiting Approval, and only with a rule), and the
    assignment of approval tasks on submission, all inside one transaction. */
module Expenses {
  import opened Common
  import opened Domain
  import opened Store
  import opened Rules
  import opened Assignment

  // ---------------------------------------------------------------------
  // Values of the request
  // ---------------------------------------------------------------------

  /** A request amount: a number, or a value `Number()` turns into NaN. */
  datatype AmountInput = Amount(value: real) | Unparseable

  /** Math.round(v * 100) / 100 on exact reals (Math.round rounds halves up). */
  function RoundToTwo(v: real): (r: real)
    ensures v - 0.005 < r <= v + 0.005
    ensures (r * 100.0).Floor as real == r * 100.0
  {
    (v * 100.0 + 0.5).Floor as real / 100.0
  }

  /** Rounding an already rounded amount changes nothing. */
  lemma RoundToTwoIdempotent(v: real)
    ensures RoundToTwo(RoundToTwo(v)) == RoundToTwo(v)
  {
    var n := (v * 100.0 + 0.5).Floor;
    assert RoundToTwo(v) * 100.0 == n as real;
    assert (n as real + 0.5).Floor == n;
  }

  /** A string field is truthy: present and non-empty. */
  predicate Filled(s: Option<string>) {
    s.Some? && s.value != ""
  }

  /** The four status strings. */
  function StatusName(s: Status): string {
    match s
    case Draft => "Draft"
    case WaitingApproval => "Waiting Approval"
    case Approved => "Approved"
    case Rejected => "Rejected"
  }

  function ParseStatus(s: string): (r: Option<Status>)
    ensures r.Some? ==> StatusName(r.value) == s
  {
    if s == "Draft" then Some(Draft)
    else if s == "Waiting Approval" then Some(WaitingApproval)
    else if s == "Approved" then Some(Status.Approved)
    else if s == "Rejected" then Some(Status.Rejected)
    else None
  }

  lemma StatusRoundTrip(s: Status)
    ensures ParseStatus(StatusName(s)) == Some(s)
  {
  }

  /** The employee context the controller resolves for the caller. */
  datatype Employee = Employee(id: Id, companyId: Id, managerId: Option<Id>, baseCurrency: Option<string>)

  // ---------------------------------------------------------------------
  // createExpense
  // ---------------------------------------------------------------------

  datatype ExpenseInput = ExpenseInput(
    description: Option<string>,
    category: Option<string>,
    expenseDate: Option<string>,
    paidBy: Option<string>,
    remarks: Option<string>,
    amount: Option<AmountInput>,
    currency: Option<string>,
    status: Option<string>,
    ruleId: Option<Id>)

  /** `status = 'Draft'` as a default, then `status || 'Draft'`. */
  function RequestedStatus(s: Option<string>): string {
    if Filled(s) then s.value else "Draft"
  }

  /** `!amount`: missing, zero (NaN-valued inputs that are not numbers are truthy). */
  predicate AmountGiven(a: Option<AmountInput>) {
    a.Some? && a.value != Amount(0.0)
  }

  /** The checks made before the transaction, in order, and what they fix. */
  datatype CreatePlan = CreatePlan(requested: Status, originalAmount: real, originalCurrency: string, baseCurrency: string)

  function CheckCreate(employee: Employee, input: ExpenseInput): Result<CreatePlan> {
    if !Filled(input.description) || !Filled(input.expenseDate) || !AmountGiven(input.amount) || !Filled(input.currency)
    then Err(Error(BadRequest, MissingFields))
    else match ParseStatus(RequestedStatus(input.status))
      case None => Err(Error(BadRequest, InvalidStatus))
      case Some(requested) =>
        if requested != Draft && input.ruleId.None? then Err(Error(BadRequest, RuleRequiredForSubmit))
        else if input.amount.value.Unparseable? || input.amount.value.value <= 0.0 then Err(Error(BadRequest, NonPositiveAmount))
        else
          var base := Upper(if employee.baseCurrency.Some? then employee.baseCurrency.value else "");
          if base == "" then Err(Error(Internal, BaseCurrencyMissing))
          else Ok(CreatePlan(requested, RoundToTwo(input.amount.value.value), Upper(input.currency.value), base))
  }

  /** The request checks of createExpense: it is accepted exactly when the
      required fields are present, the status is one of the four, a
      non-Draft status comes with a rule, the amount is positive and the
      company has a base currency; every refusal but the last is BadRequest. */
  lemma CreateAccepted(employee: Employee, input: ExpenseInput)
    ensures CheckCreate(employee, input).Ok? <==>
        && Filled(input.description) && Filled(input.expenseDate) && AmountGiven(input.amount) && Filled(input.currency)
        && ParseStatus(RequestedStatus(input.status)).Some?
        && (RequestedStatus(input.status) != "Draft" ==> input.ruleId.Some?)
        && input.amount.value.Amount? && input.amount.value.value > 0.0
        && employee.baseCurrency.Some? && employee.baseCurrency.value != ""
    ensures CheckCreate(employee, input).Err? ==>
        CheckCreate(employee, input).error.kind == (if CheckCreate(employee, input).error.reason == BaseCurrencyMissing then Internal else BadRequest)
    ensures CheckCreate(employee, input).Ok? ==>
        StatusName(CheckCreate(employee, input).value.requested) == RequestedStatus(input.status)
  {
    if employee.baseCurrency.Some? {
      var s := employee.baseCurrency.value;
      assert |Upper(s)| == |s|;
    }
  }

  /** The stored status: Draft stays Draft, every other request is submitted. */
  function InitialStatus(requested: Status): (r: Status)
    ensures r == Draft <==> requested == Draft
    ensures r != Status.Approved && r != Status.Rejected
  {
    if requested == Draft then Draft else WaitingApproval
  }

  /** The expenses row createExpense inserts. */
  function NewExpense(employee: Employee, input: ExpenseInput, plan: CreatePlan, amount: real): Expense {
    Expense(employee.id, input.ruleId, input.description, OrNull(input.category), input.expenseDate,
            OrNull(input.paidBy), OrNull(input.remarks), amount, plan.baseCurrency,
            plan.originalAmount, plan.originalCurrency, InitialStatus(plan.requested))
  }

  /** The value a committed transaction returns, with the tables it commits. */
  datatype Committed<T> = Committed(value: T, tables: Tables)

  /** createExpense on the tables at BEGIN, with `firstId` the next id the
      sequences hand out: the refusal or failure the source meets first, or
      the new expense's id and the committed tables. */
  function CreateOutcome(t: Tables, firstId: Id, employee: Employee, input: ExpenseInput,
                         convert: (real, string, string) -> Result<real>): Result<Committed<Id>>
  {
    match CheckCreate(employee, input)
    case Err(e) => Err(e)
    case Ok(plan) =>
      match convert(plan.originalAmount, plan.originalCurrency, plan.baseCurrency)
      case Err(e) => Err(e)
      case Ok(c) => InsertOutcome(t, firstId, employee, input, plan, RoundToTwo(c))
  }

  /** The transaction of createExpense: the rule check, the INSERT under
      `id`, and the approval tasks when the expense is submitted with a rule. */
  function InsertOutcome(t: Tables, id: Id, employee: Employee, input: ExpenseInput, plan: CreatePlan, amount: real)
    : Result<Committed<Id>>
  {
    var rule := RuleOfCompany(t.rules, input.ruleId, employee.companyId);
    if input.ruleId.Some? && rule.Err? then Err(rule.error)
    else
      var inserted := t.(expenses := t.expenses[id := NewExpense(employee, input, plan, amount)]);
      if plan.requested == Draft || input.ruleId.None? then Ok(Committed(id, inserted))
      else
        match AssignOutcome(inserted, id, rule.value, RuleApproversOf(t.users, t.ruleApprovers, input.ruleId.value),
                            employee.managerId, id + 1)
        case Err(e) => Err(e)
        case Ok(t') => Ok(Committed(id, t'))
  }

  /** createExpense succeeds exactly when the request checks pass, the
      amount converts, a given rule is the company's, and a submitted
      expense gets at least one approver. */
  lemma CreateSucceeds(t: Tables, firstId: Id, employee: Employee, input: ExpenseInput,
                       convert: (real, string, string) -> Result<real>)
    ensures CreateOutcome(t, firstId, employee, input, convert).Ok? <==>
        && CheckCreate(employee, input).Ok?
        && var plan := CheckCreate(employee, input).value;
        && convert(plan.originalAmount, plan.originalCurrency, plan.baseCurrency).Ok?
        && (input.ruleId.Some? ==> RuleOfCompany(t.rules, input.ruleId, employee.companyId).Ok?)
        && (plan.requested != Draft && input.ruleId.Some? ==>
              AssignmentRefusal(RuleOfCompany(t.rules, input.ruleId, employee.companyId).value,
                                RuleApproversOf(t.users, t.ruleApprovers, input.ruleId.value),
                                employee.managerId).None?)
  {
  }

  /** The error createExpense returns is the first that occurs: a request
      check, then the converter's failure, then NotFound for a rule of
      another company, then the refusal to build the approval tasks. */
  lemma CreateRefusals(t: Tables, firstId: Id, employee: Employee, input: ExpenseInput,
                       convert: (real, string, string) -> Result<real>)
    ensures CheckCreate(employee, input).Err? ==>
        CreateOutcome(t, firstId, employee, input, convert) == Err(CheckCreate(employee, input).error)
    ensures CheckCreate(employee, input).Ok? ==>
        var plan := CheckCreate(employee, input).value;
        var conv := convert(plan.originalAmount, plan.originalCurrency, plan.baseCurrency);
        var rule := RuleOfCompany(t.rules, input.ruleId, employee.companyId);
        && (conv.Err? ==> CreateOutcome(t, firstId, employee, input, convert) == Err(conv.error))
        && (conv.Ok? && input.ruleId.Some? && rule.Err? ==>
              CreateOutcome(t, firstId, employee, input, convert) == Err(Error(NotFound, RuleNotFound)))
        && (conv.Ok? && input.ruleId.Some? && rule.Ok? && plan.requested != Draft ==>
              var refusal := AssignmentRefusal(rule.value, RuleApproversOf(t.users, t.ruleApprovers, input.ruleId.value),
                                               employee.managerId);
              refusal.Some? ==> CreateOutcome(t, firstId, employee, input, convert) == Err(refusal.value))
  {
  }

  /** A committed createExpense inserts the new row under the next id and
      keeps every other table; a submitted expense gets a non-empty list of
      pending tasks under the ids that follow, a Draft gets none. */
  lemma CreateCommits(t: Tables, firstId: Id, employee: Employee, input: ExpenseInput,
                      convert: (real, string, string) -> Result<real>)
    requires TablesValid(t, firstId)
    requires CreateOutcome(t, firstId, employee, input, convert).Ok?
    ensures CheckCreate(employee, input).Ok?
    ensures var out := CreateOutcome(t, firstId, employee, input, convert).value;
        var plan := CheckCreate(employee, input).value;
        var conv := convert(plan.originalAmount, plan.originalCurrency, plan.baseCurrency);
        && conv.Ok?
        && out.value == firstId && firstId !in t.expenses
        && out.tables.expenses == t.expenses[firstId := NewExpense(employee, input, plan, RoundToTwo(conv.value))]
        && out.tables.users == t.users && out.tables.companies == t.companies
        && out.tables.rules == t.rules && out.tables.ruleApprovers == t.ruleApprovers
        && (plan.requested == Draft ==> out.tables.tasks == t.tasks)
        && (plan.requested != Draft ==>
              && input.ruleId.Some?
              && RuleOfCompany(t.rules, input.ruleId, employee.companyId).Ok?
              && var es := ApproverEntries(RuleOfCompany(t.rules, input.ruleId, employee.companyId).value,
                                           RuleApproversOf(t.users, t.ruleApprovers, input.ruleId.value),
                                           employee.managerId);
                 es.Ok? && es.value != [] && out.tables.tasks == t.tasks + NewTasks(firstId, es.value, firstId + 1))
  {
    var plan := CheckCreate(employee, input).value;
    var conv := convert(plan.originalAmount, plan.originalCurrency, plan.baseCurrency);
    assert plan.requested != Draft ==> input.ruleId.Some?;
    InsertCommits(t, firstId, employee, input, plan, RoundToTwo(conv.value));
  }

  /** The transaction of createExpense, when it commits: the row under `id`,
      and for a submission with a rule the new pending tasks. */
  lemma InsertCommits(t: Tables, id: Id, employee: Employee, input: ExpenseInput, plan: CreatePlan, amount: real)
    requires TablesValid(t, id)
    requires InsertOutcome(t, id, employee, input, plan, amount).Ok?
    ensures var out := InsertOutcome(t, id, employee, input, plan, amount).value;
        && out.value == id && id !in t.expenses
        && out.tables.expenses == t.expenses[id := NewExpense(employee, input, plan, amount)]
        && out.tables.users == t.users && out.tables.companies == t.companies
        && out.tables.rules == t.rules && out.tables.ruleApprovers == t.ruleApprovers
        && (plan.requested == Draft || input.ruleId.None? ==> out.tables.tasks == t.tasks)
        && (plan.requested != Draft && input.ruleId.Some? ==>
              && RuleOfCompany(t.rules, input.ruleId, employee.companyId).Ok?
              && var es := ApproverEntries(RuleOfCompany(t.rules, input.ruleId, employee.companyId).value,
                                           RuleApproversOf(t.users, t.ruleApprovers, input.ruleId.value),
                                           employee.managerId);
                 es.Ok? && es.value != [] && out.tables.tasks == t.tasks + NewTasks(id, es.value, id + 1))
  {
    var inserted := t.(expenses := t.expenses[id := NewExpense(employee, input, plan, amount)]);
    if plan.requested != Draft && input.ruleId.Some? {
      var rule := RuleOfCompany(t.rules, input.ruleId, employee.companyId).value;
      var ras := RuleApproversOf(t.users, t.ruleApprovers, input.ruleId.value);
      TasksAvoidFreshExpense(t.tasks, t.expenses, id);
      AssignOutcomeTasks(inserted, id, rule, ras, employee.managerId, id + 1, id + 1);
      assert InsertOutcome(t, id, employee, input, plan, amount)
          == Ok(Committed(id, AssignOutcome(inserted, id, rule, ras, employee.managerId, id + 1).value));
    } else {
      assert InsertOutcome(t, id, employee, input, plan, amount) == Ok(Committed(id, inserted));
    }
  }

  /** createExpense. The converter is the exchange-rate collaborator; its
      failure is passed on before the transaction starts. */
  method CreateExpense(db: Store, employee: Employee, input: ExpenseInput, convert: (real, string, string) -> Result<real>)
    returns (r: Result<Id>)
    requires db.Valid()
    modifies db
    ensures db.Valid()
    ensures var out := CreateOutcome(old(db.Snapshot()), old(db.nextId), employee, input, convert);
        && r == (if out.Ok? then Ok(out.value.value) else Err(out.error))
        && db.Snapshot() == (if out.Ok? then out.value.tables else old(db.Snapshot()))
  {
    var checked := CheckCreate(employee, input);
    if checked.Err? {
      return Err(checked.error);
    }
    var plan := checked.value;
    var converted := convert(plan.originalAmount, plan.originalCurrency, plan.baseCurrency);
    if converted.Err? {
      return Err(converted.error);
    }
    r := InsertExpense(db, employee, input, plan, RoundToTwo(converted.value));
  }

  /** The transaction of createExpense: the rule check, the insert, and (for
      a submission) the approval tasks; a refusal rolls every table back. */
  method InsertExpense(db: Store, employee: Employee, input: ExpenseInput, plan: CreatePlan, amount: real)
    returns (r: Result<Id>)
    requires db.Valid()
    modifies db
    ensures db.Valid()
    ensures var out := InsertOutcome(old(db.Snapshot()), old(db.nextId), employee, input, plan, amount);
        && r == (if out.Ok? then Ok(out.value.value) else Err(out.error))
        && db.Snapshot() == (if out.Ok? then out.value.tables else old(db.Snapshot()))
  {
    var rule := RuleOfCompany(db.rules, input.ruleId, employee.companyId);
    if input.ruleId.Some? && rule.Err? {
      return Err(rule.error);
    }
    var ras := if input.ruleId.Some? then RuleApproversOf(db.users, db.ruleApprovers, input.ruleId.value) else [];
    ghost var begin, id := db.Snapshot(), db.nextId;
    r := InsertRow(db, NewExpense(employee, input, plan, amount), plan.requested != Draft && input.ruleId.Some?,
                   rule, ras, employee.managerId);
    InsertRowOutcome(begin, id, employee, input, plan, amount, rule, ras, r, db.Snapshot());
  }

  /** What InsertRow commits is the transaction of createExpense once the
      rule lookup has passed. */
  lemma InsertRowOutcome(t: Tables, id: Id, employee: Employee, input: ExpenseInput, plan: CreatePlan, amount: real,
                         rule: Result<Rule>, ras: seq<RuleApprover>, r: Result<Id>, t': Tables)
    requires rule == RuleOfCompany(t.rules, input.ruleId, employee.companyId)
    requires input.ruleId.Some? ==> rule.Ok? && ras == RuleApproversOf(t.users, t.ruleApprovers, input.ruleId.value)
    requires var inserted := t.(expenses := t.expenses[id := NewExpense(employee, input, plan, amount)]);
        && (!(plan.requested != Draft && input.ruleId.Some?) ==> r == Ok(id) && t' == inserted)
        && (plan.requested != Draft && input.ruleId.Some? ==>
              var out := AssignOutcome(inserted, id, rule.value, ras, employee.managerId, id + 1);
              && r == (if out.Ok? then Ok(id) else Err(out.error))
              && t' == (if out.Ok? then out.value else t))
    ensures var out := InsertOutcome(t, id, employee, input, plan, amount);
        && r == (if out.Ok? then Ok(out.value.value) else Err(out.error))
        && t' == (if out.Ok? then out.value.tables else t)
  {
    InsertOutcomeCases(t, id, employee, input, plan, amount);
  }

  /** The INSERT of createExpense and, when `submit` holds, the approval tasks
      of `rule` for the new row. */
  method InsertRow(db: Store, row: Expense, submit: bool, rule: Result<Rule>, ras: seq<RuleApprover>, managerId: Option<Id>)
    returns (r: Result<Id>)
    requires db.Valid() && (submit ==> rule.Ok?)
    modifies db
    ensures db.Valid()
    ensures var inserted := old(db.Snapshot()).(expenses := old(db.expenses)[old(db.nextId) := row]);
        !submit ==> r == Ok(old(db.nextId)) && db.Snapshot() == inserted
    ensures var inserted := old(db.Snapshot()).(expenses := old(db.expenses)[old(db.nextId) := row]);
        submit ==>
          var out := AssignOutcome(inserted, old(db.nextId), rule.value, ras, managerId, old(db.nextId) + 1);
          && r == (if out.Ok? then Ok(old(db.nextId)) else Err(out.error))
          && db.Snapshot() == (if out.Ok? then out.value else old(db.Snapshot()))
  {
    var begin := db.Snapshot();
    var id := AddExpenseRow(db, row);
    if submit {
      var err := AssignOnCreate(db, id, rule.value, ras, managerId, begin);
      if err.Some? {
        return Err(err.value);
      }
    }
    r := Ok(id);
  }

  /** INSERT INTO expenses: the row under a fresh id. */
  method AddExpenseRow(db: Store, row: Expense) returns (id: Id)
    requires db.Valid()
    modifies db
    ensures db.Valid() && TablesValid(old(db.Snapshot()), db.nextId)
    ensures id == old(db.nextId) && db.nextId == id + 1 && id !in old(db.expenses)
    ensures db.Snapshot() == old(db.Snapshot()).(expenses := old(db.expenses)[id := row])
  {
    ghost var begin := db.Snapshot();
    id := db.FreshId();
    TablesValidMonotonic(begin, id, db.nextId);
    InsertExpenseValid(db.Snapshot(), db.nextId, id, row);
    db.expenses := db.expenses[id := row];
    assert db.Snapshot() == begin.(expenses := begin.expenses[id := row]);
  }

  /** The two ways the transaction of createExpense commits or fails once
      a given rule is known to be the company's. */
  lemma InsertOutcomeCases(t: Tables, id: Id, employee: Employee, input: ExpenseInput, plan: CreatePlan, amount: real)
    requires input.ruleId.Some? ==> RuleOfCompany(t.rules, input.ruleId, employee.companyId).Ok?
    ensures var inserted := t.(expenses := t.expenses[id := NewExpense(employee, input, plan, amount)]);
        plan.requested == Draft || input.ruleId.None? ==>
          InsertOutcome(t, id, employee, input, plan, amount) == Ok(Committed(id, inserted))
    ensures var inserted := t.(expenses := t.expenses[id := NewExpense(employee, input, plan, amount)]);
        plan.requested != Draft && input.ruleId.Some? ==>
          var tasked := AssignOutcome(inserted, id, RuleOfCompany(t.rules, input.ruleId, employee.companyId).value,
                                      RuleApproversOf(t.users, t.ruleApprovers, input.ruleId.value), employee.managerId, id + 1);
          InsertOutcome(t, id, employee, input, plan, amount) == if tasked.Ok? then Ok(Committed(id, tasked.value)) else Err(tasked.error)
  {
  }

  /** The approval tasks of a new submitted expense `id`, inserted on top of
      the tables `begin`; a refusal rolls back to `begin`. */
  method AssignOnCreate(db: Store, id: Id, rule: Rule, ras: seq<RuleApprover>, managerId: Option<Id>, begin: Tables)
    returns (err: Option<Error>)
    requires db.Valid() && id in db.expenses && id !in begin.expenses
    requires TablesValid(begin, db.nextId)
    requires db.Snapshot() == begin.(expenses := begin.expenses[id := db.expenses[id]])
    modifies db
    ensures db.Valid()
    ensures var out := AssignOutcome(old(db.Snapshot()), id, rule, ras, managerId, old(db.nextId));
        && err == AssignmentRefusal(rule, ras, managerId)
        && err == (if out.Ok? then None else Some(out.error))
        && db.Snapshot() == (if out.Ok? then out.value else begin)
  {
    TasksAvoidFreshExpense(begin.tasks, begin.expenses, id);
    err := CreateExpenseApprovals(db, id, rule, ras, managerId);
    if err.Some? {
      TablesValidMonotonic(begin, old(db.nextId), db.nextId);
      db.Restore(begin);
    }
  }

  /** Inserting an expense under an id already handed out keeps the store consistent. */
  lemma InsertExpenseValid(t: Tables, n: int, id: Id, e: Expense)
    requires TablesValid(t, n) && id < n
    ensures TablesValid(t.(expenses := t.expenses[id := e]), n)
  {
  }

  /** No task refers to an expense id that was never handed out. */
  lemma TasksAvoidFreshExpense(ts: seq<Task>, expenses: map<Id, Expense>, id: Id)
    requires forall i :: 0 <= i < |ts| ==> ts[i].expenseId in expenses
    requires id !in expenses
    ensures TasksNotOf(ts, id) == ts
  {
    if ts != [] {
      TasksAvoidFreshExpense(ts[1..], expenses, id);
      assert ts == [ts[0]] + ts[1..];
    }
  }

  // ---------------------------------------------------------------------
  // updateExpense
  // ---------------------------------------------------------------------

  /** A key of the update body: absent (or undefined), or present with a
      value that may be null. */
  datatype Field<T> = Absent | Given(value: Option<T>)

  datatype ExpenseUpdates = ExpenseUpdates(
    description: Field<string>,
    category: Field<string>,
    expenseDate: Field<string>,
    paidBy: Field<string>,
    remarks: Field<string>,
    ruleId: Field<Id>,
    amount: Option<AmountInput>,
    currency: Option<Option<string>>,
    status: Option<string>)

  /** The updatable columns, in the order the source visits them. */
  datatype Column = DescriptionCol | CategoryCol | ExpenseDateCol | PaidByCol | RemarksCol | RuleIdCol

  const Columns: seq<Column> := [DescriptionCol, CategoryCol, ExpenseDateCol, PaidByCol, RemarksCol, RuleIdCol]

  /** One `column = value` pair of the UPDATE. */
  datatype SetClause = SetText(column: Column, text: Option<string>) | SetRule(rule: Option<Id>)

  /** The assignment a column contributes, if its key is present. */
  function ColumnAssignment(u: ExpenseUpdates, c: Column): Option<SetClause> {
    match c
    case DescriptionCol => if u.description.Given? then Some(SetText(c, u.description.value)) else None
    case CategoryCol => if u.category.Given? then Some(SetText(c, u.category.value)) else None
    case ExpenseDateCol => if u.expenseDate.Given? then Some(SetText(c, u.expenseDate.value)) else None
    case PaidByCol => if u.paidBy.Given? then Some(SetText(c, u.paidBy.value)) else None
    case RemarksCol => if u.remarks.Given? then Some(SetText(c, u.remarks.value)) else None
    case RuleIdCol => if u.ruleId.Given? then Some(SetRule(u.ruleId.value)) else None
  }

  /** The assignments for the columns `cs`, in order. */
  function Assignments(u: ExpenseUpdates, cs: seq<Column>): seq<SetClause> {
    if cs == [] then []
    else Assignments(u, cs[..|cs| - 1]) + (match ColumnAssignment(u, cs[|cs| - 1]) case None => [] case Some(a) => [a])
  }

  /** A new non-null rule must belong to the caller's company. */
  function RuleRefusal(rules: map<Id, Rule>, u: ExpenseUpdates, companyId: Id): Option<Error> {
    if u.ruleId.Given? && u.ruleId.value.Some? && RuleOfCompany(rules, u.ruleId.value, companyId).Err?
    then Some(Error(NotFound, RuleNotFound)) else None
  }

  /** The loop over the updatable columns: collect the present keys, checking
      a new rule on the way. */
  method CollectFields(rules: map<Id, Rule>, u: ExpenseUpdates, companyId: Id) returns (r: Result<seq<SetClause>>)
    ensures r == if RuleRefusal(rules, u, companyId).Some? then Err(RuleRefusal(rules, u, companyId).value)
                 else Ok(Assignments(u, Columns))
  {
    var fields: seq<SetClause> := [];
    for k := 0 to |Columns|
      invariant fields == Assignments(u, Columns[..k])
      invariant k == |Columns| ==> RuleRefusal(rules, u, companyId).None?
    {
      var c := Columns[k];
      assert Columns[..k + 1][..k] == Columns[..k];
      var a := ColumnAssignment(u, c);
      if a.Some? {
        if c == RuleIdCol && u.ruleId.value.Some? {
          var check := RuleOfCompany(rules, u.ruleId.value, companyId);
          if check.Err? {
            return Err(check.error);
          }
        }
        fields := fields + [a.value];
      }
    }
    assert Columns[..|Columns|] == Columns;
    r := Ok(fields);
  }

  function ApplyOne(e: Expense, a: SetClause): Expense {
    match a
    case SetRule(r) => e.(ruleId := r)
    case SetText(c, t) =>
      match c
      case DescriptionCol => e.(description := t)
      case CategoryCol => e.(category := t)
      case ExpenseDateCol => e.(expenseDate := t)
      case PaidByCol => e.(paidBy := t)
      case RemarksCol => e.(remarks := t)
      case RuleIdCol => e
  }

  function Apply(e: Expense, fs: seq<SetClause>): Expense {
    if fs == [] then e else ApplyOne(Apply(e, fs[..|fs| - 1]), fs[|fs| - 1])
  }

  /** The expense after the assignment one column contributes. */
  function ApplyColumn(e: Expense, u: ExpenseUpdates, c: Column): Expense {
    match ColumnAssignment(u, c)
    case None => e
    case Some(x) => ApplyOne(e, x)
  }

  /** The value a column holds: one of the five text columns, or rule_id. */
  datatype FieldValue = TextValue(text: Option<string>) | RuleValue(rule: Option<Id>)

  function FieldOf(e: Expense, c: Column): FieldValue {
    match c
    case DescriptionCol => TextValue(e.description)
    case CategoryCol => TextValue(e.category)
    case ExpenseDateCol => TextValue(e.expenseDate)
    case PaidByCol => TextValue(e.paidBy)
    case RemarksCol => TextValue(e.remarks)
    case RuleIdCol => RuleValue(e.ruleId)
  }

  /** The value the update gives a column, when its key is present. */
  function GivenOf(u: ExpenseUpdates, c: Column): Option<FieldValue> {
    match c
    case DescriptionCol => if u.description.Given? then Some(TextValue(u.description.value)) else None
    case CategoryCol => if u.category.Given? then Some(TextValue(u.category.value)) else None
    case ExpenseDateCol => if u.expenseDate.Given? then Some(TextValue(u.expenseDate.value)) else None
    case PaidByCol => if u.paidBy.Given? then Some(TextValue(u.paidBy.value)) else None
    case RemarksCol => if u.remarks.Given? then Some(TextValue(u.remarks.value)) else None
    case RuleIdCol => if u.ruleId.Given? then Some(RuleValue(u.ruleId.value)) else None
  }

  /** The columns outside the field loop keep their values. */
  predicate OtherColumnsKept(e: Expense, e': Expense) {
    && e'.employeeId == e.employeeId && e'.status == e.status
    && e'.amount == e.amount && e'.currency == e.currency
    && e'.originalAmount == e.originalAmount && e'.originalCurrency == e.originalCurrency
  }

  lemma ApplyColumnEffect(e: Expense, u: ExpenseUpdates, c: Column)
    ensures OtherColumnsKept(e, ApplyColumn(e, u, c))
    ensures forall d :: FieldOf(ApplyColumn(e, u, c), d)
                     == if d == c && GivenOf(u, d).Some? then GivenOf(u, d).value else FieldOf(e, d)
  {
  }

  lemma ApplyAssignmentsStep(e: Expense, u: ExpenseUpdates, cs: seq<Column>)
    requires cs != []
    ensures Apply(e, Assignments(u, cs)) == ApplyColumn(Apply(e, Assignments(u, cs[..|cs| - 1])), u, cs[|cs| - 1])
  {
    var prefix := Assignments(u, cs[..|cs| - 1]);
    match ColumnAssignment(u, cs[|cs| - 1])
    case None =>
      assert Assignments(u, cs) == prefix + [];
      assert prefix + [] == prefix;
    case Some(x) =>
      assert (prefix + [x])[..|prefix|] == prefix;
  }

  /** Applying the assignments of the columns `cs` overwrites exactly the
      present keys among `cs` (with their value, null included). */
  lemma {:induction false} ApplyColumns(e: Expense, u: ExpenseUpdates, cs: seq<Column>)
    ensures OtherColumnsKept(e, Apply(e, Assignments(u, cs)))
    ensures forall c :: FieldOf(Apply(e, Assignments(u, cs)), c)
                     == if c in cs && GivenOf(u, c).Some? then GivenOf(u, c).value else FieldOf(e, c)
  {
    if cs != [] {
      var init, last := cs[..|cs| - 1], cs[|cs| - 1];
      var e1 := Apply(e, Assignments(u, init));
      ApplyColumns(e, u, init);
      ApplyAssignmentsStep(e, u, cs);
      ApplyColumnEffect(e1, u, last);
      assert cs == init + [last];
      assert forall c :: c in cs <==> c in init || c == last;
    }
  }

  /** Exactly the present keys are overwritten (with their value, null
      included); amounts, currencies and the status are not touched. */
  lemma ApplyFields(e: Expense, u: ExpenseUpdates)
    ensures var e' := Apply(e, Assignments(u, Columns));
        && e'.description == (if u.description.Given? then u.description.value else e.description)
        && e'.category == (if u.category.Given? then u.category.value else e.category)
        && e'.expenseDate == (if u.expenseDate.Given? then u.expenseDate.value else e.expenseDate)
        && e'.paidBy == (if u.paidBy.Given? then u.paidBy.value else e.paidBy)
        && e'.remarks == (if u.remarks.Given? then u.remarks.value else e.remarks)
        && e'.ruleId == (if u.ruleId.Given? then u.ruleId.value else e.ruleId)
        && e'.employeeId == e.employeeId && e'.status == e.status
        && e'.amount == e.amount && e'.currency == e.currency
        && e'.originalAmount == e.originalAmount && e'.originalCurrency == e.originalCurrency
  {
    ApplyColumns(e, u, Columns);
    var e' := Apply(e, Assignments(u, Columns));
    assert FieldOf(e', DescriptionCol) == FieldOf(e', DescriptionCol);
    assert FieldOf(e', CategoryCol) == FieldOf(e', CategoryCol);
    assert FieldOf(e', ExpenseDateCol) == FieldOf(e', ExpenseDateCol);
    assert FieldOf(e', PaidByCol) == FieldOf(e', PaidByCol);
    assert FieldOf(e', RemarksCol) == FieldOf(e', RemarksCol);
    assert FieldOf(e', RuleIdCol) == FieldOf(e', RuleIdCol);
  }

  /** The new amount and currency columns when either was sent. */
  datatype Money = Money(amount: real, currency: string, originalAmount: real, originalCurrency: string)

  function ApplyMoney(e: Expense, m: Option<Money>): Expense {
    if m.None? then e
    else e.(amount := m.value.amount, currency := m.value.currency,
            originalAmount := m.value.originalAmount, originalCurrency := m.value.originalCurrency)
  }

  /** `a || b` on strings. */
  function OrElse(a: string, b: string): string {
    if a != "" then a else b
  }

  /** What the checks before the transaction fix. */
  datatype UpdatePlan = UpdatePlan(fields: seq<SetClause>, money: Option<Money>, submit: bool)

  /** The expense row with its owner's company, as fetchExpenseById joins it. */
  predicate Fetchable(t: Tables, expenseId: Id) {
    && expenseId in t.expenses
    && t.expenses[expenseId].employeeId in t.users
    && t.users[t.expenses[expenseId].employeeId].companyId in t.companies
  }

  function OwnerCompany(t: Tables, expenseId: Id): Id
    requires Fetchable(t, expenseId)
  {
    t.users[t.expenses[expenseId].employeeId].companyId
  }

  /** The refusals of updateExpense before its transaction, in order. */
  function CheckUpdate(t: Tables, employee: Employee, expenseId: Id, u: ExpenseUpdates,
                       convert: (real, string, string) -> Result<real>): Result<UpdatePlan>
  {
    if !Fetchable(t, expenseId) || OwnerCompany(t, expenseId) != employee.companyId then Err(Error(NotFound, ExpenseNotFound))
    else
      var e := t.expenses[expenseId];
      if e.employeeId != employee.id then Err(Error(Forbidden, NotOwner))
      else if e.status != Draft then Err(Error(BadRequest, NotDraft))
      else
        var base := Upper(t.companies[OwnerCompany(t, expenseId)].baseCurrency);
        if base == "" then Err(Error(Internal, BaseCurrencyMissing))
        else if RuleRefusal(t.rules, u, employee.companyId).Some? then Err(RuleRefusal(t.rules, u, employee.companyId).value)
        else if u.amount.Some? && (u.amount.value.Unparseable? || u.amount.value.value <= 0.0) then Err(Error(BadRequest, NonPositiveAmount))
        else if u.currency.Some? && !Filled(u.currency.value) then Err(Error(BadRequest, CurrencyRequired))
        else
          var origAmount := if u.amount.Some? then RoundToTwo(u.amount.value.value)
                            else if e.originalAmount != 0.0 then e.originalAmount else e.amount;
          var origCurrency := if u.currency.Some? then Upper(u.currency.value.value)
                              else Upper(OrElse(OrElse(e.originalCurrency, e.currency), base));
          var money := if u.amount.Some? || u.currency.Some? then
                         match convert(origAmount, origCurrency, base)
                         case Err(err) => Err(err)
                         case Ok(c) => Ok(Some(Money(RoundToTwo(c), base, origAmount, origCurrency)))
                       else Ok(None);
          if money.Err? then Err(money.error)
          else if u.status == Some("Waiting Approval") then Ok(UpdatePlan(Assignments(u, Columns), money.value, true))
          else if Filled(u.status) && u.status.value != "Draft" then Err(Error(BadRequest, InvalidTransition))
          else Ok(UpdatePlan(Assignments(u, Columns), money.value, false))
  }

  /** Only the owner may update, and only a Draft: an expense of the caller's
      company owned by someone else is Forbidden, a non-Draft is BadRequest. */
  lemma UpdateGuards(t: Tables, employee: Employee, expenseId: Id, u: ExpenseUpdates,
                     convert: (real, string, string) -> Result<real>)
    ensures CheckUpdate(t, employee, expenseId, u, convert).Ok? ==>
        && Fetchable(t, expenseId) && OwnerCompany(t, expenseId) == employee.companyId
        && t.expenses[expenseId].employeeId == employee.id
        && t.expenses[expenseId].status == Draft
    ensures Fetchable(t, expenseId) && OwnerCompany(t, expenseId) == employee.companyId
            && t.expenses[expenseId].employeeId != employee.id
        ==> CheckUpdate(t, employee, expenseId, u, convert) == Err(Error(Forbidden, NotOwner))
    ensures Fetchable(t, expenseId) && OwnerCompany(t, expenseId) == employee.companyId
            && t.expenses[expenseId].employeeId == employee.id && t.expenses[expenseId].status != Draft
        ==> CheckUpdate(t, employee, expenseId, u, convert) == Err(Error(BadRequest, NotDraft))
  {
  }

  /** The status of an update request is absent, empty, 'Draft' or 'Waiting
      Approval'; only the last submits, and any other value is refused. */
  lemma OnlySubmission(t: Tables, employee: Employee, expenseId: Id, u: ExpenseUpdates,
                       convert: (real, string, string) -> Result<real>)
    ensures CheckUpdate(t, employee, expenseId, u, convert).Ok? ==>
        && (u.status.None? || u.status.value in {"", "Draft", "Waiting Approval"})
        && (CheckUpdate(t, employee, expenseId, u, convert).value.submit <==> u.status == Some("Waiting Approval"))
    ensures Filled(u.status) && u.status.value != "Draft" && u.status.value != "Waiting Approval" ==>
        CheckUpdate(t, employee, expenseId, u, convert).Err?
  {
  }

  /** Money columns change together, to the company's base currency, and
      only when an amount or a currency was sent. */
  lemma MoneyChange(t: Tables, employee: Employee, expenseId: Id, u: ExpenseUpdates,
                    convert: (real, string, string) -> Result<real>)
    requires CheckUpdate(t, employee, expenseId, u, convert).Ok?
    ensures var m := CheckUpdate(t, employee, expenseId, u, convert).value.money;
        && (m.Some? <==> u.amount.Some? || u.currency.Some?)
        && (m.Some? ==> m.value.currency == Upper(t.companies[OwnerCompany(t, expenseId)].baseCurrency) && m.value.currency != "")
        && (u.amount.Some? ==>
              && u.amount.value.Amount? && u.amount.value.value > 0.0
              && m.value.originalAmount == RoundToTwo(u.amount.value.value))
  {
  }

  /** The rule used on submission: the expense's (after the field update),
      else the one in the body. */
  function SubmitRule(e: Expense, u: ExpenseUpdates): Option<Id> {
    if e.ruleId.Some? then e.ruleId else if u.ruleId.Given? then u.ruleId.value else None
  }

  /** updateExpense on the tables at BEGIN, with `firstId` the next id the
      sequences hand out: the refusal or failure the source meets first, or
      the returned row and the committed tables. */
  function UpdateOutcome(t: Tables, firstId: Id, employee: Employee, expenseId: Id, u: ExpenseUpdates,
                         convert: (real, string, string) -> Result<real>): Result<Committed<Expense>>
  {
    match CheckUpdate(t, employee, expenseId, u, convert)
    case Err(e) => Err(e)
    case Ok(plan) =>
      UpdateGuards(t, employee, expenseId, u, convert);
      SaveOutcome(t, firstId, employee, expenseId, u, plan)
  }

  /** The transaction of updateExpense: the UPDATE of the collected fields
      and money columns, then the submission step when one was asked for. */
  function SaveOutcome(t: Tables, firstId: Id, employee: Employee, expenseId: Id, u: ExpenseUpdates, plan: UpdatePlan)
    : Result<Committed<Expense>>
    requires employee.id in t.users && expenseId in t.expenses
  {
    var e' := ApplyMoney(Apply(t.expenses[expenseId], plan.fields), plan.money);
    if !plan.submit then Ok(Committed(e', t.(expenses := t.expenses[expenseId := e'])))
    else SubmitOutcome(t, firstId, employee, expenseId, u, e')
  }

  /** The submission step on the tables `begin` of the transaction and the
      patched row `e'`: a rule id is needed, the rule must be the company's,
      then the row goes to Waiting Approval and its tasks are rebuilt. */
  function SubmitOutcome(begin: Tables, firstId: Id, employee: Employee, expenseId: Id, u: ExpenseUpdates, e': Expense)
    : Result<Committed<Expense>>
    requires employee.id in begin.users
  {
    var ruleId := SubmitRule(e', u);
    if ruleId.None? then Err(Error(BadRequest, RuleRequiredForSubmit))
    else
      match RuleOfCompany(begin.rules, ruleId, employee.companyId)
      case Err(e) => Err(e)
      case Ok(rule) =>
        var submitted := e'.(status := WaitingApproval);
        match AssignOutcome(begin.(expenses := begin.expenses[expenseId := submitted]), expenseId, rule,
                            RuleApproversOf(begin.users, begin.ruleApprovers, ruleId.value),
                            begin.users[employee.id].managerId, firstId)
        case Err(e) => Err(e)
        case Ok(t') => Ok(Committed(submitted, t'))
  }

  /** updateExpense succeeds exactly when its checks pass and, for a
      submission, the patched row or the body names a rule of the company
      that yields at least one approver. */
  lemma UpdateSucceeds(t: Tables, firstId: Id, employee: Employee, expenseId: Id, u: ExpenseUpdates,
                       convert: (real, string, string) -> Result<real>)
    ensures UpdateOutcome(t, firstId, employee, expenseId, u, convert).Ok? <==>
        && CheckUpdate(t, employee, expenseId, u, convert).Ok?
        && var plan := CheckUpdate(t, employee, expenseId, u, convert).value;
        && expenseId in t.expenses
        && (plan.submit ==>
              var ruleId := SubmitRule(ApplyMoney(Apply(t.expenses[expenseId], plan.fields), plan.money), u);
              && ruleId.Some?
              && RuleOfCompany(t.rules, ruleId, employee.companyId).Ok?
              && AssignmentRefusal(RuleOfCompany(t.rules, ruleId, employee.companyId).value,
                                   RuleApproversOf(t.users, t.ruleApprovers, ruleId.value),
                                   t.users[employee.id].managerId).None?)
  {
    if CheckUpdate(t, employee, expenseId, u, convert).Ok? {
      UpdateGuards(t, employee, expenseId, u, convert);
    }
  }

  /** The error updateExpense returns is the first that occurs: a check
      before the transaction, then on submission a missing rule id, NotFound
      for a rule of another company, then the refusal to build the tasks. */
  lemma UpdateRefusals(t: Tables, firstId: Id, employee: Employee, expenseId: Id, u: ExpenseUpdates,
                       convert: (real, string, string) -> Result<real>)
    ensures CheckUpdate(t, employee, expenseId, u, convert).Err? ==>
        UpdateOutcome(t, firstId, employee, expenseId, u, convert) == Err(CheckUpdate(t, employee, expenseId, u, convert).error)
    ensures CheckUpdate(t, employee, expenseId, u, convert).Ok? && CheckUpdate(t, employee, expenseId, u, convert).value.submit ==>
        && expenseId in t.expenses
        && var plan := CheckUpdate(t, employee, expenseId, u, convert).value;
        var ruleId := SubmitRule(ApplyMoney(Apply(t.expenses[expenseId], plan.fields), plan.money), u);
        var out := UpdateOutcome(t, firstId, employee, expenseId, u, convert);
        && (ruleId.None? ==> out == Err(Error(BadRequest, RuleRequiredForSubmit)))
        && (ruleId.Some? && RuleOfCompany(t.rules, ruleId, employee.companyId).Err? ==>
              out == Err(Error(NotFound, RuleNotFound)))
        && (ruleId.Some? && RuleOfCompany(t.rules, ruleId, employee.companyId).Ok? ==>
              var refusal := AssignmentRefusal(RuleOfCompany(t.rules, ruleId, employee.companyId).value,
                                               RuleApproversOf(t.users, t.ruleApprovers, ruleId.value),
                                               t.users[employee.id].managerId);
              refusal.Some? ==> out == Err(refusal.value))
  {
    if CheckUpdate(t, employee, expenseId, u, convert).Ok? {
      UpdateGuards(t, employee, expenseId, u, convert);
    }
  }

  /** A committed updateExpense changes only the expense's row and, on
      submission, its tasks: the row is the patched one (in Waiting Approval
      when submitted), a submission leaves it a non-empty list of pending
      tasks, and every other expense keeps its tasks. */
  lemma UpdateCommits(t: Tables, firstId: Id, employee: Employee, expenseId: Id, u: ExpenseUpdates,
                      convert: (real, string, string) -> Result<real>, other: Id)
    requires other != expenseId
    requires UpdateOutcome(t, firstId, employee, expenseId, u, convert).Ok?
    ensures CheckUpdate(t, employee, expenseId, u, convert).Ok? && expenseId in t.expenses
    ensures var out := UpdateOutcome(t, firstId, employee, expenseId, u, convert).value;
        var plan := CheckUpdate(t, employee, expenseId, u, convert).value;
        var e' := ApplyMoney(Apply(t.expenses[expenseId], plan.fields), plan.money);
        && out.tables.expenses == t.expenses[expenseId := out.value]
        && out.tables.users == t.users && out.tables.companies == t.companies
        && out.tables.rules == t.rules && out.tables.ruleApprovers == t.ruleApprovers
        && TasksOf(out.tables.tasks, other) == TasksOf(t.tasks, other)
        && (!plan.submit ==> out.value == e' && out.tables.tasks == t.tasks)
        && (plan.submit ==>
              && out.value == e'.(status := WaitingApproval)
              && TasksOf(out.tables.tasks, expenseId) != []
              && (forall x :: x in TasksOf(out.tables.tasks, expenseId) ==> x.decision == Decision.Pending))
  {
    UpdateGuards(t, employee, expenseId, u, convert);
    var plan := CheckUpdate(t, employee, expenseId, u, convert).value;
    if plan.submit {
      var e' := ApplyMoney(Apply(t.expenses[expenseId], plan.fields), plan.money);
      var ruleId := SubmitRule(e', u);
      var rule := RuleOfCompany(t.rules, ruleId, employee.companyId).value;
      var submitted := e'.(status := WaitingApproval);
      var ras := RuleApproversOf(t.users, t.ruleApprovers, ruleId.value);
      AssignOutcomeTasks(t.(expenses := t.expenses[expenseId := submitted]), expenseId, rule, ras,
                         t.users[employee.id].managerId, firstId, other);
    }
  }

  /** updateExpense. The checks and the field collection run before the
      transaction; the converter's failure is passed on from there. */
  method UpdateExpense(db: Store, employee: Employee, expenseId: Id, u: ExpenseUpdates,
                       convert: (real, string, string) -> Result<real>)
    returns (r: Result<Expense>)
    requires db.Valid()
    modifies db
    ensures db.Valid()
    ensures var out := UpdateOutcome(old(db.Snapshot()), old(db.nextId), employee, expenseId, u, convert);
        && r == (if out.Ok? then Ok(out.value.value) else Err(out.error))
        && db.Snapshot() == (if out.Ok? then out.value.tables else old(db.Snapshot()))
  {
    var checked := CheckUpdate(db.Snapshot(), employee, expenseId, u, convert);
    if checked.Err? {
      return Err(checked.error);
    }
    UpdateGuards(db.Snapshot(), employee, expenseId, u, convert);
    var collected := CollectFields(db.rules, u, employee.companyId);
    var plan := checked.value;
    assert collected == Ok(plan.fields);
    r := SaveUpdate(db, employee, expenseId, u, plan);
  }

  /** The transaction of updateExpense: the field update, then for a
      submission the rule check, the status change and the approval tasks;
      a refusal rolls every table back. */
  method SaveUpdate(db: Store, employee: Employee, expenseId: Id, u: ExpenseUpdates, plan: UpdatePlan)
    returns (r: Result<Expense>)
    requires db.Valid() && employee.id in db.users && expenseId in db.expenses
    modifies db
    ensures db.Valid()
    ensures var out := SaveOutcome(old(db.Snapshot()), old(db.nextId), employee, expenseId, u, plan);
        && r == (if out.Ok? then Ok(out.value.value) else Err(out.error))
        && db.Snapshot() == (if out.Ok? then out.value.tables else old(db.Snapshot()))
  {
    var begin := db.Snapshot();
    var e' := ApplyMoney(Apply(db.expenses[expenseId], plan.fields), plan.money);
    UpdateExpenseValid(db.Snapshot(), db.nextId, expenseId, e');
    db.expenses := db.expenses[expenseId := e'];
    if !plan.submit {
      return Ok(e');
    }
    r := Submit(db, employee, expenseId, u, e', begin);
  }

  /** The submission step of updateExpense's transaction, on the tables
      `begin` the transaction started from and the patched row `e'`. */
  method Submit(db: Store, employee: Employee, expenseId: Id, u: ExpenseUpdates, e': Expense, begin: Tables)
    returns (r: Result<Expense>)
    requires db.Valid() && employee.id in db.users && expenseId in begin.expenses
    requires TablesValid(begin, db.nextId)
    requires db.Snapshot() == begin.(expenses := begin.expenses[expenseId := e'])
    modifies db
    ensures db.Valid()
    ensures var out := SubmitOutcome(begin, old(db.nextId), employee, expenseId, u, e');
        && r == (if out.Ok? then Ok(out.value.value) else Err(out.error))
        && db.Snapshot() == (if out.Ok? then out.value.tables else begin)
  {
    var ruleId := SubmitRule(e', u);
    if ruleId.None? {
      db.Restore(begin);
      return Err(Error(BadRequest, RuleRequiredForSubmit));
    }
    var rule := RuleOfCompany(db.rules, ruleId, employee.companyId);
    if rule.Err? {
      db.Restore(begin);
      return Err(rule.error);
    }
    var ras := RuleApproversOf(db.users, db.ruleApprovers, ruleId.value);
    var managerId := db.users[employee.id].managerId;
    var submitted := e'.(status := WaitingApproval);
    var err := AssignOnSubmit(db, expenseId, submitted, rule.value, ras, managerId, begin);
    if err.Some? {
      return Err(err.value);
    }
    r := Ok(submitted);
  }

  /** The end of a submission: the row is set to `submitted` and the
      expense's approval tasks are rebuilt; a refusal rolls back to `begin`. */
  method AssignOnSubmit(db: Store, expenseId: Id, submitted: Expense, rule: Rule, ras: seq<RuleApprover>,
                        managerId: Option<Id>, begin: Tables)
    returns (err: Option<Error>)
    requires db.Valid() && expenseId in db.expenses && expenseId in begin.expenses
    requires TablesValid(begin, db.nextId)
    requires db.Snapshot() == begin.(expenses := begin.expenses[expenseId := db.expenses[expenseId]])
    modifies db
    ensures db.Valid()
    ensures var out := AssignOutcome(begin.(expenses := begin.expenses[expenseId := submitted]), expenseId, rule, ras,
                                     managerId, old(db.nextId));
        && err == AssignmentRefusal(rule, ras, managerId)
        && db.Snapshot() == (if out.Ok? then out.value else begin)
  {
    UpdateExpenseValid(db.Snapshot(), db.nextId, expenseId, submitted);
    db.expenses := db.expenses[expenseId := submitted];
    assert db.expenses == begin.expenses[expenseId := submitted];
    err := CreateExpenseApprovals(db, expenseId, rule, ras, managerId);
    if err.Some? {
      TablesValidMonotonic(begin, old(db.nextId), db.nextId);
      db.Restore(begin);
    }
  }

  /** Overwriting an existing expense row keeps the store consistent. */
  lemma UpdateExpenseValid(t: Tables, n: int, id: Id, e: Expense)
    requires TablesValid(t, n) && id in t.expenses
    ensures TablesValid(t.(expenses := t.expenses[id := e]), n)
  {
  }
}
