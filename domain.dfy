/** The entities of the workflow engine, one record per database row kind. */
module Domain {
  import opened Common

  /** The decision recorded on one approval task. */
  datatype Decision = Pending | Approved | Rejected

  /** The status of an expense: 'Draft', 'Waiting Approval', 'Approved',
      'Rejected'. Approved and Rejected are terminal. */
  datatype Status = Draft | WaitingApproval | Approved | Rejected

  /** A row of users, reduced to what the engine reads. */
  datatype User = User(companyId: Id, managerId: Option<Id>, role: string)

  /** A row of companies: only the base currency is used here. */
  datatype Company = Company(baseCurrency: string)

  /** A row of approval_rules (without its id, which is the map key). */
  datatype Rule = Rule(
    companyId: Id,
    name: string,
    description: Option<string>,
    isManagerApprover: bool,
    minApprovalPercentage: Option<int>)

  /** A row of rule_approvers. */
  datatype RuleApprover = RuleApprover(
    id: Id,
    ruleId: Id,
    approverId: Id,
    sequence: Option<int>,
    isMandatory: bool)

  /** A row of expenses (without its id, which is the map key). Amounts are
      kept as exact reals. */
  datatype Expense = Expense(
    employeeId: Id,
    ruleId: Option<Id>,
    description: Option<string>,
    category: Option<string>,
    expenseDate: Option<string>,
    paidBy: Option<string>,
    remarks: Option<string>,
    amount: real,
    currency: string,
    originalAmount: real,
    originalCurrency: string,
    status: Status)

  /** A row of expense_approvals: one approver's task on one expense.
      decidedAt is a timestamp supplied by the caller's clock. */
  datatype Task = Task(
    id: Id,
    expenseId: Id,
    approverId: Id,
    sequence: Option<int>,
    isMandatory: bool,
    decision: Decision,
    comments: Option<string>,
    decidedAt: Option<int>)
}
