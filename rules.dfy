/** The rule registry: creating rules, attaching approvers (replace-all),
    looking a rule up within a company, reading a rule's approvers in their
    canonical order, and grouping approvers under their rules for listing. */
module Rules {
  import opened Common
  import opened Domain
  import opened Store
  import opened Ordering

  // ---------------------------------------------------------------------
  // Row filters (WHERE clauses and inner joins over rule_approvers)
  // ---------------------------------------------------------------------

  /** The rows of `s` that satisfy `p`, in their original order. */
  function Keep(s: seq<RuleApprover>, p: RuleApprover -> bool): seq<RuleApprover>
  {
    if s == [] then [] else Keep(s[..|s| - 1], p) + (if p(s[|s| - 1]) then [s[|s| - 1]] else [])
  }

  lemma {:induction false} KeepMultiset(s: seq<RuleApprover>, p: RuleApprover -> bool, x: RuleApprover)
    ensures multiset(Keep(s, p))[x] == if p(x) then multiset(s)[x] else 0
  {
    if s != [] {
      KeepMultiset(s[..|s| - 1], p, x);
      assert s == s[..|s| - 1] + [s[|s| - 1]];
    }
  }

  lemma KeepMembers(s: seq<RuleApprover>, p: RuleApprover -> bool)
    ensures forall x :: x in Keep(s, p) <==> x in s && p(x)
  {
    forall x ensures x in Keep(s, p) <==> x in s && p(x) {
      KeepMultiset(s, p, x);
    }
  }

  /** Filtering keeps a sorted sequence sorted. */
  lemma {:induction false} KeepSorted(s: seq<RuleApprover>, p: RuleApprover -> bool)
    requires Sorted(s)
    ensures Sorted(Keep(s, p))
  {
    if s != [] {
      var init := s[..|s| - 1];
      KeepSorted(init, p);
      KeepMembers(init, p);
      var k := Keep(init, p);
      forall i | 0 <= i < |k| ensures !Before(s[|s| - 1], k[i]) {
        assert k[i] in init;
      }
    }
  }

  /** Inner join with users: rows whose approver has a user row. */
  function Joined(rows: seq<RuleApprover>, users: map<Id, User>): seq<RuleApprover> {
    Keep(rows, (r: RuleApprover) => r.approverId in users)
  }

  /** WHERE rule_id = ruleId. */
  function RowsOfRule(rows: seq<RuleApprover>, ruleId: Id): seq<RuleApprover> {
    Keep(rows, (r: RuleApprover) => r.ruleId == ruleId)
  }

  /** WHERE rule_id = ANY(ids). */
  function RowsInRules(rows: seq<RuleApprover>, ids: set<Id>): seq<RuleApprover> {
    Keep(rows, (r: RuleApprover) => r.ruleId in ids)
  }

  /** DELETE FROM rule_approvers WHERE rule_id = ruleId: the rows left behind. */
  function RowsNotOfRule(rows: seq<RuleApprover>, ruleId: Id): seq<RuleApprover> {
    Keep(rows, (r: RuleApprover) => r.ruleId != ruleId)
  }

  // ---------------------------------------------------------------------
  // ensureRuleBelongsToCompany and getRuleApprovers
  // ---------------------------------------------------------------------

  /** ensureRuleBelongsToCompany: the rule row, or NotFound. A null rule id
      matches no row. */
  function RuleOfCompany(rules: map<Id, Rule>, ruleId: Option<Id>, companyId: Id): Result<Rule> {
    if ruleId.Some? && ruleId.value in rules && rules[ruleId.value].companyId == companyId
    then Ok(rules[ruleId.value])
    else Err(Error(NotFound, RuleNotFound))
  }

  /** The lookup fails, always with NotFound, exactly when the rule is absent
      or belongs to another company. */
  lemma RuleLookup(rules: map<Id, Rule>, ruleId: Id, companyId: Id)
    ensures RuleOfCompany(rules, Some(ruleId), companyId).Err?
        <==> ruleId !in rules || rules[ruleId].companyId != companyId
    ensures RuleOfCompany(rules, Some(ruleId), companyId).Err? ==>
        RuleOfCompany(rules, Some(ruleId), companyId).error == Error(NotFound, RuleNotFound)
    ensures RuleOfCompany(rules, None, companyId) == Err(Error(NotFound, RuleNotFound))
  {
  }

  /** getRuleApprovers: the rule's rows whose approver is a user, in
      ORDER BY COALESCE(sequence, 999999), id. */
  function RuleApproversOf(users: map<Id, User>, rows: seq<RuleApprover>, ruleId: Id): (r: seq<RuleApprover>)
    ensures Sorted(r)
    ensures forall x :: x in r <==> x in rows && x.ruleId == ruleId && x.approverId in users
  {
    var f := RowsOfRule(Joined(rows, users), ruleId);
    KeepMembers(Joined(rows, users), (r: RuleApprover) => r.ruleId == ruleId);
    KeepMembers(rows, (r: RuleApprover) => r.approverId in users);
    var r := SortByRank(f);
    assert forall x :: x in r <==> x in multiset(f);
    r
  }

  // ---------------------------------------------------------------------
  // createRule
  // ---------------------------------------------------------------------

  /** What `Number(x)` makes of a supplied value: an integer or NaN. */
  datatype Numeric = Num(value: int) | NaN

  /** The request body of createRule. A missing or null percentage is None. */
  datatype RuleInput = RuleInput(
    name: Option<string>,
    description: Option<string>,
    isManagerApprover: bool,
    minApprovalPercentage: Option<Numeric>)

  /** `x || null` for an optional text field: the empty string becomes null. */
  function OrNull(s: Option<string>): Option<string> {
    if s == Some("") then None else s
  }

  /** The rule row createRule inserts, or the BadRequest it raises. */
  function ValidateRule(companyId: Id, input: RuleInput): (r: Result<Rule>)
    ensures r.Err? ==> r.error.kind == BadRequest
    ensures r.Ok? ==>
              && r.value.companyId == companyId && Some(r.value.name) == input.name
              && r.value.isManagerApprover == input.isManagerApprover
              && r.value.description == OrNull(input.description)
  {
    if input.name.None? || input.name.value == "" then Err(Error(BadRequest, NameRequired))
    else
      var name := input.name.value;
      match input.minApprovalPercentage
      case None => Ok(Rule(companyId, name, OrNull(input.description), input.isManagerApprover, None))
      case Some(NaN) => Err(Error(BadRequest, PercentageOutOfRange))
      case Some(Num(n)) =>
        if n < 0 || n > 100 then Err(Error(BadRequest, PercentageOutOfRange))
        else Ok(Rule(companyId, name, OrNull(input.description), input.isManagerApprover, Some(n)))
  }

  /** A missing or empty name is refused before anything else. */
  lemma NameRequiredFirst(companyId: Id, input: RuleInput)
    ensures ValidateRule(companyId, input) == Err(Error(BadRequest, NameRequired))
        <==> input.name.None? || input.name == Some("")
  {
  }

  /** Given a name, the rule is accepted iff the percentage is absent or a
      number in [0, 100]; an absent percentage is stored as null. */
  lemma PercentageValidated(companyId: Id, input: RuleInput)
    requires input.name.Some? && input.name.value != ""
    ensures ValidateRule(companyId, input).Ok?
        <==> match input.minApprovalPercentage
             case None => true
             case Some(NaN) => false
             case Some(Num(n)) => 0 <= n <= 100
    ensures ValidateRule(companyId, input).Ok? ==>
        ValidateRule(companyId, input).value.minApprovalPercentage ==
          (if input.minApprovalPercentage.None? then None else Some(input.minApprovalPercentage.value.value))
  {
  }

  /** createRule: validates, then inserts the rule under a fresh id. */
  method CreateRule(db: Store, companyId: Id, input: RuleInput) returns (r: Result<Id>)
    requires db.Valid()
    modifies db
    ensures db.Valid()
    ensures ValidateRule(companyId, input).Err? ==>
        r == Err(ValidateRule(companyId, input).error) && db.Snapshot() == old(db.Snapshot()) && db.nextId == old(db.nextId)
    ensures ValidateRule(companyId, input).Ok? ==>
        r == Ok(old(db.nextId)) && r.value !in old(db.rules)
        && db.Snapshot() == old(db.Snapshot()).(rules := old(db.rules)[r.value := ValidateRule(companyId, input).value])
  {
    var v := ValidateRule(companyId, input);
    if v.Err? {
      return Err(v.error);
    }
    var id := db.FreshId();
    db.rules := db.rules[id := v.value];
    r := Ok(id);
  }

  // ---------------------------------------------------------------------
  // addApprovers
  // ---------------------------------------------------------------------

  /** A JSON value of the request body, as far as its JavaScript readings
      (`typeof`, truthiness) matter here. */
  datatype Json = JUndefined | JNull | JBool(b: bool) | JNum(n: int) | JStr(s: string)

  /** Boolean(v). */
  predicate Truthy(v: Json) {
    match v
    case JUndefined => false
    case JNull => false
    case JBool(b) => b
    case JNum(n) => n != 0
    case JStr(s) => s != ""
  }

  /** One element of the approvers array in the request body. */
  datatype ApproverInput = ApproverInput(approverId: Id, sequence: Json, isMandatory: Json)

  /** new Set(approverIds). */
  function InputIds(a: seq<ApproverInput>): set<Id> {
    set x | x in a :: x.approverId
  }

  /** SELECT id FROM users WHERE id = ANY(ids) AND company_id = companyId. */
  function CompanyMembers(users: map<Id, User>, ids: set<Id>, companyId: Id): set<Id> {
    set u | u in users && u in ids && users[u].companyId == companyId
  }

  predicate DistinctApproverIds(a: seq<ApproverInput>) {
    forall i, j :: 0 <= i < j < |a| ==> a[i].approverId != a[j].approverId
  }

  /** The first check of addApprovers that fails, if any: a missing or empty
      array, a rule outside the company, duplicate ids, or ids that are not
      users of the company. */
  function AddApproversRefusal(rules: map<Id, Rule>, users: map<Id, User>, ruleId: Id, companyId: Id,
                               approvers: Option<seq<ApproverInput>>): Option<Error>
  {
    if approvers.None? || approvers.value == [] then Some(Error(BadRequest, ApproversRequired))
    else if RuleOfCompany(rules, Some(ruleId), companyId).Err? then Some(Error(NotFound, RuleNotFound))
    else if |InputIds(approvers.value)| != |approvers.value| then Some(Error(BadRequest, DuplicateApprovers))
    else if |CompanyMembers(users, InputIds(approvers.value), companyId)| != |approvers.value|
    then Some(Error(BadRequest, ApproverOutsideCompany))
    else None
  }

  lemma InputIdsCons(a: seq<ApproverInput>)
    requires a != []
    ensures InputIds(a) == {a[0].approverId} + InputIds(a[1..])
  {
    assert a == [a[0]] + a[1..];
  }

  lemma DistinctCons(a: seq<ApproverInput>)
    requires a != []
    ensures DistinctApproverIds(a) <==> a[0].approverId !in InputIds(a[1..]) && DistinctApproverIds(a[1..])
  {
    var t := a[1..];
    if DistinctApproverIds(a) {
      forall i, j | 0 <= i < j < |t| ensures t[i].approverId != t[j].approverId {
        assert t[i] == a[i + 1] && t[j] == a[j + 1];
      }
      forall x | x in t ensures x.approverId != a[0].approverId {
        var j :| 0 <= j < |t| && t[j] == x;
        assert a[j + 1] == x;
      }
    }
    if a[0].approverId !in InputIds(t) && DistinctApproverIds(t) {
      forall i, j | 0 <= i < j < |a| ensures a[i].approverId != a[j].approverId {
        assert a[j] == t[j - 1];
        if i > 0 {
          assert a[i] == t[i - 1];
        }
      }
    }
  }

  /** The size test on the de-duplicated ids detects exactly a repeated id. */
  lemma {:induction false} DuplicateCheck(a: seq<ApproverInput>)
    ensures |InputIds(a)| <= |a|
    ensures |InputIds(a)| == |a| <==> DistinctApproverIds(a)
  {
    if a != [] {
      var t := a[1..];
      DuplicateCheck(t);
      InputIdsCons(a);
      DistinctCons(a);
      if a[0].approverId in InputIds(t) {
        assert InputIds(a) == InputIds(t);
      } else {
        assert |InputIds(a)| == |InputIds(t)| + 1;
      }
    }
  }

  /** A finite set strictly inside another is strictly smaller. */
  lemma SubsetSize(s: set<Id>, t: set<Id>)
    requires s <= t
    ensures |s| <= |t|
    ensures |s| == |t| ==> s == t
  {
    if s != t {
      var x :| x in t && x !in s;
      assert s <= t - {x};
      assert |t - {x}| == |t| - 1;
      SubsetSize(s, t - {x});
    }
  }

  /** Once ids are distinct, the row count of the company query equals the
      number of approvers iff every approver is a user of the company. */
  lemma CompanyCheck(users: map<Id, User>, a: seq<ApproverInput>, companyId: Id)
    requires DistinctApproverIds(a)
    ensures |CompanyMembers(users, InputIds(a), companyId)| == |a|
        <==> forall i :: 0 <= i < |a| ==> a[i].approverId in users && users[a[i].approverId].companyId == companyId
  {
    DuplicateCheck(a);
    var m := CompanyMembers(users, InputIds(a), companyId);
    SubsetSize(m, InputIds(a));
    if forall i :: 0 <= i < |a| ==> a[i].approverId in users && users[a[i].approverId].companyId == companyId {
      forall u | u in InputIds(a) ensures u in m {
        var x :| x in a && x.approverId == u;
        var i :| 0 <= i < |a| && a[i] == x;
      }
      assert m == InputIds(a);
    }
    if |m| == |a| {
      forall i | 0 <= i < |a| ensures a[i].approverId in users && users[a[i].approverId].companyId == companyId {
        assert a[i].approverId in InputIds(a);
      }
    }
  }

  /** The rule_approvers row stored for one input: the sequence is kept only
      when it is a number, and isMandatory is Boolean(isMandatory). */
  function StoredApprover(ruleId: Id, id: Id, a: ApproverInput): RuleApprover {
    RuleApprover(id, ruleId, a.approverId, if a.sequence.JNum? then Some(a.sequence.n) else None, Truthy(a.isMandatory))
  }

  /** The rows inserted for `a`, with ids handed out from `firstId` on. */
  function NewApproverRows(ruleId: Id, a: seq<ApproverInput>, firstId: Id): (r: seq<RuleApprover>)
    ensures |r| == |a|
    ensures forall k :: 0 <= k < |a| ==> r[k] == StoredApprover(ruleId, firstId + k, a[k])
  {
    if a == [] then [] else NewApproverRows(ruleId, a[..|a| - 1], firstId) + [StoredApprover(ruleId, firstId + |a| - 1, a[|a| - 1])]
  }

  /** addApprovers: every check runs before any write; on success the rule's
      rows are deleted and one row per input is inserted, in input order. */
  method AddApprovers(db: Store, ruleId: Id, companyId: Id, approvers: Option<seq<ApproverInput>>)
    returns (err: Option<Error>)
    requires db.Valid()
    modifies db
    ensures db.Valid()
    ensures err == AddApproversRefusal(old(db.rules), old(db.users), ruleId, companyId, approvers)
    ensures err.Some? ==> db.Snapshot() == old(db.Snapshot()) && db.nextId == old(db.nextId)
    ensures err.None? ==>
        && db.Snapshot() == old(db.Snapshot()).(ruleApprovers :=
             RowsNotOfRule(old(db.ruleApprovers), ruleId) + NewApproverRows(ruleId, approvers.value, old(db.nextId)))
        && db.nextId == old(db.nextId) + |approvers.value|
  {
    err := AddApproversRefusal(db.rules, db.users, ruleId, companyId, approvers);
    if err.Some? {
      return;
    }
    var a := approvers.value;
    DeleteApproversValid(db.Snapshot(), db.nextId, ruleId);
    var kept := RowsNotOfRule(db.ruleApprovers, ruleId);
    db.ruleApprovers := kept;
    InsertApprovers(db, ruleId, a);
  }

  /** The INSERTs of addApprovers, one row per input, in input order. */
  method InsertApprovers(db: Store, ruleId: Id, a: seq<ApproverInput>)
    requires db.Valid()
    modifies db
    ensures db.Valid()
    ensures db.Snapshot() == old(db.Snapshot()).(ruleApprovers := old(db.ruleApprovers) + NewApproverRows(ruleId, a, old(db.nextId)))
    ensures db.nextId == old(db.nextId) + |a|
  {
    var kept := db.ruleApprovers;
    var start := db.nextId;
    for k := 0 to |a|
      invariant db.Valid()
      invariant db.nextId == start + k
      invariant db.ruleApprovers == kept + NewApproverRows(ruleId, a[..k], start)
      invariant db.users == old(db.users) && db.companies == old(db.companies) && db.rules == old(db.rules)
      invariant db.expenses == old(db.expenses) && db.tasks == old(db.tasks)
    {
      var row := StoredApprover(ruleId, db.nextId, a[k]);
      ghost var before := db.Snapshot();
      AppendApproverValid(before, db.nextId, row);
      NewApproverRowsStep(ruleId, a, k, start);
      var id := db.FreshId();
      db.ruleApprovers := db.ruleApprovers + [row];
      assert db.Snapshot() == before.(ruleApprovers := before.ruleApprovers + [row]);
    }
    assert a[..|a|] == a;
  }

  /** One more input adds one more row, under the next id. */
  lemma NewApproverRowsStep(ruleId: Id, a: seq<ApproverInput>, k: nat, firstId: Id)
    requires k < |a|
    ensures NewApproverRows(ruleId, a[..k + 1], firstId) == NewApproverRows(ruleId, a[..k], firstId) + [StoredApprover(ruleId, firstId + k, a[k])]
  {
    assert a[..k + 1][..k] == a[..k];
  }

  /** Deleting a rule's rows keeps the store consistent. */
  lemma DeleteApproversValid(t: Tables, n: int, ruleId: Id)
    requires TablesValid(t, n)
    ensures TablesValid(t.(ruleApprovers := RowsNotOfRule(t.ruleApprovers, ruleId)), n)
  {
    KeepMembers(t.ruleApprovers, (r: RuleApprover) => r.ruleId != ruleId);
    KeepDistinctIds(t.ruleApprovers, (r: RuleApprover) => r.ruleId != ruleId);
    var k := RowsNotOfRule(t.ruleApprovers, ruleId);
    forall i | 0 <= i < |k| ensures k[i].id < n {
      assert k[i] in t.ruleApprovers;
    }
  }

  /** Appending a row under the next id keeps the store consistent. */
  lemma AppendApproverValid(t: Tables, n: int, row: RuleApprover)
    requires TablesValid(t, n) && row.id == n
    ensures TablesValid(t.(ruleApprovers := t.ruleApprovers + [row]), n + 1)
  {
  }

  /** Filtering keeps ids distinct. */
  lemma KeepDistinctIds(s: seq<RuleApprover>, p: RuleApprover -> bool)
    requires forall i, j :: 0 <= i < j < |s| ==> s[i].id != s[j].id
    ensures forall i, j :: 0 <= i < j < |Keep(s, p)| ==> Keep(s, p)[i].id != Keep(s, p)[j].id
  {
    if s != [] {
      var init := s[..|s| - 1];
      KeepDistinctIds(init, p);
      KeepMembers(init, p);
      forall i | 0 <= i < |Keep(init, p)| ensures Keep(init, p)[i].id != s[|s| - 1].id {
        assert Keep(init, p)[i] in init;
      }
    }
  }

  /** Replace-all: after addApprovers the rule's rows are exactly the new
      list, in order, and no other rule's rows changed. */
  lemma {:induction false} ReplaceAll(old_rows: seq<RuleApprover>, ruleId: Id, a: seq<ApproverInput>, firstId: Id, other: Id)
    requires other != ruleId
    ensures RowsOfRule(RowsNotOfRule(old_rows, ruleId) + NewApproverRows(ruleId, a, firstId), ruleId)
         == NewApproverRows(ruleId, a, firstId)
    ensures RowsOfRule(RowsNotOfRule(old_rows, ruleId) + NewApproverRows(ruleId, a, firstId), other)
         == RowsOfRule(old_rows, other)
  {
    var kept := RowsNotOfRule(old_rows, ruleId);
    var added := NewApproverRows(ruleId, a, firstId);
    KeepMembers(old_rows, (r: RuleApprover) => r.ruleId != ruleId);
    assert forall x :: x in added ==> x.ruleId == ruleId by {
      forall x | x in added ensures x.ruleId == ruleId {
        var k :| 0 <= k < |added| && added[k] == x;
      }
    }
    KeepAppend(kept, added, (r: RuleApprover) => r.ruleId == ruleId);
    KeepAppend(kept, added, (r: RuleApprover) => r.ruleId == other);
    KeepNone(kept, (r: RuleApprover) => r.ruleId == ruleId);
    KeepNone(added, (r: RuleApprover) => r.ruleId == other);
    KeepAll(added, (r: RuleApprover) => r.ruleId == ruleId);
    KeepTwice(old_rows, ruleId, other);
  }

  lemma {:induction false} KeepAppend(s: seq<RuleApprover>, t: seq<RuleApprover>, p: RuleApprover -> bool)
    ensures Keep(s + t, p) == Keep(s, p) + Keep(t, p)
  {
    if t != [] {
      KeepAppend(s, t[..|t| - 1], p);
      assert (s + t)[..|s + t| - 1] == s + t[..|t| - 1];
    } else {
      assert s + t == s;
    }
  }

  lemma {:induction false} KeepNone(s: seq<RuleApprover>, p: RuleApprover -> bool)
    requires forall x :: x in s ==> !p(x)
    ensures Keep(s, p) == []
  {
    if s != [] {
      assert forall x :: x in s[..|s| - 1] ==> x in s;
      KeepNone(s[..|s| - 1], p);
    }
  }

  lemma {:induction false} KeepAll(s: seq<RuleApprover>, p: RuleApprover -> bool)
    requires forall x :: x in s ==> p(x)
    ensures Keep(s, p) == s
  {
    if s != [] {
      var init, last := s[..|s| - 1], s[|s| - 1];
      assert forall x :: x in init ==> x in s;
      KeepAll(init, p);
      assert last in s;
      assert Keep(s, p) == Keep(init, p) + [last];
      assert s == init + [last];
    }
  }

  lemma {:induction false} KeepTwice(s: seq<RuleApprover>, ruleId: Id, other: Id)
    requires other != ruleId
    ensures RowsOfRule(RowsNotOfRule(s, ruleId), other) == RowsOfRule(s, other)
  {
    if s != [] {
      var init, l := s[..|s| - 1], s[|s| - 1];
      KeepTwice(init, ruleId, other);
      var tail := if l.ruleId != ruleId then [l] else [];
      assert RowsNotOfRule(s, ruleId) == RowsNotOfRule(init, ruleId) + tail;
      KeepAppend(RowsNotOfRule(init, ruleId), tail, (r: RuleApprover) => r.ruleId == other);
      if tail != [] {
        assert tail[..0] == [];
      }
    }
  }

  // ---------------------------------------------------------------------
  // listRules
  // ---------------------------------------------------------------------

  /** One entry of the listRules result: the rule and its approver rows. */
  datatype RuleView = RuleView(id: Id, rule: Rule, approvers: seq<RuleApprover>)

  /** The grouping step of listRules: a map from rule id to an entry with an
      empty approver list, then each fetched row pushed onto its rule's entry
      (rows of unknown rules are skipped), then the entries in insertion order. */
  method GroupRules(ruleRows: seq<(Id, Rule)>, rows: seq<RuleApprover>) returns (out: seq<RuleView>)
    requires forall i, j :: 0 <= i < j < |ruleRows| ==> ruleRows[i].0 != ruleRows[j].0
    ensures |out| == |ruleRows|
    ensures forall i :: 0 <= i < |out| ==> out[i].id == ruleRows[i].0 && out[i].rule == ruleRows[i].1
    ensures forall i :: 0 <= i < |out| ==> out[i].approvers == RowsOfRule(rows, ruleRows[i].0)
  {
    var entries: map<Id, seq<RuleApprover>> := map[];
    for i := 0 to |ruleRows|
      invariant entries.Keys == set k | 0 <= k < i :: ruleRows[k].0
      invariant forall id :: id in entries ==> entries[id] == []
    {
      entries := entries[ruleRows[i].0 := []];
    }
    for j := 0 to |rows|
      invariant entries.Keys == set k | 0 <= k < |ruleRows| :: ruleRows[k].0
      invariant forall id :: id in entries ==> entries[id] == RowsOfRule(rows[..j], id)
    {
      assert rows[..j + 1][..j] == rows[..j];
      var row := rows[j];
      if row.ruleId in entries {
        entries := entries[row.ruleId := entries[row.ruleId] + [row]];
      }
    }
    assert rows[..|rows|] == rows;
    out := [];
    for i := 0 to |ruleRows|
      invariant |out| == i
      invariant forall k :: 0 <= k < i ==> out[k] == RuleView(ruleRows[k].0, ruleRows[k].1, RowsOfRule(rows, ruleRows[k].0))
    {
      assert ruleRows[i].0 in entries;
      out := out + [RuleView(ruleRows[i].0, ruleRows[i].1, entries[ruleRows[i].0])];
    }
  }

  /** The rule's rows picked out of the company-wide fetch. */
  function GroupedRows(users: map<Id, User>, rows: seq<RuleApprover>, ids: set<Id>, ruleId: Id): seq<RuleApprover> {
    RowsOfRule(SortByRank(RowsInRules(Joined(rows, users), ids)), ruleId)
  }

  lemma GroupedMultiset(users: map<Id, User>, rows: seq<RuleApprover>, ids: set<Id>, ruleId: Id)
    requires ruleId in ids
    ensures multiset(GroupedRows(users, rows, ids, ruleId)) == multiset(RuleApproversOf(users, rows, ruleId))
  {
    var j := Joined(rows, users);
    var all := SortByRank(RowsInRules(j, ids));
    forall x ensures multiset(GroupedRows(users, rows, ids, ruleId))[x] == multiset(RuleApproversOf(users, rows, ruleId))[x] {
      KeepMultiset(all, (r: RuleApprover) => r.ruleId == ruleId, x);
      KeepMultiset(j, (r: RuleApprover) => r.ruleId in ids, x);
      KeepMultiset(j, (r: RuleApprover) => r.ruleId == ruleId, x);
    }
  }

  lemma GroupedKeysDistinct(users: map<Id, User>, rows: seq<RuleApprover>, ids: set<Id>, ruleId: Id)
    requires forall i, j :: 0 <= i < j < |rows| ==> rows[i].id != rows[j].id
    requires ruleId in ids
    ensures KeysDistinct(GroupedRows(users, rows, ids, ruleId))
  {
    var a := GroupedRows(users, rows, ids, ruleId);
    GroupedMultiset(users, rows, ids, ruleId);
    forall x, y | x in a && y in a && x != y ensures x.id != y.id {
      assert x in multiset(a) && y in multiset(a);
      assert x in rows && y in rows;
      var i :| 0 <= i < |rows| && rows[i] == x;
      var k :| 0 <= k < |rows| && rows[k] == y;
      assert i != k;
    }
  }

  /** Per rule, grouping the company-wide sorted rows gives that rule's
      approvers in the order getRuleApprovers reads them. */
  lemma GroupedIsRuleOrder(users: map<Id, User>, rows: seq<RuleApprover>, ids: set<Id>, ruleId: Id)
    requires forall i, j :: 0 <= i < j < |rows| ==> rows[i].id != rows[j].id
    requires ruleId in ids
    ensures GroupedRows(users, rows, ids, ruleId) == RuleApproversOf(users, rows, ruleId)
  {
    KeepSorted(SortByRank(RowsInRules(Joined(rows, users), ids)), (r: RuleApprover) => r.ruleId == ruleId);
    GroupedMultiset(users, rows, ids, ruleId);
    GroupedKeysDistinct(users, rows, ids, ruleId);
    SortedUnique(GroupedRows(users, rows, ids, ruleId), RuleApproversOf(users, rows, ruleId));
  }

  /** listRules: every rule of the company exactly once, in the given
      (creation) order, each with the rows getRuleApprovers returns for it. */
  method ListRules(db: Store, companyId: Id, order: seq<Id>) returns (out: seq<RuleView>)
    requires db.Valid()
    requires forall i, j :: 0 <= i < j < |order| ==> order[i] != order[j]
    requires forall id :: id in order <==> id in db.rules && db.rules[id].companyId == companyId
    ensures |out| == |order|
    ensures forall id :: (exists i :: 0 <= i < |out| && out[i].id == id) <==> id in db.rules && db.rules[id].companyId == companyId
    ensures forall i :: 0 <= i < |out| ==>
        out[i].id == order[i] && out[i].rule == db.rules[order[i]]
        && out[i].approvers == RuleApproversOf(db.users, db.ruleApprovers, order[i])
  {
    var rules := db.rules;
    var ruleRows := seq(|order|, i requires 0 <= i < |order| => (order[i], rules[order[i]]));
    var ids := set i | 0 <= i < |order| :: order[i];
    var rows: seq<RuleApprover> := [];
    if |order| > 0 {
      rows := SortByRank(RowsInRules(Joined(db.ruleApprovers, db.users), ids));
    }
    out := GroupRules(ruleRows, rows);
    forall i | 0 <= i < |out|
      ensures out[i].approvers == RuleApproversOf(db.users, db.ruleApprovers, order[i])
    {
      GroupedIsRuleOrder(db.users, db.ruleApprovers, ids, order[i]);
    }
    forall id | id in db.rules && db.rules[id].companyId == companyId
      ensures exists i :: 0 <= i < |out| && out[i].id == id
    {
      var i :| 0 <= i < |order| && order[i] == id;
      assert out[i].id == id;
    }
  }
}
