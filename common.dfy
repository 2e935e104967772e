/** Shared vocabulary of the approval workflow: optional values, the typed
    errors that the services raise (the HTTP status classes of AppError),
    identifiers, and the ASCII case mapping used by role checks and
    currency codes. */
module Common {

  datatype Option<+T> = None | Some(value: T)

  /** The status class of an AppError: 400, 401, 403, 404, 500, or a failure
      reported by a collaborator (the currency converter). */
  datatype Kind = BadRequest | Unauthorized | Forbidden | NotFound | Internal | Upstream

  /** Why an operation was refused; one constructor per distinct throw site. */
  datatype Reason =
    // decision processor
    | InvalidDecision | TaskNotFound | NotAssignee | AlreadyDecided
    | NotAwaitingApproval | AwaitingPrevious
    // rule registry
    | RuleNotFound | NameRequired | PercentageOutOfRange | ApproversRequired
    | DuplicateApprovers | ApproverOutsideCompany
    // assignment builder
    | ManagerMissing | NoApprovers
    // expenses
    | MissingFields | InvalidStatus | RuleRequiredForSubmit | NonPositiveAmount
    | BaseCurrencyMissing | ExpenseNotFound | NotOwner | NotDraft
    | CurrencyRequired | InvalidTransition
    // authorisation
    | MalformedHeader | InvalidToken | NotAuthenticated | InsufficientRole
    // collaborators
    | ConversionFailed

  datatype Error = Error(kind: Kind, reason: Reason)

  datatype Result<+T> = Ok(value: T) | Err(error: Error)

  /** Database identifiers are serial keys, so they are positive (and truthy). */
  type Id = i: int | i > 0 witness 1

  /** Lower-casing of one character; only the ASCII letters are mapped. */
  function LowerChar(c: char): (r: char)
    ensures 'A' <= c <= 'Z' ==> r as int == c as int + 32
    ensures !('A' <= c <= 'Z') ==> r == c
  {
    if 'A' <= c <= 'Z' then (c as int + 32) as char else c
  }

  function UpperChar(c: char): (r: char)
    ensures 'a' <= c <= 'z' ==> r as int == c as int - 32
    ensures !('a' <= c <= 'z') ==> r == c
  {
    if 'a' <= c <= 'z' then (c as int - 32) as char else c
  }

  /** String.prototype.toLowerCase restricted to ASCII letters. */
  function Lower(s: string): (r: string)
    ensures |r| == |s|
    ensures forall i :: 0 <= i < |s| ==> r[i] == LowerChar(s[i])
  {
    if s == [] then [] else [LowerChar(s[0])] + Lower(s[1..])
  }

  /** String.prototype.toUpperCase restricted to ASCII letters. */
  function Upper(s: string): (r: string)
    ensures |r| == |s|
    ensures forall i :: 0 <= i < |s| ==> r[i] == UpperChar(s[i])
  {
    if s == [] then [] else [UpperChar(s[0])] + Upper(s[1..])
  }

  /** Lower-casing twice is lower-casing once, so comparing lower-cased
      strings is an equivalence that ignores letter case. */
  lemma LowerIdempotent(s: string)
    ensures Lower(Lower(s)) == Lower(s)
  {
  }

  /** Two strings that differ only in the case of their letters lower-case
      to the same string. */
  lemma LowerIgnoresCase(s: string)
    ensures Lower(Upper(s)) == Lower(s)
  {
  }
}
