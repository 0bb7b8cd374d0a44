/**
 * Billing access: the guard the mutating actions call, and the fail-open
 * decision of the access check. The HTTP exchange is an abstract input: the
 * model sees only whether the request failed, whether the reply was OK, and
 * whether its body parsed.
 */
module Billing {
  import opened Wrappers

  datatype Mode = ReadWrite | ReadOnly
  datatype Reason = FreeWeek | Unpaid

  datatype BillingStatus = BillingStatus(mode: Mode, reason: Option<Reason>, weekStart: string)

  /** The `{ error, code }` object the guard returns. */
  datatype GuardError = GuardError(error: string, code: int)

  const InsufficientCredits := GuardError("Insufficient credits. Purchase credits to continue.", 402)

  /** The status every fallback branch returns. */
  const FailOpen := BillingStatus(ReadWrite, None, "")

  /** billingGuard: blocks exactly the read-only mode. */
  function BillingGuard(b: BillingStatus): (r: Option<GuardError>)
    ensures r.Some? <==> b.mode == ReadOnly
    ensures r.Some? ==> r.value.code == 402 && r.value == InsufficientCredits
  {
    if b.mode == ReadOnly then Some(InsufficientCredits) else None
  }

  /** The guard looks at the mode only: read-write passes whatever the reason
      and week. */
  lemma GuardIgnoresReason(b: BillingStatus, c: BillingStatus)
    requires b.mode == c.mode
    ensures BillingGuard(b) == BillingGuard(c)
  {
  }

  /** The body of a reply: a billing status, or text that is not JSON. */
  datatype Body = Parsed(status: BillingStatus) | Malformed

  /** What `fetch` produced: a rejection (network error), or a reply. */
  datatype Response = FetchFailed | Reply(ok: bool, code: int, body: Body)

  /** How the returned promise settles. */
  datatype Settled = Resolved(status: BillingStatus) | Rejected

  /** `if (!billingApiUrl)`: unset and empty both count as not configured. */
  predicate Configured(url: Option<string>) {
    url.Some? && url.value != ""
  }

  /** The server's own answer: configured, an OK reply, a parsable body. */
  predicate ServerAnswered(url: Option<string>, resp: Response) {
    Configured(url) && resp.Reply? && resp.ok && resp.body.Parsed?
  }

  /**
   * checkBillingAccess as written. The OK branch returns the body's promise
   * from inside the `try` without awaiting it, so a body that fails to parse
   * rejects the returned promise instead of reaching the `catch`.
   */
  function CheckBillingAccessAsWritten(url: Option<string>, resp: Response): (r: Settled)
    ensures !Configured(url) ==> r == Resolved(FailOpen)
    ensures Configured(url) && (resp.FetchFailed? || !resp.ok) ==> r == Resolved(FailOpen)
    ensures r.Rejected? <==> Configured(url) && resp.Reply? && resp.ok && resp.body.Malformed?
    ensures ServerAnswered(url, resp) ==> r == Resolved(resp.body.status)
  {
    if !Configured(url) then Resolved(FailOpen)
    else match resp
      case FetchFailed => Resolved(FailOpen)
      case Reply(ok, _, body) =>
        if !ok then Resolved(FailOpen)
        else match body
          case Parsed(s) => Resolved(s)
          case Malformed => Rejected
  }

  /** The fallback intended by every other branch: any failure reads as
      read-write. */
  function CheckBillingAccess(url: Option<string>, resp: Response): (r: BillingStatus)
    ensures ServerAnswered(url, resp) ==> r == resp.body.status
    ensures !ServerAnswered(url, resp) ==> r == FailOpen
  {
    if ServerAnswered(url, resp) then resp.body.status else FailOpen
  }

  /** A malformed OK body rejects the as-written check. */
  lemma MalformedBodyRejects()
    ensures CheckBillingAccessAsWritten(Some("https://billing.example"), Reply(true, 200, Malformed)) == Rejected
    ensures CheckBillingAccess(Some("https://billing.example"), Reply(true, 200, Malformed)) == FailOpen
  {
  }

  /** Wherever the as-written check resolves, the corrected one agrees. */
  lemma CorrectedAgreesWhenResolved(url: Option<string>, resp: Response)
    requires CheckBillingAccessAsWritten(url, resp).Resolved?
    ensures CheckBillingAccessAsWritten(url, resp).status == CheckBillingAccess(url, resp)
  {
  }

  /** Fail-open: the guard blocks only when the server itself answered
      read-only. */
  lemma BlockedOnlyByServer(url: Option<string>, resp: Response)
    ensures BillingGuard(CheckBillingAccess(url, resp)).Some? <==>
      ServerAnswered(url, resp) && resp.body.status.mode == ReadOnly
  {
  }
}
