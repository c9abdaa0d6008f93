/**
 * The site ownership check (backend/app/middleware/site_middleware.py), which the
 * test-scan endpoint `POST /test` awaits: the user must hold a verified row for the
 * domain, and the domain's TXT records, fetched afresh, must still offer that row's token.
 */
module SiteOwnership {
  import opened Wrappers
  import opened TxtToken
  import opened SiteTable
  import opened DomainVerification

  /**
   * How the check ends: ownership confirmed, an HTTP error with its detail, or a
   * resolver error that the check does not catch and that reaches its caller.
   */
  datatype Ownership = Owned | Refused(status: int, detail: string) | Propagated(answer: TxtAnswer)

  /**
   * `verify_site_ownership`, given what the resolver answers for the domain: without a
   * verified row the check refuses before the answer is looked at; otherwise the
   * records are searched for the row's token.
   */
  function OwnershipCheck(rows: seq<Site>, domain: string, userId: int, prefix: string, answer: TxtAnswer): (r: Ownership)
    ensures FirstOwned(rows, domain, userId, Some(true)).None? ==>
      r == Refused(403, "You do not own this site or it is not verified.")
    ensures r == Owned <==>
      && FirstOwned(rows, domain, userId, Some(true)).Some? && answer.Records?
      && TokenFound(answer.records, prefix, rows[FirstOwned(rows, domain, userId, Some(true)).value].token)
    ensures FirstOwned(rows, domain, userId, Some(true)).Some? && answer.NoAnswer? ==>
      r == Refused(400, "No TXT records found.")
    ensures FirstOwned(rows, domain, userId, Some(true)).Some? && (answer.NxDomain? || answer.ResolveFailure?) ==>
      r == Propagated(answer)
    ensures FirstOwned(rows, domain, userId, Some(true)).Some? && answer.Records? && r != Owned ==>
      r == Refused(403, "Site ownership verification failed.")
  {
    var k := FirstOwned(rows, domain, userId, Some(true));
    if k.None? then Refused(403, "You do not own this site or it is not verified.")
    else
      match answer
      case NoAnswer => Refused(400, "No TXT records found.")
      case NxDomain => Propagated(answer)
      case ResolveFailure => Propagated(answer)
      case Records(records) =>
        if TokenFound(records, prefix, rows[k.value].token) then Owned
        else Refused(403, "Site ownership verification failed.")
  }

  /** A confirmed owner is the only holder of the domain, and their row is verified. */
  lemma OwnedMeansSoleHolder(rows: seq<Site>, domain: string, userId: int, prefix: string, answer: TxtAnswer)
    requires Consistent(rows) && OwnershipCheck(rows, domain, userId, prefix, answer) == Owned
    ensures forall s :: s in rows && s.domain == domain ==> s.userId == userId && s.verified
  {
    VerifiedRowExclusive(rows, domain, userId);
  }

  /**
   * For a user holding a verified row, the check and the verification task judge the
   * same records alike: the check confirms ownership exactly when the verification task would
   * succeed, and the verification task then leaves the table as it is.
   */
  lemma OwnershipAgreesWithTask(rows: seq<Site>, domain: string, userId: int, prefix: string, answer: TxtAnswer)
    requires Consistent(rows) && FirstOwned(rows, domain, userId, Some(true)).Some? && answer.Records?
    ensures OwnershipCheck(rows, domain, userId, prefix, answer) == Owned <==> Verified(rows, domain, userId, prefix, answer).ok
    ensures OwnershipCheck(rows, domain, userId, prefix, answer) == Owned ==>
      Verified(rows, domain, userId, prefix, answer).rows == rows
  {
    var k := FirstOwned(rows, domain, userId, Some(true)).value;
    OwnedRowIsFirst(rows, k);
    RecheckOfVerifiedRow(rows, k, prefix, answer);
  }
}
