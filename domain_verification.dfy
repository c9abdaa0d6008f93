/**
 * The background domain verification (backend/app/tasks/domain_verification.py):
 * the domain's TXT records are fetched, then the user's row for the domain is looked
 * up; a record offering the row's token verifies the row and removes the other users'
 * unverified claims on the domain, and otherwise the row is marked unverified.
 */
module DomainVerification {
  import opened Wrappers
  import opened TxtToken
  import opened SiteTable

  /** Keeps every row but another user's unverified claim on `domain`. */
  function NoRivalClaim(domain: string, userId: int): Site -> bool {
    (s: Site) => !(s.domain == domain && s.userId != userId && !s.verified)
  }

  /** The verification task's result together with the table it leaves. */
  datatype Verification = Verification(ok: bool, rows: seq<Site>)

  /**
   * `verify_domain_task` on a table, given what the resolver answered: a resolver
   * error returns false before the table is read; so does a missing row; otherwise
   * the row is verified (and rival claims deleted) or marked unverified.
   */
  function Verified(rows: seq<Site>, domain: string, userId: int, prefix: string, answer: TxtAnswer): Verification {
    if !answer.Records? then Verification(false, rows)
    else
      var k := FirstOwned(rows, domain, userId, None);
      if k.None? then Verification(false, rows)
      else if TokenFound(answer.records, prefix, rows[k.value].token) then
        Verification(true, Filter(rows[k.value := rows[k.value].(verified := true)], NoRivalClaim(domain, userId)))
      else
        Verification(false, rows[k.value := rows[k.value].(verified := false)])
  }

  /** Confirming the user's row and deleting rival claims leaves a consistent table. */
  lemma ConfirmConsistent(rows: seq<Site>, k: nat)
    requires Consistent(rows) && k < |rows|
    ensures var v := rows[k].(verified := true);
      Consistent(Filter(rows[k := v], NoRivalClaim(v.domain, v.userId)))
  {
    var v := rows[k].(verified := true);
    var keep := NoRivalClaim(v.domain, v.userId);
    var marked := rows[k := v];
    var r := Filter(marked, keep);
    FilterMembers(marked, keep);
    forall i, j | 0 <= i < j < |r|
      ensures Compatible(r[i], r[j])
    {
      FilterPair(marked, keep, i, j);
      var p, q :| 0 <= p < q < |marked| && marked[p] == r[i] && marked[q] == r[j];
      assert r[i] in r && r[j] in r;
      assert Compatible(rows[p], rows[q]);
    }
  }

  /** After a success the user's row, now verified, is the only row left for the domain. */
  lemma ConfirmLeavesSoleHolder(rows: seq<Site>, k: nat)
    requires Consistent(rows) && k < |rows|
    ensures var v := rows[k].(verified := true);
      var r := Filter(rows[k := v], NoRivalClaim(v.domain, v.userId));
      v in r && forall s :: s in r && s.domain == v.domain ==> s == v
  {
    var v := rows[k].(verified := true);
    var keep := NoRivalClaim(v.domain, v.userId);
    var marked := rows[k := v];
    FilterMembers(marked, keep);
    assert marked[k] == v;
    forall s | s in Filter(marked, keep) && s.domain == v.domain
      ensures s == v
    {
      var p :| 0 <= p < |marked| && marked[p] == s;
    }
  }

  /** The verification task keeps the table consistent and never adds a row. */
  lemma VerifiedConsistent(rows: seq<Site>, domain: string, userId: int, prefix: string, answer: TxtAnswer)
    requires Consistent(rows)
    ensures Consistent(Verified(rows, domain, userId, prefix, answer).rows)
    ensures |Verified(rows, domain, userId, prefix, answer).rows| <= |rows|
    ensures forall s :: s in Verified(rows, domain, userId, prefix, answer).rows ==>
      exists t :: t in rows && t.id == s.id
  {
    var k := FirstOwned(rows, domain, userId, None);
    if answer.Records? && k.Some? {
      var i := k.value;
      if TokenFound(answer.records, prefix, rows[i].token) {
        ConfirmConsistent(rows, i);
        var v := rows[i].(verified := true);
        FilterMembers(rows[i := v], NoRivalClaim(domain, userId));
        forall s | s in Verified(rows, domain, userId, prefix, answer).rows
          ensures exists t :: t in rows && t.id == s.id
        {
          var p :| 0 <= p < |rows| && rows[i := v][p] == s;
          assert rows[p] in rows && rows[p].id == s.id;
        }
      } else {
        var unmarked := rows[i := rows[i].(verified := false)];
        forall p, q | 0 <= p < q < |unmarked|
          ensures Compatible(unmarked[p], unmarked[q])
        {
          assert Compatible(rows[p], rows[q]);
        }
        forall s | s in unmarked
          ensures exists t :: t in rows && t.id == s.id
        {
          var p :| 0 <= p < |rows| && unmarked[p] == s;
          assert rows[p] in rows && rows[p].id == s.id;
        }
      }
    }
  }

  /**
   * The verification task succeeds exactly when the resolver answered, the user has a row for the
   * domain and some record offers that row's token; the row is then verified and the
   * domain's only row.
   */
  lemma VerifiedSucceedsIff(rows: seq<Site>, domain: string, userId: int, prefix: string, answer: TxtAnswer)
    requires Consistent(rows)
    ensures var res := Verified(rows, domain, userId, prefix, answer);
      var k := FirstOwned(rows, domain, userId, None);
      res.ok <==> answer.Records? && k.Some? && TokenFound(answer.records, prefix, rows[k.value].token)
    ensures var res := Verified(rows, domain, userId, prefix, answer);
      var k := FirstOwned(rows, domain, userId, None);
      res.ok ==> && rows[k.value].(verified := true) in res.rows
                 && forall s :: s in res.rows && s.domain == domain ==> s == rows[k.value].(verified := true)
  {
    var k := FirstOwned(rows, domain, userId, None);
    if answer.Records? && k.Some? && TokenFound(answer.records, prefix, rows[k.value].token) {
      ConfirmLeavesSoleHolder(rows, k.value);
    }
  }

  /**
   * A failed task changes at most the flag of the user's row for the domain, and
   * changes nothing at all when the resolver failed or the user has no row.
   */
  lemma VerifiedFailureKeepsRows(rows: seq<Site>, domain: string, userId: int, prefix: string, answer: TxtAnswer)
    requires !Verified(rows, domain, userId, prefix, answer).ok
    ensures var r := Verified(rows, domain, userId, prefix, answer).rows;
      && |r| == |rows|
      && (forall i :: 0 <= i < |rows| && !Owns(rows[i], domain, userId, None) ==> r[i] == rows[i])
      && (forall i :: 0 <= i < |rows| && Owns(rows[i], domain, userId, None) ==> !r[i].verified || r[i] == rows[i])
    ensures !answer.Records? || FirstOwned(rows, domain, userId, None).None? ==>
      Verified(rows, domain, userId, prefix, answer).rows == rows
  {
  }

  /**
   * Re-checking an already verified row: it stays as it is when a record still offers
   * its token, and is otherwise marked unverified, or left alone on a resolver error.
   */
  lemma RecheckOfVerifiedRow(rows: seq<Site>, k: nat, prefix: string, answer: TxtAnswer)
    requires Consistent(rows) && k < |rows| && rows[k].verified
    ensures var s := rows[k];
      var res := Verified(rows, s.domain, s.userId, prefix, answer);
      && res.ok == (answer.Records? && TokenFound(answer.records, prefix, s.token))
      && res.rows == (if !answer.Records? || res.ok then rows else rows[k := s.(verified := false)])
  {
    var s := rows[k];
    OwnedRowIsFirst(rows, k);
    if answer.Records? && TokenFound(answer.records, prefix, s.token) {
      assert rows[k := s.(verified := true)] == rows;
      forall t | t in rows
        ensures NoRivalClaim(s.domain, s.userId)(t)
      {
        var p :| 0 <= p < |rows| && rows[p] == t;
        if t.domain == s.domain {
          VerifiedDomainHasOneOwner(rows, k, p);
        }
      }
      FilterKeepsAll(rows, NoRivalClaim(s.domain, s.userId));
    }
  }

  /**
   * `verify_domain_task`: the answer was fetched first (`answer`); the user's row is
   * looked up, the records are searched for its token, and the table and result are
   * those of `Verified`.
   */
  method VerifyDomainTask(table: SiteTable, domain: string, userId: int, prefix: string, answer: TxtAnswer)
    returns (ok: bool)
    requires table.Valid()
    modifies table`rows
    ensures table.Valid()
    ensures ok == Verified(old(table.rows), domain, userId, prefix, answer).ok
    ensures table.rows == Verified(old(table.rows), domain, userId, prefix, answer).rows
  {
    VerifiedConsistent(table.rows, domain, userId, prefix, answer);
    if !answer.Records? {
      return false;
    }
    var k := FirstOwned(table.rows, domain, userId, None);
    if k.None? {
      return false;
    }
    var i := k.value;
    var found, _ := FirstMatch(answer.records, prefix, table.rows[i].token);
    ghost var before := table.rows;
    if found {
      table.rows := table.rows[i := table.rows[i].(verified := true)];
      table.rows := Filter(table.rows, NoRivalClaim(domain, userId));
      ok := true;
    } else {
      table.rows := table.rows[i := table.rows[i].(verified := false)];
      ok := false;
    }
    assert forall s :: s in table.rows ==> exists t :: t in before && t.id == s.id;
  }
}
