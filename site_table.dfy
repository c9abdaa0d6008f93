/**
 * The `sites` table and the domain endpoints that act on it (backend/app/crud/site.py,
 * rows as in backend/app/models/site.py): registering a domain for a user, reading its
 * verification status and asking for it to be verified. Rows are kept in insertion
 * order, which is the order `first()` and `next(...)` see them in; the queue of
 * verification tasks is a sequence of requests.
 */
module SiteTable {
  import opened Wrappers
  import TxtToken

  /** A row of `sites`. Times are integers (seconds). */
  datatype Site = Site(id: nat, domain: string, token: string, verified: bool, userId: int, createdAt: int)

  /** A queued `verify_domain_task(domain, user_id, PREFIX)` call. */
  datatype VerifyRequest = VerifyRequest(domain: string, userId: int, prefix: string)

  /**
   * Two different rows may coexist: distinct ids and tokens (the token column is
   * unique), and for one domain only rows of different users, none of them verified.
   */
  predicate Compatible(a: Site, b: Site) {
    && a.id != b.id
    && a.token != b.token
    && (a.domain == b.domain ==> a.userId != b.userId && !a.verified && !b.verified)
  }

  /**
   * The table's invariant: its rows are pairwise compatible. So each user has at most
   * one row per domain, and a verified domain has no other row at all.
   */
  predicate Consistent(rows: seq<Site>) {
    forall i, j :: 0 <= i < j < |rows| ==> Compatible(rows[i], rows[j])
  }

  /** In a consistent table a verified domain belongs to exactly one row, hence one user. */
  lemma VerifiedDomainHasOneOwner(rows: seq<Site>, i: nat, j: nat)
    requires Consistent(rows) && i < |rows| && j < |rows|
    requires rows[i].verified && rows[i].domain == rows[j].domain
    ensures i == j
  {
  }

  /** Row `s` is the user's row for the domain, verified or not as `want` asks. */
  predicate Owns(s: Site, domain: string, userId: int, want: Option<bool>) {
    s.domain == domain && s.userId == userId && (want.Some? ==> s.verified == want.value)
  }

  /** The index of the first row at or after `from` that `Owns` accepts (the query's `first()`). */
  function FirstOwnedFrom(rows: seq<Site>, domain: string, userId: int, want: Option<bool>, from: nat): (r: Option<nat>)
    requires from <= |rows|
    ensures r.Some? ==> from <= r.value < |rows| && Owns(rows[r.value], domain, userId, want)
    ensures r.Some? ==> forall j :: from <= j < r.value ==> !Owns(rows[j], domain, userId, want)
    ensures r.None? ==> forall j :: from <= j < |rows| ==> !Owns(rows[j], domain, userId, want)
    decreases |rows| - from
  {
    if from == |rows| then None
    else if Owns(rows[from], domain, userId, want) then Some(from)
    else FirstOwnedFrom(rows, domain, userId, want, from + 1)
  }

  function FirstOwned(rows: seq<Site>, domain: string, userId: int, want: Option<bool>): Option<nat> {
    FirstOwnedFrom(rows, domain, userId, want, 0)
  }

  /** Another user holds a verified row for the domain. */
  predicate VerifiedByOther(rows: seq<Site>, domain: string, userId: int) {
    exists i :: 0 <= i < |rows| && rows[i].domain == domain && rows[i].userId != userId && rows[i].verified
  }

  predicate TokenInUse(rows: seq<Site>, token: string) {
    exists i :: 0 <= i < |rows| && rows[i].token == token
  }

  /** The table without its row at index `k`. */
  function RemoveAt(rows: seq<Site>, k: nat): (r: seq<Site>)
    requires k < |rows|
    ensures |r| == |rows| - 1
    ensures forall i :: 0 <= i < |r| ==> r[i] == rows[if i < k then i else i + 1]
  {
    rows[..k] + rows[k + 1..]
  }

  lemma RemoveAtConsistent(rows: seq<Site>, k: nat)
    requires Consistent(rows) && k < |rows|
    ensures Consistent(RemoveAt(rows, k))
  {
    var r := RemoveAt(rows, k);
    forall i, j | 0 <= i < j < |r|
      ensures Compatible(r[i], r[j])
    {
      var i', j' := if i < k then i else i + 1, if j < k then j else j + 1;
      assert r[i] == rows[i'] && r[j] == rows[j'] && i' < j';
    }
  }

  /** The rows `keep` accepts, in table order (a bulk `delete` keeps the others). */
  function Filter(rows: seq<Site>, keep: Site -> bool): (r: seq<Site>)
    ensures |r| <= |rows|
  {
    if rows == [] then []
    else Filter(rows[..|rows| - 1], keep) + (if keep(rows[|rows| - 1]) then [rows[|rows| - 1]] else [])
  }

  /** The filtered table holds exactly the rows of the table that `keep` accepts. */
  lemma {:induction false} FilterMembers(rows: seq<Site>, keep: Site -> bool)
    ensures forall s :: s in Filter(rows, keep) <==> s in rows && keep(s)
  {
    if rows != [] {
      var init := rows[..|rows| - 1];
      assert rows == init + [rows[|rows| - 1]];
      FilterMembers(init, keep);
    }
  }

  /** Two rows of a filtered table come from two rows of the table, in the same order. */
  lemma {:induction false} FilterPair(rows: seq<Site>, keep: Site -> bool, i: nat, j: nat)
    requires i < j < |Filter(rows, keep)|
    ensures exists p, q :: 0 <= p < q < |rows| && rows[p] == Filter(rows, keep)[i] && rows[q] == Filter(rows, keep)[j]
  {
    var init := rows[..|rows| - 1];
    var f, r := Filter(init, keep), Filter(rows, keep);
    if j < |f| {
      assert r[i] == f[i] && r[j] == f[j];
      FilterPair(init, keep, i, j);
      var p, q :| 0 <= p < q < |init| && init[p] == f[i] && init[q] == f[j];
      assert rows[p] == r[i] && rows[q] == r[j];
    } else {
      assert r[j] == rows[|rows| - 1] && r[i] == f[i];
      FilterMembers(init, keep);
      assert f[i] in f;
      var p :| 0 <= p < |init| && init[p] == f[i];
      assert rows[p] == r[i];
    }
  }

  /** Deleting rows keeps the table consistent. */
  lemma FilterConsistent(rows: seq<Site>, keep: Site -> bool)
    requires Consistent(rows)
    ensures Consistent(Filter(rows, keep))
  {
    var r := Filter(rows, keep);
    forall i, j | 0 <= i < j < |r|
      ensures Compatible(r[i], r[j])
    {
      FilterPair(rows, keep, i, j);
    }
  }

  /** A filter that keeps every row changes nothing. */
  lemma {:induction false} FilterKeepsAll(rows: seq<Site>, keep: Site -> bool)
    requires forall s :: s in rows ==> keep(s)
    ensures Filter(rows, keep) == rows
  {
    if rows != [] {
      var init := rows[..|rows| - 1];
      assert rows == init + [rows[|rows| - 1]];
      FilterKeepsAll(init, keep);
    }
  }

  /** Deleting the one row `keep` refuses leaves the rows around it. */
  lemma {:induction false} FilterOutOne(a: seq<Site>, x: Site, b: seq<Site>, keep: Site -> bool)
    requires !keep(x)
    requires forall s :: s in a ==> keep(s)
    requires forall s :: s in b ==> keep(s)
    ensures Filter(a + [x] + b, keep) == a + b
    decreases |b|
  {
    if b == [] {
      var ax := a + [x];
      assert ax[..|ax| - 1] == a && ax[|ax| - 1] == x;
      FilterKeepsAll(a, keep);
      assert a + [x] + b == ax && a + b == a;
    } else {
      var init, last := b[..|b| - 1], b[|b| - 1];
      var rows := a + [x] + b;
      assert rows[..|rows| - 1] == a + [x] + init && rows[|rows| - 1] == last;
      assert last in b;
      FilterOutOne(a, x, init, keep);
      assert a + b == (a + init) + [last];
    }
  }

  /** Keeps every row but the one with id `id`. */
  function NotId(id: nat): Site -> bool {
    (s: Site) => s.id != id
  }

  /** In a consistent table no other row shares the id of the row at `k`. */
  lemma IdsDistinct(rows: seq<Site>, k: nat)
    requires Consistent(rows) && k < |rows|
    ensures forall p :: 0 <= p < |rows| && p != k ==> rows[p].id != rows[k].id
  {
    forall p | 0 <= p < |rows| && p != k
      ensures rows[p].id != rows[k].id
    {
      if p < k {
        assert Compatible(rows[p], rows[k]);
      } else {
        assert Compatible(rows[k], rows[p]);
      }
    }
  }

  /** Deleting the row with the id of the row at `k` removes that row and nothing else. */
  lemma DeleteIdRemovesOne(rows: seq<Site>, k: nat)
    requires Consistent(rows) && k < |rows|
    ensures Filter(rows, NotId(rows[k].id)) == rows[..k] + rows[k + 1..]
  {
    IdsDistinct(rows, k);
    var a, b := rows[..k], rows[k + 1..];
    var keep := NotId(rows[k].id);
    assert rows == a + [rows[k]] + b;
    forall s | s in a
      ensures keep(s)
    {
      var p :| 0 <= p < |a| && a[p] == s;
      assert rows[p] == s;
    }
    forall s | s in b
      ensures keep(s)
    {
      var p :| 0 <= p < |b| && b[p] == s;
      assert rows[k + 1 + p] == s;
    }
    FilterOutOne(a, rows[k], b, keep);
  }

  /** In a consistent table, a row the user owns is their first and only row for the domain. */
  lemma OwnedRowIsFirst(rows: seq<Site>, k: nat)
    requires Consistent(rows) && k < |rows|
    ensures FirstOwned(rows, rows[k].domain, rows[k].userId, None) == Some(k)
  {
    forall j | 0 <= j < k
      ensures !Owns(rows[j], rows[k].domain, rows[k].userId, None)
    {
      assert Compatible(rows[j], rows[k]);
    }
  }

  /** A verified row makes its user the only holder of the domain. */
  lemma VerifiedRowExclusive(rows: seq<Site>, domain: string, userId: int)
    requires Consistent(rows) && FirstOwned(rows, domain, userId, Some(true)).Some?
    ensures forall s :: s in rows && s.domain == domain ==> s.userId == userId && s.verified
  {
    var k := FirstOwned(rows, domain, userId, Some(true)).value;
    forall s | s in rows && s.domain == domain
      ensures s.userId == userId && s.verified
    {
      var p :| 0 <= p < |rows| && rows[p] == s;
      VerifiedDomainHasOneOwner(rows, k, p);
    }
  }

  /** What the registration answers. */
  datatype RegisterReply = RegisterReply(status: int, success: bool, message: string, verificationToken: Option<string>)

  /** The registration's reply together with the table it leaves. */
  datatype Registration = Registration(reply: RegisterReply, rows: seq<Site>)

  /**
   * `domain_registry_crud` on a table, with `token` the freshly generated token and
   * `id` the id the database gives the new row: refused while the user or another user
   * has the domain verified; otherwise the user's first unverified row for it is
   * deleted and committed, and a new unverified row is inserted, unless its token is
   * already taken, which the database rejects and the endpoint reports as a 500.
   */
  function Registered(rows: seq<Site>, domain: string, userId: int, token: string, id: nat, now: int): Registration {
    if FirstOwned(rows, domain, userId, Some(true)).Some? then
      Registration(RegisterReply(400, false, "You have already verified this domain.", None), rows)
    else if VerifiedByOther(rows, domain, userId) then
      Registration(RegisterReply(400, false, "This domain is already verified by another user.", None), rows)
    else
      var stale := FirstOwned(rows, domain, userId, Some(false));
      var kept := if stale.Some? then RemoveAt(rows, stale.value) else rows;
      if TokenInUse(kept, token) then
        Registration(RegisterReply(500, false, "Internal server error", None), kept)
      else
        Registration(RegisterReply(201, true, "Domain registered successfully.", Some(TxtToken.Prefix + token)),
                     kept + [Site(id, domain, token, false, userId, now)])
  }

  /** Before the insert, no row of the table is the user's row for the domain. */
  lemma StaleRemovedLeavesNoOwnRow(rows: seq<Site>, domain: string, userId: int)
    requires Consistent(rows)
    requires FirstOwned(rows, domain, userId, Some(true)).None? && !VerifiedByOther(rows, domain, userId)
    ensures var stale := FirstOwned(rows, domain, userId, Some(false));
      var kept := if stale.Some? then RemoveAt(rows, stale.value) else rows;
      Consistent(kept) && forall s :: s in kept && s.domain == domain ==> s.userId != userId && !s.verified
  {
    var stale := FirstOwned(rows, domain, userId, Some(false));
    assert forall i :: 0 <= i < |rows| && rows[i].domain == domain ==> !rows[i].verified;
    if stale.Some? {
      var k := stale.value;
      RemoveAtConsistent(rows, k);
      var kept := RemoveAt(rows, k);
      forall s | s in kept && s.domain == domain
        ensures s.userId != userId
      {
        var i :| 0 <= i < |kept| && kept[i] == s;
        var i' := if i < k then i else i + 1;
        assert rows[i'] == s && i' != k;
      }
    }
  }

  /** Registration keeps the table consistent, whatever it answers. */
  lemma RegisteredConsistent(rows: seq<Site>, domain: string, userId: int, token: string, id: nat, now: int)
    requires Consistent(rows) && forall s :: s in rows ==> s.id < id
    ensures Consistent(Registered(rows, domain, userId, token, id, now).rows)
    ensures forall s :: s in Registered(rows, domain, userId, token, id, now).rows ==> s.id <= id
  {
    if FirstOwned(rows, domain, userId, Some(true)).None? && !VerifiedByOther(rows, domain, userId) {
      StaleRemovedLeavesNoOwnRow(rows, domain, userId);
      var stale := FirstOwned(rows, domain, userId, Some(false));
      var kept := if stale.Some? then RemoveAt(rows, stale.value) else rows;
      assert forall s :: s in kept ==> s in rows;
      if !TokenInUse(kept, token) {
        var added := Site(id, domain, token, false, userId, now);
        var r := kept + [added];
        forall i, j | 0 <= i < j < |r|
          ensures Compatible(r[i], r[j])
        {
          if j == |kept| {
            assert r[i] in kept;
          } else {
            assert r[i] == kept[i] && r[j] == kept[j];
          }
        }
      }
    }
  }

  /** Registration never touches another user's rows, nor the user's rows for other domains. */
  lemma RegisteredKeepsOthers(rows: seq<Site>, domain: string, userId: int, token: string, id: nat, now: int, s: Site)
    requires s.userId != userId || s.domain != domain
    ensures s in Registered(rows, domain, userId, token, id, now).rows <==> s in rows
  {
    var stale := FirstOwned(rows, domain, userId, Some(false));
    if stale.Some? {
      RemoveAtMembers(rows, stale.value, s);
    }
  }

  /** Removing the row at `k` keeps every other row. */
  lemma RemoveAtMembers(rows: seq<Site>, k: nat, s: Site)
    requires k < |rows| && s != rows[k]
    ensures s in RemoveAt(rows, k) <==> s in rows
  {
    var r := RemoveAt(rows, k);
    if s in rows {
      var p :| 0 <= p < |rows| && rows[p] == s;
      assert r[if p < k then p else p - 1] == s;
    }
  }

  /** A successful registration leaves the new unverified row as the user's only row for the domain. */
  lemma RegisteredOwnRow(rows: seq<Site>, domain: string, userId: int, token: string, id: nat, now: int)
    requires Consistent(rows)
    requires Registered(rows, domain, userId, token, id, now).reply.status == 201
    ensures var r := Registered(rows, domain, userId, token, id, now).rows;
      && r[|r| - 1] == Site(id, domain, token, false, userId, now)
      && forall i :: 0 <= i < |r| - 1 ==> !Owns(r[i], domain, userId, None)
  {
    StaleRemovedLeavesNoOwnRow(rows, domain, userId);
    var stale := FirstOwned(rows, domain, userId, Some(false));
    var kept := if stale.Some? then RemoveAt(rows, stale.value) else rows;
    var r := Registered(rows, domain, userId, token, id, now).rows;
    assert r == kept + [Site(id, domain, token, false, userId, now)];
    assert forall i :: 0 <= i < |r| - 1 ==> r[i] in kept;
  }

  /** What the status and verification endpoints answer: a status, and the flag when 200. */
  datatype DomainReply = DomainReply(status: int, success: bool, message: string, isVerified: Option<bool>)

  class SiteTable {
    var rows: seq<Site>
    var nextId: nat
    var verifyQueue: seq<VerifyRequest>

    ghost predicate Valid()
      reads this
    {
      Consistent(rows) && forall s :: s in rows ==> s.id < nextId
    }

    constructor ()
      ensures Valid() && rows == [] && nextId == 1 && verifyQueue == []
    {
      rows := [];
      nextId := 1;
      verifyQueue := [];
    }

    /**
     * `domain_registry_crud`: the answer and the new table are those of `Registered`;
     * a new row takes the next id.
     */
    method Register(domain: string, userId: int, token: string, now: int) returns (reply: RegisterReply)
      requires Valid()
      modifies this`rows, this`nextId
      ensures Valid()
      ensures var reg := Registered(old(rows), domain, userId, token, old(nextId), now);
        reply == reg.reply && rows == reg.rows
      ensures nextId == if reply.status == 201 then old(nextId) + 1 else old(nextId)
    {
      RegisteredConsistent(rows, domain, userId, token, nextId, now);
      if FirstOwned(rows, domain, userId, Some(true)).Some? {
        return RegisterReply(400, false, "You have already verified this domain.", None);
      }
      if VerifiedByOther(rows, domain, userId) {
        return RegisterReply(400, false, "This domain is already verified by another user.", None);
      }
      var stale := FirstOwned(rows, domain, userId, Some(false));
      if stale.Some? {
        rows := RemoveAt(rows, stale.value);
      }
      if TokenInUse(rows, token) {
        return RegisterReply(500, false, "Internal server error", None);
      }
      rows := rows + [Site(nextId, domain, token, false, userId, now)];
      nextId := nextId + 1;
      reply := RegisterReply(201, true, "Domain registered successfully.", Some(TxtToken.Prefix + token));
    }

    /** `session.delete(site)`: the row with id `id` is removed. */
    method Delete(id: nat)
      requires Valid()
      modifies this`rows
      ensures Valid()
      ensures rows == Filter(old(rows), NotId(id))
    {
      FilterConsistent(rows, NotId(id));
      FilterMembers(rows, NotId(id));
      rows := Filter(rows, NotId(id));
    }

    /** `get_domain_status_crud`: 403 without a row for (domain, user), else 200 with its flag. */
    method Status(domain: string, userId: int) returns (reply: DomainReply)
      requires Valid()
      ensures FirstOwned(rows, domain, userId, None).None? ==>
        reply == DomainReply(403, false, "Not authorized to access this domain.", None)
      ensures FirstOwned(rows, domain, userId, None).Some? ==>
        reply.status == 200 && reply.success && reply.isVerified == Some(rows[FirstOwned(rows, domain, userId, None).value].verified)
      ensures reply.isVerified == Some(true) <==> FirstOwned(rows, domain, userId, Some(true)).Some?
    {
      var k := FirstOwned(rows, domain, userId, None);
      if k.None? {
        assert FirstOwned(rows, domain, userId, Some(true)).None?;
        return DomainReply(403, false, "Not authorized to access this domain.", None);
      }
      OwnRowUnique(rows, domain, userId, k.value);
      reply := DomainReply(200, true, "", Some(rows[k.value].verified));
    }

    /**
     * `domain_verification_crud`: 403 without a row for (domain, user); otherwise a
     * verification task is queued and 202 returned, even for a verified domain.
     */
    method RequestVerification(domain: string, userId: int) returns (reply: DomainReply)
      requires Valid()
      modifies this`verifyQueue
      ensures FirstOwned(rows, domain, userId, None).None? ==>
        reply == DomainReply(403, false, "Not authorized to verify this domain.", None) && verifyQueue == old(verifyQueue)
      ensures FirstOwned(rows, domain, userId, None).Some? ==>
        && reply == DomainReply(202, true, "Verification in progress. Please check again in a few minutes.", None)
        && verifyQueue == old(verifyQueue) + [VerifyRequest(domain, userId, TxtToken.Prefix)]
    {
      if FirstOwned(rows, domain, userId, None).None? {
        return DomainReply(403, false, "Not authorized to verify this domain.", None);
      }
      verifyQueue := verifyQueue + [VerifyRequest(domain, userId, TxtToken.Prefix)];
      reply := DomainReply(202, true, "Verification in progress. Please check again in a few minutes.", None);
    }
  }

  /** In a consistent table the user's first row for a domain is their only one. */
  lemma OwnRowUnique(rows: seq<Site>, domain: string, userId: int, k: nat)
    requires Consistent(rows) && FirstOwned(rows, domain, userId, None) == Some(k)
    ensures forall j :: 0 <= j < |rows| && j != k ==> !Owns(rows[j], domain, userId, None)
    ensures FirstOwned(rows, domain, userId, Some(rows[k].verified)) == Some(k)
    ensures FirstOwned(rows, domain, userId, Some(!rows[k].verified)).None?
  {
    forall j | 0 <= j < |rows| && j != k
      ensures !Owns(rows[j], domain, userId, None)
    {
      if j > k {
        assert Compatible(rows[k], rows[j]);
      }
    }
  }
}
