/**
 * The registration table and the service over it: create, the filtered,
 * sorted and paged list, lookup by id, partial update, delete, the
 * aggregate statistics and the ID-card existence check.
 */
module RegistrationStore {
  import opened Wrappers
  import opened RegistrationTypes

  // ---------------------------------------------------------------------
  // Rows and ids

  /** The row `create` inserts: every submitted field unchanged, companions only when supplied. */
  function NewRow(id: int, input: RegistrationInput, now: int): Registration {
    Registration(id, input.fields, input.companions, now, now)
  }

  /** Ids grow along the table; rows keep the order in which they were inserted. */
  ghost predicate IdsIncreasing(rows: seq<Registration>) {
    forall i, j | 0 <= i < j < |rows| :: rows[i].id < rows[j].id
  }

  /** `findUnique({where: {id}})` */
  function Lookup(rows: seq<Registration>, id: int): (r: Option<Registration>)
    ensures r.Some? ==> r.value in rows && r.value.id == id
    ensures r.None? <==> forall i | 0 <= i < |rows| :: rows[i].id != id
  {
    if rows == [] then None
    else if rows[0].id == id then Some(rows[0])
    else Lookup(rows[1..], id)
  }

  /** A row whose id is larger than every id of the table is found after it is appended. */
  lemma {:induction false} LookupAppended(rows: seq<Registration>, r: Registration)
    requires forall i | 0 <= i < |rows| :: rows[i].id < r.id
    ensures Lookup(rows + [r], r.id) == Some(r)
    ensures forall id | id != r.id :: Lookup(rows + [r], id) == Lookup(rows, id)
  {
    if rows != [] {
      assert (rows + [r])[1..] == rows[1..] + [r];
      LookupAppended(rows[1..], r);
    } else {
      assert ([] + [r])[1..] == [];
    }
  }

  /**
   * `findById` on the id `create` just used gives back the submitted fields
   * unchanged, the client's fee included, and the companions exactly as
   * supplied (none when none were sent).
   */
  lemma CreateThenFindById(rows: seq<Registration>, id: int, input: RegistrationInput, now: int)
    requires forall i | 0 <= i < |rows| :: rows[i].id < id
    ensures Lookup(rows + [NewRow(id, input, now)], id).Some?
    ensures var r := Lookup(rows + [NewRow(id, input, now)], id).value;
      && r.id == id && r.fields == input.fields && r.fields.totalFee == input.fields.totalFee
      && r.companions == input.companions && r.createdAt == now
  {
    LookupAppended(rows, NewRow(id, input, now));
  }

  /** Some row carries this ID card (`count({where: {idCard}}) > 0`). */
  predicate IdCardTaken(rows: seq<Registration>, idCard: string) {
    exists i | 0 <= i < |rows| :: rows[i].fields.idCard == idCard
  }

  /** `count({where: {idCard}})` */
  function CountIdCard(rows: seq<Registration>, idCard: string): (n: nat)
    ensures n <= |rows|
    ensures n > 0 <==> IdCardTaken(rows, idCard)
  {
    if rows == [] then 0
    else (if rows[0].fields.idCard == idCard then 1 else 0) + CountIdCard(rows[1..], idCard)
  }

  /** `delete({where: {id}})`: the table without the rows of that id, order kept. */
  function RemoveId(rows: seq<Registration>, id: int): (r: seq<Registration>)
    ensures forall x :: x in r <==> x in rows && x.id != id
    ensures |r| <= |rows|
  {
    if rows == [] then []
    else if rows[0].id == id then RemoveId(rows[1..], id)
    else [rows[0]] + RemoveId(rows[1..], id)
  }

  /** A row with an id below every id of an increasing table can go in front of it. */
  lemma IncreasingCons(h: Registration, t: seq<Registration>)
    requires IdsIncreasing(t)
    requires forall y | y in t :: h.id < y.id
    ensures IdsIncreasing([h] + t)
  {
    var s := [h] + t;
    forall i, j | 0 <= i < j < |s| ensures s[i].id < s[j].id {
      assert s[j] == t[j - 1];
      if i > 0 {
        assert s[i] == t[i - 1];
      } else {
        assert t[j - 1] in t;
      }
    }
  }

  lemma {:induction false} RemoveKeepsIdsIncreasing(rows: seq<Registration>, id: int)
    requires IdsIncreasing(rows)
    ensures IdsIncreasing(RemoveId(rows, id))
  {
    if rows != [] {
      var tl := rows[1..];
      assert IdsIncreasing(tl) by {
        forall i, j | 0 <= i < j < |tl| ensures tl[i].id < tl[j].id {
          assert tl[i] == rows[i + 1] && tl[j] == rows[j + 1];
        }
      }
      RemoveKeepsIdsIncreasing(tl, id);
      var tail := RemoveId(tl, id);
      forall y | y in tail ensures rows[0].id < y.id {
        var k :| 0 <= k < |tl| && tl[k] == y;
        assert rows[k + 1] == y;
      }
      if rows[0].id != id {
        IncreasingCons(rows[0], tail);
      }
    }
  }

  /**
   * After a delete the id is gone, and an ID card is still seen exactly when a
   * row with another id carries it.
   */
  lemma DeleteForgets(rows: seq<Registration>, id: int, idCard: string)
    ensures Lookup(RemoveId(rows, id), id).None?
    ensures IdCardTaken(RemoveId(rows, id), idCard) <==>
            exists i | 0 <= i < |rows| :: rows[i].id != id && rows[i].fields.idCard == idCard
  {
    var r := RemoveId(rows, id);
    if IdCardTaken(r, idCard) {
      var k :| 0 <= k < |r| && r[k].fields.idCard == idCard;
      assert r[k] in rows;
    }
    if exists i | 0 <= i < |rows| :: rows[i].id != id && rows[i].fields.idCard == idCard {
      var i :| 0 <= i < |rows| && rows[i].id != id && rows[i].fields.idCard == idCard;
      assert rows[i] in r;
    }
  }

  /** `update({where: {id}, data})` on one row: supplied fields replace, the others stay. */
  function ApplyPatch(r: Registration, p: Patch, now: int): (u: Registration)
    ensures u.id == r.id && u.createdAt == r.createdAt && u.updatedAt == now
    ensures p.companions.None? ==> u.companions == r.companions
    ensures p.companions.Some? ==> u.companions == p.companions
  {
    var f := r.fields;
    var g := Fields(
      p.name.GetOr(f.name),
      p.idCard.GetOr(f.idCard),
      p.gender.GetOr(f.gender),
      p.hasPlusOnes.GetOr(f.hasPlusOnes),
      p.plusOnesCount.GetOr(f.plusOnesCount),
      p.attendanceType.GetOr(f.attendanceType),
      p.phone.GetOr(f.phone),
      p.email.GetOr(f.email),
      if p.wechat.Some? then p.wechat else f.wechat,
      p.city.GetOr(f.city),
      p.position.GetOr(f.position),
      p.permitImageUrl.GetOr(f.permitImageUrl),
      p.paymentImageUrl.GetOr(f.paymentImageUrl),
      p.totalFee.GetOr(f.totalFee));
    Registration(r.id, g, if p.companions.Some? then p.companions else r.companions, r.createdAt, now)
  }

  /** The patch that supplies nothing. */
  const EmptyPatch: Patch := Patch(None, None, None, None, None, None, None, None, None, None, None, None, None, None, None)

  /** An empty patch changes nothing but the update time; a patch applied twice is applied once. */
  lemma PatchLaws(r: Registration, p: Patch, now: int)
    ensures ApplyPatch(r, EmptyPatch, now) == r.(updatedAt := now)
    ensures ApplyPatch(ApplyPatch(r, p, now), p, now) == ApplyPatch(r, p, now)
  {
  }

  /** Fields supplied by the patch are overwritten, and all others are kept. */
  lemma PatchOverwritesOnlySupplied(r: Registration, p: Patch, now: int)
    ensures var u := ApplyPatch(r, p, now).fields;
      && (p.name.Some? ==> u.name == p.name.value) && (p.name.None? ==> u.name == r.fields.name)
      && (p.idCard.Some? ==> u.idCard == p.idCard.value) && (p.idCard.None? ==> u.idCard == r.fields.idCard)
      && (p.gender.Some? ==> u.gender == p.gender.value) && (p.gender.None? ==> u.gender == r.fields.gender)
      && (p.hasPlusOnes.Some? ==> u.hasPlusOnes == p.hasPlusOnes.value) && (p.hasPlusOnes.None? ==> u.hasPlusOnes == r.fields.hasPlusOnes)
      && (p.plusOnesCount.Some? ==> u.plusOnesCount == p.plusOnesCount.value) && (p.plusOnesCount.None? ==> u.plusOnesCount == r.fields.plusOnesCount)
      && (p.attendanceType.Some? ==> u.attendanceType == p.attendanceType.value) && (p.attendanceType.None? ==> u.attendanceType == r.fields.attendanceType)
      && (p.phone.Some? ==> u.phone == p.phone.value) && (p.phone.None? ==> u.phone == r.fields.phone)
      && (p.email.Some? ==> u.email == p.email.value) && (p.email.None? ==> u.email == r.fields.email)
      && (p.city.Some? ==> u.city == p.city.value) && (p.city.None? ==> u.city == r.fields.city)
      && (p.position.Some? ==> u.position == p.position.value) && (p.position.None? ==> u.position == r.fields.position)
      && (p.permitImageUrl.Some? ==> u.permitImageUrl == p.permitImageUrl.value) && (p.permitImageUrl.None? ==> u.permitImageUrl == r.fields.permitImageUrl)
      && (p.paymentImageUrl.Some? ==> u.paymentImageUrl == p.paymentImageUrl.value) && (p.paymentImageUrl.None? ==> u.paymentImageUrl == r.fields.paymentImageUrl)
      && (p.totalFee.Some? ==> u.totalFee == p.totalFee.value) && (p.totalFee.None? ==> u.totalFee == r.fields.totalFee)
      && (p.wechat.Some? ==> u.wechat == p.wechat) && (p.wechat.None? ==> u.wechat == r.fields.wechat)
  {
  }

  /** The table after `update`: the row of that id patched, every other row as it was. */
  function UpdateId(rows: seq<Registration>, id: int, p: Patch, now: int): (r: seq<Registration>)
    ensures |r| == |rows|
  {
    if rows == [] then []
    else [if rows[0].id == id then ApplyPatch(rows[0], p, now) else rows[0]] + UpdateId(rows[1..], id, p, now)
  }

  lemma {:induction false} UpdateIdAt(rows: seq<Registration>, id: int, p: Patch, now: int, k: nat)
    requires k < |rows|
    ensures UpdateId(rows, id, p, now)[k] == if rows[k].id == id then ApplyPatch(rows[k], p, now) else rows[k]
  {
    if k > 0 {
      UpdateIdAt(rows[1..], id, p, now, k - 1);
    }
  }

  lemma UpdateKeepsIds(rows: seq<Registration>, id: int, p: Patch, now: int)
    requires IdsIncreasing(rows)
    ensures forall k | 0 <= k < |rows| :: UpdateId(rows, id, p, now)[k].id == rows[k].id
    ensures IdsIncreasing(UpdateId(rows, id, p, now))
  {
    var u := UpdateId(rows, id, p, now);
    forall k | 0 <= k < |rows| ensures u[k].id == rows[k].id {
      UpdateIdAt(rows, id, p, now, k);
    }
  }

  lemma UpdateFindsPatched(rows: seq<Registration>, id: int, p: Patch, now: int)
    requires IdsIncreasing(rows) && Lookup(rows, id).Some?
    ensures Lookup(UpdateId(rows, id, p, now), id) == Some(ApplyPatch(Lookup(rows, id).value, p, now))
  {
    UpdateKeepsIds(rows, id, p, now);
    var k :| 0 <= k < |rows| && rows[k] == Lookup(rows, id).value;
    UpdateIdAt(rows, id, p, now, k);
    LookupUnique(UpdateId(rows, id, p, now), k);
  }

  lemma UpdateKeepsOthers(rows: seq<Registration>, id: int, p: Patch, now: int, other: int)
    requires IdsIncreasing(rows) && other != id
    ensures Lookup(UpdateId(rows, id, p, now), other) == Lookup(rows, other)
  {
    var u := UpdateId(rows, id, p, now);
    UpdateKeepsIds(rows, id, p, now);
    if Lookup(rows, other).Some? {
      var j :| 0 <= j < |rows| && rows[j] == Lookup(rows, other).value;
      UpdateIdAt(rows, id, p, now, j);
      LookupUnique(rows, j);
      LookupUnique(u, j);
    } else {
      assert forall i | 0 <= i < |u| :: u[i].id != other;
    }
  }

  /** A later `findById` sees the patched row, and every other id reads as before. */
  lemma UpdateThenLookup(rows: seq<Registration>, id: int, p: Patch, now: int, other: int)
    requires IdsIncreasing(rows) && Lookup(rows, id).Some?
    ensures IdsIncreasing(UpdateId(rows, id, p, now))
    ensures Lookup(UpdateId(rows, id, p, now), id) == Some(ApplyPatch(Lookup(rows, id).value, p, now))
    ensures other != id ==> Lookup(UpdateId(rows, id, p, now), other) == Lookup(rows, other)
  {
    UpdateKeepsIds(rows, id, p, now);
    UpdateFindsPatched(rows, id, p, now);
    if other != id {
      UpdateKeepsOthers(rows, id, p, now, other);
    }
  }

  /** With increasing ids the row at position k is the one Lookup finds for its id. */
  lemma {:induction false} LookupUnique(rows: seq<Registration>, k: nat)
    requires IdsIncreasing(rows) && k < |rows|
    ensures Lookup(rows, rows[k].id) == Some(rows[k])
  {
    if k > 0 {
      assert rows[0].id < rows[k].id;
      LookupUnique(rows[1..], k - 1);
    }
  }

  // ---------------------------------------------------------------------
  // The list query

  /** `where` as the list builds it: each key present only when its filter is supplied. */
  datatype Where = Where(keyword: Option<string>, attendanceType: Option<string>, gte: Option<int>, lte: Option<int>)

  /** `k` occurs in `s` at position `i`. */
  predicate OccursAt(s: string, k: string, i: nat) {
    i + |k| <= |s| && s[i..i + |k|] == k
  }

  /** `{contains: k}`: the keyword is a substring. */
  predicate Contains(s: string, k: string) {
    exists i: nat | i <= |s| :: OccursAt(s, k, i)
  }

  /** What the store's query engine keeps for a `where`. */
  predicate MatchesWhere(r: Registration, w: Where) {
    && (w.keyword.Some? ==>
          Contains(r.fields.name, w.keyword.value)
          || Contains(r.fields.phone, w.keyword.value)
          || Contains(r.fields.idCard, w.keyword.value))
    && (w.attendanceType.Some? ==> r.fields.attendanceType == w.attendanceType.value)
    && (w.gte.Some? ==> r.createdAt >= w.gte.value)
    && (w.lte.Some? ==> r.createdAt <= w.lte.value)
  }

  /**
   * The filters of a query stated directly: an absent or empty keyword or
   * attendance type imposes nothing.
   */
  predicate Admits(q: ListQuery, r: Registration) {
    && (q.keyword.Some? && q.keyword.value != "" ==>
          Contains(r.fields.name, q.keyword.value)
          || Contains(r.fields.phone, q.keyword.value)
          || Contains(r.fields.idCard, q.keyword.value))
    && (q.attendanceType.Some? && q.attendanceType.value != "" ==>
          r.fields.attendanceType == q.attendanceType.value)
    && (q.startDate.Some? ==> r.createdAt >= q.startDate.value)
    && (q.endDate.Some? ==> r.createdAt <= q.endDate.value)
  }

  /** `findMany({where})` / `count({where})` before ordering and paging. */
  function FilterRows(rows: seq<Registration>, w: Where): (m: seq<Registration>)
    ensures forall x :: x in m <==> x in rows && MatchesWhere(x, w)
    ensures forall x :: multiset(m)[x] == if MatchesWhere(x, w) then multiset(rows)[x] else 0
    ensures |m| <= |rows|
  {
    if rows == [] then []
    else
      assert rows == [rows[0]] + rows[1..];
      (if MatchesWhere(rows[0], w) then [rows[0]] else []) + FilterRows(rows[1..], w)
  }

  /** `orderBy: {createdAt: 'desc'}` holds. */
  ghost predicate SortedDesc(s: seq<Registration>) {
    forall i, j | 0 <= i < j < |s| :: s[i].createdAt >= s[j].createdAt
  }

  /** A newest-first list with a head no older than any of its rows stays newest first. */
  lemma SortedCons(h: Registration, t: seq<Registration>)
    requires SortedDesc(t)
    requires forall y | y in multiset(t) :: y.createdAt <= h.createdAt
    ensures SortedDesc([h] + t)
  {
    var s := [h] + t;
    forall i, j | 0 <= i < j < |s| ensures s[i].createdAt >= s[j].createdAt {
      if i == 0 {
        assert s[j] == t[j - 1];
        assert t[j - 1] in multiset(t);
      } else {
        assert s[i] == t[i - 1] && s[j] == t[j - 1];
      }
    }
  }

  /** Puts `x` in front of the first row of `s` that is not newer than it. */
  function InsertDesc(x: Registration, s: seq<Registration>): seq<Registration> {
    if s == [] then [x]
    else if x.createdAt >= s[0].createdAt then [x] + s
    else [s[0]] + InsertDesc(x, s[1..])
  }

  /** The tail of a newest-first list is newest first, and its rows are no newer than the head. */
  lemma SortedTail(s: seq<Registration>)
    requires SortedDesc(s) && s != []
    ensures SortedDesc(s[1..])
    ensures forall y | y in multiset(s[1..]) :: y.createdAt <= s[0].createdAt
  {
    var tl := s[1..];
    forall i, j | 0 <= i < j < |tl| ensures tl[i].createdAt >= tl[j].createdAt {
      assert tl[i] == s[i + 1] && tl[j] == s[j + 1];
    }
    forall y | y in multiset(tl) ensures y.createdAt <= s[0].createdAt {
      var k :| 0 <= k < |tl| && tl[k] == y;
      assert s[k + 1] == y;
    }
  }

  /** Inserting adds exactly `x`. */
  lemma {:induction false} InsertDescPerm(x: Registration, s: seq<Registration>)
    ensures multiset(InsertDesc(x, s)) == multiset(s) + multiset{x}
  {
    if s != [] && x.createdAt < s[0].createdAt {
      InsertDescPerm(x, s[1..]);
      assert s == [s[0]] + s[1..];
    }
  }

  /** Inserting into a newest-first list keeps it newest first and adds exactly `x`. */
  lemma {:induction false} InsertDescSorted(x: Registration, s: seq<Registration>)
    requires SortedDesc(s)
    ensures SortedDesc(InsertDesc(x, s))
    ensures multiset(InsertDesc(x, s)) == multiset(s) + multiset{x}
  {
    InsertDescPerm(x, s);
    if s == [] {
    } else if x.createdAt >= s[0].createdAt {
      SortedCons(x, s);
    } else {
      var tl := s[1..];
      SortedTail(s);
      InsertDescSorted(x, tl);
      InsertDescPerm(x, tl);
      SortedCons(s[0], InsertDesc(x, tl));
    }
  }

  /** The rows newest first; rows created at the same time keep an order the store chooses. */
  function SortDesc(s: seq<Registration>): (r: seq<Registration>)
    ensures SortedDesc(r)
    ensures multiset(r) == multiset(s)
  {
    if s == [] then []
    else
      assert s == [s[0]] + s[1..];
      InsertDescSorted(s[0], SortDesc(s[1..]));
      InsertDesc(s[0], SortDesc(s[1..]))
  }

  /** `skip`/`take`: at most `take` rows, starting at position `skip`. */
  function Window(s: seq<Registration>, skip: nat, take: nat): (r: seq<Registration>)
    ensures |r| == if skip >= |s| then 0 else if skip + take <= |s| then take else |s| - skip
    ensures forall k | 0 <= k < |r| :: r[k] == s[skip + k]
  {
    if skip >= |s| then [] else s[skip..if skip + take <= |s| then skip + take else |s|]
  }

  /** `Math.ceil(a / b)` for a positive page size. */
  function CeilDiv(a: nat, b: int): (n: nat)
    requires b > 0
    ensures a == 0 ==> n == 0
    ensures a > 0 ==> (n - 1) * b < a <= n * b
  {
    (a + b - 1) / b
  }

  /** `query.page || 1` */
  function EffectivePage(q: ListQuery): int {
    if q.page.None? || q.page.value == 0 then 1 else q.page.value
  }

  /** `query.pageSize || 10` */
  function EffectivePageSize(q: ListQuery): int {
    if q.pageSize.None? || q.pageSize.value == 0 then 10 else q.pageSize.value
  }

  /** The `where` the list builds for a query. */
  function WhereOf(q: ListQuery): Where {
    Where(
      if q.keyword.Some? && q.keyword.value != "" then q.keyword else None,
      if q.attendanceType.Some? && q.attendanceType.value != "" then q.attendanceType else None,
      q.startDate,
      q.endDate)
  }

  /** The engine's filter for the built `where` is the query's filter. */
  lemma WhereOfAdmits(q: ListQuery, r: Registration)
    ensures MatchesWhere(r, WhereOf(q)) <==> Admits(q, r)
  {
  }

  /** With both defaults applied, the store refuses the paging exactly when page or size is negative. */
  lemma SkipSign(page: int, ps: int)
    requires page != 0 && ps != 0
    ensures ((page - 1) * ps < 0 || ps < 0) <==> (page < 1 || ps < 1)
  {
    if page <= -1 && ps >= 1 {
      assert (page - 1) * ps <= -2 * ps;
    }
    if page >= 1 && ps >= 1 {
      assert (page - 1) * ps >= 0;
    }
  }

  /** The rows of the table that the query's filters admit, newest first. */
  function Ordered(rows: seq<Registration>, q: ListQuery): seq<Registration> {
    SortDesc(FilterRows(rows, WhereOf(q)))
  }

  /** Page `page` of `ps` rows of a listing. */
  function PageOf(s: seq<Registration>, page: int, ps: int): seq<Registration>
    requires page >= 1 && ps >= 1
  {
    Window(s, (page - 1) * ps, ps)
  }

  /** Rows of a window are rows of the list, in the list's order. */
  lemma WindowRows(o: seq<Registration>, skip: nat, take: nat)
    ensures var w := Window(o, skip, take);
      && (forall x | x in w :: x in o)
      && (SortedDesc(o) ==> SortedDesc(w))
  {
    var w := Window(o, skip, take);
    forall x | x in w ensures x in o {
      var k :| 0 <= k < |w| && w[k] == x;
      assert x == o[skip + k];
    }
    if SortedDesc(o) {
      forall i, j | 0 <= i < j < |w| ensures w[i].createdAt >= w[j].createdAt {
        assert w[i] == o[skip + i] && w[j] == o[skip + j];
      }
    }
  }

  /** Rows of a page are rows of the listing, in the listing's order. */
  lemma PageRows(o: seq<Registration>, page: int, ps: int)
    requires page >= 1 && ps >= 1
    ensures var p := PageOf(o, page, ps);
      && |p| <= ps
      && (forall x | x in p :: x in o)
      && (SortedDesc(o) ==> SortedDesc(p))
  {
    var skip: nat := (page - 1) * ps;
    WindowRows(o, skip, ps);
  }

  /** The listing holds exactly the rows of the table that the query admits, each as often as the table does. */
  lemma OrderedRows(rows: seq<Registration>, q: ListQuery)
    ensures forall x :: x in Ordered(rows, q) <==> x in rows && Admits(q, x)
    ensures forall x :: multiset(Ordered(rows, q))[x] == if Admits(q, x) then multiset(rows)[x] else 0
    ensures |Ordered(rows, q)| == |FilterRows(rows, WhereOf(q))|
    ensures SortedDesc(Ordered(rows, q))
  {
    var m := FilterRows(rows, WhereOf(q));
    var o := Ordered(rows, q);
    forall x ensures x in o <==> x in rows && Admits(q, x) {
      assert x in o <==> x in multiset(o);
      assert x in m <==> x in multiset(m);
      WhereOfAdmits(q, x);
    }
    forall x ensures multiset(o)[x] == if Admits(q, x) then multiset(rows)[x] else 0 {
      WhereOfAdmits(q, x);
    }
    assert |o| == |multiset(o)| == |multiset(m)| == |m|;
  }

  /**
   * Every listed row satisfies every supplied filter, a page holds at most
   * pageSize rows and is newest first, and `total` counts all matching rows,
   * whatever the page.
   */
  lemma ListedRowsAdmitted(rows: seq<Registration>, q: ListQuery, page: int, ps: int)
    requires page >= 1 && ps >= 1
    ensures var p := PageOf(Ordered(rows, q), page, ps);
      && |p| <= ps
      && (forall x | x in p :: x in rows && Admits(q, x))
      && SortedDesc(p)
    ensures |Ordered(rows, q)| == |FilterRows(rows, WhereOf(q))|
  {
    OrderedRows(rows, q);
    PageRows(Ordered(rows, q), page, ps);
  }

  /** What `findAll` answers for a query: a refused paging, or the page and its figures. */
  function ListResult(rows: seq<Registration>, q: ListQuery): Result<PageResult> {
    var page, ps := EffectivePage(q), EffectivePageSize(q);
    if page < 1 || ps < 1 then Err("invalid skip or take")
    else
      var total := |FilterRows(rows, WhereOf(q))|;
      Ok(PageResult(PageOf(Ordered(rows, q), page, ps), total, page, ps, CeilDiv(total, ps)))
  }

  /**
   * The list contract: page 1 and size 10 stand in for absent or zero
   * values; the paging is refused only for a negative page or size; a page
   * holds at most pageSize rows, newest first, every one admitted by every
   * supplied filter; `total` counts every admitted row whatever the page,
   * and totalPages is the least number of pages that hold them.
   */
  lemma ListResultMeaning(rows: seq<Registration>, q: ListQuery)
    ensures ListResult(rows, q).Err? <==> EffectivePage(q) < 0 || EffectivePageSize(q) < 0
    ensures (q.page.None? || q.page == Some(0)) ==> EffectivePage(q) == 1
    ensures (q.pageSize.None? || q.pageSize == Some(0)) ==> EffectivePageSize(q) == 10
    ensures ListResult(rows, q).Ok? ==>
      var v := ListResult(rows, q).value;
      && v.page == EffectivePage(q) && v.pageSize == EffectivePageSize(q)
      && |v.list| <= v.pageSize
      && SortedDesc(v.list)
      && (forall x | x in v.list :: x in rows && Admits(q, x))
      && v.total == |Ordered(rows, q)|
      && (forall x :: x in Ordered(rows, q) <==> x in rows && Admits(q, x))
      && (forall x :: multiset(Ordered(rows, q))[x] == if Admits(q, x) then multiset(rows)[x] else 0)
      && (v.total == 0 ==> v.totalPages == 0)
      && (v.total > 0 ==> (v.totalPages - 1) * v.pageSize < v.total <= v.totalPages * v.pageSize)
  {
    var page, ps := EffectivePage(q), EffectivePageSize(q);
    if page >= 1 && ps >= 1 {
      ListedRowsAdmitted(rows, q, page, ps);
      OrderedRows(rows, q);
    }
  }

  /** The first page of 10 holds the ten newest admitted rows; 15 rows make 2 pages. */
  lemma FirstPageNewest(rows: seq<Registration>, q: ListQuery)
    requires q.page.None? && q.pageSize.None? && |Ordered(rows, q)| == 15
    ensures ListResult(rows, q).Ok?
    ensures ListResult(rows, q).value.list == Ordered(rows, q)[..10]
    ensures ListResult(rows, q).value.total == 15 && ListResult(rows, q).value.totalPages == 2
  {
    OrderedRows(rows, q);
  }

  /** The first `n` pages, one after another. */
  function Pages(s: seq<Registration>, ps: int, n: nat): seq<Registration>
    requires ps >= 1
  {
    if n == 0 then [] else Pages(s, ps, n - 1) + PageOf(s, n, ps)
  }

  /** The rows before position `a`, then the window at `a`, are the rows before `a + take`. */
  lemma WindowExtends(s: seq<Registration>, a: nat, take: nat)
    ensures s[..if a <= |s| then a else |s|] + Window(s, a, take)
         == s[..if a + take <= |s| then a + take else |s|]
  {
    var lo := if a <= |s| then a else |s|;
    var hi := if a + take <= |s| then a + take else |s|;
    assert s[..hi] == s[..lo] + s[lo..hi];
  }

  lemma MulPred(n: nat, ps: int)
    requires n > 0
    ensures (n - 1) * ps == n * ps - ps
  {
  }

  /** Pages 1..n end at position `e`, the n-th multiple of the page size. */
  lemma {:induction false} PagesPrefixAt(s: seq<Registration>, ps: int, n: nat, e: nat)
    requires ps >= 1 && e == n * ps
    ensures Pages(s, ps, n) == s[..if e <= |s| then e else |s|]
  {
    if n > 0 {
      MulPred(n, ps);
      var a: nat := (n - 1) * ps;
      PagesPrefixAt(s, ps, n - 1, a);
      WindowExtends(s, a, ps);
    }
  }

  lemma PagesPrefix(s: seq<Registration>, ps: int, n: nat)
    requires ps >= 1
    ensures Pages(s, ps, n) == s[..if n * ps <= |s| then n * ps else |s|]
  {
    PagesPrefixAt(s, ps, n, n * ps);
  }

  /**
   * Offset paging neither repeats nor skips a row: pages 1..totalPages laid
   * end to end give back the whole ordered listing.
   */
  lemma PagesCoverListing(s: seq<Registration>, ps: int)
    requires ps >= 1
    ensures Pages(s, ps, CeilDiv(|s|, ps)) == s
  {
    PagesPrefix(s, ps, CeilDiv(|s|, ps));
  }

  // ---------------------------------------------------------------------
  // Statistics

  const DayMillis: int := 24 * 60 * 60 * 1000

  /** `count({where: {attendanceType: t}})` */
  function CountType(rows: seq<Registration>, t: string): (n: nat)
    ensures n <= |rows|
  {
    if rows == [] then 0 else (if rows[0].fields.attendanceType == t then 1 else 0) + CountType(rows[1..], t)
  }

  /** `count({where: {createdAt: {gte: from}}})` */
  function CountSince(rows: seq<Registration>, from: int): (n: nat)
    ensures n <= |rows|
  {
    if rows == [] then 0 else (if rows[0].createdAt >= from then 1 else 0) + CountSince(rows[1..], from)
  }

  /** The sum of `plusOnesCount` over the table; 0 for an empty one. */
  function SumPlusOnes(rows: seq<Registration>): int {
    if rows == [] then 0 else rows[0].fields.plusOnesCount + SumPlusOnes(rows[1..])
  }

  /** `getStatistics()` on the table at time `now`. */
  function StatisticsOf(rows: seq<Registration>, now: int): Statistics {
    Statistics(
      |rows|,
      CountType(rows, "option1"),
      CountType(rows, "option2"),
      CountType(rows, "option3"),
      SumPlusOnes(rows),
      CountSince(rows, now - 7 * DayMillis))
  }

  /** A row has one attendance type, so the three counts together never exceed the total. */
  lemma {:induction false} OptionCountsWithinTotal(rows: seq<Registration>)
    ensures CountType(rows, "option1") + CountType(rows, "option2") + CountType(rows, "option3") <= |rows|
  {
    if rows != [] {
      OptionCountsWithinTotal(rows[1..]);
    }
  }

  /** The figures of the statistics, as the dashboard reads them. */
  lemma StatisticsFigures(rows: seq<Registration>, now: int)
    ensures var st := StatisticsOf(rows, now);
      && st.total == |rows|
      && st.option1Count + st.option2Count + st.option3Count <= st.total
      && st.recentRegistrations <= st.total
      && (rows == [] ==> st.totalPlusOnes == 0 && st.recentRegistrations == 0)
  {
    OptionCountsWithinTotal(rows);
  }

  lemma {:induction false} CountsAppend(rows: seq<Registration>, r: Registration, t: string, from: int)
    ensures CountType(rows + [r], t) == CountType(rows, t) + (if r.fields.attendanceType == t then 1 else 0)
    ensures CountSince(rows + [r], from) == CountSince(rows, from) + (if r.createdAt >= from then 1 else 0)
    ensures SumPlusOnes(rows + [r]) == SumPlusOnes(rows) + r.fields.plusOnesCount
  {
    if rows == [] {
      assert ([] + [r])[1..] == [];
    } else {
      assert (rows + [r])[1..] == rows[1..] + [r];
      CountsAppend(rows[1..], r, t, from);
    }
  }

  /** One insert of a fresh registration adds one to the total, its type's count and the recent count. */
  lemma StatisticsAfterCreate(rows: seq<Registration>, id: int, input: RegistrationInput, now: int)
    requires input.fields.attendanceType == "option2"
    ensures var before, after := StatisticsOf(rows, now), StatisticsOf(rows + [NewRow(id, input, now)], now);
      && after.total == before.total + 1
      && after.option1Count == before.option1Count
      && after.option2Count == before.option2Count + 1
      && after.option3Count == before.option3Count
      && after.totalPlusOnes == before.totalPlusOnes + input.fields.plusOnesCount
      && after.recentRegistrations == before.recentRegistrations + 1
  {
    var r := NewRow(id, input, now);
    CountsAppend(rows, r, "option1", now - 7 * DayMillis);
    CountsAppend(rows, r, "option2", now - 7 * DayMillis);
    CountsAppend(rows, r, "option3", now - 7 * DayMillis);
  }

  // ---------------------------------------------------------------------
  // The service

  /** `RegistrationService` over an in-memory table; ids come from an auto-increment counter. */
  class RegistrationService {
    var rows: seq<Registration>
    var nextId: int

    ghost predicate Valid()
      reads this
    {
      && nextId >= 1
      && IdsIncreasing(rows)
      && forall i | 0 <= i < |rows| :: 1 <= rows[i].id < nextId
    }

    constructor ()
      ensures Valid() && rows == [] && nextId == 1
    {
      rows := [];
      nextId := 1;
    }

    /** `create`: appends the submitted registration under the next id. */
    method Create(input: RegistrationInput, now: int) returns (row: Registration)
      requires Valid()
      modifies this
      ensures Valid()
      ensures row == NewRow(old(nextId), input, now)
      ensures rows == old(rows) + [row] && nextId == old(nextId) + 1
    {
      row := NewRow(nextId, input, now);
      rows := rows + [row];
      nextId := nextId + 1;
    }

    /** `findAll`: builds `where` key by key, then counts, orders, skips and takes. */
    method FindAll(q: ListQuery) returns (r: Result<PageResult>)
      ensures r == ListResult(rows, q)
    {
      var page := if q.page.None? || q.page.value == 0 then 1 else q.page.value;
      var pageSize := if q.pageSize.None? || q.pageSize.value == 0 then 10 else q.pageSize.value;
      var skip := (page - 1) * pageSize;

      var where := Where(None, None, None, None);
      if q.keyword.Some? && q.keyword.value != "" {
        where := where.(keyword := q.keyword);
      }
      if q.attendanceType.Some? && q.attendanceType.value != "" {
        where := where.(attendanceType := q.attendanceType);
      }
      if q.startDate.Some? || q.endDate.Some? {
        if q.startDate.Some? {
          where := where.(gte := q.startDate);
        }
        if q.endDate.Some? {
          where := where.(lte := q.endDate);
        }
      }

      SkipSign(page, pageSize);
      if skip < 0 || pageSize < 0 {
        return Err("invalid skip or take");
      }
      var matching := FilterRows(rows, where);
      var list := Window(SortDesc(matching), skip, pageSize);
      var total := |matching|;
      r := Ok(PageResult(list, total, page, pageSize, CeilDiv(total, pageSize)));
    }

    /** `findById`: the stored row, or none. */
    method FindById(id: int) returns (r: Option<Registration>)
      ensures r == Lookup(rows, id)
    {
      r := Lookup(rows, id);
    }

    /** `update`: patches the row of that id; an absent id fails and changes nothing. */
    method Update(id: int, p: Patch, now: int) returns (r: Result<Registration>)
      requires Valid()
      modifies this
      ensures Valid() && nextId == old(nextId)
      ensures r.Err? <==> Lookup(old(rows), id).None?
      ensures r.Err? ==> rows == old(rows)
      ensures r.Ok? ==>
        && r.value == ApplyPatch(Lookup(old(rows), id).value, p, now)
        && rows == UpdateId(old(rows), id, p, now)
    {
      var found := Lookup(rows, id);
      if found.None? {
        return Err("Record to update not found.");
      }
      var u := UpdateId(rows, id, p, now);
      forall k | 0 <= k < |rows| ensures u[k].id == rows[k].id {
        UpdateIdAt(rows, id, p, now, k);
      }
      rows := u;
      r := Ok(ApplyPatch(found.value, p, now));
    }

    /** `delete`: removes the row of that id; an absent id fails and changes nothing. */
    method Delete(id: int) returns (r: Result<Registration>)
      requires Valid()
      modifies this
      ensures Valid() && nextId == old(nextId)
      ensures r.Err? <==> Lookup(old(rows), id).None?
      ensures r.Err? ==> rows == old(rows)
      ensures r.Ok? ==> r.value == Lookup(old(rows), id).value && rows == RemoveId(old(rows), id)
    {
      var found := Lookup(rows, id);
      if found.None? {
        return Err("Record to delete does not exist.");
      }
      RemoveKeepsIdsIncreasing(rows, id);
      rows := RemoveId(rows, id);
      r := Ok(found.value);
    }

    /** `getStatistics`: the aggregate figures at time `now`. */
    method GetStatistics(now: int) returns (st: Statistics)
      ensures st == StatisticsOf(rows, now)
    {
      var total := |rows|;
      var option1Count := CountType(rows, "option1");
      var option2Count := CountType(rows, "option2");
      var option3Count := CountType(rows, "option3");
      var plusOnes: Option<int> := if rows == [] then None else Some(SumPlusOnes(rows));
      var sevenDaysAgo := now - 7 * DayMillis;
      var recent := CountSince(rows, sevenDaysAgo);
      st := Statistics(total, option1Count, option2Count, option3Count, plusOnes.GetOr(0), recent);
    }

    /** `checkIdCardExists`: some stored row carries this ID card. */
    method CheckIdCardExists(idCard: string) returns (b: bool)
      ensures b <==> exists i | 0 <= i < |rows| :: rows[i].fields.idCard == idCard
    {
      var count := CountIdCard(rows, idCard);
      b := count > 0;
    }
  }
}
