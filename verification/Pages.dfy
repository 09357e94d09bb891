/** The pages of the disputes list (internal/api/store.go) and of the decision
    history (internal/api/decisions.go). */
module Pages {
  import opened Common
  import opened Listings
  import opened Filters

  // ---------------------------------------------------------------- the query

  datatype Dispute = Dispute(
    id: nat, merchant: nat, transaction: nat, reference: string, kind: string, state: string, network: string,
    reason: string, amount: int, currency: string, openedAt: int, deadlineAt: int)

  datatype MerchantRow = MerchantRow(externalId: string, name: string)

  datatype Db = Db(disputes: set<Dispute>, merchants: map<nat, MerchantRow>, transactions: map<nat, string>) {
    /** Primary key and foreign keys. */
    ghost predicate Valid() {
      && (forall d, e | d in disputes && e in disputes && d.id == e.id :: d == e)
      && (forall d | d in disputes :: d.merchant in merchants && d.transaction in transactions)
    }
  }

  datatype Sort = ByOpenedAt | ByDeadlineAt | ByAmount | ByState | ByMerchant | ByKind

  /** The inner joins: a dispute without a partner drops out. */
  function Joined(db: Db, transactions: bool): set<Dispute> {
    set d | d in db.disputes && d.merchant in db.merchants && (transactions ==> d.transaction in db.transactions)
  }

  function Cells(db: Db, d: Dispute, transactions: bool): Row
    requires d in Joined(db, transactions)
  {
    var own := map[
      Merchant := Text(db.merchants[d.merchant].externalId), State := Text(d.state), Kind := Text(d.kind),
      Network := Text(d.network), Reason := Text(d.reason), Currency := Text(d.currency), Amount := Number(d.amount),
      OpenedAt := Number(d.openedAt), DeadlineAt := Number(d.deadlineAt), Reference := Text(d.reference)];
    Row(if transactions then own[TransactionRef := Text(db.transactions[d.transaction])] else own)
  }

  function Selected(db: Db, f: Filters, now: int, transactions: bool): set<Dispute> {
    set d | d in Joined(db, transactions) && Wanted(f, now, Cells(db, d, transactions))
  }

  /** A collation places texts on a line; different texts may share a place. */
  function Key(db: Db, sort: Sort, collate: string -> real, d: Dispute): real {
    match sort
    case ByOpenedAt => d.openedAt as real
    case ByDeadlineAt => d.deadlineAt as real
    case ByAmount => d.amount as real
    case ByState => collate(d.state)
    case ByMerchant => if d.merchant in db.merchants then collate(db.merchants[d.merchant].name) else 0.0
    case ByKind => collate(d.kind)
  }

  /** ORDER BY key, d.id, both in the same direction. */
  function OrderBy(db: Db, sort: Sort, desc: bool, collate: string -> real): (Dispute, Dispute) -> bool {
    (a: Dispute, b: Dispute) =>
      var p, q := Key(db, sort, collate, a), Key(db, sort, collate, b);
      if desc then p > q || (p == q && a.id > b.id) else p < q || (p == q && a.id < b.id)
  }

  lemma OrderIsStrict(db: Db, sort: Sort, desc: bool, collate: string -> real)
    requires db.Valid()
    ensures StrictOrder(OrderBy(db, sort, desc, collate))
    ensures TieFree(OrderBy(db, sort, desc, collate), db.disputes)
  {
  }

  predicate InOrder(desc: bool, p: real, q: real, i: nat, j: nat) {
    if desc then p > q || (p == q && i > j) else p < q || (p == q && i < j)
  }

  /** Of two rows of a listing the earlier one comes first in the column that is
      sorted by, and by identity where they agree in it. */
  lemma ListedInOrder(db: Db, sort: Sort, desc: bool, collate: string -> real, xs: seq<Dispute>, i: nat, j: nat)
    requires db.Valid() && i < j < |xs|
    requires Lists(OrderBy(db, sort, desc, collate), xs, set x | x in xs) && forall x | x in xs :: x in db.disputes
    ensures var a, b := xs[i], xs[j];
            && (sort == ByOpenedAt ==> InOrder(desc, a.openedAt as real, b.openedAt as real, a.id, b.id))
            && (sort == ByDeadlineAt ==> InOrder(desc, a.deadlineAt as real, b.deadlineAt as real, a.id, b.id))
            && (sort == ByAmount ==> InOrder(desc, a.amount as real, b.amount as real, a.id, b.id))
            && (sort == ByState ==> InOrder(desc, collate(a.state), collate(b.state), a.id, b.id))
            && (sort == ByKind ==> InOrder(desc, collate(a.kind), collate(b.kind), a.id, b.id))
            && (sort == ByMerchant ==>
                  a.merchant in db.merchants && b.merchant in db.merchants &&
                  InOrder(desc, collate(db.merchants[a.merchant].name), collate(db.merchants[b.merchant].name), a.id, b.id))
  {
    var a, b := xs[i], xs[j];
    assert a in xs && b in xs;
    assert a != b && !OrderBy(db, sort, desc, collate)(b, a);
  }

  predicate Chosen(wanted: seq<string>, s: string) { wanted == [] || s in wanted }

  predicate Between(lo: Option<int>, hi: Option<int>, n: int) {
    (lo.Some? ==> lo.value <= n) && (hi.Some? ==> n <= hi.value)
  }

  /** Which disputes a query selects, in terms of the disputes themselves. */
  lemma SelectedIff(db: Db, f: Filters, now: int, d: Dispute)
    requires db.Valid() && d in db.disputes
    ensures d in Selected(db, f, now, true) <==>
            && Chosen(f.merchants, db.merchants[d.merchant].externalId) && Chosen(f.states, d.state) && Chosen(f.kinds, d.kind)
            && Chosen(f.networks, d.network) && Chosen(f.reasons, d.reason)
            && (f.currency != "" ==> d.currency == f.currency)
            && Between(f.minAmount, f.maxAmount, d.amount)
            && Between(f.openedFrom, None, d.openedAt) && (f.openedTo.Some? ==> d.openedAt < f.openedTo.value)
            && (f.openOnly ==> d.state == "received" || d.state == "resolving")
            && (f.dueWithin.Some? ==>
                  (d.state == "received" || d.state == "resolving") && d.deadlineAt - now <= f.dueWithin.value)
            && (f.search != "" ==>
                  Like(d.reference, f.search + "%") || Like(db.transactions[d.transaction], f.search + "%"))
  {
    var row := Cells(db, d, true);
    assert OfParty(f, row) == (Chosen(f.merchants, db.merchants[d.merchant].externalId) && Chosen(f.states, d.state) &&
                               Chosen(f.kinds, d.kind));
    assert OfCard(f, row) == (Chosen(f.networks, d.network) && Chosen(f.reasons, d.reason));
  }

  /** Leaving the transactions join out when there is no search selects the
      same disputes, hence also the same count. */
  lemma JoinIsNotNeeded(db: Db, f: Filters, now: int)
    requires db.Valid()
    ensures Selected(db, f, now, f.search != "") == Selected(db, f, now, true)
  {
    if f.search == "" {
      assert Joined(db, false) == Joined(db, true);
      forall d | d in Joined(db, true)
        ensures Wanted(f, now, Cells(db, d, false)) == Wanted(f, now, Cells(db, d, true))
      {
        SameWithoutReference(f, now, Cells(db, d, false), Text(db.transactions[d.transaction]));
      }
    }
  }

  lemma SameWithoutReference(f: Filters, now: int, row: Row, reference: Value)
    requires f.search == ""
    ensures Wanted(f, now, row) == Wanted(f, now, Row(row.cells[TransactionRef := reference]))
  {
    var z := Row(row.cells[TransactionRef := reference]);
    assert forall c: Column | c != TransactionRef :: z.Get(c) == row.Get(c);
    assert OfParty(f, row) == OfParty(f, z) && OfCard(f, row) == OfCard(f, z);
  }

  function Ids(ds: seq<Dispute>): set<nat> { set d | d in ds :: d.id }

  /** Joining the ids of some selected disputes out gives those disputes. */
  lemma JoinedBack(db: Db, f: Filters, now: int, page: seq<Dispute>)
    requires db.Valid() && forall d | d in page :: d in Selected(db, f, now, true)
    ensures (set d | d in Joined(db, true) && d.id in Ids(page)) == set d | d in page
  {
    var rows := set d | d in Joined(db, true) && d.id in Ids(page);
    forall d | d in rows
      ensures d in page
    {
      var e :| e in page && e.id == d.id;
      assert e in Selected(db, f, now, true);
    }
    forall d | d in page
      ensures d in rows
    {
      assert d in Selected(db, f, now, true);
    }
  }

  /** The two-stage page: find the ids of one page in the scan, join those rows
      out, and sort again. It is the page of the flat query. */
  lemma TwoStageIsFlat(db: Db, f: Filters, now: int, sort: Sort, desc: bool, collate: string -> real, limit: nat, offset: nat,
                       inner: seq<Dispute>, outer: seq<Dispute>, flat: seq<Dispute>)
    requires db.Valid()
    requires Lists(OrderBy(db, sort, desc, collate), flat, Selected(db, f, now, true))
    requires Lists(OrderBy(db, sort, desc, collate), inner, Selected(db, f, now, f.search != ""))
    requires var page := Ids(Slice(inner, offset, limit));
             Lists(OrderBy(db, sort, desc, collate), outer, set d | d in Joined(db, true) && d.id in page)
    ensures outer == Slice(flat, offset, limit)
  {
    var before := OrderBy(db, sort, desc, collate);
    OrderIsStrict(db, sort, desc, collate);
    JoinIsNotNeeded(db, f, now);
    OneListing(before, inner, flat, Selected(db, f, now, true));
    var page := Slice(flat, offset, limit);
    SliceLists(before, flat, Selected(db, f, now, true), offset, limit);
    forall d | d in page
      ensures d in Selected(db, f, now, true)
    {
      assert d in flat;
    }
    JoinedBack(db, f, now, page);
    OneListing(before, outer, page, set d | d in page);
  }

  /** The count query, which runs beside the page query and may read another
      state of the tables: the length of the flat list of the state it reads. */
  lemma CountIsFlatLength(db: Db, f: Filters, now: int, sort: Sort, desc: bool, collate: string -> real, flat: seq<Dispute>)
    requires db.Valid() && Lists(OrderBy(db, sort, desc, collate), flat, Selected(db, f, now, true))
    ensures |Selected(db, f, now, f.search != "")| == |flat|
  {
    JoinIsNotNeeded(db, f, now);
    ListingCounts(OrderBy(db, sort, desc, collate), flat, Selected(db, f, now, true));
  }

  // --------------------------------------------------------- successive pages

  /** The replies to the two stages of one page query. */
  datatype Reply = Reply(inner: seq<Dispute>, outer: seq<Dispute>)

  ghost predicate Replies(db: Db, f: Filters, now: int, sort: Sort, desc: bool, collate: string -> real,
                          limit: nat, offset: nat, r: Reply)
  {
    var before := OrderBy(db, sort, desc, collate);
    && Lists(before, r.inner, Selected(db, f, now, f.search != ""))
    && Lists(before, r.outer, set d | d in Joined(db, true) && d.id in Ids(Slice(r.inner, offset, limit)))
  }

  /** What n page queries showed, one after the other. */
  function Shown(replies: seq<Reply>): seq<Dispute> {
    if replies == [] then [] else Shown(replies[..|replies| - 1]) + replies[|replies| - 1].outer
  }

  lemma {:induction false} ShownIsFirstPages(flat: seq<Dispute>, limit: nat, replies: seq<Reply>)
    requires forall k | 0 <= k < |replies| :: replies[k].outer == PageAt(flat, limit, k)
    ensures Shown(replies) == FirstPages(flat, limit, |replies|)
  {
    if replies != [] {
      ShownIsFirstPages(flat, limit, replies[..|replies| - 1]);
    }
  }

  /** Paging through the disputes, each page fetched by its own two-stage query
      with replies of its own, shows the whole flat listing in order and each
      selected dispute on exactly one page. */
  lemma PagesPartition(db: Db, f: Filters, now: int, sort: Sort, desc: bool, collate: string -> real, limit: nat,
                       replies: seq<Reply>, flat: seq<Dispute>, d: Dispute) returns (p: nat)
    requires db.Valid() && d in Selected(db, f, now, true)
    requires Lists(OrderBy(db, sort, desc, collate), flat, Selected(db, f, now, true))
    requires forall k | 0 <= k < |replies| :: Replies(db, f, now, sort, desc, collate, limit, Offset(limit, k), replies[k])
    requires Offset(limit, |replies|) >= |flat|
    ensures Shown(replies) == flat
    ensures p < |replies| && forall k | 0 <= k < |replies| :: d in replies[k].outer <==> k == p
  {
    forall k | 0 <= k < |replies|
      ensures replies[k].outer == PageAt(flat, limit, k)
    {
      assert Replies(db, f, now, sort, desc, collate, limit, Offset(limit, k), replies[k]);
      TwoStageIsFlat(db, f, now, sort, desc, collate, limit, Offset(limit, k), replies[k].inner, replies[k].outer, flat);
    }
    ShownIsFirstPages(flat, limit, replies);
    p := EveryRowOnOnePage(OrderBy(db, sort, desc, collate), flat, Selected(db, f, now, true), limit, |replies|, d);
  }

  // ------------------------------------------------------ the decision history

  /** A run as the history's query sees it. */
  datatype Decision = Decision(runId: nat, reviewedAt: int, row: Row)

  function Decided(runs: set<Decision>, f: DecisionFilters): set<Decision> {
    set d | d in runs && DecisionWanted(f, d.row)
  }

  /** Which runs the history selects. */
  lemma DecidedIff(runs: set<Decision>, f: DecisionFilters, d: Decision)
    requires d in runs
    ensures d in Decided(runs, f) <==>
            && Review in d.row.cells && d.row.cells[Review] != Null
            && (f.reviewer != "" ==> d.row.Get(ReviewedBy) == Text(f.reviewer))
            && (f.decision != "" ==> d.row.cells[Review] == Text(f.decision))
            && (f.onlyOverrides ==> d.row.Get(Outcome) == Text("rejected") && d.row.cells[Review] == Text("submitted"))
  {
  }

  /** ORDER BY a.reviewed_at DESC, and nothing behind it. */
  function LatestFirst(): (Decision, Decision) -> bool {
    (a: Decision, b: Decision) => a.reviewedAt > b.reviewedAt
  }

  /** The latest decision comes first, and none comes before a later one. */
  lemma NewestFirst(xs: seq<Decision>, rows: set<Decision>, i: nat, j: nat)
    requires Lists(LatestFirst(), xs, rows) && i < j < |xs|
    ensures xs[i].reviewedAt >= xs[j].reviewedAt
  {
    assert !LatestFirst()(xs[j], xs[i]);
  }

  lemma LatestFirstIsWeak()
    ensures WeakOrder(LatestFirst())
  {
  }

  /** Two replies agree if and only if no two decisions were made at the same
      instant. */
  lemma DecisionRepliesAgreeIff(runs: set<Decision>, f: DecisionFilters, xs: seq<Decision>)
    requires Lists(LatestFirst(), xs, Decided(runs, f))
    ensures (forall ys :: Lists(LatestFirst(), ys, Decided(runs, f)) ==> ys == xs) <==>
            forall a, b | a in Decided(runs, f) && b in Decided(runs, f) && a != b :: a.reviewedAt != b.reviewedAt
  {
    LatestFirstIsWeak();
    ListingIsUniqueIff(LatestFirst(), xs, Decided(runs, f));
  }

  /** Two decisions of the same instant meet at the start of page k. */
  predicate SplitAt(xs: seq<Decision>, limit: nat, k: nat) {
    var m := Offset(limit, k);
    0 < m < |xs| && xs[m - 1].reviewedAt == xs[m].reviewedAt
  }

  lemma SplitIsNoCut(xs: seq<Decision>, rows: set<Decision>, limit: nat, k: nat)
    requires Lists(LatestFirst(), xs, rows)
    ensures Cut(LatestFirst(), xs, Offset(limit, k)) <==> !SplitAt(xs, limit, k)
  {
    var m := Offset(limit, k);
    if 0 < m < |xs| {
      assert !LatestFirst()(xs[m], xs[m - 1]);
    }
  }

  /** Pages fetched one by one show the same decisions whatever the replies, and
      so each decision exactly once, if and only if no two of the same instant
      meet at the boundary of two pages. */
  lemma DecisionPagesAreStableIff(runs: set<Decision>, f: DecisionFilters, xs: seq<Decision>, limit: nat)
    requires Lists(LatestFirst(), xs, Decided(runs, f)) && limit > 0
    ensures (forall ys, k: nat :: Lists(LatestFirst(), ys, Decided(runs, f)) ==>
               Members(PageAt(ys, limit, k)) == Members(PageAt(xs, limit, k)))
            <==> forall k: nat :: !SplitAt(xs, limit, k)
  {
    LatestFirstIsWeak();
    PagesAreFixedIff(LatestFirst(), xs, Decided(runs, f), limit);
    forall k: nat
      ensures Cut(LatestFirst(), xs, Offset(limit, k)) <==> !SplitAt(xs, limit, k)
    {
      SplitIsNoCut(xs, Decided(runs, f), limit, k);
    }
  }

  /** Two decisions of one instant, one to a page: the first page and the
      second, fetched by two queries, may both show the one and neither the
      other. */
  lemma OneDecisionTwiceTheOtherNever(at: int)
    ensures var row := Row(map[Review := Text("submitted")]);
            var a, b := Decision(1, at, row), Decision(2, at, row);
            var rows := Decided({a, b}, DecisionFilters("", "", false));
            && Lists(LatestFirst(), [a, b], rows) && Lists(LatestFirst(), [b, a], rows)
            && PageAt([a, b], 1, 0) == [a] && PageAt([b, a], 1, 1) == [a]
  {
    assert Offset(1, 1) == 1;
  }
}
