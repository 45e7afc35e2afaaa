/** The lot table of src/components/LotList.tsx (search, status and handler
    filters, then an optional row limit) and the transaction history of
    src/components/LotTransactionHistory.tsx (newest first). */
module LotList {
  import opened Wrappers
  import opened Seqs
  import opened Text
  import opened Lots

  /** `LotFilter.status`; an absent status behaves as `All`. */
  datatype StatusFilter = All | ActiveOnly | CompletedOnly

  /** The search box, the filter state and the `limit` property. An absent or
      empty handler filter keeps every handler. */
  datatype LotQuery = LotQuery(term: string, status: StatusFilter, handler: Option<string>, limit: Option<int>)

  /** Lines 39-41: with a non-empty term, the lower-cased lot number, source
      or handler must contain the lower-cased term. */
  predicate MatchesTerm(term: string, lot: Lot)
  {
    term == []
    || Contains(Lower(lot.lotId), Lower(term))
    || Contains(Lower(lot.source), Lower(term))
    || Contains(Lower(lot.handler), Lower(term))
  }

  /** Lines 46-51. */
  predicate MatchesStatus(status: StatusFilter, lot: Lot)
  {
    match status
    case All => true
    case ActiveOnly => lot.remainingCarats > 0.0
    case CompletedOnly => lot.remainingCarats <= 0.0
  }

  /** Lines 54-56: a non-empty handler filter demands that exact handler. */
  predicate MatchesHandler(handler: Option<string>, lot: Lot)
  {
    handler.None? || handler.value == [] || lot.handler == handler.value
  }

  predicate Keep(q: LotQuery, lot: Lot)
  {
    MatchesTerm(q.term, lot) && MatchesStatus(q.status, lot) && MatchesHandler(q.handler, lot)
  }

  /** `slice(0, limit || undefined)`: an absent or zero limit keeps the whole
      list; a positive one keeps at most that many rows from the front; a
      negative one drops that many rows from the end. */
  function Limit<T>(s: seq<T>, limit: Option<int>): (r: seq<T>)
    ensures |r| <= |s| && r == s[..|r|]
    ensures limit.None? || limit.value == 0 ==> r == s
    ensures limit.Some? && limit.value > 0 ==> |r| == if limit.value < |s| then limit.value else |s|
    ensures limit.Some? && limit.value < 0 ==> |r| == if |s| + limit.value > 0 then |s| + limit.value else 0
  {
    if limit.None? || limit.value == 0 then s
    else if limit.value > 0 then (if limit.value < |s| then s[..limit.value] else s)
    else if |s| + limit.value > 0 then s[..|s| + limit.value]
    else []
  }

  /** `filteredLots`. */
  function FilterLots(lots: seq<Lot>, q: LotQuery): (r: seq<Lot>)
  {
    Limit(Filter(lots, (l: Lot) => Keep(q, l)), q.limit)
  }

  /** Every row shown passes all three filters, the rows keep the order of
      the list, and a positive limit bounds their number. */
  lemma FilterLotsSound(lots: seq<Lot>, q: LotQuery)
    ensures var r := FilterLots(lots, q);
      && (forall k :: 0 <= k < |r| ==> Keep(q, r[k]) && r[k] in lots)
      && IsSubsequence(r, lots)
      && (q.limit.Some? && q.limit.value > 0 ==> |r| <= q.limit.value)
  {
    var f := Filter(lots, (l: Lot) => Keep(q, l));
    FilterIsSubsequence(lots, (l: Lot) => Keep(q, l));
    PrefixOfSubsequence(FilterLots(lots, q), f, lots);
  }

  /** Without a limit, every lot that passes the filters is shown. */
  lemma FilterLotsComplete(lots: seq<Lot>, q: LotQuery, k: nat)
    requires q.limit.None? || q.limit.value == 0
    requires k < |lots| && Keep(q, lots[k])
    ensures lots[k] in FilterLots(lots, q)
  {
  }

  /** An empty search, no status and no handler filter, and no limit, show every lot. */
  lemma EmptyQueryKeepsEverything(lots: seq<Lot>)
    ensures FilterLots(lots, LotQuery([], All, None, None)) == lots
  {
    FilterAllPass(lots, (l: Lot) => Keep(LotQuery([], All, None, None), l));
  }

  /** A prefix of a subsequence is a subsequence. */
  lemma {:induction false} PrefixOfSubsequence<T>(p: seq<T>, a: seq<T>, b: seq<T>)
    requires |p| <= |a| && p == a[..|p|] && IsSubsequence(a, b)
    ensures IsSubsequence(p, b)
    decreases |b|
  {
    if p != [] {
      if a[0] == b[0] && IsSubsequence(a[1..], b[1..]) {
        assert p[1..] == a[1..][..|p| - 1];
        PrefixOfSubsequence(p[1..], a[1..], b[1..]);
        assert p[0] == b[0];
      } else {
        PrefixOfSubsequence(p, a, b[1..]);
      }
    }
  }

  /** With the same search and handler, the Active and Completed views split
      the lots between them: each matching lot appears in exactly one. */
  lemma ActiveCompletedPartition(lots: seq<Lot>, term: string, handler: Option<string>)
    ensures var all := FilterLots(lots, LotQuery(term, All, handler, None));
      var active := FilterLots(lots, LotQuery(term, ActiveOnly, handler, None));
      var completed := FilterLots(lots, LotQuery(term, CompletedOnly, handler, None));
      multiset(active) + multiset(completed) == multiset(all) && |active| + |completed| == |all|
  {
    var all := Filter(lots, (l: Lot) => Keep(LotQuery(term, All, handler, None), l));
    var pa := (l: Lot) => Keep(LotQuery(term, ActiveOnly, handler, None), l);
    var pc := (l: Lot) => Keep(LotQuery(term, CompletedOnly, handler, None), l);
    FilterPartition(all, pa, pc);
    FilterOfFilter(lots, (l: Lot) => Keep(LotQuery(term, All, handler, None), l), pa);
    FilterOfFilter(lots, (l: Lot) => Keep(LotQuery(term, All, handler, None), l), pc);
  }

  /** Filtering by a stricter test after a weaker one is filtering by the stricter one. */
  lemma {:induction false} FilterOfFilter<T>(s: seq<T>, weak: T -> bool, strong: T -> bool)
    requires forall x :: strong(x) ==> weak(x)
    ensures Filter(Filter(s, weak), strong) == Filter(s, strong)
  {
    if s != [] {
      FilterOfFilter(s[1..], weak, strong);
    }
  }

  /** What the history panel shows. */
  datatype HistoryView = EmptyMessage | Rows(rows: seq<LotTransaction>)

  function NegDate(t: LotTransaction): real { -(t.date as real) }

  /** `LotTransactionHistory`: the empty message for no transactions,
      otherwise a sorted copy of the list, newest first. */
  function History(ts: seq<LotTransaction>): (v: HistoryView)
    ensures v.EmptyMessage? <==> ts == []
    ensures v.Rows? ==>
      && multiset(v.rows) == multiset(ts) && |v.rows| == |ts|
      && forall i, j :: 0 <= i < j < |v.rows| ==> v.rows[i].date >= v.rows[j].date
  {
    if ts == [] then EmptyMessage
    else
      var rows := SortBy(ts, NegDate);
      assert forall i, j :: 0 <= i < j < |rows| ==> NegDate(rows[i]) <= NegDate(rows[j]);
      Rows(rows)
  }

  /** Every transaction of the lot is listed in the history, and nothing else. */
  lemma HistoryListsEveryTransaction(ts: seq<LotTransaction>, t: LotTransaction)
    requires ts != []
    ensures t in History(ts).rows <==> t in ts
  {
    var rows := History(ts).rows;
    assert t in rows <==> t in multiset(rows);
    assert t in ts <==> t in multiset(ts);
  }
}
