/** The diamond-lot carat ledger: src/types/lot.ts, the bookkeeping of
    src/data/mockLots.ts, the transaction handler and status badge of
    src/components/LotDetail.tsx, and the two entry forms
    src/components/AddLotTransactionForm.tsx and src/components/AddLotForm.tsx.

    Transaction dates are calendar days written as the integer yyyymmdd,
    which orders them as the ISO strings the source stores; the lot's own
    timestamps are only stored and shown, so they stay strings. */
module Lots {
  import opened Wrappers
  import opened Seqs
  import opened Text

  datatype TxKind = Sale | Return | Transfer

  /** `LotTransaction`. */
  datatype LotTransaction = LotTransaction(
    id: string,
    lotId: string,
    kind: TxKind,
    date: int,
    carats: real,
    handler: string,
    customer: Option<string>,
    price: Option<real>,
    notes: Option<string>)

  /** `DiamondLot`. */
  datatype Lot = Lot(
    id: string,
    lotId: string,
    totalCarats: real,
    remainingCarats: real,
    dateReceived: string,
    source: string,
    initialValue: real,
    handler: string,
    notes: Option<string>,
    lastModified: string,
    transactions: seq<LotTransaction>)

  predicate IsSale(t: LotTransaction) { t.kind == Sale }
  predicate IsReturn(t: LotTransaction) { t.kind == Return }
  function TxCarats(t: LotTransaction): real { t.carats }

  /** The carats of all SALE transactions. */
  function SoldCarats(ts: seq<LotTransaction>): real
  {
    SumBy(Filter(ts, IsSale), TxCarats)
  }

  /** The carats of all RETURN transactions. */
  function ReturnedCarats(ts: seq<LotTransaction>): real
  {
    SumBy(Filter(ts, IsReturn), TxCarats)
  }

  /** What one transaction does to the carats on hand: a sale removes its
      carats, a return brings them back, a transfer changes nothing. */
  function Delta(t: LotTransaction): (r: real)
    ensures t.kind == Transfer ==> r == 0.0
    ensures t.carats >= 0.0 ==> (t.kind == Sale ==> r <= 0.0) && (t.kind == Return ==> r >= 0.0)
  {
    match t.kind
    case Sale => -t.carats
    case Return => t.carats
    case Transfer => 0.0
  }

  /** The ledger replayed one transaction at a time from the opening weight
      `start`: an independent reference for the remaining carats. */
  function Replay(start: real, ts: seq<LotTransaction>): real
  {
    if ts == [] then start else Replay(start, ts[..|ts| - 1]) + Delta(ts[|ts| - 1])
  }

  /** `calculateRemainingCarats`: total, less every sale, plus every return. */
  function CalculateRemaining(lot: Lot): real
  {
    lot.totalCarats - SoldCarats(lot.transactions) + ReturnedCarats(lot.transactions)
  }

  /** The sums of sales and returns agree with replaying the ledger, one
      transaction at a time, from the total weight; transfers play no part. */
  lemma {:induction false} RemainingIsReplay(total: real, ts: seq<LotTransaction>)
    ensures total - SoldCarats(ts) + ReturnedCarats(ts) == Replay(total, ts)
    decreases |ts|
  {
    if ts != [] {
      var init, t := ts[..|ts| - 1], ts[|ts| - 1];
      assert ts == init + [t];
      RemainingIsReplay(total, init);
      SoldAppend(init, t);
      ReturnedAppend(init, t);
    }
  }

  /** Appending a transaction adds its carats to the sales exactly when it is a sale. */
  lemma SoldAppend(ts: seq<LotTransaction>, t: LotTransaction)
    ensures SoldCarats(ts + [t]) == SoldCarats(ts) + (if t.kind == Sale then t.carats else 0.0)
  {
    SumFilterAppend(ts, t, IsSale, TxCarats);
  }

  /** Appending a transaction adds its carats to the returns exactly when it is a return. */
  lemma ReturnedAppend(ts: seq<LotTransaction>, t: LotTransaction)
    ensures ReturnedCarats(ts + [t]) == ReturnedCarats(ts) + (if t.kind == Return then t.carats else 0.0)
  {
    SumFilterAppend(ts, t, IsReturn, TxCarats);
  }

  /** `checkLotDiscrepancy`: the recorded remaining weight differs from the
      one the ledger implies, compared exactly. */
  predicate HasDiscrepancy(lot: Lot)
  {
    CalculateRemaining(lot) != lot.remainingCarats
  }

  /** A lot without transactions is flagged exactly when its remaining weight is not its total. */
  lemma EmptyLedgerDiscrepancy(lot: Lot)
    requires lot.transactions == []
    ensures HasDiscrepancy(lot) <==> lot.remainingCarats != lot.totalCarats
  {
  }

  /** `handleTransactionAdded` (LotDetail.tsx): the transaction is appended,
      the recorded weight moves by the transaction's effect, and the lot is
      stamped with the time `now`. */
  function ApplyTransaction(lot: Lot, t: LotTransaction, now: string): (r: Lot)
    ensures r.transactions == lot.transactions + [t]
    ensures t.kind == Sale ==> r.remainingCarats == lot.remainingCarats - t.carats
    ensures t.kind == Return ==> r.remainingCarats == lot.remainingCarats + t.carats
    ensures t.kind == Transfer ==> r.remainingCarats == lot.remainingCarats
    ensures r.lastModified == now
    ensures r.(remainingCarats := lot.remainingCarats, lastModified := lot.lastModified,
               transactions := lot.transactions) == lot
  {
    var remaining :=
      if t.kind == Sale then lot.remainingCarats - t.carats
      else if t.kind == Return then lot.remainingCarats + t.carats
      else lot.remainingCarats;
    lot.(transactions := lot.transactions + [t], remainingCarats := remaining, lastModified := now)
  }

  /** The gap between the ledger and the recorded weight is the same after
      any transaction is applied as before it. */
  lemma ApplyKeepsDrift(lot: Lot, t: LotTransaction, now: string)
    ensures var after := ApplyTransaction(lot, t, now);
      CalculateRemaining(after) - after.remainingCarats == CalculateRemaining(lot) - lot.remainingCarats
  {
    var after := ApplyTransaction(lot, t, now);
    RemainingIsReplay(lot.totalCarats, lot.transactions);
    RemainingIsReplay(lot.totalCarats, after.transactions);
    assert after.transactions[..|after.transactions| - 1] == lot.transactions;
  }

  /** The fields of the add-transaction form, after coercion. */
  datatype TxForm = TxForm(
    kind: TxKind,
    carats: real,
    handler: string,
    customer: Option<string>,
    price: Option<real>,
    notes: Option<string>)

  /** `formSchema`: carats strictly positive, a handler given. The type is one
      of the three kinds by construction. */
  predicate TxFormValid(f: TxForm)
  {
    f.carats > 0.0 && |f.handler| >= 1
  }

  datatype TxError = InvalidForm | ExceedsRemaining(remaining: real)

  /** `onSubmit` behind the schema: a sale of more than the remaining weight is
      refused; otherwise the transaction is built for this lot, with the id
      and date the caller draws (`Math.random`, today's date). */
  function SubmitTransaction(lot: Lot, f: TxForm, id: string, today: int): (r: Result<LotTransaction, TxError>)
    ensures !TxFormValid(f) ==> r == Failure(InvalidForm)
    ensures TxFormValid(f) && f.kind == Sale && f.carats > lot.remainingCarats ==>
      r == Failure(ExceedsRemaining(lot.remainingCarats))
    ensures r.Success? <==> TxFormValid(f) && (f.kind == Sale ==> f.carats <= lot.remainingCarats)
    ensures r.Success? ==>
      && r.value.lotId == lot.id && r.value.id == id && r.value.date == today
      && r.value.kind == f.kind && r.value.carats == f.carats && r.value.handler == f.handler
      && r.value.customer == f.customer && r.value.price == f.price && r.value.notes == f.notes
  {
    if !TxFormValid(f) then Failure(InvalidForm)
    else if f.kind == Sale && f.carats > lot.remainingCarats then Failure(ExceedsRemaining(lot.remainingCarats))
    else Success(LotTransaction(id, lot.id, f.kind, today, f.carats, f.handler, f.customer, f.price, f.notes))
  }

  /** The form and the handler together: submit, and on success apply. */
  function AddTransaction(lot: Lot, f: TxForm, id: string, today: int, now: string): (r: Result<Lot, TxError>)
    ensures r.Success? <==> SubmitTransaction(lot, f, id, today).Success?
    ensures r.Success? ==> r.value == ApplyTransaction(lot, SubmitTransaction(lot, f, id, today).value, now)
  {
    match SubmitTransaction(lot, f, id, today)
    case Failure(e) => Failure(e)
    case Success(t) => Success(ApplyTransaction(lot, t, now))
  }

  /** A ledger that reconciles keeps reconciling after any transaction the
      form accepts and the handler applies. */
  lemma AcceptedTransactionKeepsReconciled(lot: Lot, f: TxForm, id: string, today: int, now: string)
    requires !HasDiscrepancy(lot)
    requires AddTransaction(lot, f, id, today, now).Success?
    ensures !HasDiscrepancy(AddTransaction(lot, f, id, today, now).value)
  {
    ApplyKeepsDrift(lot, SubmitTransaction(lot, f, id, today).value, now);
  }

  /** Accepted transactions never take a non-negative remaining weight below
      zero: a sale is at most the remaining weight, returns and transfers
      never lower it. */
  lemma AcceptedTransactionKeepsRemainingNonNegative(lot: Lot, f: TxForm, id: string, today: int, now: string)
    requires lot.remainingCarats >= 0.0
    requires AddTransaction(lot, f, id, today, now).Success?
    ensures AddTransaction(lot, f, id, today, now).value.remainingCarats >= 0.0
  {
  }

  /** The limit is strict: selling exactly what remains is accepted and
      empties the lot. Returns and transfers are not bounded by it. */
  lemma SaleOfEverythingRemainingAccepted(lot: Lot, f: TxForm, id: string, today: int, now: string)
    requires TxFormValid(f)
    requires f.kind != Sale || f.carats == lot.remainingCarats
    ensures AddTransaction(lot, f, id, today, now).Success?
    ensures f.kind == Sale ==> AddTransaction(lot, f, id, today, now).value.remainingCarats == 0.0
  {
  }

  datatype LotStatus = Completed | New | Active

  /** The status badge (LotDetail.tsx and LotList.tsx): nothing left is
      Completed, untouched is New, anything else Active. */
  function StatusOf(lot: Lot): (s: LotStatus)
    ensures s == Completed <==> lot.remainingCarats == 0.0
    ensures s == New <==> lot.remainingCarats != 0.0 && lot.remainingCarats == lot.totalCarats
    ensures s == Active <==> lot.remainingCarats != 0.0 && lot.remainingCarats != lot.totalCarats
  {
    if lot.remainingCarats == 0.0 then Completed
    else if lot.remainingCarats == lot.totalCarats then New
    else Active
  }

  function Abs(x: real): real { if x < 0.0 then -x else x }

  /** The discrepancy shown in the alert: how far the recorded weight is from
      total − sold + returned. */
  function DiscrepancyAmount(lot: Lot): (r: real)
    ensures r >= 0.0
    ensures r != 0.0 <==> HasDiscrepancy(lot)
  {
    Abs(lot.remainingCarats - (lot.totalCarats - SoldCarats(lot.transactions) + ReturnedCarats(lot.transactions)))
  }

  /** `mockLots.find(l => l.id === lotId)`: the first lot with that id. */
  function FindLot(lots: seq<Lot>, id: string): (r: Option<Lot>)
    ensures r.None? <==> forall k :: 0 <= k < |lots| ==> lots[k].id != id
    ensures r.Some? ==> exists k :: 0 <= k < |lots| && lots[k] == r.value && r.value.id == id
                          && forall j :: 0 <= j < k ==> lots[j].id != id
  {
    if lots == [] then None
    else if lots[0].id == id then Some(lots[0])
    else
      var r := FindLot(lots[1..], id);
      assert forall k :: 1 <= k < |lots| ==> lots[k] == lots[1..][k - 1];
      if r.Some? then
        ghost var k :| 0 <= k < |lots[1..]| && lots[1..][k] == r.value && r.value.id == id
                        && forall j :: 0 <= j < k ==> lots[1..][j].id != id;
        assert lots[k + 1] == r.value;
        r
      else r
  }

  /** The fields of the new-lot form, after coercion. */
  datatype LotForm = LotForm(
    totalCarats: real,
    dateReceived: string,
    source: string,
    initialValue: real,
    handler: string,
    notes: Option<string>)

  /** `formSchema` of AddLotForm.tsx. */
  predicate LotFormValid(f: LotForm)
  {
    && f.totalCarats > 0.0 && f.totalCarats >= 0.01
    && |f.dateReceived| >= 1
    && |f.source| >= 1
    && f.initialValue >= 0.0
    && |f.handler| >= 1
  }

  /** `onSubmit` of AddLotForm.tsx behind the schema: a new lot with its full
      weight remaining and no transactions; the id, lot number and time come
      from the caller. */
  function SubmitLot(f: LotForm, id: string, lotId: string, now: string): (r: Option<Lot>)
    ensures r.Some? <==> LotFormValid(f)
    ensures r.Some? ==>
      && r.value.id == id && r.value.lotId == lotId && r.value.lastModified == now
      && r.value.totalCarats == f.totalCarats && r.value.remainingCarats == f.totalCarats
      && r.value.dateReceived == f.dateReceived && r.value.source == f.source
      && r.value.initialValue == f.initialValue && r.value.handler == f.handler
      && r.value.notes == f.notes && r.value.transactions == []
  {
    if !LotFormValid(f) then None
    else Some(Lot(id, lotId, f.totalCarats, f.totalCarats, f.dateReceived, f.source,
                  f.initialValue, f.handler, f.notes, now, []))
  }

  /** A lot fresh from the form reconciles, shows no discrepancy and is New. */
  lemma NewLotIsNewAndReconciled(f: LotForm, id: string, lotId: string, now: string)
    requires LotFormValid(f)
    ensures var lot := SubmitLot(f, id, lotId, now).value;
      !HasDiscrepancy(lot) && DiscrepancyAmount(lot) == 0.0 && StatusOf(lot) == New
  {
  }

  /** The lot number `LOT-YYYY-MM-NNN`: the year, the 1-based month in two
      digits, and the lot count plus one in at least three. */
  function LotIdFor(year: nat, month0: nat, count: nat): string
    requires month0 < 12
  {
    Join(["LOT", Dec(year), ZeroPad(month0 + 1, 2), ZeroPad(count + 1, 3)], '-')
  }

  /** Reads a lot number back into year, 0-based month and lot count. */
  function ParseLotId(s: string): Option<(nat, nat, nat)>
  {
    var parts := Split(s, '-');
    if |parts| == 4 && parts[0] == "LOT" && AllDigits(parts[1]) && AllDigits(parts[2]) && AllDigits(parts[3])
       && DigitsValue(parts[2]) >= 1 && DigitsValue(parts[3]) >= 1
    then Some((DigitsValue(parts[1]), DigitsValue(parts[2]) - 1, DigitsValue(parts[3]) - 1))
    else None
  }

  /** A lot number splits at its dashes into its four fields. */
  lemma LotIdFields(year: nat, month0: nat, count: nat)
    requires month0 < 12
    ensures Split(LotIdFor(year, month0, count), '-') == ["LOT", Dec(year), ZeroPad(month0 + 1, 2), ZeroPad(count + 1, 3)]
  {
    var fields := ["LOT", Dec(year), ZeroPad(month0 + 1, 2), ZeroPad(count + 1, 3)];
    assert forall k :: 0 <= k < |fields| ==> '-' !in fields[k] by {
      assert forall s: string :: AllDigits(s) ==> '-' !in s;
    }
    SplitJoin(fields, '-');
  }

  /** A lot number reads back as the year, month and count it was made from;
      its month field is exactly two characters. */
  lemma LotIdRoundTrip(year: nat, month0: nat, count: nat)
    requires month0 < 12
    ensures ParseLotId(LotIdFor(year, month0, count)) == Some((year, month0, count))
    ensures |ZeroPad(month0 + 1, 2)| == 2 && |ZeroPad(count + 1, 3)| >= 3
  {
    LotIdFields(year, month0, count);
    ZeroPadWidth(month0 + 1, 2);
    DecRoundTrip(year);
  }

  /** `generateLotId`, with the clock's year and 0-based month as parameters:
      numbered after the lots in `MockLots`. */
  function GenerateLotId(year: nat, month0: nat): string
    requires month0 < 12
  {
    LotIdFor(year, month0, |MockLots|)
  }

  /** In the year 2025 and month 5 the next lot number is `LOT-2025-05-005`. */
  lemma GenerateLotIdExample()
    ensures GenerateLotId(2025, 4) == "LOT-2025-05-005"
  {
    assert Dec(2025) == "2025" by {
      assert Dec(2) == "2";
      assert Dec(20) == "20";
      assert Dec(202) == "202";
    }
  }

  function Tx(id: string, lotId: string, kind: TxKind, date: int, carats: real, handler: string,
              customer: Option<string>, price: Option<real>, notes: string): LotTransaction
  {
    LotTransaction(id, lotId, kind, date, carats, handler, customer, price, Some(notes))
  }

  /** The transactions of mockLots.ts. */
  const T1 := Tx("t1", "1", Sale, 20250120, 100.0, "John Doe", Some("Tiffany & Co"), Some(55000.0), "Bulk purchase for new collection")
  const T2 := Tx("t2", "1", Sale, 20250205, 200.0, "Emma Johnson", Some("Cartier"), Some(110000.0), "Special order")
  const T3 := Tx("t3", "1", Return, 20250215, 50.0, "John Doe", Some("Tiffany & Co"), None, "Customer found inclusions in 5 stones")
  const T4 := Tx("t4", "2", Sale, 20250225, 75.0, "Michael Chen", Some("Blue Nile"), Some(48750.0), "Online inventory restock")
  const T5 := Tx("t5", "2", Transfer, 20250310, 25.0, "David Wilson", None, None, "Transferred to New York office")
  const T6 := Tx("t6", "3", Sale, 20250405, 150.0, "Emma Johnson", Some("Harry Winston"), Some(112500.0), "Premier collection pieces")

  /** The four lots of mockLots.ts. */
  const Lot1 := Lot("1", "LOT-2025-001", 500.0, 250.0, "2025-01-15", "De Beers", 250000.0, "John Doe",
                    Some("High quality rough diamonds from Botswana"), "2025-02-15", [T1, T2, T3])
  const Lot2 := Lot("2", "LOT-2025-002", 300.0, 200.0, "2025-02-20", "ALROSA", 180000.0, "Michael Chen",
                    Some("Mixed quality, primarily for commercial jewelry"), "2025-03-10", [T4, T5])
  const Lot3 := Lot("3", "LOT-2025-003", 250.0, 100.0, "2025-03-30", "Rio Tinto", 187500.0, "Emma Johnson",
                    Some("Premium quality from Argyle mine"), "2025-04-05", [T6])
  const Lot4 := Lot("4", "LOT-2025-004", 600.0, 600.0, "2025-04-10", "Petra Diamonds", 330000.0, "David Wilson",
                    Some("New acquisition, not yet processed"), "2025-04-10", [])

  const MockLots: seq<Lot> := [Lot1, Lot2, Lot3, Lot4]

  function SaleAmount(t: LotTransaction): real { if t.kind == Sale then t.carats else 0.0 }
  function ReturnAmount(t: LotTransaction): real { if t.kind == Return then t.carats else 0.0 }

  /** The sales and returns of a ledger are the sums, entry by entry, of
      what each transaction contributes to them. */
  lemma {:induction false} LedgerSumsByEntry(ts: seq<LotTransaction>)
    ensures SoldCarats(ts) == SumBy(ts, SaleAmount)
    ensures ReturnedCarats(ts) == SumBy(ts, ReturnAmount)
  {
    if ts != [] {
      LedgerSumsByEntry(ts[1..]);
      var fs := Filter(ts[1..], IsSale);
      var fr := Filter(ts[1..], IsReturn);
      if IsSale(ts[0]) {
        assert ([ts[0]] + fs)[1..] == fs;
      }
      if IsReturn(ts[0]) {
        assert ([ts[0]] + fr)[1..] == fr;
      }
    }
  }

  /** Lot "1": 300 ct sold, 50 ct returned. */
  lemma Lot1Sums()
    ensures SoldCarats(Lot1.transactions) == 300.0 && ReturnedCarats(Lot1.transactions) == 50.0
  {
    LedgerSumsByEntry(Lot1.transactions);
    SumOfThree(T1, T2, T3, SaleAmount);
    SumOfThree(T1, T2, T3, ReturnAmount);
  }

  /** Lot "2": 75 ct sold and nothing returned; the 25 ct transfer counts for neither. */
  lemma Lot2Sums()
    ensures SoldCarats(Lot2.transactions) == 75.0 && ReturnedCarats(Lot2.transactions) == 0.0
  {
    LedgerSumsByEntry(Lot2.transactions);
    SumOfTwo(T4, T5, SaleAmount);
    SumOfTwo(T4, T5, ReturnAmount);
  }

  /** Lot "3": 150 ct sold, nothing returned. */
  lemma Lot3Sums()
    ensures SoldCarats(Lot3.transactions) == 150.0 && ReturnedCarats(Lot3.transactions) == 0.0
  {
    LedgerSumsByEntry(Lot3.transactions);
    assert [T6][1..] == [];
  }

  /** Lot "1" reconciles: 500 − 300 + 50 = 250 ct, as recorded. */
  lemma Lot1Reconciles()
    ensures !HasDiscrepancy(Lot1)
  {
    Lot1Sums();
  }

  /** Lot "2" is flagged: its ledger implies 300 − 75 = 225 ct, since the
      transfer is not counted, but 200 ct are recorded. */
  lemma Lot2IsFlagged()
    ensures CalculateRemaining(Lot2) == 225.0 && Lot2.remainingCarats == 200.0
    ensures HasDiscrepancy(Lot2) && DiscrepancyAmount(Lot2) == 25.0
  {
    Lot2Sums();
  }

  /** Lot "3" reconciles: 250 − 150 = 100 ct, as recorded. */
  lemma Lot3Reconciles()
    ensures !HasDiscrepancy(Lot3)
  {
    Lot3Sums();
  }

  /** Of the mock lots only lot "2" is flagged. */
  lemma OnlyLotTwoIsFlagged()
    ensures MockLots == [Lot1, Lot2, Lot3, Lot4]
    ensures !HasDiscrepancy(Lot1) && HasDiscrepancy(Lot2) && !HasDiscrepancy(Lot3) && !HasDiscrepancy(Lot4)
  {
    Lot1Reconciles();
    Lot2IsFlagged();
    Lot3Reconciles();
  }

  /** `LotSummary`. */
  datatype LotSummary = LotSummary(
    totalLots: nat,
    totalCarats: real,
    soldCarats: real,
    returnedCarats: real,
    remainingCarats: real,
    totalValue: real)

  function LotTotal(l: Lot): real { l.totalCarats }
  function LotSold(l: Lot): real { SoldCarats(l.transactions) }
  function LotReturned(l: Lot): real { ReturnedCarats(l.transactions) }
  function LotRemaining(l: Lot): real { l.remainingCarats }
  function LotValue(l: Lot): real { l.initialValue }

  /** `lotSummary`, over any list of lots. */
  function Summarize(lots: seq<Lot>): (s: LotSummary)
    ensures s.totalLots == |lots|
  {
    LotSummary(|lots|, SumBy(lots, LotTotal), SumBy(lots, LotSold), SumBy(lots, LotReturned),
               SumBy(lots, LotRemaining), SumBy(lots, LotValue))
  }

  /** When no lot is flagged, the summary's remaining weight is its total less
      sales plus returns. */
  lemma {:induction false} ReconciledSummary(lots: seq<Lot>)
    requires forall k :: 0 <= k < |lots| ==> !HasDiscrepancy(lots[k])
    ensures var s := Summarize(lots);
      s.remainingCarats == s.totalCarats - s.soldCarats + s.returnedCarats
  {
    if lots != [] {
      assert !HasDiscrepancy(lots[0]);
      ReconciledSummary(lots[1..]);
    }
  }

  /** The mock summary: 4 lots, 1650 ct received, 525 sold, 50 returned,
      1150 recorded as remaining, 947500 of initial value. Lot "2"'s
      discrepancy is why 1650 − 525 + 50 is not 1150. */
  lemma MockSummary()
    ensures Summarize(MockLots) == LotSummary(4, 1650.0, 525.0, 50.0, 1150.0, 947500.0)
  {
    Lot1Sums();
    Lot2Sums();
    Lot3Sums();
    SumOfFour(Lot1, Lot2, Lot3, Lot4, LotTotal);
    SumOfFour(Lot1, Lot2, Lot3, Lot4, LotSold);
    SumOfFour(Lot1, Lot2, Lot3, Lot4, LotReturned);
    SumOfFour(Lot1, Lot2, Lot3, Lot4, LotRemaining);
    SumOfFour(Lot1, Lot2, Lot3, Lot4, LotValue);
  }
}
