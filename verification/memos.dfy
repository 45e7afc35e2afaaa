/** The memo table of src/components/DiamondMemoManagement.tsx: the overdue
    flag, the customer-name lookup, the status badge and the row actions. */
module Memos {
  import opened Wrappers
  import opened Customers

  /** Milliseconds in a day. */
  const MsPerDay: int := 86400000

  /** `isOverdue`, with the clock as a parameter (`now`, milliseconds since
      1970-01-01 UTC): only an Active memo can be overdue, and it is overdue
      once the clock has passed the start (UTC midnight) of its end day. */
  predicate IsOverdue(memo: DiamondMemo, now: int)
  {
    memo.status == MemoActive && now > memo.expectedEndDay * MsPerDay
  }

  /** A memo that is not Active is never flagged, whatever the time; an
      Active one is flagged exactly after its end day's midnight, and stays
      flagged from then on. */
  lemma OverdueRule(memo: DiamondMemo, now: int, later: int)
    requires now <= later
    ensures memo.status != MemoActive ==> !IsOverdue(memo, now)
    ensures memo.status == MemoActive ==> (IsOverdue(memo, now) <==> now > memo.expectedEndDay * MsPerDay)
    ensures IsOverdue(memo, now) ==> IsOverdue(memo, later)
    ensures memo.status == MemoActive && now <= memo.expectedEndDay * MsPerDay ==> !IsOverdue(memo, now)
  {
  }

  /** The comparison is with midnight of the end day, so an Active memo is
      already flagged during its end day, not only on the days after it. */
  lemma FlaggedDuringEndDay(memo: DiamondMemo, msIntoDay: int)
    requires memo.status == MemoActive && 0 < msIntoDay < MsPerDay
    ensures IsOverdue(memo, memo.expectedEndDay * MsPerDay + msIntoDay)
  {
  }

  /** On 2025-05-01 at noon UTC, of the mock memos only the first (Active, due
      2025-04-27) is flagged; the one whose status already reads Overdue is not. */
  lemma MockMemosOverdue()
    ensures var now := 20209 * MsPerDay + MsPerDay / 2;
      && IsOverdue(MockMemos[0], now)
      && !IsOverdue(MockMemos[1], now) && !IsOverdue(MockMemos[2], now) && !IsOverdue(MockMemos[3], now)
  {
  }

  /** `getCustomerName`: the name of the first customer with the id, or `Unknown`. */
  function CustomerName(cs: seq<Customer>, customerId: string): (r: string)
    ensures (forall k :: 0 <= k < |cs| ==> cs[k].id != customerId) ==> r == "Unknown"
    ensures (exists k :: 0 <= k < |cs| && cs[k].id == customerId) ==>
      exists k :: 0 <= k < |cs| && cs[k].id == customerId && r == cs[k].fields.name
  {
    var c := FindCustomer(cs, customerId);
    if c.Some? then c.value.fields.name else "Unknown"
  }

  /** The name shown is the first match's, even when a later customer shares the id. */
  lemma {:induction false} CustomerNameIsFirstMatch(cs: seq<Customer>, customerId: string, k: nat)
    requires k < |cs| && cs[k].id == customerId
    requires forall j :: 0 <= j < k ==> cs[j].id != customerId
    ensures CustomerName(cs, customerId) == cs[k].fields.name
  {
    if k > 0 {
      assert cs[1..][k - 1] == cs[k];
      CustomerNameIsFirstMatch(cs[1..], customerId, k - 1);
    }
  }

  const MemoBlue := "bg-blue-100 text-blue-800"
  const MemoGreen := "bg-green-100 text-green-800"
  const MemoPurple := "bg-purple-100 text-purple-800"
  const MemoRed := "bg-red-100 text-red-800"
  const MemoGray := "bg-gray-100 text-gray-800"

  /** `getMemoStatusClass`. */
  function MemoStatusClass(status: string): string
  {
    if status == "Active" then MemoBlue
    else if status == "Returned" then MemoGreen
    else if status == "Sold" then MemoPurple
    else if status == "Overdue" then MemoRed
    else MemoGray
  }

  /** The four statuses get four different colours, and any other string is gray. */
  lemma MemoStatusClassTotal(s: MemoStatus, t: MemoStatus, other: string)
    requires forall g: MemoStatus :: other != MemoStatusName(g)
    ensures MemoStatusClass(other) == MemoGray
    ensures MemoStatusClass(MemoStatusName(s)) != MemoGray
    ensures s != t ==> MemoStatusClass(MemoStatusName(s)) != MemoStatusClass(MemoStatusName(t))
  {
    assert other != MemoStatusName(MemoActive) && other != MemoStatusName(MemoReturned);
    assert other != MemoStatusName(MemoSold) && other != MemoStatusName(MemoOverdue);
  }

  datatype MemoAction = MarkReturned | MarkSold | EditMemo | DeleteMemo

  /** The buttons of a memo's row, the same in the diamond view and the card view. */
  function RowActions(memo: DiamondMemo): (r: seq<MemoAction>)
    ensures MarkReturned in r <==> memo.status == MemoActive
    ensures MarkSold in r <==> memo.status == MemoActive
    ensures EditMemo in r && DeleteMemo in r
  {
    (if memo.status == MemoActive then [MarkReturned, MarkSold] else []) + [EditMemo, DeleteMemo]
  }

  /** One rendered row. */
  datatype MemoRow = MemoRow(memoId: string, customerName: string, overdueIcon: bool,
                             statusClass: string, actions: seq<MemoAction>)

  /** The table: `None` for the "No memos available." message, otherwise one
      row per memo in list order. */
  function MemoTable(memos: seq<DiamondMemo>, cs: seq<Customer>, now: int): (r: Option<seq<MemoRow>>)
    ensures r.None? <==> memos == []
    ensures r.Some? ==> |r.value| == |memos| && forall i :: 0 <= i < |memos| ==>
      && r.value[i].memoId == memos[i].id
      && r.value[i].customerName == CustomerName(cs, memos[i].customerId)
      && (r.value[i].overdueIcon <==> IsOverdue(memos[i], now))
      && (MarkSold in r.value[i].actions <==> memos[i].status == MemoActive)
  {
    if memos == [] then None
    else Some(seq(|memos|, i requires 0 <= i < |memos| =>
      MemoRow(memos[i].id, CustomerName(cs, memos[i].customerId), IsOverdue(memos[i], now),
              MemoStatusClass(MemoStatusName(memos[i].status)), RowActions(memos[i]))))
  }

  /** Only Active memos are flagged, so a row with the overdue icon always
      offers Return and Sold. */
  lemma OverdueRowsOfferActions(memos: seq<DiamondMemo>, cs: seq<Customer>, now: int, i: nat)
    requires memos != [] && i < |memos|
    ensures var row := MemoTable(memos, cs, now).value[i];
      row.overdueIcon ==> MarkReturned in row.actions && MarkSold in row.actions
  {
  }
}
