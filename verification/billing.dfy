/** The billing page's state machine (src/pages/Billing.tsx): which view is
    shown, which invoice is selected, and how saving and status updates
    change the invoice list. */
module Billing {
  import opened Wrappers
  import opened Invoices

  datatype View = ListView | DetailView | CreateView | EditView

  /** `view`, `invoices` and `selectedInvoiceId`. */
  datatype BillingState = BillingState(view: View, invoices: seq<Invoice>, selected: Option<string>)

  /** The page's first state: the list of mock invoices, nothing selected. */
  function Initial(): (st: BillingState)
    ensures st.view == ListView && st.selected.None? && st.invoices == MockInvoices
  {
    BillingState(ListView, MockInvoices, None)
  }

  /** `goToList`. */
  function GoToList(st: BillingState): (r: BillingState)
    ensures r.view == ListView && r.selected.None? && r.invoices == st.invoices
  {
    st.(view := ListView, selected := None)
  }

  /** `handleSelectInvoice`. */
  function SelectInvoice(st: BillingState, id: string): (r: BillingState)
    ensures r.view == DetailView && r.selected == Some(id) && r.invoices == st.invoices
  {
    st.(view := DetailView, selected := Some(id))
  }

  /** `handleCreateInvoice`: the selection is left as it was. */
  function CreateInvoice(st: BillingState): (r: BillingState)
    ensures r.view == CreateView && r.selected == st.selected && r.invoices == st.invoices
  {
    st.(view := CreateView)
  }

  /** `handleEditInvoice`. */
  function EditInvoice(st: BillingState, id: string): (r: BillingState)
    ensures r.view == EditView && r.selected == Some(id) && r.invoices == st.invoices
  {
    st.(view := EditView, selected := Some(id))
  }

  /** `invoices.map(inv => inv.id === invoice.id ? invoice : inv)`: the list
      keeps its length and its ids in order, the saved invoice stands wherever
      its id stood, and every other invoice is untouched. */
  function ReplaceById(invoices: seq<Invoice>, inv: Invoice): (r: seq<Invoice>)
    ensures |r| == |invoices| && Ids(r) == Ids(invoices)
    ensures forall i :: 0 <= i < |r| && invoices[i].id != inv.id ==> r[i] == invoices[i]
    ensures forall i :: 0 <= i < |r| && invoices[i].id == inv.id ==> r[i] == inv
    ensures inv.id in Ids(invoices) ==> inv in r
  {
    seq(|invoices|, i requires 0 <= i < |invoices| => if invoices[i].id == inv.id then inv else invoices[i])
  }

  /** `handleSaveInvoice`: in the edit view the saved invoice replaces every
      invoice with its id; in any other view it is appended. Either way the
      page returns to the list with nothing selected. */
  function SaveInvoice(st: BillingState, inv: Invoice): (r: BillingState)
    ensures r.view == ListView && r.selected.None?
    ensures st.view == EditView ==> r.invoices == ReplaceById(st.invoices, inv)
    ensures st.view != EditView ==> r.invoices == st.invoices + [inv]
  {
    var invoices := if st.view == EditView then ReplaceById(st.invoices, inv) else st.invoices + [inv];
    GoToList(st.(invoices := invoices))
  }

  function Ids(invoices: seq<Invoice>): seq<string>
  {
    seq(|invoices|, i requires 0 <= i < |invoices| => invoices[i].id)
  }

  /** Replacing by id a second time with the same invoice changes nothing. */
  lemma ReplaceByIdIdempotent(invoices: seq<Invoice>, inv: Invoice)
    ensures ReplaceById(ReplaceById(invoices, inv), inv) == ReplaceById(invoices, inv)
  {
  }

  /** Saving an edit keeps the list's length and ids, stores the saved
      invoice wherever its id was, leaves every other invoice untouched, and
      saving the same invoice again changes nothing more. */
  lemma SaveEditReplacesInPlace(st: BillingState, inv: Invoice)
    requires st.view == EditView
    ensures var r := SaveInvoice(st, inv).invoices;
      && |r| == |st.invoices|
      && Ids(r) == Ids(st.invoices)
      && (forall i :: 0 <= i < |r| && st.invoices[i].id != inv.id ==> r[i] == st.invoices[i])
      && (forall i :: 0 <= i < |r| && st.invoices[i].id == inv.id ==> r[i] == inv)
      && (inv.id in Ids(st.invoices) ==> inv in r)
      && ReplaceById(r, inv) == r
  {
    var r := SaveInvoice(st, inv).invoices;
    if inv.id in Ids(st.invoices) {
      var i :| 0 <= i < |st.invoices| && Ids(st.invoices)[i] == inv.id;
      assert r[i] == inv;
    }
  }

  /** Saving outside the edit view grows the list by exactly the saved invoice. */
  lemma SaveNewAppends(st: BillingState, inv: Invoice)
    requires st.view != EditView
    ensures var r := SaveInvoice(st, inv).invoices;
      |r| == |st.invoices| + 1 && r[..|st.invoices|] == st.invoices && r[|st.invoices|] == inv
  {
  }

  /** `invoices.map(invoice => invoice.id === id ? f(invoice) : invoice)`
      for the two updates the status handler makes. */
  function SetStatus(invoices: seq<Invoice>, id: string, status: InvoiceStatus, now: string): (r: seq<Invoice>)
    ensures |r| == |invoices|
    ensures forall i :: 0 <= i < |r| ==>
      r[i] == if invoices[i].id == id then invoices[i].(status := status, updatedAt := now) else invoices[i]
  {
    seq(|invoices|, i requires 0 <= i < |invoices| =>
      if invoices[i].id == id then invoices[i].(status := status, updatedAt := now) else invoices[i])
  }

  function SetPaidAt(invoices: seq<Invoice>, id: string, now: string): (r: seq<Invoice>)
    ensures |r| == |invoices|
    ensures forall i :: 0 <= i < |r| ==>
      r[i] == if invoices[i].id == id then invoices[i].(paidAt := Some(now)) else invoices[i]
  {
    seq(|invoices|, i requires 0 <= i < |invoices| =>
      if invoices[i].id == id then invoices[i].(paidAt := Some(now)) else invoices[i])
  }

  /** `handleUpdateStatus` as written. With an invoice selected it stores the
      new status and time; for PAID it then stores a second list, built from
      the list as it was before the call with only `paidAt` set. React keeps
      the last stored list, so for PAID the first update is lost. */
  function UpdateStatusAsWritten(st: BillingState, status: InvoiceStatus, now: string): (r: BillingState)
    ensures st.selected.None? || st.selected.value == [] ==> r == st
    ensures r.view == st.view && r.selected == st.selected
    ensures st.selected.Some? && st.selected.value != [] && status == Paid ==>
      r.invoices == SetPaidAt(st.invoices, st.selected.value, now)
  {
    if st.selected.None? || st.selected.value == [] then st
    else
      var id := st.selected.value;
      var first := SetStatus(st.invoices, id, status, now);
      var last := if status == Paid then SetPaidAt(st.invoices, id, now) else first;
      st.(invoices := last)
  }

  /** The update the handler evidently means: the status and time, and for
      PAID also the payment time, all on the same invoice. */
  function UpdateStatus(st: BillingState, status: InvoiceStatus, now: string): (r: BillingState)
    ensures st.selected.None? || st.selected.value == [] ==> r == st
    ensures r.view == st.view && r.selected == st.selected
  {
    if st.selected.None? || st.selected.value == [] then st
    else
      var id := st.selected.value;
      var first := SetStatus(st.invoices, id, status, now);
      st.(invoices := if status == Paid then SetPaidAt(first, id, now) else first)
  }

  /** The corrected update gives every selected invoice the new status and
      time, and a payment time exactly when the status is PAID; every other
      invoice, and every field but those three, is untouched. */
  lemma UpdateStatusSetsEveryField(st: BillingState, status: InvoiceStatus, now: string)
    requires st.selected.Some? && st.selected.value != []
    ensures var r := UpdateStatus(st, status, now).invoices;
      && |r| == |st.invoices|
      && (forall i :: 0 <= i < |r| && st.invoices[i].id != st.selected.value ==> r[i] == st.invoices[i])
      && (forall i :: 0 <= i < |r| && st.invoices[i].id == st.selected.value ==>
            && r[i].status == status && r[i].updatedAt == now
            && r[i].paidAt == (if status == Paid then Some(now) else st.invoices[i].paidAt)
            && r[i].(status := st.invoices[i].status, updatedAt := st.invoices[i].updatedAt,
                     paidAt := st.invoices[i].paidAt) == st.invoices[i])
  {
  }

  /** For every status but PAID the handler as written does what it means. */
  lemma AsWrittenAgreesBesidesPaid(st: BillingState, status: InvoiceStatus, now: string)
    requires status != Paid
    ensures UpdateStatusAsWritten(st, status, now) == UpdateStatus(st, status, now)
  {
  }

  /** Marking an invoice PAID with the handler as written leaves its status and
      `updatedAt` as they were: only `paidAt` changes. */
  lemma PaidUpdateLosesStatus(st: BillingState, now: string, i: nat)
    requires st.selected.Some? && st.selected.value != []
    requires i < |st.invoices| && st.invoices[i].id == st.selected.value
    ensures var r := UpdateStatusAsWritten(st, Paid, now).invoices;
      r[i].status == st.invoices[i].status && r[i].updatedAt == st.invoices[i].updatedAt
      && r[i].paidAt == Some(now)
  {
  }

  /** The SENT mock invoice marked PAID: as written it stays SENT, while the
      corrected update shows it PAID. */
  lemma PaidUpdateCounterexample()
    ensures var st := SelectInvoice(Initial(), "inv-2");
      && UpdateStatusAsWritten(st, Paid, "2023-03-01T00:00:00Z").invoices[1].status == Sent
      && UpdateStatus(st, Paid, "2023-03-01T00:00:00Z").invoices[1].status == Paid
  {
    var st := SelectInvoice(Initial(), "inv-2");
    assert st.invoices[1].id == "inv-2";
  }
}
