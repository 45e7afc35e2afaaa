/** Invoice arithmetic: `calculateInvoiceSummary` and `generateInvoiceNumber`
    of src/data/mockInvoices.ts, the line and summary recomputation, tax-rate
    recovery, line editing and submission of src/components/InvoiceForm.tsx,
    and the list filter and status badge of src/components/InvoiceList.tsx. */
module Invoices {
  import opened Wrappers
  import opened Seqs
  import opened Text

  datatype InvoiceStatus = Draft | Sent | Paid | Overdue | Cancelled

  /** The string each status has at run time. */
  function InvoiceStatusName(s: InvoiceStatus): string
  {
    match s
    case Draft => "DRAFT" case Sent => "SENT" case Paid => "PAID"
    case Overdue => "OVERDUE" case Cancelled => "CANCELLED"
  }

  /** A line of an invoice. The form's numeric inputs may be empty, so
      quantity and unit price are optional. */
  datatype InvoiceItem = InvoiceItem(id: string, description: string, quantity: Option<real>,
                                     unit: string, unitPrice: Option<real>, amount: real)

  datatype InvoiceSummary = InvoiceSummary(subtotal: real, discount: real, salesTax: real, vat: real,
                                           shipping: real, insurance: real, other: real, netAmount: real)

  datatype Invoice = Invoice(id: string, invoiceNumber: string, customerId: string, customerName: string,
                             purchaseOrder: Option<string>, items: seq<InvoiceItem>, summary: InvoiceSummary,
                             status: InvoiceStatus, createdAt: string, updatedAt: string, paidAt: Option<string>)

  function Amount(item: InvoiceItem): real { item.amount }

  /** The sum of the line amounts. */
  function Subtotal(items: seq<InvoiceItem>): real { SumBy(items, Amount) }

  /** The total the summary promises: what is left of the subtotal after the
      discount, plus tax and the three surcharges. */
  predicate NetIdentity(s: InvoiceSummary)
  {
    s.netAmount == s.subtotal - s.discount + s.salesTax + s.shipping + s.insurance + s.other
  }

  /** A stored invoice is consistent when its subtotal is the sum of its lines
      and its net amount satisfies the identity. */
  predicate Consistent(inv: Invoice)
  {
    inv.summary.subtotal == Subtotal(inv.items) && NetIdentity(inv.summary)
  }

  /** The default tax rate, 8%. */
  const DefaultTaxRate: real := 0.08

  /** `calculateInvoiceSummary`: the subtotal is the sum of the lines, tax is
      charged on the discounted subtotal, VAT is always zero and the other
      charges pass through. */
  function CalculateSummary(items: seq<InvoiceItem>, discount: real, taxRate: real,
                            shipping: real, insurance: real, other: real): (s: InvoiceSummary)
    ensures s.subtotal == Subtotal(items)
    ensures s.salesTax == taxRate * (s.subtotal - discount)
    ensures s.vat == 0.0
    ensures s.discount == discount && s.shipping == shipping && s.insurance == insurance && s.other == other
    ensures NetIdentity(s)
  {
    var subtotal := SumBy(items, Amount);
    var salesTax := taxRate * (subtotal - discount);
    InvoiceSummary(subtotal, discount, salesTax, 0.0, shipping, insurance, other,
                   subtotal - discount + salesTax + shipping + insurance + other)
  }

  /** With every optional argument left out. */
  function DefaultSummary(items: seq<InvoiceItem>): InvoiceSummary
  {
    CalculateSummary(items, 0.0, DefaultTaxRate, 0.0, 0.0, 0.0)
  }

  /** With no discount and no surcharges, the net amount is the subtotal grown by 8%. */
  lemma DefaultSummaryAddsEightPercent(items: seq<InvoiceItem>)
    ensures DefaultSummary(items).netAmount == Subtotal(items) * 1.08
  {
  }

  /** Adding a line adds its amount to the subtotal and its taxed amount to the net. */
  lemma SummaryOfAppendedLine(items: seq<InvoiceItem>, x: InvoiceItem, discount: real, taxRate: real,
                              shipping: real, insurance: real, other: real)
    ensures var before := CalculateSummary(items, discount, taxRate, shipping, insurance, other);
      var after := CalculateSummary(items + [x], discount, taxRate, shipping, insurance, other);
      && after.subtotal == before.subtotal + x.amount
      && after.netAmount == before.netAmount + x.amount * (1.0 + taxRate)
  {
    SumAppend(items, x, Amount);
  }

  /** `Number(x || 0)`: an empty or zero input counts as zero. */
  function OrZero(x: Option<real>): (r: real)
    ensures x.None? ==> r == 0.0
    ensures x.Some? ==> r == x.value
  {
    x.GetOr(0.0)
  }

  /** A line whose amount has been set to quantity times unit price. */
  function Priced(item: InvoiceItem): (r: InvoiceItem)
    ensures r.amount == OrZero(item.quantity) * OrZero(item.unitPrice)
    ensures r.(amount := item.amount) == item
  {
    item.(amount := OrZero(item.quantity) * OrZero(item.unitPrice))
  }

  predicate AllPriced(items: seq<InvoiceItem>)
  {
    forall i :: 0 <= i < |items| ==> items[i].amount == OrZero(items[i].quantity) * OrZero(items[i].unitPrice)
  }

  /** The form's recompute effect: every line's amount becomes quantity
      times unit price, and the summary is rebuilt from the new lines with
      the form's discount, tax rate and surcharges. */
  function Recompute(items: seq<InvoiceItem>, discount: Option<real>, taxRate: real,
                     shipping: Option<real>, insurance: Option<real>, other: Option<real>): (r: (seq<InvoiceItem>, InvoiceSummary))
    ensures |r.0| == |items| && AllPriced(r.0)
    ensures forall i :: 0 <= i < |items| ==> r.0[i].(amount := items[i].amount) == items[i]
    ensures r.1.subtotal == Subtotal(r.0) && NetIdentity(r.1)
  {
    var lines := seq(|items|, i requires 0 <= i < |items| => Priced(items[i]));
    (lines, CalculateSummary(lines, OrZero(discount), taxRate, OrZero(shipping), OrZero(insurance), OrZero(other)))
  }

  /** Recomputing lines that are already priced leaves them as they are, so
      the effect settles after one round. */
  lemma RecomputeIdempotent(items: seq<InvoiceItem>, discount: Option<real>, taxRate: real,
                            shipping: Option<real>, insurance: Option<real>, other: Option<real>)
    ensures var once := Recompute(items, discount, taxRate, shipping, insurance, other);
      Recompute(once.0, discount, taxRate, shipping, insurance, other) == once
  {
    var once := Recompute(items, discount, taxRate, shipping, insurance, other);
    var twice := Recompute(once.0, discount, taxRate, shipping, insurance, other);
    assert twice.0 == once.0;
  }

  /** The tax rate a form starts from (`taxRate`'s initial state): for an
      invoice with non-zero tax and non-zero subtotal, tax divided by the
      discounted subtotal; otherwise 8%. `None` stands for the non-finite
      rate the division yields when the discount equals the subtotal. */
  function RecoverTaxRate(existing: Option<Invoice>): (r: Option<real>)
    ensures existing.None? ==> r == Some(DefaultTaxRate)
    ensures existing.Some? && (existing.value.summary.salesTax == 0.0 || existing.value.summary.subtotal == 0.0)
      ==> r == Some(DefaultTaxRate)
    ensures r.None? <==> (existing.Some? && existing.value.summary.salesTax != 0.0
      && existing.value.summary.subtotal != 0.0 && existing.value.summary.subtotal == existing.value.summary.discount)
  {
    if existing.None? then Some(DefaultTaxRate)
    else
      var s := existing.value.summary;
      if s.salesTax == 0.0 || s.subtotal == 0.0 then Some(DefaultTaxRate)
      else if s.subtotal - s.discount == 0.0 then None
      else Some(s.salesTax / (s.subtotal - s.discount))
  }

  /** Round trip: editing a consistent invoice that carries tax starts from a
      rate that, applied to the same lines and discount, gives back the stored
      tax and net amount. */
  lemma TaxRateRoundTrip(inv: Invoice)
    requires Consistent(inv)
    requires inv.summary.salesTax != 0.0 && inv.summary.subtotal != 0.0
    requires inv.summary.subtotal != inv.summary.discount
    ensures RecoverTaxRate(Some(inv)).Some?
    ensures var s := inv.summary;
      var t := RecoverTaxRate(Some(inv)).value;
      var again := CalculateSummary(inv.items, s.discount, t, s.shipping, s.insurance, s.other);
      again.salesTax == s.salesTax && again.netAmount == s.netAmount
  {
  }

  /** The rate is forgotten when there is no tax: an untaxed invoice whose
      discount is not its whole subtotal comes back taxed at 8% on edit, and
      its lines, once their discounted sum is not zero, are charged tax. */
  lemma UntaxedInvoiceIsRetaxed(inv: Invoice)
    requires inv.summary.salesTax == 0.0 && inv.summary.subtotal != inv.summary.discount
    ensures RecoverTaxRate(Some(inv)) == Some(DefaultTaxRate)
    ensures var s := inv.summary;
      Subtotal(inv.items) != s.discount ==>
        CalculateSummary(inv.items, s.discount, DefaultTaxRate, s.shipping, s.insurance, s.other).salesTax != s.salesTax
  {
  }

  /** The blank line `handleAddItem` appends. */
  function BlankItem(n: nat): (r: InvoiceItem)
    ensures r.quantity == Some(1.0) && r.unit == "C" && r.unitPrice == Some(0.0) && r.amount == 0.0
    ensures r.description == []
  {
    InvoiceItem("item-" + Dec(n), [], Some(1.0), "C", Some(0.0), 0.0)
  }

  /** `handleAddItem`: a blank line numbered one past the current count. */
  function AddItem(items: seq<InvoiceItem>): (r: seq<InvoiceItem>)
    ensures |r| == |items| + 1 && r[..|items|] == items
    ensures r[|items|].id == "item-" + Dec(|items| + 1)
  {
    items + [BlankItem(|items| + 1)]
  }

  /** A blank line is already priced and changes neither subtotal nor tax. */
  lemma AddItemKeepsTotals(items: seq<InvoiceItem>, discount: real, taxRate: real,
                           shipping: real, insurance: real, other: real)
    ensures CalculateSummary(AddItem(items), discount, taxRate, shipping, insurance, other)
         == CalculateSummary(items, discount, taxRate, shipping, insurance, other)
    ensures AllPriced(items) ==> AllPriced(AddItem(items))
  {
    SumAppend(items, BlankItem(|items| + 1), Amount);
  }

  /** Line ids come from the count alone, so removing a line and adding one
      can repeat an id that is still in use. */
  lemma AddAfterRemoveCanRepeatId()
    ensures var two := AddItem(AddItem([]));
      var one := RemoveItem(two, 0);
      AddItem(one)[0].id == AddItem(one)[1].id
  {
  }

  /** The delete button: removes line `index` only when more than one line is left. */
  function RemoveItem(items: seq<InvoiceItem>, index: nat): (r: seq<InvoiceItem>)
    requires index < |items|
    ensures |items| > 1 ==> r == items[..index] + items[index + 1..]
    ensures |items| <= 1 ==> r == items
    ensures |r| >= 1
  {
    if |items| > 1 then items[..index] + items[index + 1..] else items
  }

  /** Starting from one line, no sequence of deletions and additions empties the list. */
  lemma EditsNeverEmptyTheLines(items: seq<InvoiceItem>, index: nat)
    requires |items| >= 1 && index < |items|
    ensures |RemoveItem(items, index)| >= 1 && |AddItem(items)| >= 2
    ensures |RemoveItem(items, index)| == if |items| > 1 then |items| - 1 else 1
  {
  }

  /** `handleFormSubmit`: an edit keeps the edited invoice's id (when it has
      one); a new invoice gets `invoice-` and the clock's milliseconds.
      Either way `updatedAt` becomes the time of submission. */
  function SubmitInvoice(data: Invoice, existing: Option<Invoice>, nowIso: string, nowMillis: nat): (r: Invoice)
    ensures existing.Some? && existing.value.id != [] ==> r.id == existing.value.id
    ensures existing.None? || existing.value.id == [] ==> r.id == "invoice-" + Dec(nowMillis)
    ensures r.updatedAt == nowIso
    ensures r.(id := data.id, updatedAt := data.updatedAt) == data
  {
    var id := if existing.Some? && existing.value.id != [] then existing.value.id else "invoice-" + Dec(nowMillis);
    data.(id := id, updatedAt := nowIso)
  }

  /** The invoice number for a year and a count of earlier invoices. */
  function InvoiceNumberFor(year: nat, count: nat): string
  {
    Join(["INV", Dec(year), ZeroPad(count + 1, 3)], '-')
  }

  /** Reads an invoice number back into its year and count. */
  function ParseInvoiceNumber(s: string): Option<(nat, nat)>
  {
    var parts := Split(s, '-');
    if |parts| == 3 && parts[0] == "INV" && AllDigits(parts[1]) && AllDigits(parts[2]) && DigitsValue(parts[2]) >= 1
    then Some((DigitsValue(parts[1]), DigitsValue(parts[2]) - 1))
    else None
  }

  /** An invoice number splits at its dashes into its three fields. */
  lemma InvoiceNumberFields(year: nat, count: nat)
    ensures Split(InvoiceNumberFor(year, count), '-') == ["INV", Dec(year), ZeroPad(count + 1, 3)]
  {
    var fields := ["INV", Dec(year), ZeroPad(count + 1, 3)];
    assert forall k :: 0 <= k < |fields| ==> '-' !in fields[k] by {
      assert forall s: string :: AllDigits(s) ==> '-' !in s;
    }
    SplitJoin(fields, '-');
  }

  /** An invoice number reads back as the year and count it was made from,
      and its sequence field has at least three digits. */
  lemma InvoiceNumberRoundTrip(year: nat, count: nat)
    ensures ParseInvoiceNumber(InvoiceNumberFor(year, count)) == Some((year, count))
    ensures |ZeroPad(count + 1, 3)| >= 3
  {
    InvoiceNumberFields(year, count);
    DecRoundTrip(year);
  }

  predicate MentionsYear(year: nat, inv: Invoice)
  {
    Contains(inv.invoiceNumber, Dec(year))
  }

  /** `generateInvoiceNumber`, with the clock's year as a parameter: numbered
      one past the invoices whose number mentions the year. */
  function GenerateInvoiceNumber(invoices: seq<Invoice>, year: nat): (r: string)
  {
    InvoiceNumberFor(year, |Filter(invoices, (inv: Invoice) => MentionsYear(year, inv))|)
  }

  /** The count in a generated number is the count of invoices that mention
      the year, so it never exceeds the list's length. */
  lemma GeneratedNumberCountsInvoices(invoices: seq<Invoice>, year: nat)
    ensures var p := ParseInvoiceNumber(GenerateInvoiceNumber(invoices, year));
      p.Some? && p.value.0 == year && p.value.1 <= |invoices|
      && p.value.1 == |Filter(invoices, (inv: Invoice) => MentionsYear(year, inv))|
  {
    InvoiceNumberRoundTrip(year, |Filter(invoices, (inv: Invoice) => MentionsYear(year, inv))|);
  }

  /** The three lines every mock invoice has: quantity 1 at 2100.00, with a
      stored amount of 945.00. */
  function MockItems(invoiceId: string): seq<InvoiceItem>
  {
    [ InvoiceItem("item-" + invoiceId + "-1", "Carat VS1 Blue Blue 3.45", Some(1.0), "C", Some(2100.0), 945.0),
      InvoiceItem("item-" + invoiceId + "-2", "Carat VS1 Blue Blue 3.45", Some(1.0), "C", Some(2100.0), 945.0),
      InvoiceItem("item-" + invoiceId + "-3", "Carat VS1 Blue Blue 3.45", Some(1.0), "C", Some(2100.0), 945.0) ]
  }

  const Inv1 := Invoice("inv-1", "INV-2023-001", "cust-1", "Tiffany & Co.", Some("PO-2023-001"), MockItems("inv-1"),
    InvoiceSummary(2835.0, 0.0, 0.0, 0.0, 0.0, 0.0, 0.0, 2835.0), Paid,
    "2023-01-10T10:30:00Z", "2023-01-11T15:45:00Z", Some("2023-01-20T09:15:00Z"))
  const Inv2 := Invoice("inv-2", "INV-2023-002", "cust-2", "Cartier", None, MockItems("inv-2"),
    InvoiceSummary(2835.0, 283.5, 191.36, 0.0, 25.0, 75.0, 0.0, 2842.86), Sent,
    "2023-02-15T11:20:00Z", "2023-02-15T11:20:00Z", None)
  const Inv3 := Invoice("inv-3", "INV-2023-003", "cust-3", "Blue Nile", Some("PO-2023-027"), MockItems("inv-3"),
    InvoiceSummary(2835.0, 0.0, 248.06, 0.0, 0.0, 50.0, 0.0, 3133.06), Overdue,
    "2023-03-20T09:00:00Z", "2023-03-20T09:00:00Z", None)

  /** `mockInvoices`. */
  const MockInvoices: seq<Invoice> := [Inv1, Inv2, Inv3]

  /** The mock lines sum to 2835.00. */
  lemma MockItemsSum(invoiceId: string)
    ensures Subtotal(MockItems(invoiceId)) == 2835.0
  {
    var m := MockItems(invoiceId);
    SumOfThree(m[0], m[1], m[2], Amount);
  }

  /** Every mock invoice's subtotal is the sum of its lines and its net amount
      satisfies the identity. */
  lemma MockInvoicesConsistent()
    ensures Consistent(Inv1) && Consistent(Inv2) && Consistent(Inv3)
  {
    MockItemsSum("inv-1");
    MockItemsSum("inv-2");
    MockItemsSum("inv-3");
  }

  /** The mock lines' stored amounts are not quantity times unit price, so
      opening a mock invoice for editing reprices each line at 2100.00 and
      the subtotal becomes 6300.00. */
  lemma EditingRepricesMockLines(invoiceId: string)
    ensures !AllPriced(MockItems(invoiceId))
    ensures Recompute(MockItems(invoiceId), None, DefaultTaxRate, None, None, None).1.subtotal == 6300.0
  {
    var r := Recompute(MockItems(invoiceId), None, DefaultTaxRate, None, None, None).0;
    assert r == [r[0], r[1], r[2]];
    SumOfThree(r[0], r[1], r[2], Amount);
  }

  lemma Dec2023()
    ensures Dec(2023) == "2023"
  {
    assert Dec(2) == "2";
    assert Dec(20) == "20";
    assert Dec(202) == "202";
  }

  /** Each mock invoice's number mentions 2023. */
  lemma MockInvoicesMention2023()
    ensures MentionsYear(2023, Inv1) && MentionsYear(2023, Inv2) && MentionsYear(2023, Inv3)
  {
    Dec2023();
    assert OccursAt(Inv1.invoiceNumber, "2023", 4);
    assert OccursAt(Inv2.invoiceNumber, "2023", 4);
    assert OccursAt(Inv3.invoiceNumber, "2023", 4);
    ContainsIffOccurs(Inv1.invoiceNumber, "2023");
    ContainsIffOccurs(Inv2.invoiceNumber, "2023");
    ContainsIffOccurs(Inv3.invoiceNumber, "2023");
  }

  /** All three mock invoices are numbered in 2023. */
  lemma MockInvoicesIn2023()
    ensures |Filter(MockInvoices, (inv: Invoice) => MentionsYear(2023, inv))| == 3
  {
    MockInvoicesMention2023();
    FilterAllPass(MockInvoices, (inv: Invoice) => MentionsYear(2023, inv));
  }

  /** The fourth invoice of 2023 is numbered `INV-2023-004`. */
  lemma FourthInvoiceOf2023()
    ensures InvoiceNumberFor(2023, 3) == "INV-2023-004"
  {
    Dec2023();
    assert ZeroPad(4, 3) == "004";
  }

  /** `Date.getFullYear()` of 2023: the next number after the three mock invoices is `INV-2023-004`. */
  lemma GenerateInvoiceNumberExample()
    ensures GenerateInvoiceNumber(MockInvoices, 2023) == "INV-2023-004"
  {
    MockInvoicesIn2023();
    FourthInvoiceOf2023();
  }

  /** The invoice list's search: a case-insensitive substring of the number,
      the customer's name or the purchase order. */
  predicate MatchesSearch(term: string, inv: Invoice)
  {
    Contains(Lower(inv.invoiceNumber), Lower(term))
    || Contains(Lower(inv.customerName), Lower(term))
    || (inv.purchaseOrder.Some? && inv.purchaseOrder.value != [] && Contains(Lower(inv.purchaseOrder.value), Lower(term)))
  }

  /** The status select: `ALL` or one status's name. */
  predicate MatchesStatusFilter(statusFilter: string, inv: Invoice)
  {
    statusFilter == "ALL" || InvoiceStatusName(inv.status) == statusFilter
  }

  /** `filteredInvoices`. */
  function FilterInvoices(invoices: seq<Invoice>, term: string, statusFilter: string): (r: seq<Invoice>)
    ensures forall k :: 0 <= k < |r| ==> MatchesSearch(term, r[k]) && MatchesStatusFilter(statusFilter, r[k])
    ensures forall k :: 0 <= k < |invoices| ==>
      (MatchesSearch(term, invoices[k]) && MatchesStatusFilter(statusFilter, invoices[k]) ==> invoices[k] in r)
    ensures statusFilter != "ALL" ==> forall k :: 0 <= k < |r| ==> InvoiceStatusName(r[k].status) == statusFilter
  {
    Filter(invoices, (inv: Invoice) => MatchesSearch(term, inv) && MatchesStatusFilter(statusFilter, inv))
  }

  /** The result lists the invoices in their original order. */
  lemma FilterInvoicesKeepsOrder(invoices: seq<Invoice>, term: string, statusFilter: string)
    ensures IsSubsequence(FilterInvoices(invoices, term, statusFilter), invoices)
  {
    FilterIsSubsequence(invoices, (inv: Invoice) => MatchesSearch(term, inv) && MatchesStatusFilter(statusFilter, inv));
  }

  /** An empty search with status `ALL` lists every invoice. */
  lemma EmptySearchListsAll(invoices: seq<Invoice>)
    ensures FilterInvoices(invoices, [], "ALL") == invoices
  {
    forall inv: Invoice ensures MatchesSearch([], inv) {
      ContainsEmpty(Lower(inv.invoiceNumber));
    }
    FilterAllPass(invoices, (inv: Invoice) => MatchesSearch([], inv) && MatchesStatusFilter("ALL", inv));
  }

  const BadgeGreen := "bg-green-100 text-green-800"
  const BadgeBlue := "bg-blue-100 text-blue-800"
  const BadgeGray := "bg-gray-100 text-gray-800"
  const BadgeRed := "bg-red-100 text-red-800"
  const BadgeOrange := "bg-orange-100 text-orange-800"

  /** `getStatusBadgeClass`, on whatever string the status holds. */
  function StatusBadgeClass(status: string): string
  {
    if status == "PAID" then BadgeGreen
    else if status == "SENT" then BadgeBlue
    else if status == "DRAFT" then BadgeGray
    else if status == "OVERDUE" then BadgeRed
    else if status == "CANCELLED" then BadgeOrange
    else BadgeGray
  }

  /** Every status but Draft has its own class; Draft and any unknown string
      share the gray default. */
  lemma StatusBadgeClassTotal(s: InvoiceStatus, t: InvoiceStatus, other: string)
    requires forall g: InvoiceStatus :: other != InvoiceStatusName(g)
    ensures StatusBadgeClass(other) == StatusBadgeClass(InvoiceStatusName(Draft)) == BadgeGray
    ensures s != Draft ==> StatusBadgeClass(InvoiceStatusName(s)) != BadgeGray
    ensures s != t && s != Draft && t != Draft ==>
      StatusBadgeClass(InvoiceStatusName(s)) != StatusBadgeClass(InvoiceStatusName(t))
  {
    assert other != InvoiceStatusName(Paid) && other != InvoiceStatusName(Sent) && other != InvoiceStatusName(Draft);
    assert other != InvoiceStatusName(Overdue) && other != InvoiceStatusName(Cancelled);
  }
}
