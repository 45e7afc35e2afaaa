/** The customer list of src/pages/Customers.tsx (adding and updating
    customers, the selected customer's memos) and the search and type badge
    of src/components/CustomerManagement.tsx. */
module Customers {
  import opened Wrappers
  import opened Seqs
  import opened Text

  datatype CustomerType = Retail | Wholesale | Dealer

  function CustomerTypeName(t: CustomerType): string
  {
    match t
    case Retail => "Retail" case Wholesale => "Wholesale" case Dealer => "Dealer"
  }

  /** What the customer form submits: every field of a customer but its id. */
  datatype CustomerFields = CustomerFields(name: string, email: string, phone: string, company: Option<string>,
                                           address: Option<string>, customerType: CustomerType,
                                           creditLimit: Option<real>, notes: Option<string>)

  datatype Customer = Customer(id: string, fields: CustomerFields)

  datatype MemoStatus = MemoActive | MemoReturned | MemoSold | MemoOverdue

  function MemoStatusName(s: MemoStatus): string
  {
    match s
    case MemoActive => "Active" case MemoReturned => "Returned" case MemoSold => "Sold" case MemoOverdue => "Overdue"
  }

  /** A diamond lent to a customer. The expected end date is a day number
      (days since 1970-01-01), the form `new Date("YYYY-MM-DD")` reads. */
  datatype DiamondMemo = DiamondMemo(id: string, diamondId: string, customerId: string, startDate: string,
                                     expectedEndDay: int, actualReturnDate: Option<string>, status: MemoStatus,
                                     notes: Option<string>)

  /** The ids the page hands out are `"1"`, `"2"`, ... in list order. */
  predicate NumberedIds(cs: seq<Customer>)
  {
    forall i :: 0 <= i < |cs| ==> cs[i].id == Dec(i + 1)
  }

  /** `handleCustomerSubmit`: the new customer gets id `String(length + 1)`
      and goes at the end; the customers before it are untouched. */
  function AddCustomer(cs: seq<Customer>, data: CustomerFields): (r: seq<Customer>)
    ensures |r| == |cs| + 1 && r[..|cs|] == cs
    ensures r[|cs|].fields == data && r[|cs|].id == Dec(|cs| + 1)
  {
    cs + [Customer(Dec(|cs| + 1), data)]
  }

  /** `handleCustomerUpdate`: with a customer selected, every customer with
      that id takes the submitted fields and keeps its id; with none selected
      nothing happens. */
  function UpdateCustomer(cs: seq<Customer>, selected: Option<string>, data: CustomerFields): (r: seq<Customer>)
    ensures selected.None? || selected.value == [] ==> r == cs
    ensures |r| == |cs|
    ensures forall i :: 0 <= i < |r| ==> r[i].id == cs[i].id
    ensures selected.Some? && selected.value != [] ==> forall i :: 0 <= i < |r| ==>
      r[i].fields == if cs[i].id == selected.value then data else cs[i].fields
  {
    if selected.None? || selected.value == [] then cs
    else
      seq(|cs|, i requires 0 <= i < |cs| =>
        if cs[i].id == selected.value then Customer(cs[i].id, data) else cs[i])
  }

  /** Adding keeps the ids numbered, and the id it hands out is one no
      earlier customer has. */
  lemma AddKeepsNumberedIds(cs: seq<Customer>, data: CustomerFields)
    requires NumberedIds(cs)
    ensures NumberedIds(AddCustomer(cs, data))
    ensures forall i :: 0 <= i < |cs| ==> cs[i].id != Dec(|cs| + 1)
  {
    forall i | 0 <= i < |cs| ensures cs[i].id != Dec(|cs| + 1) {
      if cs[i].id == Dec(|cs| + 1) {
        DecInjective(i + 1, |cs| + 1);
      }
    }
  }

  /** Updating keeps the ids numbered, and with numbered ids an update of an
      existing id changes exactly one customer. */
  lemma UpdateKeepsNumberedIds(cs: seq<Customer>, k: nat, data: CustomerFields)
    requires NumberedIds(cs) && k < |cs|
    ensures var r := UpdateCustomer(cs, Some(cs[k].id), data);
      && NumberedIds(r)
      && r[k] == Customer(cs[k].id, data)
      && forall i :: 0 <= i < |cs| && i != k ==> r[i] == cs[i]
  {
    var r := UpdateCustomer(cs, Some(cs[k].id), data);
    assert cs[k].id != [];
    forall i | 0 <= i < |cs| && i != k ensures r[i] == cs[i] {
      if cs[i].id == cs[k].id {
        DecInjective(i + 1, k + 1);
      }
    }
  }

  /** `mockCustomers`. */
  const MockCustomers: seq<Customer> := [
    Customer("1", CustomerFields("Jane Smith", "jane.smith@example.com", "(555) 123-4567", Some("Smith Jewelers"),
      Some("123 Main St, New York, NY"), Retail, Some(10000.0), Some("Prefers Princess cut diamonds"))),
    Customer("2", CustomerFields("Robert Johnson", "robert@jjdiamonds.com", "(555) 987-6543", Some("JJ Diamonds"),
      Some("456 Market St, Chicago, IL"), Wholesale, Some(50000.0), Some("Bulk orders monthly"))),
    Customer("3", CustomerFields("Sarah Williams", "swilliams@luxejewels.com", "(555) 456-7890", Some("Luxe Jewels"),
      Some("789 Broadway, Los Angeles, CA"), Dealer, Some(100000.0), Some("VIP client, prefers top quality"))),
    Customer("4", CustomerFields("Michael Brown", "michael@browndiamond.com", "(555) 234-5678", Some("Brown Diamond Co."),
      Some("234 Oak St, Dallas, TX"), Wholesale, Some(75000.0), Some("Specialized in colored diamonds")))
  ]

  /** The mock customers are numbered `"1"` to `"4"`, so every list the page
      builds from them by adds and updates stays numbered. */
  lemma MockCustomersAreNumbered()
    ensures NumberedIds(MockCustomers)
  {
    assert Dec(1) == "1" && Dec(2) == "2" && Dec(3) == "3" && Dec(4) == "4";
  }

  /** `mockMemos`: one memo per customer, end days 2025-04-27, -22, -17 and -08. */
  const MockMemos: seq<DiamondMemo> := [
    DiamondMemo("1", "1", "1", "2025-04-20", 20205, None, MemoActive, Some("Client interested in setting as engagement ring")),
    DiamondMemo("2", "3", "2", "2025-04-15", 20200, Some("2025-04-21"), MemoReturned, Some("Client decided on a different stone")),
    DiamondMemo("3", "4", "3", "2025-04-10", 20195, None, MemoSold, Some("Purchased for custom pendant design")),
    DiamondMemo("4", "2", "4", "2025-04-01", 20186, None, MemoOverdue, Some("Follow-up call scheduled"))
  ]

  /** `customers.find(c => c.id === id)`: the first customer with that id. */
  function FindCustomer(cs: seq<Customer>, id: string): (r: Option<Customer>)
    ensures r.None? <==> forall k :: 0 <= k < |cs| ==> cs[k].id != id
    ensures r.Some? ==> r.value.id == id && r.value in cs
    ensures r.Some? ==> exists k :: 0 <= k < |cs| && cs[k] == r.value && forall j :: 0 <= j < k ==> cs[j].id != id
  {
    if cs == [] then None
    else if cs[0].id == id then Some(cs[0])
    else
      var r := FindCustomer(cs[1..], id);
      assert forall k :: 1 <= k < |cs| ==> cs[k] == cs[1..][k - 1];
      r
  }

  /** The selected customer's memos (`customerMemos`). */
  function CustomerMemos(memos: seq<DiamondMemo>, cs: seq<Customer>, selected: Option<string>): (r: seq<DiamondMemo>)
  {
    var customer := if selected.None? || selected.value == [] then None else FindCustomer(cs, selected.value);
    Filter(memos, (m: DiamondMemo) => customer.Some? && m.customerId == customer.value.id)
  }

  /** With a selected customer that exists, the memos shown are exactly the
      ones lent to that customer, in order; otherwise there are none. */
  lemma CustomerMemosAreTheSelectedCustomers(memos: seq<DiamondMemo>, cs: seq<Customer>, selected: Option<string>)
    ensures var r := CustomerMemos(memos, cs, selected);
      && IsSubsequence(r, memos)
      && (selected.None? || selected.value == [] || (forall k :: 0 <= k < |cs| ==> cs[k].id != selected.value) ==> r == [])
      && (selected.Some? && selected.value != [] ==>
            && (forall k :: 0 <= k < |r| ==> r[k].customerId == selected.value)
            && ((exists j :: 0 <= j < |cs| && cs[j].id == selected.value) ==>
                  forall k :: 0 <= k < |memos| && memos[k].customerId == selected.value ==> memos[k] in r))
  {
    var customer := if selected.None? || selected.value == [] then None else FindCustomer(cs, selected.value);
    var p := (m: DiamondMemo) => customer.Some? && m.customerId == customer.value.id;
    FilterIsSubsequence(memos, p);
    if customer.None? {
      NoneSurvive(memos, p);
    }
  }

  /** The customer search: the name or e-mail contains the term ignoring
      case, or the phone number contains it exactly as typed. */
  predicate MatchesNameOrEmail(term: string, c: Customer)
  {
    Contains(Lower(c.fields.name), Lower(term)) || Contains(Lower(c.fields.email), Lower(term))
  }

  predicate MatchesCustomer(term: string, c: Customer)
  {
    MatchesNameOrEmail(term, c) || Contains(c.fields.phone, term)
  }

  /** `filteredCustomers`. */
  function FilterCustomers(cs: seq<Customer>, term: string): (r: seq<Customer>)
    ensures forall k :: 0 <= k < |r| ==> MatchesCustomer(term, r[k])
    ensures forall k :: 0 <= k < |cs| ==> (MatchesCustomer(term, cs[k]) ==> cs[k] in r)
  {
    Filter(cs, (c: Customer) => MatchesCustomer(term, c))
  }

  /** The result keeps the list's order, and an empty search keeps every customer. */
  lemma FilterCustomersOrderAndEmpty(cs: seq<Customer>, term: string)
    ensures IsSubsequence(FilterCustomers(cs, term), cs)
    ensures FilterCustomers(cs, []) == cs
  {
    FilterIsSubsequence(cs, (c: Customer) => MatchesCustomer(term, c));
    forall c: Customer ensures MatchesCustomer([], c) {
      ContainsEmpty(c.fields.phone);
    }
    FilterAllPass(cs, (c: Customer) => MatchesCustomer([], c));
  }

  /** Name and e-mail matching ignore the case of the term: a term and its
      lower-cased form match the same customers there. */
  lemma NameAndEmailIgnoreCase(term: string, c: Customer)
    ensures MatchesNameOrEmail(term, c) <==> MatchesNameOrEmail(Lower(term), c)
  {
    LowerIdempotent(term);
  }

  /** The phone number is matched as typed: an upper-case term does not find
      the lower-case text it would find in a name. */
  lemma PhoneIsCaseSensitive()
    ensures var c := Customer("1", CustomerFields("", "", "ext a", None, None, Retail, None, None));
      MatchesCustomer("a", c) && !MatchesCustomer("A", c)
  {
    var c := Customer("1", CustomerFields("", "", "ext a", None, None, Retail, None, None));
    assert OccursAt(c.fields.phone, "a", 4);
    ContainsIffOccurs(c.fields.phone, "a");
    ContainsIffOccurs(c.fields.phone, "A");
    forall i ensures !OccursAt(c.fields.phone, "A", i) {
      if 0 <= i < |c.fields.phone| {
        assert c.fields.phone[i..i + 1][0] == c.fields.phone[i] != 'A';
      }
    }
    assert Lower("A") == "a" && Lower("") == "";
    ContainsIffOccurs([], "a");
  }

  const TypeBlue := "bg-blue-100 text-blue-800"
  const TypePurple := "bg-purple-100 text-purple-800"
  const TypeGreen := "bg-green-100 text-green-800"
  const TypeGray := "bg-gray-100 text-gray-800"

  /** `getCustomerTypeClass`. */
  function CustomerTypeClass(t: string): string
  {
    if t == "Retail" then TypeBlue
    else if t == "Wholesale" then TypePurple
    else if t == "Dealer" then TypeGreen
    else TypeGray
  }

  /** Each customer type has its own class, and only strings that name no
      type get the gray default. */
  lemma CustomerTypeClassTotal(s: CustomerType, t: CustomerType, other: string)
    requires forall g: CustomerType :: other != CustomerTypeName(g)
    ensures CustomerTypeClass(other) == TypeGray
    ensures CustomerTypeClass(CustomerTypeName(s)) != TypeGray
    ensures s != t ==> CustomerTypeClass(CustomerTypeName(s)) != CustomerTypeClass(CustomerTypeName(t))
  {
    assert other != CustomerTypeName(Retail) && other != CustomerTypeName(Wholesale) && other != CustomerTypeName(Dealer);
  }
}
