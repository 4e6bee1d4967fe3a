/**
 * The stores directory: every store's branches flattened into one table,
 * a search-and-store filter over that table, per-store monthly totals, and
 * the legacy AMC quarter dialog whose "Mark as Completed" mutates quarter
 * objects that the customer list shares.
 */
module Stores {
  import opened Common
  import opened JsString

  datatype StoreBranch = StoreBranch(
    id: int, name: string, location: string, phone: string, servicesThisMonth: nat, address: string)

  datatype Store = Store(id: nat, name: string, kind: string, logo: string, phone: string, branches: seq<StoreBranch>)

  /** A branch with its store's name and id attached: `{ ...branch, storeName, storeId }`. */
  datatype BranchRow = BranchRow(branch: StoreBranch, storeName: string, storeId: nat)

  /** The rows contributed by one store, in branch order. */
  function StoreRows(store: Store): (r: seq<BranchRow>)
    ensures |r| == |store.branches|
    ensures forall j :: 0 <= j < |r| ==> r[j] == BranchRow(store.branches[j], store.name, store.id)
  {
    seq(|store.branches|, j requires 0 <= j < |store.branches| => BranchRow(store.branches[j], store.name, store.id))
  }

  /** The number of branches over all stores. */
  function BranchCount(stores: seq<Store>): nat {
    if stores == [] then 0 else |stores[0].branches| + BranchCount(stores[1..])
  }

  /** `stores.flatMap(store => store.branches.map(...))`. */
  function AllBranches(stores: seq<Store>): (r: seq<BranchRow>)
    ensures |r| == BranchCount(stores)
    ensures forall i :: 0 <= i < |r| ==>
              exists k :: 0 <= k < |stores| && r[i] in StoreRows(stores[k])
  {
    if stores == [] then []
    else
      var head := StoreRows(stores[0]);
      var tail := AllBranches(stores[1..]);
      assert forall i :: |head| <= i < |head| + |tail| ==> (head + tail)[i] == tail[i - |head|];
      head + tail
  }

  /** Flattening distributes over concatenation of store lists, so rows follow store order. */
  lemma {:induction false} AllBranchesAppend(a: seq<Store>, b: seq<Store>)
    ensures AllBranches(a + b) == AllBranches(a) + AllBranches(b)
  {
    if a == [] {
      assert a + b == b;
    } else {
      assert (a + b)[0] == a[0] && (a + b)[1..] == a[1..] + b;
      AllBranchesAppend(a[1..], b);
    }
  }

  /** Every branch of every store appears in the table, tagged with its own store's name and id. */
  lemma {:induction false} AllBranchesComplete(stores: seq<Store>, k: nat, j: nat)
    requires k < |stores| && j < |stores[k].branches|
    ensures BranchRow(stores[k].branches[j], stores[k].name, stores[k].id) in AllBranches(stores)
  {
    if k == 0 {
      assert StoreRows(stores[0])[j] == BranchRow(stores[k].branches[j], stores[k].name, stores[k].id);
    } else {
      AllBranchesComplete(stores[1..], k - 1, j);
    }
  }

  /** The "Total Services (Month)" figure: `branches.reduce((sum, b) => sum + b.servicesThisMonth, 0)`. */
  function MonthlyTotal(branches: seq<StoreBranch>): (total: nat)
    ensures forall j :: 0 <= j < |branches| ==> branches[j].servicesThisMonth <= total
    ensures total == 0 <==> forall j :: 0 <= j < |branches| ==> branches[j].servicesThisMonth == 0
  {
    if branches == [] then 0 else branches[0].servicesThisMonth + MonthlyTotal(branches[1..])
  }

  /** The sum of `servicesThisMonth` over table rows. */
  function RowsTotal(rows: seq<BranchRow>): nat {
    if rows == [] then 0 else rows[0].branch.servicesThisMonth + RowsTotal(rows[1..])
  }

  /** The sum of the per-store totals. */
  function StoresTotal(stores: seq<Store>): nat {
    if stores == [] then 0 else MonthlyTotal(stores[0].branches) + StoresTotal(stores[1..])
  }

  lemma {:induction false} RowsTotalAppend(a: seq<BranchRow>, b: seq<BranchRow>)
    ensures RowsTotal(a + b) == RowsTotal(a) + RowsTotal(b)
  {
    if a == [] {
      assert a + b == b;
    } else {
      assert (a + b)[0] == a[0] && (a + b)[1..] == a[1..] + b;
      RowsTotalAppend(a[1..], b);
    }
  }

  lemma {:induction false} StoreRowsTotal(branches: seq<StoreBranch>, name: string, id: nat)
    ensures RowsTotal(StoreRows(Store(id, name, "", "", "", branches))) == MonthlyTotal(branches)
  {
    if branches != [] {
      var r := StoreRows(Store(id, name, "", "", "", branches));
      StoreRowsTotal(branches[1..], name, id);
      assert r[1..] == StoreRows(Store(id, name, "", "", "", branches[1..]));
    }
  }

  /** The per-store totals add up to the total over the flattened table: flattening loses and duplicates no branch. */
  lemma {:induction false} MonthlyTotalsAgree(stores: seq<Store>)
    ensures RowsTotal(AllBranches(stores)) == StoresTotal(stores)
  {
    if stores != [] {
      var s := stores[0];
      MonthlyTotalsAgree(stores[1..]);
      RowsTotalAppend(StoreRows(s), AllBranches(stores[1..]));
      StoreRowsTotal(s.branches, s.name, s.id);
      assert StoreRows(s) == StoreRows(Store(s.id, s.name, "", "", "", s.branches));
    }
  }

  /** The lower-cased search term occurs in the lower-cased branch name, location or store name. */
  predicate MatchesSearch(row: BranchRow, searchTerm: string) {
    IncludesIgnoringCase(row.branch.name, searchTerm) ||
    IncludesIgnoringCase(row.branch.location, searchTerm) ||
    IncludesIgnoringCase(row.storeName, searchTerm)
  }

  /** `storeFilter === "all" || branch.storeId.toString() === storeFilter`. */
  predicate MatchesStore(row: BranchRow, storeFilter: string) {
    storeFilter == "all" || NumberToString(row.storeId) == storeFilter
  }

  predicate KeepsRow(searchTerm: string, storeFilter: string, row: BranchRow) {
    MatchesSearch(row, searchTerm) && MatchesStore(row, storeFilter)
  }

  /** The `filteredBranches` table. */
  function FilteredBranches(rows: seq<BranchRow>, searchTerm: string, storeFilter: string): (r: seq<BranchRow>)
    ensures |r| <= |rows|
    ensures forall i :: 0 <= i < |r| ==> MatchesSearch(r[i], searchTerm) && MatchesStore(r[i], storeFilter)
  {
    Filter(rows, row => KeepsRow(searchTerm, storeFilter, row))
  }

  /** The filtered table keeps row order and holds exactly the rows passing both criteria. */
  lemma FilteredBranchesExact(rows: seq<BranchRow>, searchTerm: string, storeFilter: string)
    ensures IsSubsequence(FilteredBranches(rows, searchTerm, storeFilter), rows)
    ensures forall row :: row in FilteredBranches(rows, searchTerm, storeFilter) <==>
                          row in rows && MatchesSearch(row, searchTerm) && MatchesStore(row, storeFilter)
  {
    FilterIsSubsequence(rows, row => KeepsRow(searchTerm, storeFilter, row));
    forall row
      ensures row in FilteredBranches(rows, searchTerm, storeFilter) <==>
              row in rows && MatchesSearch(row, searchTerm) && MatchesStore(row, storeFilter)
    {
      FilterMembership(rows, row => KeepsRow(searchTerm, storeFilter, row), row);
    }
  }

  /** Filtering on a store's id keeps only rows of that store: distinct ids have distinct texts. */
  lemma StoreFilterSelectsOneStore(rows: seq<BranchRow>, searchTerm: string, id: nat)
    ensures forall row :: row in FilteredBranches(rows, searchTerm, NumberToString(id)) ==> row.storeId == id
  {
    forall row | row in FilteredBranches(rows, searchTerm, NumberToString(id))
      ensures row.storeId == id
    {
      var r := FilteredBranches(rows, searchTerm, NumberToString(id));
      var i :| 0 <= i < |r| && r[i] == row;
      assert MatchesStore(row, NumberToString(id));
      var text := NumberToString(id);
      assert IsDigit(text[0]) && !IsDigit("all"[0]);
      NumberToStringInjective(row.storeId, id);
    }
  }

  /** An empty search with the "all" filter shows the whole table. */
  lemma EmptySearchKeepsAll(rows: seq<BranchRow>)
    ensures FilteredBranches(rows, "", "all") == rows
  {
    forall i | 0 <= i < |rows| ensures KeepsRow("", "all", rows[i]) {
      IncludesEmpty(ToLower(rows[i].branch.name));
    }
    FilterKeepsAll(rows, row => KeepsRow("", "all", row));
  }

  // ---------------------------------------------------------------------
  // The legacy AMC quarter dialog.

  /** A quarter record of the AMC customer data; its objects are shared between the list and the selection. */
  class Quarter {
    const id: int
    var name: string
    var status: string
    var files: seq<string>

    constructor (id: int, name: string, status: string, files: seq<string>)
      ensures this.id == id && this.name == name && this.status == status && this.files == files
    {
      this.id := id;
      this.name := name;
      this.status := status;
      this.files := files;
    }
  }

  datatype AmcCustomer = AmcCustomer(id: int, name: string, logo: string, password: string, quarters: seq<Quarter>)

  datatype CustomerForm = CustomerForm(name: string, logo: string, password: string)

  const EmptyCustomerForm := CustomerForm("", "", "")
  const EditPassword: string := "12345678"
  const Completed: string := "completed"

  /** `quarters.findIndex(q => q.id === id)`: the first index holding that id, or -1. */
  function FindQuarterIndex(quarters: seq<Quarter>, id: int): (r: int)
    ensures -1 <= r < |quarters|
    ensures r == -1 <==> forall j :: 0 <= j < |quarters| ==> quarters[j].id != id
    ensures r >= 0 ==> quarters[r].id == id && forall j :: 0 <= j < r ==> quarters[j].id != id
  {
    if quarters == [] then -1
    else if quarters[0].id == id then 0
    else
      var k := FindQuarterIndex(quarters[1..], id);
      if k == -1 then -1 else k + 1
  }

  /** The quarter object "Mark as Completed" writes to, if any. */
  function MarkTarget(customer: Option<AmcCustomer>, quarter: Option<Quarter>): (target: set<Quarter>)
    ensures |target| <= 1
    ensures forall q :: q in target ==> customer.Some? && quarter.Some? && q in customer.value.quarters && q.id == quarter.value.id
  {
    if customer.Some? && quarter.Some? then
      var k := FindQuarterIndex(customer.value.quarters, quarter.value.id);
      if k == -1 then {} else {customer.value.quarters[k]}
    else {}
  }

  /** No two quarters of a customer share an id. */
  predicate DistinctQuarterIds(quarters: seq<Quarter>) {
    forall i, j :: 0 <= i < j < |quarters| ==> quarters[i].id != quarters[j].id
  }

  /** When the selected quarter object belongs to the selected customer and ids are distinct, the write goes to that very object. */
  lemma MarkTargetIsSelection(customer: AmcCustomer, quarter: Quarter)
    requires quarter in customer.quarters && DistinctQuarterIds(customer.quarters)
    ensures MarkTarget(Some(customer), Some(quarter)) == {quarter}
  {
    var k := FindQuarterIndex(customer.quarters, quarter.id);
    var i :| 0 <= i < |customer.quarters| && customer.quarters[i] == quarter;
    assert k == i;
  }

  /** The state of the stores page that the model covers. */
  class StoresPage {
    const stores: seq<Store>
    const amcCustomers: seq<AmcCustomer>
    var searchTerm: string
    var storeFilter: string
    var selectedCustomer: Option<AmcCustomer>
    var selectedQuarter: Option<Quarter>
    var newCustomerData: CustomerForm
    var passwordError: bool
    var selectedFile: Option<string>

    /** The rows the branch table shows. */
    function ShownBranches(): (r: seq<BranchRow>)
      reads this
      ensures IsSubsequence(r, AllBranches(stores))
    {
      FilteredBranchesExact(AllBranches(stores), searchTerm, storeFilter);
      FilteredBranches(AllBranches(stores), searchTerm, storeFilter)
    }

    constructor (stores: seq<Store>, amcCustomers: seq<AmcCustomer>)
      ensures this.stores == stores && this.amcCustomers == amcCustomers
      ensures searchTerm == "" && storeFilter == "all" && selectedCustomer == None && selectedQuarter == None
      ensures newCustomerData == EmptyCustomerForm && !passwordError && selectedFile == None
      ensures ShownBranches() == AllBranches(stores)
    {
      this.stores := stores;
      this.amcCustomers := amcCustomers;
      searchTerm := "";
      storeFilter := "all";
      selectedCustomer := None;
      selectedQuarter := None;
      newCustomerData := EmptyCustomerForm;
      passwordError := false;
      selectedFile := None;
      new;
      EmptySearchKeepsAll(AllBranches(stores));
    }

    /** "Save Changes" in the customer edit dialog: the password must be the fixed literal. */
    method CustomerEdit()
      modifies this`passwordError, this`newCustomerData
      ensures old(newCustomerData.password) != EditPassword ==>
              passwordError && newCustomerData == old(newCustomerData)
      ensures old(newCustomerData.password) == EditPassword ==>
              !passwordError && newCustomerData == EmptyCustomerForm
    {
      if newCustomerData.password != EditPassword {
        passwordError := true;
        return;
      }
      passwordError := false;
      newCustomerData := EmptyCustomerForm;
    }

    /** Choosing files keeps the first one; an empty choice changes nothing. */
    method UploadFile(chosen: seq<string>)
      modifies this`selectedFile
      ensures |chosen| > 0 ==> selectedFile == Some(chosen[0])
      ensures |chosen| == 0 ==> selectedFile == old(selectedFile)
    {
      if |chosen| > 0 {
        selectedFile := Some(chosen[0]);
      }
    }

    /** Clicking a quarter button of a customer card. */
    method SelectQuarter(customer: AmcCustomer, quarter: Quarter)
      requires quarter in customer.quarters
      modifies this`selectedCustomer, this`selectedQuarter
      ensures selectedCustomer == Some(customer) && selectedQuarter == Some(quarter)
    {
      selectedCustomer := Some(customer);
      selectedQuarter := Some(quarter);
    }

    /** Closing the quarter dialog. */
    method CloseQuarterDialog()
      modifies this`selectedQuarter
      ensures selectedQuarter == None
    {
      selectedQuarter := None;
    }

    /**
     * "Mark as Completed": the quarter with the selected quarter's id inside the
     * selected customer's (shared) quarter list is set to completed and gets the
     * selected file's name appended. Nothing else is written, so every holder of
     * that quarter object, the customer list included, sees the change.
     */
    method MarkAsCompleted()
      modifies this`selectedCustomer, MarkTarget(selectedCustomer, selectedQuarter)
      ensures selectedCustomer == old(selectedCustomer)
      ensures forall q :: q in old(MarkTarget(selectedCustomer, selectedQuarter)) ==>
                q.status == Completed && q.name == old(q.name) &&
                q.files == old(q.files) + (if selectedFile.Some? then [selectedFile.value] else [])
    {
      if selectedCustomer.Some? && selectedQuarter.Some? {
        var updated := selectedCustomer.value;
        var k := FindQuarterIndex(updated.quarters, selectedQuarter.value.id);
        if k != -1 {
          var q := updated.quarters[k];
          q.status := Completed;
          if selectedFile.Some? {
            q.files := q.files + [selectedFile.value];
          }
          selectedCustomer := Some(updated);
        }
      }
    }
  }
}
