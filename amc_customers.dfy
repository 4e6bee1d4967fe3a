/**
 * The flattened AMC customer list: each customer carries its four quarter
 * flags directly; customers can be added, renamed behind a password check,
 * and have a quarter marked completed from the quarter detail view.
 */
module AmcCustomers {
  import opened Common

  datatype Customer = Customer(id: int, name: string, logo: string, password: string, quarters: seq<bool>)

  /** The toasts the page raises. */
  datatype Notice =
    | QuarterCompleted(quarterNumber: int, customerName: string)
    | FileUploaded
    | CustomerUpdated
    | CustomerNameRequired
    | CustomerAdded

  const DefaultLogo: string := "/placeholder.svg"
  const DefaultPassword: string := "12345678"
  const NoQuarterDone: seq<bool> := [false, false, false, false]

  /** Ids run 1, 2, 3, ... in list order and every customer has four flags. */
  ghost predicate WellFormedCustomers(customers: seq<Customer>) {
    forall k :: 0 <= k < |customers| ==> customers[k].id == k + 1 && |customers[k].quarters| == 4
  }

  /** `const updated = [...quarters]; updated[quarter] = true;` */
  function SetQuarter(quarters: seq<bool>, quarter: nat): (r: seq<bool>)
    requires quarter < |quarters|
    ensures |r| == |quarters| && r[quarter]
    ensures forall i :: 0 <= i < |quarters| && i != quarter ==> r[i] == quarters[i]
  {
    quarters[quarter := true]
  }

  /** The list rewrite of "Mark as Completed": the customer with the given id gets the quarter set. */
  function MarkCustomerQuarter(customers: seq<Customer>, id: int, quarter: nat): (r: seq<Customer>)
    requires forall k :: 0 <= k < |customers| ==> quarter < |customers[k].quarters|
    ensures |r| == |customers|
    ensures forall k :: 0 <= k < |r| && customers[k].id != id ==> r[k] == customers[k]
    ensures forall k :: 0 <= k < |r| && customers[k].id == id ==>
              r[k] == customers[k].(quarters := SetQuarter(customers[k].quarters, quarter))
  {
    seq(|customers|, k requires 0 <= k < |customers| =>
      if customers[k].id == id then customers[k].(quarters := SetQuarter(customers[k].quarters, quarter))
      else customers[k])
  }

  /** Marking twice is marking once. */
  lemma MarkCustomerQuarterIdempotent(customers: seq<Customer>, id: int, quarter: nat)
    requires forall k :: 0 <= k < |customers| ==> quarter < |customers[k].quarters|
    ensures var once := MarkCustomerQuarter(customers, id, quarter);
            MarkCustomerQuarter(once, id, quarter) == once
  {
    var once := MarkCustomerQuarter(customers, id, quarter);
    var twice := MarkCustomerQuarter(once, id, quarter);
    forall k | 0 <= k < |customers| ensures twice[k] == once[k] {
      if customers[k].id == id {
        assert twice[k].quarters == once[k].quarters;
      }
    }
  }

  /** Marking keeps ids, names, logos, passwords and flag counts, and never clears a flag. */
  lemma MarkCustomerQuarterMonotone(customers: seq<Customer>, id: int, quarter: nat)
    requires WellFormedCustomers(customers) && quarter < 4
    ensures var r := MarkCustomerQuarter(customers, id, quarter);
            WellFormedCustomers(r) &&
            (forall k, i :: 0 <= k < |r| && 0 <= i < 4 && customers[k].quarters[i] ==> r[k].quarters[i]) &&
            (forall k :: 0 <= k < |r| ==>
               r[k].name == customers[k].name && r[k].logo == customers[k].logo &&
               r[k].password == customers[k].password)
  {
  }

  /** The list rewrite of a successful edit: an empty new name keeps the old one. */
  function RenameCustomer(customers: seq<Customer>, id: int, newName: string): (r: seq<Customer>)
    ensures |r| == |customers|
    ensures forall k :: 0 <= k < |r| && customers[k].id != id ==> r[k] == customers[k]
    ensures forall k :: 0 <= k < |r| && customers[k].id == id ==>
              r[k].id == id && r[k].logo == customers[k].logo && r[k].password == customers[k].password &&
              r[k].quarters == customers[k].quarters &&
              r[k].name == (if newName != "" then newName else customers[k].name)
  {
    seq(|customers|, k requires 0 <= k < |customers| =>
      if customers[k].id == id then customers[k].(name := if newName != "" then newName else customers[k].name)
      else customers[k])
  }

  /** With ids 1..n, the id `n + 1` given to a new customer is not in use. */
  lemma NewCustomerIdFresh(customers: seq<Customer>)
    requires WellFormedCustomers(customers)
    ensures forall k :: 0 <= k < |customers| ==> customers[k].id != |customers| + 1
  {
  }

  /** The state of the AMC customers page. */
  class AmcCustomersPage {
    var customers: seq<Customer>
    var selectedCustomer: Option<Customer>
    var showQuarters: bool
    var selectedQuarter: Option<int>
    var isUploading: bool
    var editCustomer: Option<Customer>
    var newCustomerName: string
    var password: string
    var passwordError: bool
    var logoFile: Option<string>
    var addingNew: bool

    /** Customers are well formed, a selection has four flags, and the navigation is one the page's controls reach. */
    ghost predicate Valid()
      reads this
    {
      WellFormedCustomers(customers) &&
      (selectedCustomer.Some? ==> |selectedCustomer.value.quarters| == 4) &&
      (selectedQuarter.Some? ==> 0 <= selectedQuarter.value < 4) &&
      NavigationConsistent()
    }

    /** `!showQuarters && !selectedQuarter`: the quarter index 0 is falsy, so it counts as no quarter. */
    predicate ShowsCustomerList()
      reads this
    {
      !showQuarters && (selectedQuarter.None? || selectedQuarter.value == 0)
    }

    /** `showQuarters && selectedCustomer && selectedQuarter === null`. */
    predicate ShowsQuarterGrid()
      reads this
    {
      showQuarters && selectedCustomer.Some? && selectedQuarter.None?
    }

    /** `showQuarters && selectedCustomer && selectedQuarter !== null`. */
    predicate ShowsQuarterDetail()
      reads this
    {
      showQuarters && selectedCustomer.Some? && selectedQuarter.Some?
    }

    /** The states the page's own controls lead to: quarters hidden only with no quarter, shown only with a customer. */
    ghost predicate NavigationConsistent()
      reads this
    {
      (!showQuarters ==> selectedQuarter.None?) && (showQuarters ==> selectedCustomer.Some?)
    }

    constructor (initial: seq<Customer>)
      requires WellFormedCustomers(initial)
      ensures Valid()
      ensures customers == initial && selectedCustomer == None && !showQuarters && selectedQuarter == None
      ensures !isUploading && editCustomer == None && newCustomerName == "" && password == ""
      ensures !passwordError && logoFile == None && !addingNew
    {
      customers := initial;
      selectedCustomer := None;
      showQuarters := false;
      selectedQuarter := None;
      isUploading := false;
      editCustomer := None;
      newCustomerName := "";
      password := "";
      passwordError := false;
      logoFile := None;
      addingNew := false;
    }

    /** "View Quarters" on a customer card. */
    method CustomerClick(c: Customer)
      requires Valid() && c in customers
      modifies this`selectedCustomer, this`showQuarters, this`selectedQuarter
      ensures Valid()
      ensures selectedCustomer == Some(c) && showQuarters && selectedQuarter == None
      ensures ShowsQuarterGrid()
    {
      selectedCustomer := Some(c);
      showQuarters := true;
      selectedQuarter := None;
    }

    /** Clicking one of the four quarter cards, which exist only on the quarter grid. */
    method QuarterClick(index: int)
      requires Valid() && ShowsQuarterGrid() && 0 <= index < 4
      modifies this`selectedQuarter
      ensures Valid() && selectedQuarter == Some(index)
      ensures ShowsQuarterDetail()
    {
      selectedQuarter := Some(index);
    }

    /** "Back to Customers", a button of the quarter grid. */
    method BackToCustomers()
      requires Valid() && ShowsQuarterGrid()
      modifies this`showQuarters
      ensures Valid() && !showQuarters
      ensures ShowsCustomerList()
    {
      showQuarters := false;
    }

    /** "Back to Quarters" on the quarter detail. */
    method BackToQuarters()
      requires Valid()
      modifies this`selectedQuarter
      ensures Valid() && selectedQuarter == None
      ensures selectedCustomer.Some? && showQuarters ==> ShowsQuarterGrid()
    {
      selectedQuarter := None;
    }

    /** "Mark as Completed": the quarter is set both in the list entry and in the selected copy. */
    method MarkAsCompleted() returns (notice: Option<Notice>)
      requires Valid()
      modifies this`customers, this`selectedCustomer
      ensures Valid()
      ensures old(selectedCustomer).Some? && selectedQuarter.Some? ==>
              var sc := old(selectedCustomer.value);
              customers == MarkCustomerQuarter(old(customers), sc.id, selectedQuarter.value) &&
              selectedCustomer == Some(sc.(quarters := SetQuarter(sc.quarters, selectedQuarter.value))) &&
              notice == Some(QuarterCompleted(selectedQuarter.value + 1, sc.name))
      ensures !(old(selectedCustomer).Some? && selectedQuarter.Some?) ==>
              customers == old(customers) && selectedCustomer == old(selectedCustomer) && notice == None
    {
      notice := None;
      if selectedCustomer.Some? && selectedQuarter.Some? {
        var sc := selectedCustomer.value;
        var q := selectedQuarter.value;
        MarkCustomerQuarterMonotone(customers, sc.id, q);
        customers := MarkCustomerQuarter(customers, sc.id, q);
        selectedCustomer := Some(sc.(quarters := SetQuarter(sc.quarters, q)));
        notice := Some(QuarterCompleted(q + 1, sc.name));
      }
    }

    /** Choosing a job-sheet file starts the simulated upload; without a file nothing happens. */
    method StartFileUpload(hasFile: bool)
      modifies this`isUploading
      ensures isUploading == (old(isUploading) || hasFile)
    {
      if hasFile {
        isUploading := true;
      }
    }

    /** The delayed end of the simulated upload. */
    method FinishFileUpload() returns (notice: Notice)
      modifies this`isUploading
      ensures !isUploading && notice == FileUploaded
    {
      isUploading := false;
      notice := FileUploaded;
    }

    /** "Edit" on a customer card opens the dialog with the customer's name and an empty password. */
    method StartEdit(c: Customer)
      modifies this`editCustomer, this`newCustomerName, this`password, this`passwordError
      ensures editCustomer == Some(c) && newCustomerName == c.name && password == "" && !passwordError
    {
      editCustomer := Some(c);
      newCustomerName := c.name;
      password := "";
      passwordError := false;
    }

    /** "Save Changes": the typed password must equal the edited customer's stored password. */
    method EditCustomer() returns (notice: Option<Notice>)
      requires Valid()
      modifies this`customers, this`editCustomer, this`password, this`newCustomerName,
               this`logoFile, this`passwordError
      ensures Valid()
      ensures old(editCustomer).None? ==>
              customers == old(customers) && editCustomer == None && password == old(password) &&
              newCustomerName == old(newCustomerName) && logoFile == old(logoFile) &&
              passwordError == old(passwordError) && notice == None
      ensures old(editCustomer).Some? && old(password) != old(editCustomer.value.password) ==>
              passwordError && customers == old(customers) && editCustomer == old(editCustomer) &&
              password == old(password) && newCustomerName == old(newCustomerName) &&
              logoFile == old(logoFile) && notice == None
      ensures old(editCustomer).Some? && old(password) == old(editCustomer.value.password) ==>
              customers == RenameCustomer(old(customers), old(editCustomer.value.id), old(newCustomerName)) &&
              editCustomer == None && password == "" && newCustomerName == "" && logoFile == None &&
              !passwordError && notice == Some(CustomerUpdated)
    {
      notice := None;
      if editCustomer.None? {
        return;
      }
      if password != editCustomer.value.password {
        passwordError := true;
        return;
      }
      customers := RenameCustomer(customers, editCustomer.value.id, newCustomerName);
      editCustomer := None;
      password := "";
      newCustomerName := "";
      logoFile := None;
      passwordError := false;
      notice := Some(CustomerUpdated);
    }

    /** "Add Customer": a non-empty name appends a customer with id `length + 1` and the defaults. */
    method AddCustomer() returns (notice: Notice)
      requires Valid()
      modifies this`customers, this`addingNew, this`newCustomerName
      ensures Valid()
      ensures old(newCustomerName) == "" ==>
              notice == CustomerNameRequired && customers == old(customers) &&
              addingNew == old(addingNew) && newCustomerName == old(newCustomerName)
      ensures old(newCustomerName) != "" ==>
              notice == CustomerAdded && !addingNew && newCustomerName == "" &&
              customers == old(customers) +
                [Customer(|old(customers)| + 1, old(newCustomerName), DefaultLogo, DefaultPassword, NoQuarterDone)]
    {
      if newCustomerName == "" {
        notice := CustomerNameRequired;
        return;
      }
      customers := customers + [Customer(|customers| + 1, newCustomerName, DefaultLogo, DefaultPassword, NoQuarterDone)];
      addingNew := false;
      newCustomerName := "";
      notice := CustomerAdded;
    }
  }

  /**
   * The three render guards never show two views at once; in every valid
   * state (the constructor's and each handler's `ensures Valid()`), exactly
   * one shows.
   */
  lemma ViewsExclusive(p: AmcCustomersPage)
    ensures !(p.ShowsCustomerList() && p.ShowsQuarterGrid())
    ensures !(p.ShowsCustomerList() && p.ShowsQuarterDetail())
    ensures !(p.ShowsQuarterGrid() && p.ShowsQuarterDetail())
    ensures p.Valid() ==>
            p.ShowsCustomerList() || p.ShowsQuarterGrid() || p.ShowsQuarterDetail()
  {
  }

  /** The truthiness guard: with the quarters hidden, quarter 0 still shows the list, any other quarter shows nothing. */
  lemma TruthinessGuard(p: AmcCustomersPage)
    requires !p.showQuarters && p.selectedQuarter.Some?
    ensures p.ShowsCustomerList() <==> p.selectedQuarter.value == 0
    ensures !p.ShowsQuarterGrid() && !p.ShowsQuarterDetail()
  {
  }
}
