/**
 * The branch/quarter tracker of one AMC customer: the customer's branches,
 * each with four quarter-completion flags, the breakdown-service log of the
 * selected branch, and the three-level selection (branch list, quarter grid,
 * quarter detail).
 */
module CustomerServices {
  import opened Common
  import opened JsString

  datatype Branch = Branch(id: int, name: string, quarters: seq<bool>)

  datatype Customer = Customer(id: nat, name: string, logo: string, password: string, branches: seq<Branch>)

  /** One breakdown (ad hoc repair) job sheet recorded for a branch. */
  datatype BreakdownService = BreakdownService(id: int, branchId: int, date: string, fileName: string, uploadDate: string)

  /** Which upload the dialog was opened for. */
  datatype UploadTab = BreakdownTab | QuarterlyTab

  /** The toasts the page raises. */
  datatype Notice =
    | CustomerNotFound
    | BranchNameRequired
    | BranchAdded(name: string)
    | BreakdownUploaded
    | QuarterlyUploaded(quarterNumber: int)
    | QuarterCompleted(quarterNumber: int, branchName: string)

  /** What the page renders: a loading text, the branch picker, or the services of the selected branch. */
  datatype View = Loading | BranchList | BranchServices(quarter: Option<int>)

  const NoQuarterDone: seq<bool> := [false, false, false, false]

  /** Every branch has four flags and no two branches share an id. */
  ghost predicate WellFormedBranches(branches: seq<Branch>) {
    (forall k :: 0 <= k < |branches| ==> |branches[k].quarters| == 4) &&
    (forall k, l :: 0 <= k < l < |branches| ==> branches[k].id != branches[l].id)
  }

  /** `Math.max(...branches.map(b => b.id))` on a non-empty list. */
  function MaxBranchId(branches: seq<Branch>): (m: int)
    requires |branches| > 0
    ensures forall k :: 0 <= k < |branches| ==> branches[k].id <= m
    ensures exists k :: 0 <= k < |branches| && branches[k].id == m
  {
    if |branches| == 1 then branches[0].id
    else
      var rest := MaxBranchId(branches[1..]);
      assert forall k :: 1 <= k < |branches| ==> branches[k] == branches[1..][k - 1];
      if branches[0].id >= rest then branches[0].id else rest
  }

  /** The id given to a new branch: one more than the largest id, or 1 for the first branch. */
  function NextBranchId(branches: seq<Branch>): (id: int)
    ensures branches == [] ==> id == 1
    ensures forall k :: 0 <= k < |branches| ==> branches[k].id < id
    ensures branches != [] ==> exists k :: 0 <= k < |branches| && id == branches[k].id + 1
  {
    if |branches| > 0 then MaxBranchId(branches) + 1 else 1
  }

  /** `flags.map((q, idx) => idx === quarter ? true : q)`. */
  function SetFlag(flags: seq<bool>, quarter: int): (r: seq<bool>)
    ensures |r| == |flags|
    ensures 0 <= quarter < |flags| ==> r[quarter]
    ensures forall i :: 0 <= i < |flags| && i != quarter ==> r[i] == flags[i]
  {
    seq(|flags|, i requires 0 <= i < |flags| => if i == quarter then true else flags[i])
  }

  /** The branch rewrite shared by "Mark as Completed" and a completed quarterly upload. */
  function MarkQuarter(branches: seq<Branch>, branchId: int, quarter: int): (r: seq<Branch>)
    ensures |r| == |branches|
    ensures forall k :: 0 <= k < |r| ==> r[k].id == branches[k].id && r[k].name == branches[k].name
    ensures forall k :: 0 <= k < |r| && branches[k].id != branchId ==> r[k] == branches[k]
    ensures forall k :: 0 <= k < |r| && branches[k].id == branchId ==>
              r[k].quarters == SetFlag(branches[k].quarters, quarter)
  {
    seq(|branches|, k requires 0 <= k < |branches| =>
      if branches[k].id == branchId then branches[k].(quarters := SetFlag(branches[k].quarters, quarter))
      else branches[k])
  }

  /** Marking keeps every branch at four flags and keeps the ids distinct. */
  lemma MarkQuarterWellFormed(branches: seq<Branch>, branchId: int, quarter: int)
    requires WellFormedBranches(branches)
    ensures WellFormedBranches(MarkQuarter(branches, branchId, quarter))
  {
  }

  /** A flag never goes from true back to false, and the marked flag of the matching branch is true. */
  lemma MarkQuarterMonotone(branches: seq<Branch>, branchId: int, quarter: int, k: int, i: int)
    requires 0 <= k < |branches| && 0 <= i < |branches[k].quarters|
    ensures var r := MarkQuarter(branches, branchId, quarter);
            |r[k].quarters| == |branches[k].quarters| &&
            (branches[k].quarters[i] ==> r[k].quarters[i]) &&
            (branches[k].id == branchId && i == quarter ==> r[k].quarters[i])
  {
  }

  /** Marking the same quarter of the same branch twice is the same as marking it once. */
  lemma MarkQuarterIdempotent(branches: seq<Branch>, branchId: int, quarter: int)
    ensures MarkQuarter(MarkQuarter(branches, branchId, quarter), branchId, quarter) ==
            MarkQuarter(branches, branchId, quarter)
  {
    var once := MarkQuarter(branches, branchId, quarter);
    var twice := MarkQuarter(once, branchId, quarter);
    forall k | 0 <= k < |branches| ensures twice[k] == once[k] {
      if branches[k].id == branchId {
        assert twice[k].quarters == once[k].quarters;
      }
    }
  }

  /** `quarters.filter(Boolean).length`: the number of completed quarters. */
  function CompletedCount(flags: seq<bool>): (n: nat)
    ensures n <= |flags|
    ensures n == 0 <==> forall i :: 0 <= i < |flags| ==> !flags[i]
  {
    if flags == [] then 0
    else
      assert forall i :: 1 <= i < |flags| ==> flags[i] == flags[1..][i - 1];
      (if flags[0] then 1 else 0) + CompletedCount(flags[1..])
  }

  /** The "N / 4 quarters completed" summary of a branch lies between 0 and 4. */
  lemma BranchSummaryBounds(b: Branch)
    requires |b.quarters| == 4
    ensures 0 <= CompletedCount(b.quarters) <= 4
  {
  }

  /** Completing a pending quarter raises the summary by exactly one; completing a done one changes nothing. */
  lemma {:induction false} CompletedCountSetFlag(flags: seq<bool>, quarter: int)
    requires 0 <= quarter < |flags|
    ensures CompletedCount(SetFlag(flags, quarter)) ==
            CompletedCount(flags) + (if flags[quarter] then 0 else 1)
  {
    var r := SetFlag(flags, quarter);
    if quarter == 0 {
      assert r[1..] == flags[1..];
    } else {
      assert r[1..] == SetFlag(flags[1..], quarter - 1);
      CompletedCountSetFlag(flags[1..], quarter - 1);
    }
  }

  /** The file name given to a breakdown job sheet: `<customer>_<branch>_breakdown_<n>.pdf`, white-space runs as `_`. */
  function BreakdownFileName(customerName: string, branchName: string, n: nat): (r: string)
    ensures NoWhitespace(r)
    ensures StartsWith(r, ReplaceWhitespaceRuns(customerName) + "_" + ReplaceWhitespaceRuns(branchName) + "_")
    ensures |r| > 4 && r[|r| - 4..] == ".pdf"
  {
    var head := ReplaceWhitespaceRuns(customerName) + "_" + ReplaceWhitespaceRuns(branchName) + "_";
    var r := head + "breakdown_" + NumberToString(n) + ".pdf";
    assert r[..|head|] == head;
    forall i | 0 <= i < |r| ensures !IsWhitespace(r[i]) {
      var digits := NumberToString(n);
      if i >= |head| + 10 && i < |head| + 10 + |digits| {
        assert r[i] == digits[i - |head| - 10];
      }
    }
    r
  }

  /** The breakdown list loaded for the selection: the customer's records of the selected branch. */
  function LoadBreakdown(data: map<nat, seq<BreakdownService>>, customer: Option<Customer>, branch: Option<Branch>)
    : (r: seq<BreakdownService>)
    ensures customer.None? || branch.None? ==> r == []
    ensures branch.Some? ==> forall k :: 0 <= k < |r| ==> r[k].branchId == branch.value.id
  {
    if customer.None? || branch.None? then []
    else
      var all := if customer.value.id in data then data[customer.value.id] else [];
      Filter(all, (s: BreakdownService) => s.branchId == branch.value.id)
  }

  /** With a customer and a branch selected, the loaded list is an order-preserving sub-list holding exactly that branch's records. */
  lemma LoadBreakdownExact(data: map<nat, seq<BreakdownService>>, c: Customer, b: Branch, s: BreakdownService)
    ensures var all := if c.id in data then data[c.id] else [];
            var r := LoadBreakdown(data, Some(c), Some(b));
            IsSubsequence(r, all) && (s in r <==> s in all && s.branchId == b.id)
  {
    var all := if c.id in data then data[c.id] else [];
    var p := (x: BreakdownService) => x.branchId == b.id;
    FilterIsSubsequence(all, p);
    FilterMembership(all, p, s);
  }

  /** The first customer of the directory whose id, as text, equals `idText` (`customers.find(...)`). */
  function FindCustomer(directory: seq<Customer>, idText: string): (r: Option<Customer>)
    ensures r.Some? ==> exists k :: 0 <= k < |directory| && directory[k] == r.value &&
                                   NumberToString(directory[k].id) == idText &&
                                   forall j :: 0 <= j < k ==> NumberToString(directory[j].id) != idText
    ensures r.None? ==> forall k :: 0 <= k < |directory| ==> NumberToString(directory[k].id) != idText
  {
    if directory == [] then None
    else if NumberToString(directory[0].id) == idText then
      assert directory[0] == directory[0];
      Some(directory[0])
    else
      var r := FindCustomer(directory[1..], idText);
      assert forall k :: 1 <= k < |directory| ==> directory[k] == directory[1..][k - 1];
      if r.Some? then
        var k :| 0 <= k < |directory[1..]| && directory[1..][k] == r.value &&
                 NumberToString(directory[1..][k].id) == idText &&
                 forall j :: 0 <= j < k ==> NumberToString(directory[1..][j].id) != idText;
        assert directory[k + 1] == r.value;
        r
      else r
  }

  /** The state of the customer-services page. */
  class CustomerServicesPage {
    /** The module-level demo customers. */
    const directory: seq<Customer>
    /** The module-level demo breakdown records, keyed by customer id. */
    const breakdownData: map<nat, seq<BreakdownService>>

    var customer: Option<Customer>
    var selectedBranch: Option<Branch>
    var breakdownServices: seq<BreakdownService>
    var selectedQuarter: Option<int>
    var showAddBranchDialog: bool
    var newBranchName: string
    var isUploading: bool
    var uploadingTab: Option<UploadTab>
    var showUploadDialog: bool
    var serviceDate: string

    /** Branch lists are well formed, the selected branch has four flags, and a selected quarter is one of them. */
    ghost predicate Valid()
      reads this
    {
      (forall k :: 0 <= k < |directory| ==> WellFormedBranches(directory[k].branches)) &&
      (customer.Some? ==> WellFormedBranches(customer.value.branches)) &&
      (selectedBranch.Some? ==> |selectedBranch.value.quarters| == 4) &&
      (selectedQuarter.Some? ==> 0 <= selectedQuarter.value < 4)
    }

    /** What the page renders (the final `if`s of the component). */
    function CurrentView(): (v: View)
      reads this
      ensures v.Loading? <==> customer.None?
      ensures v.BranchList? <==> customer.Some? && selectedBranch.None?
      ensures v.BranchServices? ==> v.quarter == selectedQuarter
    {
      if customer.None? then Loading
      else if selectedBranch.None? then BranchList
      else BranchServices(selectedQuarter)
    }

    constructor (directory: seq<Customer>, breakdownData: map<nat, seq<BreakdownService>>)
      requires forall k :: 0 <= k < |directory| ==> WellFormedBranches(directory[k].branches)
      ensures Valid()
      ensures this.directory == directory && this.breakdownData == breakdownData
      ensures customer == None && selectedBranch == None && selectedQuarter == None
      ensures breakdownServices == [] && newBranchName == "" && serviceDate == ""
      ensures !showAddBranchDialog && !isUploading && uploadingTab == None && !showUploadDialog
    {
      this.directory := directory;
      this.breakdownData := breakdownData;
      customer := None;
      selectedBranch := None;
      breakdownServices := [];
      selectedQuarter := None;
      showAddBranchDialog := false;
      newBranchName := "";
      isUploading := false;
      uploadingTab := None;
      showUploadDialog := false;
      serviceDate := "";
    }

    /** The mount effect: resolve a non-empty route customer id, or ask to leave for the customer list. */
    method LoadCustomer(customerId: Option<string>) returns (redirect: bool, notice: Option<Notice>)
      requires Valid()
      modifies this`customer, this`selectedBranch
      ensures Valid()
      ensures customerId.None? || customerId == Some("") ==>
                !redirect && notice == None &&
                customer == old(customer) && selectedBranch == old(selectedBranch)
      ensures customerId.Some? && customerId.value != "" && FindCustomer(directory, customerId.value).Some? ==>
              !redirect && notice == None &&
              customer == FindCustomer(directory, customerId.value) && selectedBranch == None
      ensures customerId.Some? && customerId.value != "" && FindCustomer(directory, customerId.value).None? ==>
              redirect && notice == Some(CustomerNotFound) &&
              customer == old(customer) && selectedBranch == old(selectedBranch)
    {
      redirect, notice := false, None;
      if customerId.Some? && customerId.value != "" {
        var found := FindCustomer(directory, customerId.value);
        if found.Some? {
          customer := found;
          selectedBranch := None;
        } else {
          redirect, notice := true, Some(CustomerNotFound);
        }
      }
    }

    /** The branch-loading effect: show the selected branch's breakdown records. */
    method ReloadBreakdown()
      modifies this`breakdownServices
      ensures breakdownServices == LoadBreakdown(breakdownData, customer, selectedBranch)
    {
      breakdownServices := LoadBreakdown(breakdownData, customer, selectedBranch);
    }

    /** Add a branch named by the dialog's text field. */
    method AddBranch() returns (notice: Notice)
      requires Valid() && customer.Some?
      modifies this`customer, this`showAddBranchDialog, this`newBranchName
      ensures Valid()
      ensures old(newBranchName) == "" ==>
              notice == BranchNameRequired && customer == old(customer) &&
              showAddBranchDialog == old(showAddBranchDialog) && newBranchName == old(newBranchName)
      ensures old(newBranchName) != "" ==>
              var before := old(customer.value);
              notice == BranchAdded(old(newBranchName)) &&
              customer == Some(before.(branches := before.branches +
                [Branch(NextBranchId(before.branches), old(newBranchName), NoQuarterDone)])) &&
              !showAddBranchDialog && newBranchName == ""
    {
      if newBranchName == "" {
        notice := BranchNameRequired;
        return;
      }
      var before := customer.value;
      var added := Branch(NextBranchId(before.branches), newBranchName, NoQuarterDone);
      customer := Some(before.(branches := before.branches + [added]));
      showAddBranchDialog := false;
      notice := BranchAdded(newBranchName);
      newBranchName := "";
    }

    /** Clicking a branch card: take a snapshot of the branch and clear the quarter. */
    method SelectBranch(b: Branch)
      requires Valid() && customer.Some? && b in customer.value.branches
      modifies this`selectedBranch, this`selectedQuarter
      ensures Valid()
      ensures selectedBranch == Some(b) && selectedQuarter == None
      ensures CurrentView() == BranchServices(None)
    {
      selectedBranch := Some(b);
      selectedQuarter := None;
    }

    /** Clicking one of the four quarter cards. */
    method QuarterClick(index: int)
      requires Valid() && 0 <= index < 4
      modifies this`selectedQuarter
      ensures Valid() && selectedQuarter == Some(index)
    {
      selectedQuarter := Some(index);
    }

    /** "Back to Quarters": clears only the quarter. */
    method BackToQuarters()
      requires Valid()
      modifies this`selectedQuarter
      ensures Valid() && selectedQuarter == None
    {
      selectedQuarter := None;
    }

    /** "Back to Branches": clears the branch and the quarter, so the branch picker shows. */
    method BackToBranches()
      requires Valid()
      modifies this`selectedBranch, this`selectedQuarter
      ensures Valid() && selectedBranch == None && selectedQuarter == None
      ensures customer.Some? ==> CurrentView() == BranchList
    {
      selectedBranch := None;
      selectedQuarter := None;
    }

    /**
     * "Mark as Completed". The customer's branch list is rewritten; the
     * selected branch is a snapshot and keeps its old flags.
     */
    method MarkQuarterAsCompleted() returns (notice: Option<Notice>)
      requires Valid()
      modifies this`customer
      ensures Valid()
      ensures selectedBranch == old(selectedBranch)
      ensures old(customer).Some? && selectedBranch.Some? && selectedQuarter.Some? ==>
              customer == Some(old(customer.value).(branches :=
                MarkQuarter(old(customer.value.branches), selectedBranch.value.id, selectedQuarter.value))) &&
              notice == Some(QuarterCompleted(selectedQuarter.value + 1, selectedBranch.value.name))
      ensures !(old(customer).Some? && selectedBranch.Some? && selectedQuarter.Some?) ==>
              customer == old(customer) && notice == None
    {
      notice := None;
      if customer.Some? && selectedBranch.Some? && selectedQuarter.Some? {
        var c := customer.value;
        MarkQuarterWellFormed(c.branches, selectedBranch.value.id, selectedQuarter.value);
        customer := Some(c.(branches := MarkQuarter(c.branches, selectedBranch.value.id, selectedQuarter.value)));
        notice := Some(QuarterCompleted(selectedQuarter.value + 1, selectedBranch.value.name));
      }
    }

    /** Opening the upload dialog for one tab, with today's date as the service date. */
    method OpenUploadDialog(tab: UploadTab, today: string)
      modifies this`uploadingTab, this`showUploadDialog, this`serviceDate
      ensures uploadingTab == Some(tab) && showUploadDialog && serviceDate == today
    {
      uploadingTab := Some(tab);
      showUploadDialog := true;
      serviceDate := today;
    }

    /** The service-date field of the upload dialog. */
    method SetServiceDate(date: string)
      modifies this`serviceDate
      ensures serviceDate == date
    {
      serviceDate := date;
    }

    /** Pressing "Upload": the button is disabled while uploading or without a date. */
    method StartUpload() returns (started: bool)
      modifies this`isUploading
      ensures started <==> !old(isUploading) && serviceDate != ""
      ensures isUploading == (old(isUploading) || started)
    {
      started := !isUploading && serviceDate != "";
      if started {
        isUploading := true;
      }
    }

    /** The delayed completion of an upload, stamped with `today`. */
    method CompleteUpload(today: string) returns (notice: Option<Notice>)
      requires Valid()
      modifies this`isUploading, this`showUploadDialog, this`breakdownServices, this`customer
      ensures Valid()
      ensures !isUploading && !showUploadDialog
      ensures selectedBranch == old(selectedBranch)
      ensures uploadingTab == Some(BreakdownTab) && selectedBranch.Some? && customer.Some? ==>
              var n := |old(breakdownServices)| + 1;
              breakdownServices ==
                [BreakdownService(n, selectedBranch.value.id, serviceDate,
                   BreakdownFileName(customer.value.name, selectedBranch.value.name, n), today)]
                + old(breakdownServices) &&
              customer == old(customer) && notice == Some(BreakdownUploaded)
      ensures uploadingTab == Some(QuarterlyTab) && selectedQuarter.Some? && selectedBranch.Some? && old(customer).Some? ==>
              breakdownServices == old(breakdownServices) &&
              customer == Some(old(customer.value).(branches :=
                MarkQuarter(old(customer.value.branches), selectedBranch.value.id, selectedQuarter.value))) &&
              notice == Some(QuarterlyUploaded(selectedQuarter.value + 1))
      ensures !(uploadingTab == Some(BreakdownTab) && selectedBranch.Some? && customer.Some?) &&
              !(uploadingTab == Some(QuarterlyTab) && selectedQuarter.Some? && selectedBranch.Some? && old(customer).Some?) ==>
              breakdownServices == old(breakdownServices) && customer == old(customer) && notice == None
    {
      isUploading := false;
      showUploadDialog := false;
      notice := None;
      if uploadingTab == Some(BreakdownTab) {
        if selectedBranch.None? || customer.None? {
          return;
        }
        var n := |breakdownServices| + 1;
        var record := BreakdownService(n, selectedBranch.value.id, serviceDate,
          BreakdownFileName(customer.value.name, selectedBranch.value.name, n), today);
        breakdownServices := [record] + breakdownServices;
        notice := Some(BreakdownUploaded);
      } else if uploadingTab == Some(QuarterlyTab) && selectedQuarter.Some? && selectedBranch.Some? && customer.Some? {
        var c := customer.value;
        MarkQuarterWellFormed(c.branches, selectedBranch.value.id, selectedQuarter.value);
        customer := Some(c.(branches := MarkQuarter(c.branches, selectedBranch.value.id, selectedQuarter.value)));
        notice := Some(QuarterlyUploaded(selectedQuarter.value + 1));
      }
    }
  }

  /** A successful add gives the new branch an id no existing branch has, keeps the others and keeps the list well formed. */
  lemma AddBranchFresh(branches: seq<Branch>, name: string)
    requires WellFormedBranches(branches)
    ensures var r := branches + [Branch(NextBranchId(branches), name, NoQuarterDone)];
            WellFormedBranches(r) && |r| == |branches| + 1 && r[..|branches|] == branches &&
            forall k :: 0 <= k < |branches| ==> branches[k].id != r[|branches|].id
  {
  }

  /**
   * The selected branch is a snapshot: "Mark as Completed" rewrites the
   * customer's branches with MarkQuarter and leaves `selectedBranch` as it
   * was. For any snapshot `b` whose quarter `q` is pending, every branch of
   * the new list carrying `b`'s id shows `q` done, so the snapshot, which
   * still shows it pending, is no longer any entry of the list.
   */
  lemma {:induction false} StaleSelectedBranch(branches: seq<Branch>, b: Branch, q: int)
    requires WellFormedBranches(branches) && |b.quarters| == 4
    requires 0 <= q < 4 && !b.quarters[q]
    ensures var marked := MarkQuarter(branches, b.id, q);
            (forall k :: 0 <= k < |marked| && marked[k].id == b.id ==> marked[k].quarters[q]) &&
            b !in marked
  {
    var marked := MarkQuarter(branches, b.id, q);
    forall k | 0 <= k < |marked| ensures marked[k] != b {
      if marked[k].id == b.id {
        assert marked[k].quarters[q];
      }
    }
  }
}
