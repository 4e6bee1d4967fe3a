/**
 * The technician's service-submission form: store and dependent branch
 * selection, a required-fields gate, and the submitting / submitted flags
 * around the simulated submission.
 */
module TechnicianService {
  import opened Common
  import opened JsString

  datatype BranchOption = BranchOption(id: nat, name: string)

  /** The toasts the form raises. */
  datatype Notice = MissingInformation | ServiceRecorded

  /**
   * The branch choices: none while no store is chosen, otherwise the entry of
   * the branch table under `parseInt(selectedStore)`, or none when there is no
   * such entry.
   */
  function BranchOptions(branches: map<nat, seq<BranchOption>>, selectedStore: string): (r: seq<BranchOption>)
    ensures selectedStore == "" ==> r == []
    ensures r != [] ==> ParseInt(selectedStore).Some? && ParseInt(selectedStore).value in branches &&
                        r == branches[ParseInt(selectedStore).value]
  {
    if selectedStore == "" then []
    else match ParseInt(selectedStore)
      case Some(k) => if k in branches then branches[k] else []
      case None => []
  }

  /** The store selector's values are the stores' ids as text, so each store shows its own branch list. */
  lemma BranchOptionsForStore(branches: map<nat, seq<BranchOption>>, storeId: nat)
    ensures storeId in branches ==> BranchOptions(branches, NumberToString(storeId)) == branches[storeId]
    ensures storeId !in branches ==> BranchOptions(branches, NumberToString(storeId)) == []
  {
    ParseIntNumberToString(storeId);
  }

  /** The state of the service-submission form. */
  class ServiceForm {
    var selectedStore: string
    var selectedBranch: string
    var serviceType: string
    var description: string
    var receiptImage: Option<string>
    var isSubmitting: bool
    var isSubmitted: bool

    /** The form is never both in flight and showing its confirmation. */
    ghost predicate Valid()
      reads this
    {
      !(isSubmitting && isSubmitted)
    }

    /** `selectedStore && selectedBranch && serviceType && description && receiptImage`: all non-empty. */
    predicate RequiredFilled()
      reads this
    {
      selectedStore != "" && selectedBranch != "" && serviceType != "" && description != "" &&
      receiptImage.Some? && receiptImage.value != ""
    }

    /** The fields `resetForm` clears hold their initial values. */
    predicate Cleared()
      reads this
    {
      selectedStore == "" && selectedBranch == "" && serviceType == "" && description == "" && receiptImage == None
    }

    constructor ()
      ensures Valid() && Cleared() && !isSubmitting && !isSubmitted
    {
      selectedStore := "";
      selectedBranch := "";
      serviceType := "";
      description := "";
      receiptImage := None;
      isSubmitting := false;
      isSubmitted := false;
    }

    /** `resetForm`: clears the five fields and leaves the flags alone. */
    method ResetForm()
      requires Valid()
      modifies this`selectedStore, this`selectedBranch, this`serviceType, this`description, this`receiptImage
      ensures Valid() && Cleared()
    {
      selectedStore := "";
      selectedBranch := "";
      serviceType := "";
      description := "";
      receiptImage := None;
    }

    /** Choosing a store always clears the branch. */
    method ChangeStore(value: string)
      requires Valid()
      modifies this`selectedStore, this`selectedBranch
      ensures Valid() && selectedStore == value && selectedBranch == ""
    {
      selectedStore := value;
      selectedBranch := "";
    }

    /** Choosing a branch; the branch selector is disabled while no store is chosen. */
    method ChangeBranch(value: string)
      requires Valid() && selectedStore != ""
      modifies this`selectedBranch
      ensures Valid() && selectedBranch == value
    {
      selectedBranch := value;
    }

    /** The file reader's result, a data URL, becomes the receipt image. */
    method ReceiptLoaded(dataUrl: string)
      requires Valid()
      modifies this`receiptImage
      ensures Valid() && receiptImage == Some(dataUrl)
    {
      receiptImage := Some(dataUrl);
    }

    /**
     * `handleSubmit`. The submit button exists only while the confirmation is
     * not shown and is disabled while a submission is in flight.
     */
    method Submit() returns (notice: Option<Notice>)
      requires Valid() && !isSubmitted && !isSubmitting
      modifies this`isSubmitting
      ensures Valid()
      ensures !RequiredFilled() ==> notice == Some(MissingInformation) && isSubmitting == old(isSubmitting)
      ensures RequiredFilled() ==> notice == None && isSubmitting
    {
      if !RequiredFilled() {
        return Some(MissingInformation);
      }
      isSubmitting := true;
      notice := None;
    }

    /** The delayed end of the simulated submission. */
    method CompleteSubmit() returns (notice: Notice)
      modifies this`isSubmitting, this`isSubmitted
      ensures Valid() && !isSubmitting && isSubmitted && notice == ServiceRecorded
    {
      isSubmitting := false;
      isSubmitted := true;
      notice := ServiceRecorded;
    }

    /** "Submit Another": back to an empty form. */
    method SubmitAnother()
      requires Valid()
      modifies this`selectedStore, this`selectedBranch, this`serviceType, this`description, this`receiptImage,
               this`isSubmitted
      ensures Valid() && Cleared() && !isSubmitted && isSubmitting == old(isSubmitting)
    {
      ResetForm();
      isSubmitted := false;
    }
  }

  /** A full round: an accepted submission, its completion and "Submit Another" leave an empty, idle form. */
  method SubmissionRound(form: ServiceForm) returns (accepted: bool)
    requires form.Valid() && !form.isSubmitted && !form.isSubmitting
    modifies form
    ensures form.Valid() && !form.isSubmitting
    ensures accepted <==> old(form.RequiredFilled())
    ensures accepted ==> form.Cleared() && !form.isSubmitted
    ensures !accepted ==> unchanged(form)
  {
    var notice := form.Submit();
    accepted := notice.None?;
    if accepted {
      var done := form.CompleteSubmit();
      form.SubmitAnother();
    }
  }
}
