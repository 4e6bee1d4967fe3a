# cool-air-track: a Dafny model of the admin console's page logic

cool-air-track is an admin console for a company that services air conditioners. The company has annual-maintenance (AMC) customers. Each customer has branches, and each branch gets four quarterly services a year. The console also keeps a directory of retail stores and their branches, a registry of employee accounts, and a technician app for submitting service records.

All of its logic lives inside React page components, as in-memory state and list rewrites. This project models that logic and proves properties of it:

- **Branch/quarter tracker** (`customer_services.dfy`, module `CustomerServices`). One customer owns a list of branches with four completion flags each. The page adds branches with id max+1 and marks quarters done. It keeps a breakdown-repair log for the selected branch, with synthesised file names. The view moves from branch list to quarter grid to quarter detail.
- **Flattened AMC customer list** (`amc_customers.dfy`, module `AmcCustomers`). Customers hold the four flags directly. Adding gives id length+1. Editing is password-gated. Marking a quarter updates both the list and the selected copy. Three guarded render branches choose the view, one of them through a JavaScript truthiness test.
- **Stores directory** (`stores.dfy`, module `Stores`). It covers:
  - the stores flattened into one branch table;
  - a search-and-store filter over that table;
  - per-store monthly totals;
  - the legacy quarter dialog. Its "Mark as Completed" writes into quarter objects that the customer list shares, modelled as a `class Quarter` held by reference.
- **Employee accounts** (`admin_accounts.dfy`, module `AdminAccounts`):
  - form validation (trimmed name, the e-mail pattern `^\S+@\S+\.\S+$`, password length, confirmation);
  - add, edit and delete;
  - per-field error clearing.
- **List filters** (`technicians.dfy`, `history.dfy`): case-insensitive search combined with a status or month filter.
- **Service-submission form** (`service.dfy`, module `TechnicianService`): a required-fields gate, the submitting/submitted flags, and a branch choice that depends on the chosen store.

Two support modules hold the shared pieces. `common.dfy` (`Common`) has `Option`, `Filter` and the sub-list relation. `js_string.dfy` (`JsString`) has the JavaScript string operations the pages use:

- `\s` and `trim`;
- `toLowerCase`;
- `includes`;
- `replace(/\s+/g, "_")`;
- `Number#toString`;
- `parseInt`;
- a small backtracking matcher for the e-mail regular expression.

Pages whose handlers overwrite state are classes. Their handlers are methods with `modifies` frames over the fields they set. The list rewrites those handlers perform are pure functions, and the lemmas are stated about those functions. Toasts become returned `Notice` values. The body of each `setTimeout` becomes a separate completion method (`CompleteUpload`, `FinishFileUpload`, `CompleteSubmit`).

Two behaviours of the code worth knowing:
- New AMC customers and new employee accounts get the id `length + 1` (`AMCCustomers.tsx` line 149, `AdminAccounts.tsx` line 108), not one more than the largest id. After a delete, two accounts can share an id (see `DeleteThenAddDuplicatesId`). Only branches get the largest id plus one (`CustomerServices.tsx` line 144).
- The AMC customer-edit dialog checks the typed password against the edited customer's stored password (`AMCCustomers.tsx` line 109). Only `Stores.tsx` checks against the literal `"12345678"` (line 218).

## Model

| member | source | states |
|---|---|---|
| JsString.Trim | src/pages/admin/AdminAccounts.tsx:93 | The result is the slice of the input between an all-white-space prefix and an all-white-space suffix. It has no leading or trailing `\s` character, and is empty exactly when the input is all white space. |
| JsString.ToLower | src/pages/admin/Technicians.tsx:121-123 | Same length; every character is mapped to its small letter. |
| JsString.IncludesAt | src/pages/admin/Technicians.tsx:121-124 | `includes` holds exactly when the needle occurs at some index of the text. |
| JsString.ReplaceWhitespaceRuns | src/pages/admin/CustomerServices.tsx:190 | The result contains no white space and is no longer than the input. |
| JsString.ReplaceWhitespaceRun | src/pages/admin/CustomerServices.tsx:190 | A whole run of white space between two parts becomes a single `_`. |
| JsString.ReplaceWhitespaceRunsIdentity | src/pages/admin/CustomerServices.tsx:190 | A name without white space is left unchanged. |
| JsString.NumberToString | src/pages/admin/CustomerServices.tsx:104 | `toString` of a non-negative integer is a non-empty string of decimal digits. |
| JsString.ParseInt | src/pages/technician/Service.tsx:184 | `NaN` exactly when the text does not start with a digit; a digit string gives its decimal value. |
| JsString.ParseIntNumberToString | src/pages/technician/Service.tsx:165-184 | `parseInt` of a number's decimal text gives the number back. |
| JsString.NumberToStringInjective | src/pages/admin/Stores.tsx:203 | Distinct ids have distinct decimal texts. |
| JsString.EmailPatternShape | src/pages/admin/AdminAccounts.tsx:94 | `^\S+@\S+\.\S+$` matches exactly when the string has no white space, an `@` at some index i > 0, and a `.` at some index j with i+1 < j < length-1. |
| CustomerServices.MaxBranchId | src/pages/admin/CustomerServices.tsx:144 | `Math.max` of the branch ids is at least every id and is one of them. |
| CustomerServices.NextBranchId | src/pages/admin/CustomerServices.tsx:144 | The new id is 1 for an empty list. Otherwise it is some existing id plus one, and it exceeds every existing id. |
| CustomerServices.AddBranchFresh | src/pages/admin/CustomerServices.tsx:143-151 | Appending the new branch adds exactly one entry at the end, with a fresh id and four false flags. The earlier branches are kept and the list stays well formed. |
| CustomerServices.SetFlag | src/pages/admin/CustomerServices.tsx:203 | The flag list keeps its length, flag q becomes true, and every other flag is unchanged. |
| CustomerServices.MarkQuarter | src/pages/admin/CustomerServices.tsx:201-205 | Only branches whose id is the selected id get flag q set. Other branches are unchanged, and every branch keeps its id and name. |
| CustomerServices.MarkQuarterWellFormed | src/pages/admin/CustomerServices.tsx:221-225 | After marking, every branch still has four flags and the ids stay distinct. |
| CustomerServices.MarkQuarterMonotone | src/pages/admin/CustomerServices.tsx:221-225 | No flag goes from true to false, and the marked flag of the matching branch is true. |
| CustomerServices.MarkQuarterIdempotent | src/pages/admin/CustomerServices.tsx:221-225 | Marking the same quarter twice equals marking it once. |
| CustomerServices.CompletedCount | src/pages/admin/CustomerServices.tsx:301 | The summary count is at most the number of flags, and is zero exactly when no flag is set. |
| CustomerServices.BranchSummaryBounds | src/pages/admin/CustomerServices.tsx:301 | A branch's "N / 4 quarters completed" lies between 0 and 4. |
| CustomerServices.CompletedCountSetFlag | src/pages/admin/CustomerServices.tsx:301 | Completing a pending quarter raises the count by one. Completing a done quarter leaves it unchanged. |
| CustomerServices.BreakdownFileName | src/pages/admin/CustomerServices.tsx:190 | The file name has no white space and starts with `<customer>_<branch>_`, both with white-space runs replaced. It ends in `.pdf`. |
| CustomerServices.LoadBreakdown | src/pages/admin/CustomerServices.tsx:120-129 | The list is empty without a customer or a branch. Every loaded record belongs to the selected branch. |
| CustomerServices.LoadBreakdownExact | src/pages/admin/CustomerServices.tsx:127-128 | The loaded list is an order-preserving sub-list of the customer's records, holding exactly those of the selected branch. |
| CustomerServices.FindCustomer | src/pages/admin/CustomerServices.tsx:104 | The result is the directory entry at the first index whose id text equals the route parameter. None means no customer's id text matches. |
| CustomerServices.CustomerServicesPage.CurrentView | src/pages/admin/CustomerServices.tsx:538-548 | Loading is shown exactly when there is no customer. The branch picker is shown exactly when there is a customer but no branch. Otherwise the branch's services are shown. |
| CustomerServices.CustomerServicesPage.LoadCustomer | src/pages/admin/CustomerServices.tsx:102-117 | A missing or empty (falsy) id changes nothing. A found customer is loaded and the branch is cleared. An unknown id redirects with a "not found" notice and changes nothing. |
| CustomerServices.CustomerServicesPage.ReloadBreakdown | src/pages/admin/CustomerServices.tsx:120-129 | The shown breakdown list is the loading function applied to the current customer and branch. |
| CustomerServices.CustomerServicesPage.AddBranch | src/pages/admin/CustomerServices.tsx:133-156 | An empty name is refused with a notice and changes nothing. Otherwise one branch with id max+1 and four false flags is appended, the dialog closes and the name field is cleared. |
| CustomerServices.CustomerServicesPage.SelectBranch | src/pages/admin/CustomerServices.tsx:293 | Selecting a branch takes a snapshot of it and clears the quarter. |
| CustomerServices.CustomerServicesPage.QuarterClick | src/pages/admin/CustomerServices.tsx:159 | The selected quarter becomes the clicked index. |
| CustomerServices.CustomerServicesPage.BackToQuarters | src/pages/admin/CustomerServices.tsx:160 | Only the quarter is cleared. |
| CustomerServices.CustomerServicesPage.BackToBranches | src/pages/admin/CustomerServices.tsx:162-165 | Branch and quarter are cleared, so the branch picker shows. |
| CustomerServices.CustomerServicesPage.MarkQuarterAsCompleted | src/pages/admin/CustomerServices.tsx:219-233 | With a customer, branch and quarter selected, the customer's branches are rewritten by MarkQuarter. The selected branch snapshot is left stale. Otherwise nothing changes. |
| CustomerServices.CustomerServicesPage.OpenUploadDialog | src/pages/admin/CustomerServices.tsx:171-175 | The dialog opens for the tab, with today's date as the service date. |
| CustomerServices.CustomerServicesPage.SetServiceDate | src/pages/admin/CustomerServices.tsx:501 | The date field's value becomes the service date. |
| CustomerServices.CustomerServicesPage.StartUpload | src/pages/admin/CustomerServices.tsx:524-527 | An upload starts exactly when none is in flight and a service date is set (the button's guard), and the flag is then set as at line 178. |
| CustomerServices.CustomerServicesPage.CompleteUpload | src/pages/admin/CustomerServices.tsx:179-216 | The upload flag and the dialog are cleared. The breakdown tab prepends one record with id old length + 1, the selected branch's id and the synthesised file name. The quarterly tab marks the quarter on the customer's branches. |
| CustomerServices.StaleSelectedBranch | src/pages/admin/CustomerServices.tsx:221-226 | For every snapshot with a pending quarter, marking it sets that quarter in every branch carrying the snapshot's id. The unchanged snapshot is then no entry of the new list. |
| AmcCustomers.SetQuarter | src/pages/admin/AMCCustomers.tsx:68-69 | Copy-then-assign sets flag q and keeps the others. |
| AmcCustomers.MarkCustomerQuarter | src/pages/admin/AMCCustomers.tsx:66-73 | Only the customer with the selected id gets flag q set. Every other customer is unchanged. |
| AmcCustomers.MarkCustomerQuarterIdempotent | src/pages/admin/AMCCustomers.tsx:66-73 | Marking twice equals marking once. |
| AmcCustomers.MarkCustomerQuarterMonotone | src/pages/admin/AMCCustomers.tsx:66-73 | Ids stay 1..n with four flags each. No flag is cleared, and name, logo and password are kept. |
| AmcCustomers.RenameCustomer | src/pages/admin/AMCCustomers.tsx:114-123 | Only the matching customer changes. Its name becomes the new name if that is non-empty and is kept otherwise. Logo, password and flags are unchanged. |
| AmcCustomers.NewCustomerIdFresh | src/pages/admin/AMCCustomers.tsx:149 | With ids 1..n, the id n+1 is not in use. |
| AmcCustomers.AmcCustomersPage.CustomerClick | src/pages/admin/AMCCustomers.tsx:54-58 | The customer is selected, the quarters are shown, the quarter is cleared, and the quarter grid renders. |
| AmcCustomers.AmcCustomersPage.QuarterClick | src/pages/admin/AMCCustomers.tsx:60-62 | From the quarter grid, the selected quarter becomes the clicked index and the detail view renders. |
| AmcCustomers.AmcCustomersPage.BackToCustomers | src/pages/admin/AMCCustomers.tsx:232 | From the quarter grid, the quarters are hidden and the customer list renders. |
| AmcCustomers.AmcCustomersPage.BackToQuarters | src/pages/admin/AMCCustomers.tsx:271 | The quarter is cleared. |
| AmcCustomers.AmcCustomersPage.MarkAsCompleted | src/pages/admin/AMCCustomers.tsx:64-90 | With a customer and a quarter selected, flag q is set in the list entry and in the selected copy, and a notice names quarter q+1. Otherwise nothing changes. |
| AmcCustomers.AmcCustomersPage.StartFileUpload | src/pages/admin/AMCCustomers.tsx:92-95 | Choosing a file starts the upload. Without a file nothing changes. |
| AmcCustomers.AmcCustomersPage.FinishFileUpload | src/pages/admin/AMCCustomers.tsx:96-102 | The upload flag is cleared and the "uploaded" notice is raised. |
| AmcCustomers.AmcCustomersPage.StartEdit | src/pages/admin/AMCCustomers.tsx:166-171 | The dialog loads the customer and its name, and clears the password and the error. |
| AmcCustomers.AmcCustomersPage.EditCustomer | src/pages/admin/AMCCustomers.tsx:106-136 | With no edited customer nothing changes. A wrong password sets the error and changes nothing else. The right password applies RenameCustomer and clears the edit state. |
| AmcCustomers.AmcCustomersPage.AddCustomer | src/pages/admin/AMCCustomers.tsx:138-164 | An empty name is refused and the list is unchanged. Otherwise one customer is appended with id length+1, the default logo and password, and four false flags, and the name is cleared. |
| AmcCustomers.ViewsExclusive | src/pages/admin/AMCCustomers.tsx:436-438 | At most one of the three views renders. In every valid state, which the constructor and every handler keep, exactly one renders. |
| AmcCustomers.TruthinessGuard | src/pages/admin/AMCCustomers.tsx:436 | With the quarters hidden, quarter index 0 still shows the customer list, while any other index shows nothing. |
| Stores.StoreRows | src/pages/admin/Stores.tsx:190-194 | Each branch of a store becomes a row with that store's name and id, in branch order. |
| Stores.AllBranches | src/pages/admin/Stores.tsx:189-195 | The table's length is the total branch count, and every row comes from one of the stores. |
| Stores.AllBranchesAppend | src/pages/admin/Stores.tsx:189-195 | Flattening distributes over concatenation, so rows follow store order. |
| Stores.AllBranchesComplete | src/pages/admin/Stores.tsx:189-195 | Every branch of every store appears, tagged with its own store's name and id. |
| Stores.MonthlyTotal | src/pages/admin/Stores.tsx:586 | The total is at least each branch's count, and is zero exactly when every count is zero. |
| Stores.MonthlyTotalsAgree | src/pages/admin/Stores.tsx:586 | The per-store totals add up to the total over the flattened table. |
| Stores.FilteredBranches | src/pages/admin/Stores.tsx:197-206 | Every kept row matches the search on name, location or store name, and passes the store filter. |
| Stores.FilteredBranchesExact | src/pages/admin/Stores.tsx:197-206 | The result is an order-preserving sub-list holding exactly the rows that pass both criteria. |
| Stores.StoreFilterSelectsOneStore | src/pages/admin/Stores.tsx:203 | Filtering on a store's id text keeps only that store's rows. |
| Stores.EmptySearchKeepsAll | src/pages/admin/Stores.tsx:197-206 | An empty search with "all" keeps the whole table. |
| Stores.FindQuarterIndex | src/pages/admin/Stores.tsx:243 | `findIndex` gives -1 exactly when no quarter has the id. Otherwise it gives the first index holding it. |
| Stores.MarkTarget | src/pages/admin/Stores.tsx:242-245 | The write goes to at most one quarter object, one of the selected customer's, carrying the selected quarter's id. |
| Stores.MarkTargetIsSelection | src/pages/admin/Stores.tsx:242-245 | When ids are distinct, that object is the selected quarter object itself, so the dialog and the list both see the write. |
| Stores.StoresPage.ShownBranches | src/pages/admin/Stores.tsx:197-206 | The shown table is a sub-list of all branches. |
| Stores.StoresPage.CloseQuarterDialog | src/pages/admin/Stores.tsx:809 | Closing the dialog clears the selected quarter. |
| Stores.StoresPage.CustomerEdit | src/pages/admin/Stores.tsx:217-229 | A password other than "12345678" sets the error and keeps the form. The literal clears the error and empties the form. |
| Stores.StoresPage.UploadFile | src/pages/admin/Stores.tsx:231-235 | The first chosen file is kept. An empty choice changes nothing. |
| Stores.StoresPage.SelectQuarter | src/pages/admin/Stores.tsx:734-737 | The clicked customer and quarter object become the selection. |
| Stores.StoresPage.MarkAsCompleted | src/pages/admin/Stores.tsx:237-252 | Only the target quarter object is written. Its status becomes "completed" and the selected file's name, if any, is appended to its files. Everything else is unchanged. |
| AdminAccounts.NameBlankIsTrimEmpty | src/pages/admin/AdminAccounts.tsx:93 | The blank-name test holds exactly when `trim` leaves the empty string. |
| AdminAccounts.Validate | src/pages/admin/AdminAccounts.tsx:91-102 | name error iff the name is all white space; e-mail error iff the e-mail lacks the pattern's shape. The password errors are raised only while adding (length < 6, mismatch). The form is valid iff the whole rule holds. |
| AdminAccounts.EditIgnoresPassword | src/pages/admin/AdminAccounts.tsx:95-96 | Outside add mode the password flags never rise. Validity is then a non-blank name plus a matching e-mail. |
| AdminAccounts.SetField | src/pages/admin/AdminAccounts.tsx:67 | Only the named field takes the value. |
| AdminAccounts.ClearFieldError | src/pages/admin/AdminAccounts.tsx:69-71 | Only the typed field's flag is cleared. The role has no flag. |
| AdminAccounts.AddEmployee | src/pages/admin/AdminAccounts.tsx:107-115 | One account with id length+1 and the form's values is appended after the unchanged list. |
| AdminAccounts.EditEmployees | src/pages/admin/AdminAccounts.tsx:138-149 | Only accounts with the id get the new name, e-mail and role. The password changes only when the new one is non-empty. |
| AdminAccounts.DeleteEmployee | src/pages/admin/AdminAccounts.tsx:163 | No remaining account has the id. |
| AdminAccounts.DeleteEmployeeExact | src/pages/admin/AdminAccounts.tsx:163 | Exactly the accounts with that id are removed, and the rest keep their order. |
| AdminAccounts.AddEmployeeFresh | src/pages/admin/AdminAccounts.tsx:108 | While ids are 1..n, the new id is unused and adding keeps them 1..n+1. |
| AdminAccounts.DeleteThenAddDuplicatesId | src/pages/admin/AdminAccounts.tsx:104-164 | From ids 1..n with n >= 2, deleting account 1 and then adding gives two accounts with id n. |
| AdminAccounts.AdminAccountsPage.ResetForm | src/pages/admin/AdminAccounts.tsx:49-64 | Empty fields, role "technician", no error flag. |
| AdminAccounts.AdminAccountsPage.InputChange | src/pages/admin/AdminAccounts.tsx:66-72 | The form and the flags become SetField and ClearFieldError of the old ones. |
| AdminAccounts.AdminAccountsPage.OpenAddEmployeeDialog | src/pages/admin/AdminAccounts.tsx:74-77 | The form resets and add mode starts. |
| AdminAccounts.AdminAccountsPage.OpenEditEmployeeDialog | src/pages/admin/AdminAccounts.tsx:79-89 | The account's name, e-mail and role are loaded with empty password fields. |
| AdminAccounts.AdminAccountsPage.ValidateForm | src/pages/admin/AdminAccounts.tsx:91-102 | The flags become Validate of the form. The result says that none is set. |
| AdminAccounts.AdminAccountsPage.AddEmployeeAccount | src/pages/admin/AdminAccounts.tsx:104-123 | An invalid form only records the flags. A valid one appends via AddEmployee, leaves add mode and resets the form. |
| AdminAccounts.AdminAccountsPage.EditEmployeeAccount | src/pages/admin/AdminAccounts.tsx:125-160 | With no current account nothing changes. A blank name or bad e-mail sets only those two flags. Otherwise EditEmployees is applied and the dialog state is cleared. |
| AdminAccounts.AdminAccountsPage.DeleteEmployeeAccount | src/pages/admin/AdminAccounts.tsx:162-170 | The list becomes DeleteEmployee of the old list. |
| Technicians.FilteredTechnicians | src/pages/admin/Technicians.tsx:119-129 | Every kept technician matches the search (name, id, e-mail case-insensitively; phone as typed) and the status filter. |
| Technicians.FilteredTechniciansExact | src/pages/admin/Technicians.tsx:119-129 | The result is an order-preserving sub-list holding exactly the technicians passing both criteria. |
| Technicians.EmptySearchKeepsAll | src/pages/admin/Technicians.tsx:119-129 | An empty search with "all" lists every technician. |
| Technicians.PhoneMatchSuffices | src/pages/admin/Technicians.tsx:124 | A term found verbatim in the phone number keeps the technician. |
| Technicians.TechnicianActivities | src/pages/admin/Technicians.tsx:140-142 | Every returned activity belongs to the technician. |
| Technicians.TechnicianActivitiesExact | src/pages/admin/Technicians.tsx:140-142 | Exactly that technician's activities are returned, in their original order. |
| History.MonthText | src/pages/technician/History.tsx:109 | The text is "NaN" exactly for an invalid date; otherwise it is decimal digits that parse back to the month index plus one. |
| History.FilteredServices | src/pages/technician/History.tsx:102-112 | Every kept record matches the search over store, branch, type and description, and matches the month. |
| History.FilteredServicesExact | src/pages/technician/History.tsx:102-112 | The result is an order-preserving sub-list holding exactly the records passing both criteria. |
| History.EmptySearchKeepsAll | src/pages/technician/History.tsx:102-112 | An empty search over "all" lists every record. |
| History.AllMonthsIgnoresDates | src/pages/technician/History.tsx:109 | With "all" the result does not depend on the dates. |
| History.MonthFilterSelectsMonth | src/pages/technician/History.tsx:109 | Choosing month m keeps only records whose month index + 1 is m. Invalid dates never match. |
| TechnicianService.BranchOptions | src/pages/technician/Service.tsx:184 | With no store chosen there are no options. Any options come from the table entry under `parseInt` of the store value. |
| TechnicianService.BranchOptionsForStore | src/pages/technician/Service.tsx:165-184 | A store's id text selects exactly that store's entry, or none when the table lacks it. |
| TechnicianService.ServiceForm.ResetForm | src/pages/technician/Service.tsx:73-79 | The five fields are cleared. |
| TechnicianService.ServiceForm.ChangeStore | src/pages/technician/Service.tsx:155-158 | The store is set and the branch is always cleared. |
| TechnicianService.ServiceForm.ChangeBranch | src/pages/technician/Service.tsx:177-178 | The branch is set. |
| TechnicianService.ServiceForm.ReceiptLoaded | src/pages/technician/Service.tsx:60-62 | The reader's data URL becomes the receipt. |
| TechnicianService.ServiceForm.Submit | src/pages/technician/Service.tsx:81-104 | A missing field or receipt is refused with a notice and `isSubmitting` unchanged. Otherwise `isSubmitting` becomes true. |
| TechnicianService.ServiceForm.CompleteSubmit | src/pages/technician/Service.tsx:96-103 | `isSubmitting` becomes false and `isSubmitted` true. |
| TechnicianService.ServiceForm.SubmitAnother | src/pages/technician/Service.tsx:136-141 | The form is cleared and `isSubmitted` becomes false. |
| TechnicianService.SubmissionRound | src/pages/technician/Service.tsx:81-141 | An accepted submit, its completion and "Submit Another" end in an empty idle form. A refused submit changes nothing. |

## Left out

- Rendering, dialogs and tabs are not modelled. Buttons that only open or close a dialog are left out, for example `setAddingNew(true)` and the Stores tabs.
- Timers are not modelled: each `setTimeout` body is a separate completion method the caller invokes. Toast texts are not modelled; only the values they interpolate are kept.
- The stale closure over `breakdownServices` in the upload timer (`CustomerServices.tsx:187`) is not modelled.
- React effect scheduling is not modelled: `ReloadBreakdown` is the loading function and the caller decides when it runs.
- Dates are inputs, not computed. "Today" is a parameter, and the month of a service date is a parameter `monthOf` (time-zone dependent in the source).
- Navigation is an output: `LoadCustomer` returns a redirect flag. `handleBackToCustomers` (`CustomerServices.tsx:167-169`) only navigates and is left out.
- Form inputs whose `onChange` only assigns a field are plain field assignments by the caller; for example the AMC name and password inputs and the Stores form fields.
- File contents, logo uploads and the browser's file picker are not modelled; only file names and the receipt's data URL matter. `triggerFileUpload` in `Service.tsx` is left out.
- `Stores.tsx` `handleTechnicianCreate` is left out: it only logs and resets its form. The store/branch detail selection and the `passwordVerify` field are left out too: no modelled handler reads them.
- `Attendance.tsx` (camera and canvas I/O), `Login.tsx` (delay then navigate), the layouts and `App.tsx` (routing, sidebar, storage), and the dashboards and `Reports.tsx` (static chart data, floating point) are not part of this model.
- JavaScript numbers are doubles; ids, counts and totals here are unbounded integers.
- JsString.ToLower: lower-cases ASCII and Latin-1 capitals only; other characters are kept as they are. The full Unicode mapping is left out.
- JsString.ParseInt: reads only a leading run of decimal digits. Leading white space, signs and radix prefixes are not modelled; the store values it parses are always decimal ids.
- AdminAccounts.Validate: counts password length in Unicode characters, not UTF-16 code units, so characters outside the Basic Multilingual Plane count once.
- CustomerServices.CustomerServicesPage.StartUpload: folds the Upload button's `disabled` condition (line 526) into the handler, so a press while uploading or without a date does nothing.
- CustomerServices.CustomerServicesPage.AddBranch: requires a loaded customer, since the add-branch dialog only renders with one.
- TechnicianService.ServiceForm.Submit: requires the form to be neither submitting nor submitted. The submit button only renders before submission (line 127) and is disabled while submitting (line 277).
- TechnicianService.ServiceForm.ChangeBranch: requires a chosen store, since the branch selector is disabled without one (line 178).
- AmcCustomers.AmcCustomersPage: its invariant assumes ids 1..n, as in the initial data. The page has no delete, so adds keep them dense.
- AmcCustomers.AmcCustomersPage.QuarterClick: requires the quarter grid to be showing, since the quarter cards render only there (lines 243-247 and 437).
- AmcCustomers.AmcCustomersPage.BackToCustomers: requires the quarter grid to be showing, since its button renders only there (lines 229-235 and 437).
