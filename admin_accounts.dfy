/**
 * The employee account registry: a list of admin and technician accounts
 * with an add/edit form, its validation rules, per-field error flags, and
 * deletion by id.
 */
module AdminAccounts {
  import opened Common
  import opened JsString

  datatype Employee = Employee(id: int, name: string, email: string, role: string, password: string)

  datatype EmployeeForm = EmployeeForm(name: string, email: string, role: string, password: string, confirmPassword: string)

  datatype FormErrors = FormErrors(name: bool, email: bool, password: bool, confirmPassword: bool)

  /** The form fields an input can change. */
  datatype Field = NameField | EmailField | RoleField | PasswordField | ConfirmPasswordField

  /** The toasts the page raises. */
  datatype Notice = EmployeeAdded(name: string, role: string) | EmployeeUpdated(name: string) | EmployeeRemoved(name: string)

  const EmptyForm: EmployeeForm := EmployeeForm("", "", "technician", "", "")
  const NoErrors: FormErrors := FormErrors(false, false, false, false)
  const MinPasswordLength: nat := 6

  /** `!formData.name.trim()`: the name is empty or all white space (see NameBlankIsTrimEmpty). */
  predicate NameBlank(name: string) {
    AllWhitespace(name)
  }

  /** The blank-name test is exactly "trimming leaves the empty string". */
  lemma NameBlankIsTrimEmpty(name: string)
    ensures NameBlank(name) <==> Trim(name) == ""
  {
  }

  /** `!Object.values(errors).some(error => error)`. */
  predicate NoError(e: FormErrors) {
    !e.name && !e.email && !e.password && !e.confirmPassword
  }

  /** The error flags `validateForm` computes; the password rules apply only while adding. */
  function Validate(form: EmployeeForm, adding: bool): (e: FormErrors)
    ensures e.name <==> AllWhitespace(form.name)
    ensures e.email <==> !EmailShape(form.email)
    ensures e.password <==> adding && |form.password| < MinPasswordLength
    ensures e.confirmPassword <==> adding && form.password != form.confirmPassword
    ensures NoError(e) <==>
              !AllWhitespace(form.name) && EmailShape(form.email) &&
              (adding ==> |form.password| >= MinPasswordLength && form.password == form.confirmPassword)
  {
    EmailPatternShape(form.email);
    FormErrors(
      NameBlank(form.name),
      !IsEmail(form.email),
      adding && |form.password| < MinPasswordLength,
      adding && form.password != form.confirmPassword)
  }

  /** In edit mode the password fields never raise an error. */
  lemma EditIgnoresPassword(form: EmployeeForm)
    ensures !Validate(form, false).password && !Validate(form, false).confirmPassword
    ensures NoError(Validate(form, false)) <==> !NameBlank(form.name) && IsEmail(form.email)
  {
    EmailPatternShape(form.email);
  }

  /** `setFormData(prev => ({ ...prev, [field]: value }))`. */
  function SetField(form: EmployeeForm, field: Field, value: string): (r: EmployeeForm)
    ensures field == NameField ==> r == form.(name := value)
    ensures field == EmailField ==> r == form.(email := value)
    ensures field == RoleField ==> r == form.(role := value)
    ensures field == PasswordField ==> r == form.(password := value)
    ensures field == ConfirmPasswordField ==> r == form.(confirmPassword := value)
  {
    match field
    case NameField => form.(name := value)
    case EmailField => form.(email := value)
    case RoleField => form.(role := value)
    case PasswordField => form.(password := value)
    case ConfirmPasswordField => form.(confirmPassword := value)
  }

  /** Typing clears the typed field's error flag when it is set; the role has no flag. */
  function ClearFieldError(errors: FormErrors, field: Field): (r: FormErrors)
    ensures field == NameField ==> !r.name && r.email == errors.email && r.password == errors.password &&
                                   r.confirmPassword == errors.confirmPassword
    ensures field == EmailField ==> !r.email && r.name == errors.name && r.password == errors.password &&
                                    r.confirmPassword == errors.confirmPassword
    ensures field == PasswordField ==> !r.password && r.name == errors.name && r.email == errors.email &&
                                       r.confirmPassword == errors.confirmPassword
    ensures field == ConfirmPasswordField ==> !r.confirmPassword && r.name == errors.name &&
                                              r.email == errors.email && r.password == errors.password
    ensures field == RoleField ==> r == errors
  {
    match field
    case NameField => if errors.name then errors.(name := false) else errors
    case EmailField => if errors.email then errors.(email := false) else errors
    case PasswordField => if errors.password then errors.(password := false) else errors
    case ConfirmPasswordField => if errors.confirmPassword then errors.(confirmPassword := false) else errors
    case RoleField => errors
  }

  /** The new account an add appends: id `length + 1` and the form's values. */
  function AddEmployee(employees: seq<Employee>, form: EmployeeForm): (r: seq<Employee>)
    ensures |r| == |employees| + 1 && r[..|employees|] == employees
    ensures r[|employees|] == Employee(|employees| + 1, form.name, form.email, form.role, form.password)
  {
    employees + [Employee(|employees| + 1, form.name, form.email, form.role, form.password)]
  }

  /** The list rewrite of a successful edit: an empty password field keeps the stored password. */
  function EditEmployees(employees: seq<Employee>, id: int, form: EmployeeForm): (r: seq<Employee>)
    ensures |r| == |employees|
    ensures forall k :: 0 <= k < |r| && employees[k].id != id ==> r[k] == employees[k]
    ensures forall k :: 0 <= k < |r| && employees[k].id == id ==>
              r[k].id == id && r[k].name == form.name && r[k].email == form.email && r[k].role == form.role &&
              r[k].password == (if form.password != "" then form.password else employees[k].password)
  {
    seq(|employees|, k requires 0 <= k < |employees| =>
      if employees[k].id == id then
        employees[k].(name := form.name, email := form.email, role := form.role,
                      password := if form.password != "" then form.password else employees[k].password)
      else employees[k])
  }

  predicate KeepsOther(id: int, e: Employee) {
    e.id != id
  }

  /** `employees.filter(emp => emp.id !== id)`. */
  function DeleteEmployee(employees: seq<Employee>, id: int): (r: seq<Employee>)
    ensures |r| <= |employees|
    ensures forall k :: 0 <= k < |r| ==> r[k].id != id
  {
    Filter(employees, e => KeepsOther(id, e))
  }

  /** Deleting removes exactly the accounts with that id and keeps the others in order. */
  lemma DeleteEmployeeExact(employees: seq<Employee>, id: int, e: Employee)
    ensures IsSubsequence(DeleteEmployee(employees, id), employees)
    ensures e in DeleteEmployee(employees, id) <==> e in employees && e.id != id
  {
    FilterIsSubsequence(employees, e => KeepsOther(id, e));
    FilterMembership(employees, e => KeepsOther(id, e), e);
  }

  /** Ids run 1, 2, 3, ... in list order, as in the initial data and after adds alone. */
  ghost predicate DenseIds(employees: seq<Employee>) {
    forall k :: 0 <= k < |employees| ==> employees[k].id == k + 1
  }

  /** While ids are dense, the new id is unused and adding keeps them dense. */
  lemma AddEmployeeFresh(employees: seq<Employee>, form: EmployeeForm)
    requires DenseIds(employees)
    ensures forall k :: 0 <= k < |employees| ==> employees[k].id != |employees| + 1
    ensures DenseIds(AddEmployee(employees, form))
  {
  }

  /**
   * Once the first account is deleted, `length + 1` reuses the id of the last
   * remaining account: from dense ids 1..n with n >= 2, delete 1 then add gives
   * two accounts with id n.
   */
  lemma {:induction false} DeleteThenAddDuplicatesId(employees: seq<Employee>, form: EmployeeForm)
    requires DenseIds(employees) && |employees| >= 2
    ensures var after := AddEmployee(DeleteEmployee(employees, 1), form);
            |after| == |employees| && after[|after| - 1].id == after[|after| - 2].id == |employees|
  {
    var rest := employees[1..];
    assert employees == [employees[0]] + rest;
    FilterKeepsAll(rest, e => KeepsOther(1, e));
    FilterAppend([employees[0]], rest, e => KeepsOther(1, e));
    assert Filter([employees[0]], e => KeepsOther(1, e)) == [];
    assert DeleteEmployee(employees, 1) == rest;
  }

  /** The state of the employee accounts page. */
  class AdminAccountsPage {
    var employees: seq<Employee>
    var isAddingEmployee: bool
    var isEditingEmployee: bool
    var currentEmployee: Option<Employee>
    var formData: EmployeeForm
    var formErrors: FormErrors

    constructor (initial: seq<Employee>)
      ensures employees == initial && !isAddingEmployee && !isEditingEmployee && currentEmployee == None
      ensures formData == EmptyForm && formErrors == NoErrors
    {
      employees := initial;
      isAddingEmployee := false;
      isEditingEmployee := false;
      currentEmployee := None;
      formData := EmptyForm;
      formErrors := NoErrors;
    }

    /** `resetForm`: empty fields, role "technician", no error flag. */
    method ResetForm()
      modifies this`formData, this`formErrors
      ensures formData == EmptyForm && formErrors == NoErrors
    {
      formData := EmptyForm;
      formErrors := NoErrors;
    }

    /** `handleInputChange`: sets one field and clears only that field's error. */
    method InputChange(field: Field, value: string)
      modifies this`formData, this`formErrors
      ensures formData == SetField(old(formData), field, value)
      ensures formErrors == ClearFieldError(old(formErrors), field)
    {
      formData := SetField(formData, field, value);
      formErrors := ClearFieldError(formErrors, field);
    }

    method OpenAddEmployeeDialog()
      modifies this`formData, this`formErrors, this`isAddingEmployee
      ensures formData == EmptyForm && formErrors == NoErrors && isAddingEmployee
    {
      ResetForm();
      isAddingEmployee := true;
    }

    /** Opens the edit dialog with the account's name, e-mail and role and empty password fields. */
    method OpenEditEmployeeDialog(employee: Employee)
      modifies this`currentEmployee, this`formData, this`isEditingEmployee
      ensures currentEmployee == Some(employee) && isEditingEmployee
      ensures formData == EmployeeForm(employee.name, employee.email, employee.role, "", "")
    {
      currentEmployee := Some(employee);
      formData := EmployeeForm(employee.name, employee.email, employee.role, "", "");
      isEditingEmployee := true;
    }

    /** `validateForm`: records every flag and reports whether none is set. */
    method ValidateForm() returns (valid: bool)
      modifies this`formErrors
      ensures formErrors == Validate(formData, isAddingEmployee)
      ensures valid <==> NoError(formErrors)
    {
      formErrors := Validate(formData, isAddingEmployee);
      valid := NoError(formErrors);
    }

    /** "Add Employee": a valid form appends an account with id `length + 1` and resets the form. */
    method AddEmployeeAccount() returns (notice: Option<Notice>)
      modifies this`employees, this`isAddingEmployee, this`formData, this`formErrors
      ensures !NoError(Validate(old(formData), old(isAddingEmployee))) ==>
              employees == old(employees) && formErrors == Validate(old(formData), old(isAddingEmployee)) &&
              formData == old(formData) && isAddingEmployee == old(isAddingEmployee) && notice == None
      ensures NoError(Validate(old(formData), old(isAddingEmployee))) ==>
              employees == AddEmployee(old(employees), old(formData)) && !isAddingEmployee &&
              formData == EmptyForm && formErrors == NoErrors &&
              notice == Some(EmployeeAdded(old(formData).name, old(formData).role))
    {
      var valid := ValidateForm();
      if !valid {
        return None;
      }
      var form := formData;
      employees := AddEmployee(employees, form);
      isAddingEmployee := false;
      ResetForm();
      notice := Some(EmployeeAdded(form.name, form.role));
    }

    /** "Save Changes": a blank name or a malformed e-mail only raises those two flags. */
    method EditEmployeeAccount() returns (notice: Option<Notice>)
      modifies this`employees, this`isEditingEmployee, this`currentEmployee, this`formData, this`formErrors
      ensures old(currentEmployee).None? ==>
              employees == old(employees) && formErrors == old(formErrors) && formData == old(formData) &&
              currentEmployee == None && isEditingEmployee == old(isEditingEmployee) && notice == None
      ensures old(currentEmployee).Some? && (NameBlank(old(formData).name) || !IsEmail(old(formData).email)) ==>
              employees == old(employees) && formData == old(formData) &&
              formErrors == old(formErrors).(name := NameBlank(old(formData).name), email := !IsEmail(old(formData).email)) &&
              currentEmployee == old(currentEmployee) && isEditingEmployee == old(isEditingEmployee) && notice == None
      ensures old(currentEmployee).Some? && !NameBlank(old(formData).name) && IsEmail(old(formData).email) ==>
              employees == EditEmployees(old(employees), old(currentEmployee).value.id, old(formData)) &&
              !isEditingEmployee && currentEmployee == None && formData == EmptyForm && formErrors == NoErrors &&
              notice == Some(EmployeeUpdated(old(formData).name))
    {
      if currentEmployee.None? {
        return None;
      }
      if NameBlank(formData.name) || !IsEmail(formData.email) {
        formErrors := formErrors.(name := NameBlank(formData.name), email := !IsEmail(formData.email));
        return None;
      }
      var form := formData;
      employees := EditEmployees(employees, currentEmployee.value.id, form);
      isEditingEmployee := false;
      currentEmployee := None;
      ResetForm();
      notice := Some(EmployeeUpdated(form.name));
    }

    /** The delete action of an account row. */
    method DeleteEmployeeAccount(employee: Employee) returns (notice: Notice)
      modifies this`employees
      ensures employees == DeleteEmployee(old(employees), employee.id)
      ensures notice == EmployeeRemoved(employee.name)
    {
      employees := DeleteEmployee(employees, employee.id);
      notice := EmployeeRemoved(employee.name);
    }
  }
}
