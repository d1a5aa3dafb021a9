/** The page's two pieces of state, the saved employee list and the
    allowances staged on the employee form, and the handlers that change
    them. */
module App {
  import opened Wrappers
  import opened Payroll
  import opened Staging
  import opened Registry

  /** The fields of the employee form; `basicSalary` is `parseFloat` of the
      basic salary field, None when that text is not a number. */
  datatype EmployeeForm = EmployeeForm(
    employeeId: string,
    fullName: string,
    position: string,
    ghanaCard: string,
    tin: string,
    basicSalary: Option<real>)

  /** The record saved on submit: the form's fields, a copy of the staged
      allowances and their payroll breakdown. */
  function EmployeeRecord(form: EmployeeForm, allowances: seq<Allowance>): Employee
  {
    Employee(form.employeeId, form.fullName, form.position, form.ghanaCard, form.tin,
             form.basicSalary, allowances, CalculatePayroll(form.basicSalary, allowances))
  }

  class PayrollApp {
    var employees: seq<Employee>
    var currentAllowances: seq<Allowance>

    /** Every staged amount is positive and every employee id is saved once. */
    ghost predicate Valid()
      reads this
    {
      AllPositive(currentAllowances) && UniqueIds(employees)
    }

    constructor ()
      ensures Valid()
      ensures employees == [] && currentAllowances == []
    {
      employees := [];
      currentAllowances := [];
    }

    /** `addAllowanceRow`: the amount field counts as 0 when it is not a
        number, and only a positive amount is staged. */
    method AddAllowanceRow(kind: string, amountField: Option<real>) returns (accepted: bool)
      requires Valid()
      modifies this
      ensures Valid()
      ensures accepted <==> OrZero(amountField) > 0.0
      ensures amountField.None? ==> !accepted
      ensures currentAllowances ==
        if accepted then old(currentAllowances) + [Allowance(kind, OrZero(amountField))]
        else old(currentAllowances)
      ensures employees == old(employees)
    {
      var amount := OrZero(amountField);
      accepted := amount > 0.0;
      if accepted {
        currentAllowances := currentAllowances + [Allowance(kind, amount)];
      }
    }

    /** `removeAllowance`: `splice(index, 1)` on the staged list. */
    method RemoveAllowance(index: int)
      requires Valid()
      modifies this
      ensures Valid()
      ensures currentAllowances == SpliceOne(old(currentAllowances), index)
      ensures employees == old(employees)
    {
      SpliceOneKeepsPositive(currentAllowances, index);
      currentAllowances := SpliceOne(currentAllowances, index);
    }

    /** `resetEmployeeForm`: the staged list is emptied. */
    method ResetEmployeeForm()
      requires Valid()
      modifies this
      ensures Valid()
      ensures currentAllowances == []
      ensures employees == old(employees)
    {
      currentAllowances := [];
    }

    /** `handleFormSubmit`: the record for the form replaces the saved record
        with the same id where it stands, or is appended when the id is new;
        then the form is reset. */
    method HandleFormSubmit(form: EmployeeForm)
      requires Valid()
      modifies this
      ensures Valid()
      ensures var record := EmployeeRecord(form, old(currentAllowances));
        if HasId(old(employees), form.employeeId) then
          |employees| == |old(employees)| &&
          forall i :: 0 <= i < |employees| ==>
            employees[i] == if old(employees)[i].employeeId == form.employeeId then record else old(employees)[i]
        else
          employees == old(employees) + [record]
      ensures currentAllowances == []
    {
      var record := EmployeeRecord(form, currentAllowances);
      var idx := FindIndexById(employees, form.employeeId);
      if idx != -1 {
        IdOnlyAt(employees, form.employeeId, idx);
        ReplaceAt(employees, idx, record);
        employees := employees[idx := record];
      } else {
        employees := employees + [record];
      }
      ResetEmployeeForm();
    }

    /** `deleteEmployee`: once confirmed, every record with the id is
        filtered out; without confirmation nothing changes. */
    method DeleteEmployee(id: string, confirmed: bool)
      requires Valid()
      modifies this
      ensures Valid()
      ensures employees == if confirmed then WithoutId(old(employees), id) else old(employees)
      ensures currentAllowances == old(currentAllowances)
    {
      if confirmed {
        WithoutIdKeepsUnique(employees, id);
        employees := WithoutId(employees, id);
      }
    }
  }

  /** Replacing the one record holding an id by another record with that id
      keeps the ids unique and touches no other record. */
  lemma ReplaceAt(s: seq<Employee>, idx: nat, record: Employee)
    requires UniqueIds(s)
    requires idx < |s| && s[idx].employeeId == record.employeeId
    ensures UniqueIds(s[idx := record])
    ensures forall i :: 0 <= i < |s| ==>
      s[idx := record][i] == if s[i].employeeId == record.employeeId then record else s[i]
  {
  }
}
