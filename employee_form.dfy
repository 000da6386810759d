/** The employee form: a three-field record (name, age, city), loaded from the
    employee being edited or reset, edited one field at a time, and handed to
    the submit callback only when all three fields are filled in.

    `Number(value)`, which turns the age input's text into a number, is a
    parameter. */
module EmployeeForm {
  import opened Wrappers
  import opened JsNumber

  /** The form record. */
  datatype EmployeeInput = EmployeeInput(name: string, age: Num, city: string)

  /** The fields of an employee record the form reads. */
  datatype Employee = Employee(id: int, name: string, age: real, city: string)

  /** The empty form. */
  const InitialState: EmployeeInput := EmployeeInput("", Finite(0.0), "")

  /** The three inputs, by their `name` attribute. */
  datatype Field = Name | Age | City

  /** What the submit callback receives: the record and, when editing, the id. */
  datatype Submission = Submission(data: EmployeeInput, id: Option<int>)

  /** The form after the employee being edited changes: that employee's name,
      age and city, or the empty form when there is none. */
  function Loaded(editing: Option<Employee>): (f: EmployeeInput)
    ensures editing.None? ==> f == InitialState
    ensures editing.Some? ==> f.name == editing.value.name && f.city == editing.value.city
    ensures editing.Some? ==> f.age == Finite(editing.value.age)
  {
    match editing
    case None => InitialState
    case Some(e) => EmployeeInput(e.name, Finite(e.age), e.city)
  }

  /** The form after a change event on one input: that field takes the typed
      text (converted by `toNumber` for the age); the other two keep theirs. */
  function Changed(prev: EmployeeInput, field: Field, value: string, toNumber: string -> Num): (f: EmployeeInput)
    ensures field == Name ==> f.name == value
    ensures field == Age ==> f.age == toNumber(value)
    ensures field == City ==> f.city == value
    ensures field != Name ==> f.name == prev.name
    ensures field != Age ==> f.age == prev.age
    ensures field != City ==> f.city == prev.city
  {
    match field
    case Name => prev.(name := value)
    case Age => prev.(age := toNumber(value))
    case City => prev.(city := value)
  }

  /** The submit guard: a name, a city and an age that is neither 0 nor NaN. */
  predicate CanSubmit(f: EmployeeInput) {
    f.name != "" && f.city != "" && Truthy(f.age)
  }

  /** What submitting hands to the callback, if anything. */
  function Submit(f: EmployeeInput, editing: Option<Employee>): (r: Option<Submission>)
    ensures r.None? <==> f.name == "" || f.city == "" || f.age == NaN || f.age == Finite(0.0)
    ensures r.Some? ==> r.value.data == f
    ensures r.Some? ==> r.value.id == if editing.Some? then Some(editing.value.id) else None
  {
    if !CanSubmit(f) then None
    else Some(Submission(f, if editing.Some? then Some(editing.value.id) else None))
  }

  /** Edits to different fields commute. */
  lemma ChangesCommute(prev: EmployeeInput, f1: Field, v1: string, f2: Field, v2: string,
                       toNumber: string -> Num)
    requires f1 != f2
    ensures Changed(Changed(prev, f1, v1, toNumber), f2, v2, toNumber)
              == Changed(Changed(prev, f2, v2, toNumber), f1, v1, toNumber)
  {
  }

  /** A later edit of a field replaces an earlier one. */
  lemma LastChangeWins(prev: EmployeeInput, field: Field, v1: string, v2: string,
                       toNumber: string -> Num)
    ensures Changed(Changed(prev, field, v1, toNumber), field, v2, toNumber)
              == Changed(prev, field, v2, toNumber)
  {
  }

  /** The reset form is never submitted. */
  lemma ResetFormIsRejected(editing: Option<Employee>)
    ensures Submit(Loaded(None), editing) == None
  {
  }

  /** Loading a complete employee and submitting sends its fields back with its id. */
  lemma LoadedEmployeeSubmits(e: Employee)
    requires e.name != "" && e.city != "" && e.age != 0.0
    ensures Submit(Loaded(Some(e)), Some(e))
              == Some(Submission(EmployeeInput(e.name, Finite(e.age), e.city), Some(e.id)))
  {
  }

  /** Emptying any one input blocks submission (for the age, given that the
      empty text converts to 0, as `Number("")` does). */
  lemma EmptiedFieldBlocksSubmit(f: EmployeeInput, field: Field, editing: Option<Employee>,
                                 toNumber: string -> Num)
    requires field != Age || toNumber("") == Finite(0.0)
    ensures Submit(Changed(f, field, "", toNumber), editing) == None
  {
  }

  /** The form component's state: the one record cell. */
  class Form {
    var form: EmployeeInput

    constructor ()
      ensures form == InitialState
    {
      form := InitialState;
    }

    /** The effect that runs when the employee being edited changes. */
    method SyncWithEditing(editing: Option<Employee>)
      modifies this
      ensures form == Loaded(editing)
    {
      if editing.Some? {
        form := EmployeeInput(editing.value.name, Finite(editing.value.age), editing.value.city);
      } else {
        form := InitialState;
      }
    }

    /** A change event on one of the three inputs. */
    method HandleChange(field: Field, value: string, toNumber: string -> Num)
      modifies this
      ensures form == Changed(old(form), field, value, toNumber)
    {
      var prev := form;
      if field == Age {
        form := prev.(age := toNumber(value));
      } else if field == Name {
        form := prev.(name := value);
      } else {
        form := prev.(city := value);
      }
    }

    /** Submitting: the record is read, never written. */
    method HandleSubmit(editing: Option<Employee>) returns (sent: Option<Submission>)
      ensures sent == Submit(form, editing)
    {
      if form.name == "" || form.city == "" || !Truthy(form.age) {
        return None;
      }
      sent := Some(Submission(form, if editing.Some? then Some(editing.value.id) else None));
    }
  }
}
