/**
 * `PersonWithField` from the language-feature tour: two string properties whose setters write
 * the compiler-generated backing field (`field`) only when the value is not null, empty or
 * white space, and throw `ArgumentException` otherwise.
 */
module FieldKeyword {
  import opened Wrappers
  import opened Text

  /** `new ArgumentException(message, paramName)`. */
  datatype ArgumentException = ArgumentException(message: string, paramName: string)

  const FirstNameError := ArgumentException("First name cannot be empty", "FirstName")
  const LastNameError := ArgumentException("Last name cannot be empty", "LastName")

  /** A string that holds at least one character that is not white space. */
  predicate NonBlank(s: string) {
    !IsNullOrWhiteSpace(Some(s))
  }

  /**
   * The setters' conditional expression `!IsNullOrWhiteSpace(value) ? value : throw error`:
   * the value to store, or the exception thrown instead.
   */
  function CheckName(value: Option<string>, error: ArgumentException): (r: Result<string, ArgumentException>)
    ensures r.Ok? <==> value.Some? && exists i :: 0 <= i < |value.value| && !IsWhiteSpace(value.value[i])
    ensures r.Ok? ==> value == Some(r.value) && NonBlank(r.value)
    ensures r.Err? ==> r.error == error
  {
    if !IsNullOrWhiteSpace(value) then Ok(value.value) else Err(error)
  }

  class PersonWithField {
    /** The backing fields of `FirstName` and `LastName`. */
    var firstName: string
    var lastName: string

    /** Once constructed, both names are non-blank, and every setter keeps them so. */
    ghost predicate Valid()
      reads this
    {
      NonBlank(firstName) && NonBlank(lastName)
    }

    /**
     * The object before the constructor body runs: both backing fields unset (C# holds `null`
     * there; the model holds ""). Only `Create` uses it, and it never hands out such an object.
     */
    constructor Unset()
      ensures firstName == "" && lastName == ""
    {
      firstName := "";
      lastName := "";
    }

    /** The `FirstName` getter: `get => field`. */
    function FirstName(): string
      reads this
    {
      firstName
    }

    /** The `LastName` getter: `get => field`. */
    function LastName(): string
      reads this
    {
      lastName
    }

    /** The `FirstName` setter; `thrown` is the exception it raises, if any. */
    method SetFirstName(value: Option<string>) returns (thrown: Option<ArgumentException>)
      modifies this`firstName
      ensures thrown.Some? <==> IsNullOrWhiteSpace(value)
      ensures thrown.Some? ==> thrown.value == FirstNameError && firstName == old(firstName)
      ensures thrown.None? ==> Some(firstName) == value && NonBlank(firstName)
      ensures old(Valid()) ==> Valid()
    {
      match CheckName(value, FirstNameError)
      case Ok(v) =>
        firstName := v;
        thrown := None;
      case Err(e) =>
        thrown := Some(e);
    }

    /** The `LastName` setter; `thrown` is the exception it raises, if any. */
    method SetLastName(value: Option<string>) returns (thrown: Option<ArgumentException>)
      modifies this`lastName
      ensures thrown.Some? <==> IsNullOrWhiteSpace(value)
      ensures thrown.Some? ==> thrown.value == LastNameError && lastName == old(lastName)
      ensures thrown.None? ==> Some(lastName) == value && NonBlank(lastName)
      ensures old(Valid()) ==> Valid()
    {
      match CheckName(value, LastNameError)
      case Ok(v) =>
        lastName := v;
        thrown := None;
      case Err(e) =>
        thrown := Some(e);
    }

    /**
     * `new PersonWithField(firstName, lastName)`: assigns `FirstName`, then `LastName`, through
     * their setters. The first setter that throws aborts construction with its exception.
     */
    static method Create(firstName: Option<string>, lastName: Option<string>)
      returns (r: Result<PersonWithField, ArgumentException>)
      ensures r.Ok? <==> !IsNullOrWhiteSpace(firstName) && !IsNullOrWhiteSpace(lastName)
      ensures r.Ok? ==> fresh(r.value) && r.value.Valid()
      ensures r.Ok? ==> Some(r.value.FirstName()) == firstName && Some(r.value.LastName()) == lastName
      ensures r.Err? ==> r.error == if IsNullOrWhiteSpace(firstName) then FirstNameError else LastNameError
    {
      var p := new PersonWithField.Unset();
      var thrown := p.SetFirstName(firstName);
      if thrown.Some? {
        return Err(thrown.value);
      }
      thrown := p.SetLastName(lastName);
      if thrown.Some? {
        return Err(thrown.value);
      }
      r := Ok(p);
    }
  }

  /**
   * The tour's scenario: construct "John Doe", try to set an empty first name (caught), then set
   * "Jane". The rejected write leaves "John" in place; the accepted one replaces it.
   */
  method FieldKeywordRun() returns (initial: (string, string), caught: Option<ArgumentException>, afterFailed: string, updated: (string, string))
    ensures initial == ("John", "Doe")
    ensures caught == Some(FirstNameError) && afterFailed == "John"
    ensures updated == ("Jane", "Doe")
  {
    assert !IsWhiteSpace("John"[0]) && !IsWhiteSpace("Doe"[0]);
    var created := PersonWithField.Create(Some("John"), Some("Doe"));
    assert created.Ok?;
    var person := created.value;
    initial := (person.FirstName(), person.LastName());
    caught := person.SetFirstName(Some(""));
    afterFailed := person.FirstName();
    assert !IsWhiteSpace("Jane"[0]);
    var ignored := person.SetFirstName(Some("Jane"));
    updated := (person.FirstName(), person.LastName());
  }
}
