/**
 The password-confirmation rules of `UserCreationForm` in assemble/forms.py.

 `cleaned_data` is a map from field names to the values that passed their field
 validation; `dict.get` gives `None` for a field that is absent. The external
 password validator is a parameter that returns the errors it would raise
 (none when the password is acceptable).
 */
module Forms {
  import opened Wrappers

  datatype ValidationError = ValidationError(message: string, code: string)

  const PasswordMismatch: string := "password_mismatch"

  /** The form's `error_messages`. */
  const ErrorMessages: map<string, string> :=
    map[PasswordMismatch := "The two passwords fields didn't match."]

  /** `dict.get`. */
  function Get(data: map<string, string>, key: string): (v: Option<string>)
    ensures v.Some? <==> key in data
  {
    if key in data then Some(data[key]) else None
  }

  /** Python's truth value of an optional string: present and non-empty. */
  predicate Truthy(v: Option<string>) {
    v.Some? && v.value != ""
  }

  /** The outcome of a `clean_<field>` hook: a cleaned value, or a raised error. */
  datatype CleanResult = Cleaned(value: Option<string>) | Raised(error: ValidationError)

  /**
   `clean_password2`: raises the mismatch error exactly when both passwords are
   given (present and non-empty) and differ; otherwise returns `password2` as it
   is, absent or empty included.
   */
  function CleanPassword2(cleanedData: map<string, string>): (r: CleanResult)
    ensures r.Raised? <==>
      Truthy(Get(cleanedData, "password1")) && Truthy(Get(cleanedData, "password2")) &&
      Get(cleanedData, "password1") != Get(cleanedData, "password2")
    ensures r.Raised? ==> r.error == ValidationError(ErrorMessages[PasswordMismatch], PasswordMismatch)
    ensures r.Cleaned? ==> r.value == Get(cleanedData, "password2")
  {
    var password1 := Get(cleanedData, "password1");
    var password2 := Get(cleanedData, "password2");
    if Truthy(password1) && Truthy(password2) && password1 != password2 then
      Raised(ValidationError(ErrorMessages[PasswordMismatch], PasswordMismatch))
    else
      Cleaned(password2)
  }

  /** Two equal passwords are accepted, and `password2` comes back unchanged. */
  lemma EqualPasswordsAccepted(cleanedData: map<string, string>)
    requires Get(cleanedData, "password1") == Get(cleanedData, "password2")
    ensures CleanPassword2(cleanedData) == Cleaned(Get(cleanedData, "password2"))
  {
  }

  /** A missing or empty password on either side never raises the mismatch error. */
  lemma MissingPasswordAccepted(cleanedData: map<string, string>)
    requires !Truthy(Get(cleanedData, "password1")) || !Truthy(Get(cleanedData, "password2"))
    ensures CleanPassword2(cleanedData) == Cleaned(Get(cleanedData, "password2"))
  {
  }

  /** Whether `_post_clean` hands the password to the external validator. */
  predicate ValidatorInvoked(cleanedData: map<string, string>) {
    Truthy(Get(cleanedData, "password2"))
  }

  class UserCreationForm {
    var cleanedData: map<string, string>
    var errors: map<string, seq<ValidationError>>

    /** A form whose fields have passed their own validation with these values. */
    constructor (cleanedData: map<string, string>)
      ensures this.cleanedData == cleanedData && errors == map[]
    {
      this.cleanedData := cleanedData;
      errors := map[];
    }

    /** The errors recorded for `field` so far. */
    function ErrorsOf(field: string): (recorded: seq<ValidationError>)
      reads this
      ensures field !in errors ==> recorded == []
    {
      if field in errors then errors[field] else []
    }

    /**
     The form framework's `add_error`: appends the errors to the field's list
     and drops the field from the cleaned data.
     */
    method AddError(field: string, raised: seq<ValidationError>)
      modifies this
      ensures errors == old(errors)[field := old(ErrorsOf(field)) + raised]
      ensures cleanedData == old(cleanedData) - {field}
    {
      errors := errors[field := ErrorsOf(field) + raised];
      cleanedData := cleanedData - {field};
    }

    /**
     The framework running `clean_password2` for the `password2` field: a raised
     mismatch goes to `password2` through `add_error`; a cleaned value is stored
     back.
     */
    method RunCleanPassword2()
      modifies this
      ensures CleanPassword2(old(cleanedData)).Raised? ==>
        errors == old(errors)["password2" := old(ErrorsOf("password2")) + [CleanPassword2(old(cleanedData)).error]] &&
        cleanedData == old(cleanedData) - {"password2"}
      ensures CleanPassword2(old(cleanedData)).Cleaned? ==>
        errors == old(errors) && cleanedData == old(cleanedData)
    {
      var r := CleanPassword2(cleanedData);
      match r
      case Raised(e) =>
        AddError("password2", [e]);
      case Cleaned(v) =>
        if v.Some? {
          cleanedData := cleanedData["password2" := v.value];
        }
    }

    /**
     `_post_clean`: the validator is called only when `password2` is present and
     non-empty, and whatever it raises is attached to `password2`.
     */
    method PostClean(validate: string -> seq<ValidationError>) returns (invoked: bool)
      modifies this
      ensures invoked <==> ValidatorInvoked(old(cleanedData))
      ensures invoked && validate(old(cleanedData)["password2"]) != [] ==>
        errors == old(errors)["password2" := old(ErrorsOf("password2")) + validate(old(cleanedData)["password2"])] &&
        cleanedData == old(cleanedData) - {"password2"}
      ensures !invoked || validate(old(cleanedData)["password2"]) == [] ==>
        errors == old(errors) && cleanedData == old(cleanedData)
    {
      var password := Get(cleanedData, "password2");
      invoked := Truthy(password);
      if invoked {
        var raised := validate(password.value);
        if raised != [] {
          AddError("password2", raised);
        }
      }
    }
  }

  /**
   Whenever both passwords are given and differ, a fresh form ends its
   cleaning with exactly one field in error, and the external validator is
   never reached.
   */
  method MismatchLeavesOneError(cleanedData: map<string, string>, validate: string -> seq<ValidationError>)
    returns (fieldsInError: nat, invoked: bool)
    requires Truthy(Get(cleanedData, "password1")) && Truthy(Get(cleanedData, "password2"))
    requires Get(cleanedData, "password1") != Get(cleanedData, "password2")
    ensures fieldsInError == 1 && !invoked
  {
    var form := new UserCreationForm(cleanedData);
    form.RunCleanPassword2();
    invoked := form.PostClean(validate);
    fieldsInError := |form.errors|;
  }

  /**
   Whenever both passwords are given and equal, the external validator is
   consulted, and the form is in error exactly when the validator raises.
   */
  method MatchRunsValidator(cleanedData: map<string, string>, validate: string -> seq<ValidationError>)
    returns (fieldsInError: nat, invoked: bool)
    requires Truthy(Get(cleanedData, "password1")) && Truthy(Get(cleanedData, "password2"))
    requires Get(cleanedData, "password1") == Get(cleanedData, "password2")
    ensures invoked
    ensures fieldsInError == if validate(cleanedData["password2"]) == [] then 0 else 1
  {
    var form := new UserCreationForm(cleanedData);
    form.RunCleanPassword2();
    invoked := form.PostClean(validate);
    fieldsInError := |form.errors|;
  }

  /** The test's different passwords: one field in error, validator not reached. */
  method MismatchedPasswords(validate: string -> seq<ValidationError>)
    returns (fieldsInError: nat, invoked: bool)
    ensures fieldsInError == 1 && !invoked
  {
    var data := map["username" := "bob", "password1" := "andwhat13", "password2" := "andwhat15"];
    assert "andwhat13"[8] != "andwhat15"[8];
    fieldsInError, invoked := MismatchLeavesOneError(data, validate);
  }

  /** The test's equal passwords, which the validator accepts: no error, validator consulted. */
  method MatchingPasswords(validate: string -> seq<ValidationError>)
    returns (fieldsInError: nat, invoked: bool)
    requires validate("andwhat13") == []
    ensures fieldsInError == 0 && invoked
  {
    var data := map["username" := "bob", "password1" := "andwhat13", "password2" := "andwhat13"];
    fieldsInError, invoked := MatchRunsValidator(data, validate);
  }
}
