/** The signup form: its initial state and `validate`. */
module SignUpPage {
  import opened Forms

  /** The initial form data; the role select starts at 'user'. */
  const InitialForm: Form := map["username" := "", "email" := "", "password" := "", "role" := "user"]

  const MinPasswordLength: nat := 6

  /** `validate`: fills the error dictionary field by field; the form may be
      submitted when it stays empty. `role` is never checked. */
  method Validate(formData: Form) returns (errors: Errors, valid: bool)
    ensures valid <==> errors == map[]
    ensures errors.Keys <= {"username", "email", "password"}
    ensures "username" in errors <==> Field(formData, "username") == ""
    ensures "username" in errors ==> errors["username"] == "Username is required"
    ensures "email" in errors <==> !EmailPattern(Field(formData, "email"))
    ensures "email" in errors ==>
              errors["email"] == if Field(formData, "email") == "" then "Email is required" else "Invalid email format"
    ensures "password" in errors <==> |Field(formData, "password")| < MinPasswordLength
    ensures "password" in errors ==>
              errors["password"] == if Field(formData, "password") == "" then "Password is required"
                                    else "Password must be at least 6 characters long"
    ensures valid <==> Field(formData, "username") != "" && EmailPattern(Field(formData, "email"))
                       && |Field(formData, "password")| >= MinPasswordLength
  {
    var newErrors: Errors := map[];
    EmptyIsNotAnEmail();
    if Field(formData, "username") == "" {
      newErrors := newErrors["username" := "Username is required"];
    }
    if Field(formData, "email") == "" {
      newErrors := newErrors["email" := "Email is required"];
    } else if !EmailPattern(Field(formData, "email")) {
      newErrors := newErrors["email" := "Invalid email format"];
    }
    if Field(formData, "password") == "" {
      newErrors := newErrors["password" := "Password is required"];
    } else if |Field(formData, "password")| < MinPasswordLength {
      newErrors := newErrors["password" := "Password must be at least 6 characters long"];
    }
    errors := newErrors;
    valid := |errors.Keys| == 0;
  }

  /** The role field starts at 'user'. */
  lemma InitialRoleIsUser()
    ensures Field(InitialForm, "role") == "user"
    ensures Field(InitialForm, "username") == "" && Field(InitialForm, "email") == "" && Field(InitialForm, "password") == ""
  {
  }
}
