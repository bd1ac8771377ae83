/** The login form: `validate` and where a successful login leads. */
module LoginPage {
  import opened Forms
  import opened Schemas
  import opened UserRoute

  /** `validate`: the same email checks as signup; the password is only
      required, with no length rule. */
  method Validate(formData: Form) returns (errors: Errors, valid: bool)
    ensures valid <==> errors == map[]
    ensures errors.Keys <= {"email", "password"}
    ensures "email" in errors <==> !EmailPattern(Field(formData, "email"))
    ensures "email" in errors ==>
              errors["email"] == if Field(formData, "email") == "" then "Email is required" else "Invalid email format"
    ensures "password" in errors <==> Field(formData, "password") == ""
    ensures "password" in errors ==> errors["password"] == "Password is required"
    ensures valid <==> EmailPattern(Field(formData, "email")) && Field(formData, "password") != ""
  {
    var newErrors: Errors := map[];
    EmptyIsNotAnEmail();
    if Field(formData, "email") == "" {
      newErrors := newErrors["email" := "Email is required"];
    } else if !EmailPattern(Field(formData, "email")) {
      newErrors := newErrors["email" := "Invalid email format"];
    }
    if Field(formData, "password") == "" {
      newErrors := newErrors["password" := "Password is required"];
    }
    errors := newErrors;
    valid := |errors.Keys| == 0;
  }

  /** The route navigated to after a successful login, from the `Role` of the reply. */
  function NextRoute(role: string): (route: string)
    ensures route == "/organizer/dashboard" <==> role == "organizer"
    ensures route == "/" <==> role != "organizer"
  {
    if role == "organizer" then "/organizer/dashboard" else "/"
  }

  /** The dashboard is reached exactly by users whose stored role is
      'organizer'. */
  lemma LoginRoutesByStoredRole(users: seq<User>, email: string, password: string, compare: (string, string) -> bool)
    requires Login(users, email, password, compare).Ok?
    ensures var r := Login(users, email, password, compare);
            NextRoute(RoleName(r.body.role)) == "/organizer/dashboard" <==> r.body.user.role == OrganizerRole
  {
  }
}
