/** The login form: two required fields, checked before the credentials are posted. */
module LoginPage {
  import opened Wrappers

  /** The body posted to the login route. */
  datatype Credentials = Credentials(email: string, password: string)

  /** What `validate` reports: each empty field gets its own error, so an empty form gets both. */
  predicate Reports(email: string, password: string, errors: map<string, string>) {
    && errors.Keys <= {"email", "password"}
    && ("email" in errors <==> email == "")
    && ("email" in errors ==> errors["email"] == "Email is required")
    && ("password" in errors <==> password == "")
    && ("password" in errors ==> errors["password"] == "Password is required")
  }

  /** `validate`: one error per empty field, and no other key. */
  method Validate(email: string, password: string) returns (errors: map<string, string>)
    ensures Reports(email, password, errors)
    ensures email == "" && password == "" ==>
      errors == map["email" := "Email is required", "password" := "Password is required"]
  {
    errors := map[];
    if email == "" {
      errors := errors["email" := "Email is required"];
    }
    if password == "" {
      errors := errors["password" := "Password is required"];
    }
  }

  /** `handleSubmit`: the two fields are posted, and only when both are filled in. */
  method HandleSubmit(email: string, password: string) returns (errors: map<string, string>, request: Option<Credentials>)
    ensures Reports(email, password, errors)
    ensures request.Some? <==> errors == map[]
    ensures request.Some? <==> email != "" && password != ""
    ensures request.Some? ==> request.value == Credentials(email, password)
  {
    errors := Validate(email, password);
    if |errors| > 0 {
      if "email" !in errors {
        assert "password" in errors;
      }
      return errors, None;
    }
    request := Some(Credentials(email, password));
  }
}
