/**
 * The registration form: its state record, the single-field change handler,
 * and the field checks run before the form is posted as it stands.
 */
module RegisterPage {
  import opened Wrappers

  const NameMin := 2
  const PasswordMin := 6

  /** `formData`: the four controlled inputs; `role` is the select's value. */
  datatype RegisterForm = RegisterForm(name: string, email: string, password: string, role: string)

  /** The form starts empty, with the account type `customer`. */
  const InitialForm := RegisterForm("", "", "", "customer")

  /** The `name` attributes of the form's inputs. */
  datatype Field = Name | Email | Password | Role

  /** `formData[field]`. */
  function Get(form: RegisterForm, field: Field): string {
    match field
    case Name => form.name
    case Email => form.email
    case Password => form.password
    case Role => form.role
  }

  /** `handleChange`: a copy of the form with the changed input's field replaced and every other field kept. */
  function HandleChange(form: RegisterForm, field: Field, value: string): (r: RegisterForm)
    ensures Get(r, field) == value
    ensures forall other :: other != field ==> Get(r, other) == Get(form, other)
  {
    match field
    case Name => form.(name := value)
    case Email => form.(email := value)
    case Password => form.(password := value)
    case Role => form.(role := value)
  }

  /** A form is determined by its four fields. */
  lemma FieldsDetermineForm(a: RegisterForm, b: RegisterForm)
    requires forall f :: Get(a, f) == Get(b, f)
    ensures a == b
  {
    assert Get(a, Name) == Get(b, Name) && Get(a, Email) == Get(b, Email);
    assert Get(a, Password) == Get(b, Password) && Get(a, Role) == Get(b, Role);
  }

  /** Changes to two different inputs can arrive in either order. */
  lemma ChangesCommute(form: RegisterForm, f: Field, x: string, g: Field, y: string)
    requires f != g
    ensures HandleChange(HandleChange(form, f, x), g, y) == HandleChange(HandleChange(form, g, y), f, x)
  {
    FieldsDetermineForm(
      HandleChange(HandleChange(form, f, x), g, y), HandleChange(HandleChange(form, g, y), f, x));
  }

  /** Of two changes to the same input, the later one wins. */
  lemma LastChangeWins(form: RegisterForm, f: Field, x: string, y: string)
    ensures HandleChange(HandleChange(form, f, x), f, y) == HandleChange(form, f, y)
  {
    FieldsDetermineForm(HandleChange(HandleChange(form, f, x), f, y), HandleChange(form, f, y));
  }

  /**
   * What `validate` reports: a name or password that is empty or too short and
   * an empty email each get their field's error; the email's format is not
   * checked and the role not at all.
   */
  predicate Reports(form: RegisterForm, errors: map<string, string>) {
    && errors.Keys <= {"name", "email", "password"}
    && ("name" in errors <==> |form.name| < NameMin)
    && ("name" in errors ==> errors["name"] == "Name must be at least 2 characters")
    && ("email" in errors <==> form.email == "")
    && ("email" in errors ==> errors["email"] == "Email is required")
    && ("password" in errors <==> |form.password| < PasswordMin)
    && ("password" in errors ==> errors["password"] == "Password must be at least 6 characters")
  }

  /** `validate`: one error per field that fails its check, and no other key. */
  method Validate(form: RegisterForm) returns (errors: map<string, string>)
    ensures Reports(form, errors)
  {
    errors := map[];
    if form.name == "" || |form.name| < NameMin {
      errors := errors["name" := "Name must be at least 2 characters"];
    }
    if form.email == "" {
      errors := errors["email" := "Email is required"];
    }
    if form.password == "" || |form.password| < PasswordMin {
      errors := errors["password" := "Password must be at least 6 characters"];
    }
  }

  /** `handleSubmit`: the whole form is posted, and only when `validate` found nothing. */
  method HandleSubmit(form: RegisterForm) returns (errors: map<string, string>, request: Option<RegisterForm>)
    ensures Reports(form, errors)
    ensures request.Some? <==> errors == map[]
    ensures request.Some? <==> NameMin <= |form.name| && form.email != "" && PasswordMin <= |form.password|
    ensures request.Some? ==> request.value == form
  {
    errors := Validate(form);
    if |errors| > 0 {
      if "name" !in errors && "email" !in errors {
        assert "password" in errors;
      }
      return errors, None;
    }
    request := Some(form);
  }

  /**
   * Submitting the form as it starts posts nothing and shows all three
   * errors; the account type `customer` needs no choice from the user.
   */
  method SubmitInitialForm() returns (errors: map<string, string>, request: Option<RegisterForm>)
    ensures request.None?
    ensures errors == map[
      "name" := "Name must be at least 2 characters",
      "email" := "Email is required",
      "password" := "Password must be at least 6 characters"]
  {
    errors, request := HandleSubmit(InitialForm);
    assert "name" in errors && "email" in errors && "password" in errors;
  }
}
