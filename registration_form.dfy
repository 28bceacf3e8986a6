/**
 * The registration form's state (frontend/src/components/RegistrationForm.tsx):
 * the five field values, the map of field errors and the strength meter,
 * updated on every keystroke with cross-field re-validation along the
 * dependency edges email -> password -> confirmPassword, and a submit gate.
 */
module Registration {
  import opened Wrappers
  import opened Strength
  import opened RegistrationRules

  datatype Field = FirstName | LastName | Email | Password | ConfirmPassword

  /** The `FormData` record. */
  datatype FormValues = FormValues(
    first_name: string,
    last_name: string,
    email: string,
    password: string,
    confirmPassword: string)
  {
    function Get(f: Field): string
    {
      match f
      case FirstName => first_name
      case LastName => last_name
      case Email => email
      case Password => password
      case ConfirmPassword => confirmPassword
    }

    /** `{ ...prev, [name]: value }`: only field `f` changes. */
    function With(f: Field, v: string): (r: FormValues)
      ensures r.Get(f) == v
      ensures forall g :: g != f ==> r.Get(g) == Get(g)
    {
      match f
      case FirstName => this.(first_name := v)
      case LastName => this.(last_name := v)
      case Email => this.(email := v)
      case Password => this.(password := v)
      case ConfirmPassword => this.(confirmPassword := v)
    }
  }

  const EmptyForm := FormValues("", "", "", "", "")

  /** `ValidationErrors`: a key holding `None` is a key set to `undefined`. */
  type Errors = map<Field, Option<Message>>

  /** The error a field's validator reports for the form's current values. */
  function FieldError(f: Field, d: FormValues): Option<Message>
  {
    match f
    case FirstName => ValidateName(d.first_name, FirstNameLabel)
    case LastName => ValidateName(d.last_name, LastNameLabel)
    case Email => ValidateEmail(d.email)
    case Password => ValidatePassword(d.password, d.email)
    case ConfirmPassword => ValidateConfirmPassword(d.password, d.confirmPassword)
  }

  /** A value JavaScript treats as true: a message whose text is not empty. */
  predicate Truthy(e: Option<Message>)
  {
    e.Some? && (e.value.ServerDetail? ==> e.value.text != "")
  }

  /** `Truthy` is JavaScript's truthiness of the message's text. */
  lemma TruthyIsNonEmptyText(e: Option<Message>)
    ensures Truthy(e) <==> e.Some? && e.value.Text() != ""
  {
    if e.Some? {
      MessageTexts(e.value);
    }
  }

  /** Every field's validator passes. */
  predicate AllFieldsPass(d: FormValues)
  {
    forall f :: FieldError(f, d) == None
  }

  /** The fields a change of `f` re-validates besides `f` itself, given the values before the change. */
  function Dependents(f: Field, before: FormValues): set<Field>
  {
    if f == Email && before.password != "" then {Password}
    else if f == Password && before.confirmPassword != "" then {ConfirmPassword}
    else {}
  }

  /**
   * The error map after `validateField(f, v)`, given the values and errors
   * before: `f` gets its own error, each dependent gets its error for the new
   * values, and no other entry changes.
   */
  function ErrorsAfterChange(before: FormValues, errors: Errors, f: Field, v: string): (r: Errors)
    ensures r.Keys == errors.Keys + {f} + Dependents(f, before)
    ensures forall g :: g in errors && g != f && g !in Dependents(f, before) ==> r[g] == errors[g]
  {
    var after := before.With(f, v);
    var revalidated :=
      if f == Email && before.password != "" then errors[Password := FieldError(Password, after)]
      else if f == Password && before.confirmPassword != "" then errors[ConfirmPassword := FieldError(ConfirmPassword, after)]
      else errors;
    revalidated[f := FieldError(f, after)]
  }

  /** The entries `validateField` writes hold the validators' answers for the values after the change. */
  lemma ChangedEntriesValidate(before: FormValues, errors: Errors, f: Field, v: string)
    ensures ErrorsAfterChange(before, errors, f, v)[f] == FieldError(f, before.With(f, v))
    ensures forall g :: g in Dependents(f, before) ==> ErrorsAfterChange(before, errors, f, v)[g] == FieldError(g, before.With(f, v))
  {
    var after := before.With(f, v);
    assert f != Email ==> after.email == before.email;
    assert f != Password ==> after.password == before.password;
    assert f != ConfirmPassword ==> after.confirmPassword == before.confirmPassword;
  }

  /** An email change re-validates the password, when one is entered, against the new email. */
  lemma EmailChangeErrors(before: FormValues, errors: Errors, v: string)
    ensures ErrorsAfterChange(before, errors, Email, v) ==
              (if before.password != "" then errors[Password := ValidatePassword(before.password, v)] else errors)
                [Email := ValidateEmail(v)]
  {
    var after := before.With(Email, v);
    assert after.password == before.password && after.email == v;
    assert FieldError(Email, after) == ValidateEmail(v);
    assert FieldError(Password, after) == ValidatePassword(before.password, v);
  }

  /** A password change re-validates the confirmation, when one is entered, against the new password. */
  lemma PasswordChangeErrors(before: FormValues, errors: Errors, v: string)
    ensures ErrorsAfterChange(before, errors, Password, v) ==
              (if before.confirmPassword != "" then errors[ConfirmPassword := ValidateConfirmPassword(v, before.confirmPassword)] else errors)
                [Password := ValidatePassword(v, before.email)]
  {
    var after := before.With(Password, v);
    assert after.password == v && after.email == before.email && after.confirmPassword == before.confirmPassword;
    assert FieldError(Password, after) == ValidatePassword(v, before.email);
    assert FieldError(ConfirmPassword, after) == ValidateConfirmPassword(v, before.confirmPassword);
  }

  /** The meter after the change: re-scored whenever `validatePassword` runs on a non-empty password. */
  function StrengthAfterChange(before: FormValues, s: PasswordStrength, f: Field, v: string): PasswordStrength
  {
    if f == Password && v != "" then StrengthOf(v, before.email)
    else if f == Email && before.password != "" then StrengthOf(before.password, v)
    else s
  }

  /** The message a failed `register` leaves on the email field. */
  function RegistrationFailure(detail: Option<string>): (m: Message)
    ensures Truthy(Some(m))
    ensures detail.Some? && detail.value != "" ==> m.Text() == detail.value
    ensures (detail == None || detail == Some("")) ==> m.Text() == "Registration failed"
  {
    ServerDetail(if detail.Some? && detail.value != "" then detail.value else "Registration failed")
  }

  /**
   * The invariant the form keeps between events: a non-empty password's
   * meter reading is its current strength; every error entry is what its
   * validator says now, except that the email entry may hold a server
   * message; and a non-empty field without an entry passes its validator.
   */
  ghost predicate Consistent(d: FormValues, errors: Errors, s: PasswordStrength)
  {
    && WellFormed(s)
    && (d.password != "" ==> s == StrengthOf(d.password, d.email))
    && (forall f :: f in errors ==> errors[f] == FieldError(f, d) || (f == Email && Truthy(errors[f])))
    && (forall f :: f !in errors && d.Get(f) != "" ==> FieldError(f, d) == None)
  }

  /** `isFormValid`: all five fields filled in, no truthy error, and a meter score of exactly 7. */
  predicate Ready(d: FormValues, errors: Errors, s: PasswordStrength)
  {
    && (forall f :: d.Get(f) != "")
    && (forall f :: f in errors ==> !Truthy(errors[f]))
    && s.score == 7
  }

  /** The blank form is consistent. */
  lemma InitialConsistent()
    ensures Consistent(EmptyForm, map[], InitialStrength)
  {
    assert Score(InitialStrength.checks) == 0;
  }

  /**
   * A field that a change of `f` neither sets nor re-validates has the same
   * validator answer before and after: either it does not read `f`, or it is
   * empty and reports "required" either way.
   */
  lemma UntouchedFieldKeepsError(d: FormValues, f: Field, v: string, g: Field)
    requires g != f && g !in Dependents(f, d)
    ensures FieldError(g, d.With(f, v)) == FieldError(g, d)
  {
    var d' := d.With(f, v);
    assert d'.Get(g) == d.Get(g);
    match g
    case FirstName =>
    case LastName =>
    case Email =>
    case Password =>
      if f == Email {
        assert d.password == "" && d'.password == "";
      } else {
        assert d'.email == d.email;
      }
    case ConfirmPassword =>
      if f == Password {
        assert d.confirmPassword == "" && d'.confirmPassword == "";
      } else {
        assert d'.password == d.password;
      }
  }

  /** After a change, the meter still reads the current password's strength. */
  lemma ChangeKeepsStrength(d: FormValues, s: PasswordStrength, f: Field, v: string)
    requires WellFormed(s)
    requires d.password != "" ==> s == StrengthOf(d.password, d.email)
    ensures WellFormed(StrengthAfterChange(d, s, f, v))
    ensures d.With(f, v).password != "" ==> StrengthAfterChange(d, s, f, v) == StrengthOf(d.With(f, v).password, d.With(f, v).email)
  {
    var d' := d.With(f, v);
    assert f != Password ==> d'.password == d.password;
    assert f != Email ==> d'.email == d.email;
  }

  /** Every keystroke keeps the form consistent. */
  lemma ChangePreservesConsistency(d: FormValues, errors: Errors, s: PasswordStrength, f: Field, v: string)
    requires Consistent(d, errors, s)
    ensures Consistent(d.With(f, v), ErrorsAfterChange(d, errors, f, v), StrengthAfterChange(d, s, f, v))
  {
    var d' := d.With(f, v);
    var e' := ErrorsAfterChange(d, errors, f, v);
    ChangeKeepsStrength(d, s, f, v);
    ChangedEntriesValidate(d, errors, f, v);
    forall g | g in e'
      ensures e'[g] == FieldError(g, d') || (g == Email && Truthy(e'[g]))
    {
      if g != f && g !in Dependents(f, d) {
        UntouchedFieldKeepsError(d, f, v, g);
      }
    }
    forall g | g !in e' && d'.Get(g) != ""
      ensures FieldError(g, d') == None
    {
      UntouchedFieldKeepsError(d, f, v, g);
    }
  }

  /** Under the invariant, a filled-in field with no truthy error passes its validator. */
  lemma FieldPasses(d: FormValues, errors: Errors, s: PasswordStrength, f: Field)
    requires Consistent(d, errors, s)
    requires d.Get(f) != ""
    requires f in errors ==> !Truthy(errors[f])
    ensures FieldError(f, d) == None
  {
  }

  /**
   * The submit gate is sound: when every field is filled in and no error is
   * truthy, every validator passes and the password scores 7, so the score
   * test of `isFormValid` is implied by its other conditions.
   */
  lemma ReadyMeansAllFieldsPass(d: FormValues, errors: Errors, s: PasswordStrength)
    requires Consistent(d, errors, s)
    requires forall f :: d.Get(f) != ""
    requires forall f :: f in errors ==> !Truthy(errors[f])
    ensures AllFieldsPass(d)
    ensures s.score == 7 && StrengthOf(d.password, d.email).score == 7
  {
    forall f ensures FieldError(f, d) == None {
      FieldPasses(d, errors, s, f);
    }
    assert d.Get(Password) != "";
    assert ValidatePassword(d.password, d.email) == FieldError(Password, d);
  }

  /** A failed registration replaces every error with the server's message on email; the form stays consistent but is no longer ready. */
  lemma FailurePreservesConsistency(d: FormValues, errors: Errors, s: PasswordStrength, detail: Option<string>)
    requires Consistent(d, errors, s) && Ready(d, errors, s)
    ensures Consistent(d, map[Email := Some(RegistrationFailure(detail))], s)
    ensures !Ready(d, map[Email := Some(RegistrationFailure(detail))], s)
  {
    ReadyMeansAllFieldsPass(d, errors, s);
    var e' := map[Email := Some(RegistrationFailure(detail))];
    assert Email in e' && Truthy(e'[Email]);
  }

  /** What `register` is called with. */
  datatype Registration = Registration(first_name: string, last_name: string, email: string, password: string)

  /** The awaited `register` call, as an outcome supplied from outside. */
  datatype RegisterOutcome = Registered | RegisterFailed(detail: Option<string>)

  /** What `handleSubmit` did: nothing, navigated to the welcome page, or showed the failure. */
  datatype SubmitStatus = NotSubmitted | Welcomed(sent: Registration) | Failed(sent: Registration)

  /**
   * The registration form's state. `OnChange` is `handleInputChange`.
   * `ValidateField` and the methods it dispatches to, including
   * `ValidatePasswordAndScore`, are sub-steps of `OnChange` (in the page they
   * are closures only the change handler reaches), so they neither require nor
   * ensure `Valid()`: `OnChange` re-establishes it.
   */
  class RegistrationForm {
    var formData: FormValues
    var errors: Errors
    var passwordStrength: PasswordStrength

    ghost predicate Valid()
      reads this
    {
      Consistent(formData, errors, passwordStrength)
    }

    constructor ()
      ensures Valid()
      ensures formData == EmptyForm && errors == map[] && passwordStrength == InitialStrength
    {
      formData := EmptyForm;
      errors := map[];
      passwordStrength := InitialStrength;
      InitialConsistent();
    }

    /** `validatePassword`: the error, and the meter updated whenever the password is non-empty. */
    method ValidatePasswordAndScore(password: string, email: string) returns (error: Option<Message>)
      modifies this`passwordStrength
      ensures error == RegistrationRules.ValidatePassword(password, email)
      ensures passwordStrength == if password == "" then old(passwordStrength) else StrengthOf(password, email)
    {
      if password == "" {
        return Some(PasswordRequired);
      }
      var strength := CalculatePasswordStrength(password, email);
      passwordStrength := strength;
      error := FirstFailureMessage(strength.checks);
    }

    /** `handleInputChange`: store the value, then `validateField` against the values seen before the change. */
    method OnChange(f: Field, v: string)
      requires Valid()
      modifies this
      ensures Valid()
      ensures formData == old(formData).With(f, v)
      ensures errors == ErrorsAfterChange(old(formData), old(errors), f, v)
      ensures passwordStrength == StrengthAfterChange(old(formData), old(passwordStrength), f, v)
    {
      var before := formData;
      ChangePreservesConsistency(before, errors, passwordStrength, f, v);
      formData := formData.With(f, v);
      ValidateField(before, f, v);
    }

    /**
     * `validateField`: the field's own error, plus the password (after an
     * email change) or the confirmation (after a password change) when that
     * field already holds a value. `before` is the form as the handler saw it.
     */
    method ValidateField(before: FormValues, f: Field, v: string)
      modifies this`errors, this`passwordStrength
      ensures errors == ErrorsAfterChange(before, old(errors), f, v)
      ensures passwordStrength == StrengthAfterChange(before, old(passwordStrength), f, v)
    {
      match f {
        case Email => ValidateEmailChange(before, v);
        case Password => ValidatePasswordChange(before, v);
        case _ => ValidateOwnField(before, f, v);
      }
    }

    /** The cases of `validateField` that re-validate nothing else: the two names and the confirmation. */
    method ValidateOwnField(before: FormValues, f: Field, v: string)
      requires f in {FirstName, LastName, ConfirmPassword}
      modifies this`errors
      ensures errors == ErrorsAfterChange(before, old(errors), f, v)
    {
      ghost var after := before.With(f, v);
      var error: Option<Message>;
      match f {
        case FirstName =>
          assert after.first_name == v;
          error := ValidateName(v, FirstNameLabel);
        case LastName =>
          assert after.last_name == v;
          error := ValidateName(v, LastNameLabel);
        case ConfirmPassword =>
          assert after.password == before.password && after.confirmPassword == v;
          error := ValidateConfirmPassword(before.password, v);
      }
      assert error == FieldError(f, after);
      errors := errors[f := error];
    }

    /** The `email` case of `validateField`: the email's error, and the password's when one is entered. */
    method ValidateEmailChange(before: FormValues, v: string)
      modifies this`errors, this`passwordStrength
      ensures errors == ErrorsAfterChange(before, old(errors), Email, v)
      ensures passwordStrength == StrengthAfterChange(before, old(passwordStrength), Email, v)
    {
      EmailChangeErrors(before, errors, v);
      var error := ValidateEmail(v);
      if before.password != "" {
        var passwordError := ValidatePasswordAndScore(before.password, v);
        errors := errors[Password := passwordError];
      }
      errors := errors[Email := error];
    }

    /** The `password` case of `validateField`: the password's error, and the confirmation's when one is entered. */
    method ValidatePasswordChange(before: FormValues, v: string)
      modifies this`errors, this`passwordStrength
      ensures errors == ErrorsAfterChange(before, old(errors), Password, v)
      ensures passwordStrength == StrengthAfterChange(before, old(passwordStrength), Password, v)
    {
      PasswordChangeErrors(before, errors, v);
      var error := ValidatePasswordAndScore(v, before.email);
      if before.confirmPassword != "" {
        var confirmError := ValidateConfirmPassword(v, before.confirmPassword);
        errors := errors[ConfirmPassword := confirmError];
      }
      errors := errors[Password := error];
    }

    /** `isFormValid`. */
    function IsFormValid(): (b: bool)
      reads this
    {
      Ready(formData, errors, passwordStrength)
    }

    /**
     * `handleSubmit`: nothing happens unless the form is valid; otherwise
     * `register` is called with the four stored values, and a failure
     * replaces the whole error map by the server's message on email.
     */
    method Submit(outcome: RegisterOutcome) returns (status: SubmitStatus)
      requires Valid()
      modifies this
      ensures Valid()
      ensures formData == old(formData) && passwordStrength == old(passwordStrength)
      ensures !old(IsFormValid()) ==> status == NotSubmitted && errors == old(errors)
      ensures old(IsFormValid()) ==> status != NotSubmitted
      ensures status != NotSubmitted ==> status.sent == Registration(formData.first_name, formData.last_name, formData.email, formData.password)
      ensures status != NotSubmitted ==> AllFieldsPass(formData)
      ensures status.Welcomed? <==> old(IsFormValid()) && outcome.Registered?
      ensures status.Welcomed? ==> errors == old(errors)
      ensures status.Failed? ==> errors == map[Email := Some(RegistrationFailure(outcome.detail))]
    {
      if !IsFormValid() {
        return NotSubmitted;
      }
      ReadyMeansAllFieldsPass(formData, errors, passwordStrength);
      var sent := Registration(formData.first_name, formData.last_name, formData.email, formData.password);
      match outcome {
        case Registered =>
          status := Welcomed(sent);
        case RegisterFailed(detail) =>
          FailurePreservesConsistency(formData, errors, passwordStrength, detail);
          errors := map[Email := Some(RegistrationFailure(detail))];
          status := Failed(sent);
      }
    }
  }
}
