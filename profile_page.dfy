/**
 * The profile page's edit form (frontend/src/pages/ProfilePage.tsx): the
 * signed-in user's first and last name, copied into an editable form, checked
 * field by field as they are typed, checked again on save, and restored on
 * cancel. The email address is read-only and is not part of the form.
 */
module Profile {
  import opened Wrappers
  import RegistrationRules
  import Registration
  import Text

  datatype NameField = FirstName | LastName

  /** The label `handleInputChange` and `handleSave` pass to `validateName`. */
  function FieldLabel(f: NameField): string
  {
    match f
    case FirstName => RegistrationRules.FirstNameLabel
    case LastName => RegistrationRules.LastNameLabel
  }

  datatype Names = Names(firstName: string, lastName: string)
  {
    function Get(f: NameField): string
    {
      match f
      case FirstName => firstName
      case LastName => lastName
    }

    /** The form with field `f` replaced by `v` and the other field kept. */
    function With(f: NameField, v: string): (r: Names)
      ensures r.Get(f) == v
      ensures forall g :: g != f ==> r.Get(g) == Get(g)
    {
      match f
      case FirstName => this.(firstName := v)
      case LastName => this.(lastName := v)
    }
  }

  /** The part of the signed-in user the form starts from. */
  datatype StoredUser = StoredUser(email: string, firstName: string, lastName: string)

  /** `user?.first_name || ''` and `user?.last_name || ''`. */
  function StoredNames(user: Option<StoredUser>): (r: Names)
    ensures user == None ==> r == Names("", "")
    ensures user.Some? ==> r.firstName == user.value.firstName && r.lastName == user.value.lastName
  {
    match user
    case None => Names("", "")
    case Some(u) => Names(u.firstName, u.lastName)
  }

  /** Per-field error messages; a key may be present with no message (`undefined`). */
  type NameErrors = map<NameField, Option<RegistrationRules.Message>>

  /** What `validateName` says about field `f` of `names`. */
  function NameError(f: NameField, names: Names): Option<RegistrationRules.Message>
  {
    RegistrationRules.ValidateName(names.Get(f), FieldLabel(f))
  }

  /** Every recorded error is the validator's verdict on the current value. */
  predicate ErrorsAgree(names: Names, errors: NameErrors)
  {
    forall f :: f in errors ==> errors[f] == NameError(f, names)
  }

  /** `isFormValid`: both names non-empty and neither carries a truthy error. */
  predicate FormValid(names: Names, errors: NameErrors)
  {
    && names.firstName != ""
    && names.lastName != ""
    && (FirstName in errors ==> !Registration.Truthy(errors[FirstName]))
    && (LastName in errors ==> !Registration.Truthy(errors[LastName]))
  }

  /** Every answer of `validateName` is a non-empty message, so a message is always truthy. */
  lemma NameErrorTruthy(f: NameField, names: Names)
    ensures NameError(f, names).Some? ==> Registration.Truthy(NameError(f, names))
    ensures NameError(f, names) == None ==> names.Get(f) != ""
  {
    RegistrationRules.ValidateNameRules(names.Get(f), FieldLabel(f));
  }

  /**
   * Once both fields have been checked (after a save attempt, or after both
   * were edited), the Save button is enabled exactly when both names pass
   * `validateName`.
   */
  lemma FormValidWhenChecked(names: Names, errors: NameErrors)
    requires ErrorsAgree(names, errors)
    requires FirstName in errors && LastName in errors
    ensures FormValid(names, errors) <==> NameError(FirstName, names) == None && NameError(LastName, names) == None
  {
    NameErrorTruthy(FirstName, names);
    NameErrorTruthy(LastName, names);
  }

  /**
   * Before both fields are checked the button can be enabled for a name the
   * validator rejects: a stored first name holding the separator U+001C
   * (which the server accepts and stores), untouched since the form was
   * opened.
   */
  lemma FormValidBeforeCheck()
    ensures var names := StoredNames(Some(StoredUser("a@getcovered.io", "A\U{1C}B", "Smith")));
      FormValid(names, map[])
      && NameError(FirstName, names) == Some(RegistrationRules.NameBadChars(RegistrationRules.FirstNameLabel))
  {
    var name := "A\U{1C}B";
    assert Text.TrimStart(Text.JavaScript, name) == name;
    assert Text.TrimEnd(Text.JavaScript, name) == name;
    assert !RegistrationRules.IsNameChar(Text.JavaScript, name[1]);
  }

  /** Recording a new value together with its verdict keeps every recorded error in agreement. */
  lemma ChangeKeepsAgreement(names: Names, errors: NameErrors, f: NameField, v: string)
    requires ErrorsAgree(names, errors)
    ensures ErrorsAgree(names.With(f, v), errors[f := NameError(f, names.With(f, v))])
  {
    var after := names.With(f, v);
    forall g | g in errors && g != f ensures errors[g] == NameError(g, after) {
      assert after.Get(g) == names.Get(g);
    }
  }

  /**
   * The backend's answer to `updateProfile`: on success the user as the
   * server stored it, which the authentication context then holds as the
   * current user.
   */
  datatype UpdateOutcome = Updated(stored: StoredUser) | UpdateFailed(detail: Option<string>)

  /** What a save attempt did: stopped by validation, saved the names, or alerted a failure. */
  datatype SaveStatus = Blocked | Saved(sent: Names) | Alerted(sent: Names, message: string)

  /** `error.response?.data?.detail || 'Update failed'`. */
  function AlertMessage(detail: Option<string>): (m: string)
    ensures m != ""
    ensures detail.Some? && detail.value != "" ==> m == detail.value
    ensures (detail == None || detail == Some("")) ==> m == "Update failed"
  {
    if detail.Some? && detail.value != "" then detail.value else "Update failed"
  }

  /**
   * The profile page's state. The page renders the inputs and the Save and
   * Cancel buttons only in edit mode, so `OnChange`, `Save` and `Cancel` are
   * reached only while `isEditing`. Their contracts hold in any mode and so
   * do not require it.
   */
  class ProfileEditor {
    var user: Option<StoredUser>
    var formData: Names
    var errors: NameErrors
    var isEditing: bool
    var isSubmitting: bool

    /** Every error on display is the verdict on the value now in its field. */
    ghost predicate Valid()
      reads this
    {
      ErrorsAgree(formData, errors)
    }

    /** The page's initial state: the stored names, no errors, not editing. */
    constructor (user: Option<StoredUser>)
      ensures this.user == user
      ensures formData == StoredNames(user) && errors == map[]
      ensures !isEditing && !isSubmitting
      ensures Valid()
    {
      this.user := user;
      formData := StoredNames(user);
      errors := map[];
      isEditing := false;
      isSubmitting := false;
    }

    /** The Edit Profile button. */
    method StartEditing()
      modifies this`isEditing
      ensures isEditing
    {
      isEditing := true;
    }

    /** `handleInputChange`: store the value and that field's verdict; the other field's error is kept. */
    method OnChange(f: NameField, v: string)
      requires Valid()
      modifies this`formData, this`errors
      ensures Valid()
      ensures formData == old(formData).With(f, v)
      ensures errors == old(errors)[f := NameError(f, formData)]
    {
      ChangeKeepsAgreement(formData, errors, f, v);
      formData := formData.With(f, v);
      var error := RegistrationRules.ValidateName(v, FieldLabel(f));
      errors := errors[f := error];
    }

    /** `isFormValid`. */
    function IsFormValid(): bool
      reads this
    {
      FormValid(formData, errors)
    }

    /**
     * `handleSave`: check both names and record both verdicts; stop if either
     * fails; otherwise send the names, and on success take the server's
     * stored user as the current user and leave edit mode, alerting the
     * failure's detail otherwise.
     */
    method Save(outcome: UpdateOutcome) returns (status: SaveStatus)
      modifies this`errors, this`isEditing, this`isSubmitting, this`user
      ensures Valid()
      ensures errors == map[FirstName := NameError(FirstName, formData), LastName := NameError(LastName, formData)]
      ensures status == Blocked <==> NameError(FirstName, formData).Some? || NameError(LastName, formData).Some?
      ensures status == Blocked ==> isEditing == old(isEditing) && isSubmitting == old(isSubmitting)
      ensures status != Blocked ==> status.sent == formData && !isSubmitting
      ensures status != Blocked ==>
                RegistrationRules.ValidateName(status.sent.firstName, RegistrationRules.FirstNameLabel) == None
                && RegistrationRules.ValidateName(status.sent.lastName, RegistrationRules.LastNameLabel) == None
      ensures status.Saved? <==> status != Blocked && outcome.Updated?
      ensures status.Saved? ==> !isEditing && user == Some(outcome.stored)
      ensures !status.Saved? ==> user == old(user)
      ensures status.Alerted? ==> isEditing == old(isEditing) && status.message == AlertMessage(outcome.detail)
    {
      var firstNameError := RegistrationRules.ValidateName(formData.firstName, RegistrationRules.FirstNameLabel);
      var lastNameError := RegistrationRules.ValidateName(formData.lastName, RegistrationRules.LastNameLabel);
      assert firstNameError == NameError(FirstName, formData) && lastNameError == NameError(LastName, formData);
      errors := map[FirstName := firstNameError, LastName := lastNameError];
      if firstNameError.Some? || lastNameError.Some? {
        return Blocked;
      }
      isSubmitting := true;
      var sent := Names(formData.firstName, formData.lastName);
      match outcome {
        case Updated(stored) =>
          user := Some(stored);
          isEditing := false;
          status := Saved(sent);
        case UpdateFailed(detail) =>
          status := Alerted(sent, AlertMessage(detail));
      }
      isSubmitting := false;
    }

    /** `handleCancel`: back to the current user's names, no errors, out of edit mode. */
    method Cancel()
      modifies this`formData, this`errors, this`isEditing
      ensures formData == StoredNames(user) && errors == map[] && !isEditing
      ensures Valid()
    {
      formData := StoredNames(user);
      errors := map[];
      isEditing := false;
    }
  }
}
