/**
 * How the browser's checks relate to the server's. The registration form and
 * the profile page validate names and passwords before anything is sent; the
 * server's request models validate them again. Over ASCII, which is all
 * this model covers, whatever the browser lets through the server accepts;
 * the converse fails in two places, both proved here with an example.
 * Outside ASCII the tiers part both ways (U+FEFF, U+0085).
 */
module CrossTier {
  import opened Wrappers
  import opened Text
  import opened Strength
  import RegistrationRules
  import Schemas
  import Registration
  import Profile

  /** A password the registration form accepts meets the server's five rules, which return it unchanged. */
  lemma FrontendPasswordPassesBackend(password: string, email: string)
    requires RegistrationRules.ValidatePassword(password, email) == None
    ensures Schemas.ValidatePassword(password) == Ok(password)
  {
    RegistrationRules.ValidatePasswordOrder(password, email);
    var c := ChecksOf(password, email);
    assert Holds(c, Length) && Holds(c, Uppercase) && Holds(c, Lowercase);
    assert Holds(c, Number) && Holds(c, Symbol);
  }

  /**
   * The server does not apply the form's last two rules: a password with a
   * run of three equal characters is accepted by the server and refused by
   * the form.
   */
  lemma BackendAcceptsRepeatedRun()
    ensures Schemas.ValidatePassword("Abc12345!!!x") == Ok("Abc12345!!!x")
    ensures RegistrationRules.ValidatePassword("Abc12345!!!x", "a@domain") == Some(RegistrationRules.RuleFailed(NoRepeated))
  {
    var p := "Abc12345!!!x";
    assert IsUpper(p[0]) && IsLower(p[1]) && IsDigit(p[3]) && IsSymbol(p[8]);
    RegistrationRules.PasswordExample();
  }

  /** No character of `name` is one of the separators U+001C to U+001F, which only Python counts as whitespace. */
  predicate NoSeparators(name: string)
  {
    forall i :: 0 <= i < |name| ==> !(0x1C <= name[i] as int <= 0x1F)
  }

  /** Without the separators the two runtimes see the same whitespace, so they strip a name alike. */
  lemma SameTrimWithoutSeparators(name: string)
    requires NoSeparators(name)
    ensures Trim(JavaScript, name) == Trim(Python, name)
    ensures forall i :: 0 <= i < |name| ==> (IsSpace(JavaScript, name[i]) <==> IsSpace(Python, name[i]))
  {
    TrimAgrees(JavaScript, Python, name);
  }

  /** A name either form accepts is accepted by the server, which returns it stripped and title-cased. */
  lemma FrontendNamePassesBackend(name: string, field: string)
    requires RegistrationRules.ValidateName(name, field) == None
    ensures Schemas.ValidateNames(name) == Ok(Schemas.Normalize(name))
  {
    RegistrationRules.ValidateNameRules(name, field);
    assert NoSeparators(name);
    SameTrimWithoutSeparators(name);
  }

  /**
   * For names without the separators the two tiers agree: the server refuses
   * a name exactly when the form does, and "too short" on the server is
   * "required" or "too short" in the form.
   */
  lemma NameTiersAgree(name: string, field: string)
    requires NoSeparators(name)
    ensures Schemas.ValidateNames(name).Ok? <==> RegistrationRules.ValidateName(name, field) == None
    ensures Schemas.ValidateNames(name) == Err(Schemas.NameTooShortText) <==>
              RegistrationRules.ValidateName(name, field) in {Some(RegistrationRules.NameRequired(field)), Some(RegistrationRules.NameTooShort(field))}
  {
    RegistrationRules.ValidateNameRules(name, field);
    Schemas.ValidateNamesRules(name);
    SameTrimWithoutSeparators(name);
  }

  /**
   * With a separator the tiers part: "ab" followed by U+001C is refused by
   * the form for its characters and accepted by the server as "Ab".
   */
  lemma SeparatorSplitsTiers()
    ensures RegistrationRules.ValidateName("ab\U{1C}", RegistrationRules.FirstNameLabel) ==
              Some(RegistrationRules.NameBadChars(RegistrationRules.FirstNameLabel))
    ensures Schemas.ValidateNames("ab\U{1C}") == Ok("Ab")
  {
    var name := "ab\U{1C}";
    assert TrimStart(JavaScript, name) == name;
    assert TrimEnd(JavaScript, name) == name;
    assert TrimStart(Python, name) == name;
    assert name[..2] == "ab";
    assert TrimEnd(Python, "ab") == "ab";
    assert TrimEnd(Python, name) == "ab";
    assert !RegistrationRules.IsNameChar(JavaScript, name[2]);
    assert Schemas.Title("ab") == "Ab";
  }

  /** Everything a successful registration submit sends passes the server's name and password rules. */
  lemma SubmittedRegistrationPassesBackend(d: Registration.FormValues)
    requires Registration.AllFieldsPass(d)
    ensures Schemas.ValidateNames(d.first_name).Ok? && Schemas.ValidateNames(d.last_name).Ok?
    ensures Schemas.ValidatePassword(d.password) == Ok(d.password)
  {
    assert Registration.FieldError(Registration.FirstName, d) == None;
    assert Registration.FieldError(Registration.LastName, d) == None;
    assert Registration.FieldError(Registration.Password, d) == None;
    FrontendNamePassesBackend(d.first_name, RegistrationRules.FirstNameLabel);
    FrontendNamePassesBackend(d.last_name, RegistrationRules.LastNameLabel);
    FrontendPasswordPassesBackend(d.password, d.email);
  }

  /** The names a profile save sends are accepted by the server's update model. */
  lemma SavedProfilePassesBackend(names: Profile.Names)
    requires Profile.NameError(Profile.FirstName, names) == None
    requires Profile.NameError(Profile.LastName, names) == None
    ensures Schemas.ValidateUpdateNames(Some(names.firstName)) == Ok(Some(Schemas.Normalize(names.firstName)))
    ensures Schemas.ValidateUpdateNames(Some(names.lastName)) == Ok(Some(Schemas.Normalize(names.lastName)))
  {
    FrontendNamePassesBackend(names.firstName, RegistrationRules.FirstNameLabel);
    FrontendNamePassesBackend(names.lastName, RegistrationRules.LastNameLabel);
  }

  /**
   * `PUT /api/profile` (backend/app/routes/users.py): the update model
   * validates both names, each present name replaces the stored one, and the
   * stored user is the reply. A refused name is the error reply; here it
   * carries only the first refused name's message, where Pydantic checks
   * both fields and answers 422 with a list of every field's error as the
   * `detail` the page alerts.
   */
  function ServerUpdate(current: Profile.StoredUser, sent: Profile.Names): (r: Result<Profile.StoredUser, string>)
    ensures r.Ok? <==> Schemas.ValidateNames(sent.firstName).Ok? && Schemas.ValidateNames(sent.lastName).Ok?
    ensures r.Ok? ==> r.value.email == current.email
    ensures r.Ok? ==> r.value.firstName == Schemas.ValidateNames(sent.firstName).value
                      && r.value.lastName == Schemas.ValidateNames(sent.lastName).value
  {
    var first := Schemas.ValidateUpdateNames(Some(sent.firstName));
    var last := Schemas.ValidateUpdateNames(Some(sent.lastName));
    if first.Err? then Err(first.error)
    else if last.Err? then Err(last.error)
    else Ok(Profile.StoredUser(current.email,
                               if first.value.Some? then first.value.value else current.firstName,
                               if last.value.Some? then last.value.value else current.lastName))
  }

  /** A profile save that passes the page's checks is stored stripped and title-cased, under the same email. */
  lemma SavedProfileIsStoredNormalized(current: Profile.StoredUser, names: Profile.Names)
    requires Profile.NameError(Profile.FirstName, names) == None
    requires Profile.NameError(Profile.LastName, names) == None
    ensures ServerUpdate(current, names)
              == Ok(Profile.StoredUser(current.email, Schemas.Normalize(names.firstName), Schemas.Normalize(names.lastName)))
  {
    FrontendNamePassesBackend(names.firstName, RegistrationRules.FirstNameLabel);
    FrontendNamePassesBackend(names.lastName, RegistrationRules.LastNameLabel);
  }

  /** The page accepts ("bob", "Lee"). */
  lemma BobLeePass()
    ensures Profile.NameError(Profile.FirstName, Profile.Names("bob", "Lee")) == None
    ensures Profile.NameError(Profile.LastName, Profile.Names("bob", "Lee")) == None
  {
    assert TrimStart(JavaScript, "bob") == "bob" && TrimEnd(JavaScript, "bob") == "bob";
    assert TrimStart(JavaScript, "Lee") == "Lee" && TrimEnd(JavaScript, "Lee") == "Lee";
  }

  /** The server's reply to saving ("bob", "Lee") for the user Ann Lee: the names title-cased. */
  lemma BobLeeReply()
    ensures ServerUpdate(Profile.StoredUser("ann@getcovered.io", "Ann", "Lee"), Profile.Names("bob", "Lee"))
              == Ok(Profile.StoredUser("ann@getcovered.io", "Bob", "Lee"))
  {
    var current := Profile.StoredUser("ann@getcovered.io", "Ann", "Lee");
    BobLeePass();
    SavedProfileIsStoredNormalized(current, Profile.Names("bob", "Lee"));
    assert TrimStart(Python, "bob") == "bob" && TrimEnd(Python, "bob") == "bob";
    assert TrimStart(Python, "Lee") == "Lee" && TrimEnd(Python, "Lee") == "Lee";
    assert Schemas.Title("bob") == "Bob" && Schemas.Title("Lee") == "Lee";
  }

  /**
   * Cancel restores the current user's names, and a successful save makes
   * the server's stored user current: editing "Ann" to "bob", saving, then
   * editing again and cancelling shows the server's "Bob".
   */
  method EditSaveCancelExample() returns (shown: Profile.Names)
    ensures shown == Profile.Names("Bob", "Lee")
  {
    var current := Profile.StoredUser("ann@getcovered.io", "Ann", "Lee");
    var page := new Profile.ProfileEditor(Some(current));
    page.StartEditing();
    page.OnChange(Profile.FirstName, "bob");
    assert page.formData == Profile.Names("bob", "Lee");
    BobLeePass();
    BobLeeReply();
    var reply := ServerUpdate(current, page.formData);
    var status := page.Save(Profile.Updated(reply.value));
    assert status.Saved? && page.user == Some(Profile.StoredUser("ann@getcovered.io", "Bob", "Lee"));
    page.StartEditing();
    page.Cancel();
    shown := page.formData;
  }

  /**
   * The page's open-before-check gate and the separator gap meet: the server
   * accepts and stores "A" U+001C "B" unchanged, and the pages refuse it.
   */
  lemma StoredSeparatorNameFailsPageCheck()
    ensures Schemas.ValidateNames("A\U{1C}B") == Ok("A\U{1C}B")
    ensures RegistrationRules.ValidateName("A\U{1C}B", RegistrationRules.FirstNameLabel)
              == Some(RegistrationRules.NameBadChars(RegistrationRules.FirstNameLabel))
  {
    var name := "A\U{1C}B";
    assert TrimStart(JavaScript, name) == name && TrimEnd(JavaScript, name) == name;
    assert TrimStart(Python, name) == name && TrimEnd(Python, name) == name;
    assert !RegistrationRules.IsNameChar(JavaScript, name[1]);
    assert Schemas.Title(name) == name;
  }
}
