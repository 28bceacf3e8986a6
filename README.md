# Registration and profile validation, modelled in Dafny

This project models the validation logic of a small user-registration
application for one organisation. The application has a React frontend and
a FastAPI backend. It covers three parts:

- **The registration form** (`RegistrationForm.tsx`). A password-strength
  meter scores seven checks, counts the ones that pass and labels the count.
  Two of the checks are loops: a scan for a run of three equal characters,
  and a count of differences from the email's local part. Four validators
  answer with the message of the first rule a value breaks. Every keystroke
  re-validates the edited field. An email change also re-validates an entered
  password, and a password change also re-validates an entered confirmation.
  A submit gate needs all five fields filled in, no error shown and a
  strength score of exactly 7.
- **The profile page** (`ProfilePage.tsx`). The signed-in user's first and
  last names can be edited, are checked as they are typed, are checked again
  on save, and are restored on cancel.
- **The backend request models** (`schemas.py`). They check names again and
  normalise them with `strip().title()`. New passwords must pass a five-rule
  policy. A partial-update model lets absent names through.

Modules:

- `Text` (`text.dfy`): ASCII character classes, JavaScript `trim`,
  Python `strip` and lower-casing.
- `Strength` (`strength.dfy`): the scorer, the label ladder and the two
  scanning loops. Each loop is a method proved against a specification
  function.
- `RegistrationRules` (`registration_rules.dfy`): the four validators and
  their messages. `validateName` has one definition, shared by both pages,
  because the profile page declares the same function word for word.
- `Registration` (`registration_form.dfy`): the form's state as the class
  `RegistrationForm`. Its fields are `formData`, `errors` and
  `passwordStrength`. It has the keystroke handler and the submit handler.
- `Profile` (`profile_page.dfy`): the class `ProfileEditor`, with its edit,
  save and cancel handlers. A successful save makes the server's stored
  user the current user, so a later cancel restores the server's
  normalised names.
- `Schemas` (`schemas.dfy`): the backend validators. A raised `ValueError`
  is an `Err` carrying its message.
- `CrossTier` (`cross_tier.dfy`): how the browser's checks relate to the
  server's.

The main invariant of the registration form is `Consistent`. It says three
things:

- For a non-empty password, the meter shows that password's strength.
- Every error entry is what its validator now says about the current values.
  The one exception is the email entry, which may hold a server message.
- A filled-in field with no error entry passes its validator.

Every keystroke preserves the invariant. Under it, the score test of the
submit gate follows from the gate's other conditions. Submit is one atomic
step in this model, so both facts assume no keystroke lands while the
register call is pending (see "Left out").

The two tiers treat whitespace differently. Among ASCII characters,
JavaScript's `trim` and `\s` count tab, line feed, vertical tab, form feed,
carriage return and space as whitespace. Python's `strip` and `re`'s `\s`
also count the separators U+001C to U+001F. So for ASCII names, every name
the browser accepts, the server accepts too. For ASCII names the reverse
holds only when they contain none of those separators. For example, `"ab"`
followed by U+001C is refused by the browser and stored as `"Ab"` by the
server.

Validator messages are constructors of `RegistrationRules.Message`.
`Message.Text` gives the exact wording each one shows.

## Model

| member | source | states |
|---|---|---|
| Strength.Score | frontend/src/components/RegistrationForm.tsx:78 | The score is at most 7. It is 7 exactly when all seven checks pass and 0 exactly when none does. |
| Strength.CountTrue | frontend/src/components/RegistrationForm.tsx:78 | The number of true entries is at most the length. It equals the length exactly when all are true and is 0 exactly when none is. |
| Strength.Values | frontend/src/components/RegistrationForm.tsx:78 | `Object.values(checks)` has seven entries, each one the result of its check in declaration order. |
| Strength.LabelFor | frontend/src/components/RegistrationForm.tsx:80-98 | The `if` ladder from score to label. Its bands and monotonicity are stated by `Strength.LabelLadder`. |
| Strength.LabelLadder | frontend/src/components/RegistrationForm.tsx:80-98 | The label is blank for 0, Weak for 1–2, Fair for 3–4, Good for 5–6 and Strong for 7. A higher score never gets a lower label. |
| Strength.StrengthOf | frontend/src/components/RegistrationForm.tsx:67-101 | The reading is well formed: its score counts its checks and its label follows the score. Its checks are the seven checks of the password against the email. |
| Strength.CalculatePasswordStrength | frontend/src/components/RegistrationForm.tsx:67-101 | The scorer, run with the two scanning methods, returns exactly the specified reading. |
| Strength.HasRepeatedChars | frontend/src/components/RegistrationForm.tsx:103-110 | The loop returns true exactly when some position starts three equal characters. |
| Strength.TripleRunExamples | frontend/src/components/RegistrationForm.tsx:103-110 | A password shorter than three has no run. "aaab" has a run and "aabaa" has none. |
| Strength.LocalPart | frontend/src/components/RegistrationForm.tsx:114 | `split('@')[0]`. `Strength.LocalPartSpec` states what it returns, and `Strength.LocalPartOfAddress` states it for `x@y`. |
| Strength.LocalPartSpec | frontend/src/components/RegistrationForm.tsx:114 | `split('@')[0]` is the longest prefix without `@`, followed by the first `@` if there is one. |
| Strength.LocalPartOfAddress | frontend/src/components/RegistrationForm.tsx:114 | The local part of `x@y` is `x` when `x` has no `@`. |
| Strength.MismatchesBelow | frontend/src/components/RegistrationForm.tsx:119-121 | The count of differing positions below `n` is at most `n`. |
| Strength.MismatchesBelowZero | frontend/src/components/RegistrationForm.tsx:119-121 | No differing position below `n` exactly when the two prefixes of length `n` are equal. |
| Strength.MismatchesBelowSymmetric | frontend/src/components/RegistrationForm.tsx:119-121 | The count of differing positions does not depend on argument order. |
| Strength.DistanceProperties | frontend/src/components/RegistrationForm.tsx:116-122 | The difference count is 0 exactly for equal strings and is symmetric. It lies between the length difference and the longer length. |
| Strength.IsDifferentFromEmail | frontend/src/components/RegistrationForm.tsx:112-125 | The counting loop returns true exactly when the email is empty, or when the lower-cased local part and password differ in 5 or more places (length difference included). |
| Strength.SameAsLocalPartFails | frontend/src/components/RegistrationForm.tsx:112-125 | A password equal to the local part, ignoring case, fails the rule. |
| Strength.DivergenceByLength | frontend/src/components/RegistrationForm.tsx:112-125 | Against a non-empty email, a length difference of 5 or more passes the rule. Two strings both shorter than 5 fail it. |
| Strength.SameAsLocalPartExample | frontend/src/components/RegistrationForm.tsx:112-125 | ("abc12345", "abc12345@domain") fails the rule. |
| Strength.DivergentExample | frontend/src/components/RegistrationForm.tsx:112-125 | ("Xyz!9Tuv2Qw", "abc@domain") passes the rule. |
| Strength.ChecksExample | frontend/src/components/RegistrationForm.tsx:68-76 | "Abc12345!!!x" against "a@domain" fails only the no-repeat check. |
| Strength.StrengthExample | frontend/src/components/RegistrationForm.tsx:67-101 | That password scores 6 and is labelled Good. |
| Text.Trim | frontend/src/components/RegistrationForm.tsx:129-130 | JavaScript `trim` and Python `strip`, chosen by runtime. `Text.TrimIsCore`, `Text.TrimEmptyIffAllSpace`, `Text.TrimIdempotent` and `Text.TrimAgrees` state what it returns. |
| Text.TrimStartSpec | frontend/src/components/RegistrationForm.tsx:129-130 | Dropping leading whitespace leaves the suffix after the longest all-space prefix. |
| Text.TrimEndSpec | frontend/src/components/RegistrationForm.tsx:129-130 | Dropping trailing whitespace leaves the prefix before the longest all-space suffix. |
| Text.TrimIsCore | frontend/src/components/RegistrationForm.tsx:129-130 | `trim` returns a slice of the input. Everything cut away is whitespace, and the result neither starts nor ends with whitespace. |
| Text.TrimEmptyIffAllSpace | frontend/src/components/RegistrationForm.tsx:129 | A name trims to nothing exactly when it is whitespace only. |
| Text.TrimIdempotent | backend/app/schemas.py:17 | Stripping twice is stripping once. |
| Text.TrimAgrees | backend/app/schemas.py:13 | Two runtimes trim a string alike when they agree on which of its characters are whitespace. |
| Text.Lower | frontend/src/components/RegistrationForm.tsx:114-115 | `toLowerCase` keeps the length and lower-cases each character in place. |
| Text.CaseMapping | backend/app/schemas.py:17 | Case mapping keeps letters as letters, sends them to the intended case and leaves other characters alone. |
| Text.JsSpaceIsPySpace | backend/app/schemas.py:15 | Over ASCII, JavaScript whitespace is Python whitespace, and the two differ exactly on U+001C to U+001F. |
| RegistrationRules.MessageTexts | frontend/src/components/RegistrationForm.tsx:128-164 | Every validator message shows a non-empty text. The seven check messages are pairwise distinct, and none is the "required" message. |
| RegistrationRules.ValidateName | frontend/src/components/RegistrationForm.tsx:128-133 | `validateName`, the same in ProfilePage.tsx:16-21. Each answer and its condition are stated by `RegistrationRules.ValidateNameRules`. |
| RegistrationRules.ValidateNameRules | frontend/src/components/RegistrationForm.tsx:128-133 | Each answer of `validateName` holds exactly under its condition: whitespace only, trimmed length under 2, or a character outside letters, whitespace and hyphen (checked untrimmed). Otherwise there is no error. |
| RegistrationRules.WorkEmailPatternSplit | frontend/src/components/RegistrationForm.tsx:138 | The email pattern holds exactly when a non-empty run of local characters comes right before the domain suffix. |
| RegistrationRules.ValidateEmail | frontend/src/components/RegistrationForm.tsx:135-141 | `validateEmail`. Each answer and its condition are stated by `RegistrationRules.ValidateEmailRules`. |
| RegistrationRules.ValidateEmailRules | frontend/src/components/RegistrationForm.tsx:135-141 | Each answer of `validateEmail` holds exactly under its condition: empty, wrong suffix, or pattern failure. There is no error exactly for a valid local part followed by `@getcovered.io`. |
| RegistrationRules.EmailChecksOverlap | frontend/src/components/RegistrationForm.tsx:137-139 | The pattern implies the suffix test. The bare domain is an invalid format. |
| RegistrationRules.FirstFailure | frontend/src/components/RegistrationForm.tsx:149-155 | The ladder stops at the first failing check in declaration order. It finds none exactly when all seven pass. |
| RegistrationRules.AllChecksHold | frontend/src/components/RegistrationForm.tsx:68-76 | All checks hold exactly when every field of the record is true. |
| RegistrationRules.FirstFailingUnique | frontend/src/components/RegistrationForm.tsx:149-155 | Only one check can be the first to fail. |
| RegistrationRules.FirstFailureMessageCorrect | frontend/src/components/RegistrationForm.tsx:149-157 | The message names exactly the first failing check. There is no message exactly when all seven pass. |
| RegistrationRules.ValidatePassword | frontend/src/components/RegistrationForm.tsx:143-158 | `validatePassword`'s answer. Its order of checks is stated by `RegistrationRules.ValidatePasswordOrder`, and the meter update by `Registration.RegistrationForm.ValidatePasswordAndScore`. |
| RegistrationRules.ValidatePasswordOrder | frontend/src/components/RegistrationForm.tsx:143-158 | "Password is required" exactly for an empty password. Otherwise the answer is exactly the first failing check's message, and there is no error exactly when the score is 7. |
| RegistrationRules.ValidateConfirmPassword | frontend/src/components/RegistrationForm.tsx:160-164 | No error exactly when the confirmation is non-empty and equals the password. |
| RegistrationRules.PasswordExample | frontend/src/components/RegistrationForm.tsx:143-158 | "Abc12345!!!x" with "a@domain" gets the repeat message. |
| Registration.FormValues.With | frontend/src/components/RegistrationForm.tsx:201 | `{ ...prev, [name]: value }` sets the named field and keeps the others. |
| Registration.TruthyIsNonEmptyText | frontend/src/components/RegistrationForm.tsx:212 | An error counts as shown exactly when its text is non-empty. |
| Registration.ErrorsAfterChange | frontend/src/components/RegistrationForm.tsx:167-197 | After a change of `f`, the keys are the old keys plus `f` and its dependents. Every other entry is unchanged. |
| Registration.ChangedEntriesValidate | frontend/src/components/RegistrationForm.tsx:167-197 | The changed field and its re-validated dependents hold their validators' answers for the new values. |
| Registration.EmailChangeErrors | frontend/src/components/RegistrationForm.tsx:177-183 | An email change sets the email's error. It also re-validates the password against the new email, but only when a password is entered. |
| Registration.PasswordChangeErrors | frontend/src/components/RegistrationForm.tsx:184-190 | A password change sets its error. It also re-validates the confirmation against the new password, but only when one is entered. |
| Registration.RegistrationFailure | frontend/src/components/RegistrationForm.tsx:231 | The failure message is shown. It is the server's detail when that is non-empty, else "Registration failed". |
| Registration.InitialConsistent | frontend/src/components/RegistrationForm.tsx:40-64 | The blank form with an empty meter satisfies the invariant. |
| Registration.UntouchedFieldKeepsError | frontend/src/components/RegistrationForm.tsx:167-197 | A field that a change neither sets nor re-validates has the same validator answer before and after. Either it does not read the changed field, or it is empty. |
| Registration.StrengthAfterChange | frontend/src/components/RegistrationForm.tsx:143-147 | The meter after a change: re-scored when the changed field is the password, or the email with a password entered, and only for a non-empty password. `Registration.ChangeKeepsStrength` states that it always shows the current password's reading. |
| Registration.ChangeKeepsStrength | frontend/src/components/RegistrationForm.tsx:143-147 | After a change, the meter still shows the current non-empty password's strength. |
| Registration.ChangePreservesConsistency | frontend/src/components/RegistrationForm.tsx:167-203 | Every keystroke keeps the invariant. |
| Registration.FieldPasses | frontend/src/components/RegistrationForm.tsx:205-215 | Under the invariant, a filled-in field with no shown error passes its validator. |
| Registration.Ready | frontend/src/components/RegistrationForm.tsx:205-215 | `isFormValid`: five non-empty fields, no truthy error and score 7. `Registration.ReadyMeansAllFieldsPass` and `Registration.FailurePreservesConsistency` state what it implies. |
| Registration.ReadyMeansAllFieldsPass | frontend/src/components/RegistrationForm.tsx:205-215 | When the gate's field and error conditions hold, every validator passes and the score is 7. So the gate's score test is implied by its other conditions. |
| Registration.FailurePreservesConsistency | frontend/src/components/RegistrationForm.tsx:230-231 | After a failed register, with no keystroke while the call was pending, the invariant still holds and the form is no longer ready. |
| Registration.RegistrationForm.constructor | frontend/src/components/RegistrationForm.tsx:40-64 | The form starts blank, with no errors and an empty meter, and satisfies the invariant. |
| Registration.RegistrationForm.ValidatePasswordAndScore | frontend/src/components/RegistrationForm.tsx:143-158 | Returns the validator's answer. Sets the meter to the new reading exactly when the password is non-empty. |
| Registration.RegistrationForm.OnChange | frontend/src/components/RegistrationForm.tsx:199-203 | Stores the value, then validates against the values seen before the change. Keeps the invariant. |
| Registration.RegistrationForm.ValidateField | frontend/src/components/RegistrationForm.tsx:167-197 | The new error map and meter are those the change specifies. |
| Registration.RegistrationForm.ValidateOwnField | frontend/src/components/RegistrationForm.tsx:171-176 | A name or confirmation change only sets that field's error. |
| Registration.RegistrationForm.ValidateEmailChange | frontend/src/components/RegistrationForm.tsx:177-183 | Writes the email change's errors. Re-scores the meter when a password is entered. |
| Registration.RegistrationForm.ValidatePasswordChange | frontend/src/components/RegistrationForm.tsx:184-190 | Writes the password change's errors. Re-scores the meter for a non-empty password. |
| Registration.RegistrationForm.IsFormValid | frontend/src/components/RegistrationForm.tsx:205-215 | `isFormValid` on the form's state, i.e. `Registration.Ready`. `Registration.RegistrationForm.Submit` states that it gates sending. |
| Registration.RegistrationForm.Submit | frontend/src/components/RegistrationForm.tsx:217-235 | An invalid form changes nothing. A valid one sends the four stored values, all of which pass their validators. Success keeps the errors. Failure replaces the whole map with the server message on email. The whole submit is one atomic step. |
| Profile.StoredNames | frontend/src/pages/ProfilePage.tsx:9-12 | The form starts from the user's names, or empty strings when no user is loaded. |
| Profile.Names.With | frontend/src/pages/ProfilePage.tsx:25 | Sets the named field and keeps the other. |
| Profile.NameErrorTruthy | frontend/src/pages/ProfilePage.tsx:16-21 | Every answer of `validateName` is a shown error. No error implies a non-empty name. |
| Profile.FormValid | frontend/src/pages/ProfilePage.tsx:76-83 | `isFormValid`: both names non-empty and neither error truthy. Its meaning is stated by `Profile.FormValidWhenChecked` and `Profile.FormValidBeforeCheck`. |
| Profile.FormValidWhenChecked | frontend/src/pages/ProfilePage.tsx:76-83 | Once both fields have been checked, `isFormValid` holds exactly when both names pass `validateName`. |
| Profile.FormValidBeforeCheck | frontend/src/pages/ProfilePage.tsx:76-83 | Before any check, `isFormValid` can hold for a stored name the validator rejects for its characters ("A" U+001C "B"). |
| Profile.ChangeKeepsAgreement | frontend/src/pages/ProfilePage.tsx:23-30 | Recording a new value with its verdict keeps every recorded error in agreement with the values. |
| Profile.AlertMessage | frontend/src/pages/ProfilePage.tsx:48 | The alert text is non-empty. It is the server's detail when that is non-empty, else "Update failed". |
| Profile.ProfileEditor.constructor | frontend/src/pages/ProfilePage.tsx:8-14 | Starts from the stored names, with no errors, not editing and not submitting. |
| Profile.ProfileEditor.StartEditing | frontend/src/pages/ProfilePage.tsx:185 | The Edit Profile button enters edit mode. |
| Profile.ProfileEditor.OnChange | frontend/src/pages/ProfilePage.tsx:23-30 | Writes only the edited field's value and only that field's error, labelled "First name" or "Last name". |
| Profile.ProfileEditor.IsFormValid | frontend/src/pages/ProfilePage.tsx:76-83 | `isFormValid` on the editor's state, i.e. `Profile.FormValid`. |
| Profile.ProfileEditor.Save | frontend/src/pages/ProfilePage.tsx:32-52 | Replaces the errors with exactly both names' verdicts. If either fails, it stops with edit mode and `isSubmitting` unchanged. Otherwise it sends names that pass and ends with `isSubmitting` false. On success it makes the server's stored user the current user and leaves edit mode. Otherwise it keeps the current user and alerts the failure text. |
| Profile.ProfileEditor.Cancel | frontend/src/pages/ProfilePage.tsx:54-61 | Restores the current user's names, which are the server's stored names after a successful save. Empties the errors and leaves edit mode. |
| Schemas.Title | backend/app/schemas.py:17 | `str.title()`. Its meaning is stated by `Schemas.TitleAt`, and its idempotence by `Schemas.TitleIdempotent`. |
| Schemas.Normalize | backend/app/schemas.py:17 | `v.strip().title()`. `Schemas.NormalizeIdempotent` and `Schemas.ValidatedNameShape` state what it returns. |
| Schemas.TitleFrom | backend/app/schemas.py:17 | Title-casing keeps the length. |
| Schemas.TitleFromAt | backend/app/schemas.py:17 | Each position of the result depends only on its own character and on whether the previous one is a letter. |
| Schemas.TitleAt | backend/app/schemas.py:17 | `title` keeps non-letters. A letter becomes upper case exactly when it starts a run of letters, and lower case otherwise. |
| Schemas.TitleIdempotent | backend/app/schemas.py:17 | Title-casing twice is title-casing once. |
| Schemas.TitleKeepsShape | backend/app/schemas.py:15-17 | Title-casing keeps a string stripped and keeps it within the name pattern. |
| Schemas.TrimKeepsPattern | backend/app/schemas.py:15-17 | Stripping a name within the pattern leaves a name within the pattern. |
| Schemas.NormalizeIdempotent | backend/app/schemas.py:17 | `strip().title()` has no surrounding whitespace, and applying it twice is applying it once. |
| Schemas.ValidateNames | backend/app/schemas.py:11-17 | `UserBase.validate_names`. Each outcome and its condition are stated by `Schemas.ValidateNamesRules`. `Schemas.ValidatedNameIsFixedPoint` and `Schemas.ValidatedNameShape` state what it returns. |
| Schemas.ValidateNamesRules | backend/app/schemas.py:11-17 | "Too short" exactly when the stripped length is under 2. "Bad characters" exactly for the remaining names with a character outside letters, whitespace and hyphen. Otherwise the name is accepted. |
| Schemas.ValidatedNameIsFixedPoint | backend/app/schemas.py:11-17 | A returned name passes the validator again, unchanged. |
| Schemas.ValidatedNameShape | backend/app/schemas.py:17 | A returned name has at least two characters and no surrounding whitespace. Its letters are capitalised by word. |
| Schemas.ValidateUpdateNames | backend/app/schemas.py:42-50 | An absent name passes through. A present one gets exactly the base validator's result. |
| Schemas.ValidatePassword | backend/app/schemas.py:22-34 | On success the password is returned unchanged. |
| Schemas.ValidatePasswordRules | backend/app/schemas.py:22-34 | Each message is given exactly when its rule is the first of the five to fail. The password is accepted exactly when all five hold. |
| CrossTier.FrontendPasswordPassesBackend | backend/app/schemas.py:24-33 | An ASCII password the form accepts passes the server's policy, which returns it unchanged. |
| CrossTier.BackendAcceptsRepeatedRun | backend/app/schemas.py:22-34 | The server accepts "Abc12345!!!x", which the form refuses for its repeated run. |
| CrossTier.SameTrimWithoutSeparators | backend/app/schemas.py:13 | Without U+001C to U+001F, `trim` and `strip` agree. |
| CrossTier.FrontendNamePassesBackend | backend/app/schemas.py:11-17 | An ASCII name either page accepts is accepted by the server and stored stripped and title-cased. |
| CrossTier.NameTiersAgree | backend/app/schemas.py:13-16 | For names without the separators, the server refuses exactly the names the pages refuse. Its "too short" matches the pages' "required" or "too short". |
| CrossTier.SeparatorSplitsTiers | backend/app/schemas.py:13-17 | "ab" plus U+001C is refused by the pages and accepted by the server as "Ab". |
| CrossTier.SubmittedRegistrationPassesBackend | backend/app/schemas.py:11-34 | For ASCII input, everything a submitted registration sends passes the server's name and password rules. |
| CrossTier.SavedProfilePassesBackend | backend/app/schemas.py:42-50 | For ASCII names, the names a profile save sends are accepted by the update model. |
| CrossTier.ServerUpdate | backend/app/routes/users.py:13-27 | The profile update succeeds exactly when both names pass the server's validator. It keeps the email and stores the validated names. |
| CrossTier.SavedProfileIsStoredNormalized | backend/app/routes/users.py:13-27 | ASCII names that pass the page's checks are stored stripped and title-cased, under the same email. |
| CrossTier.BobLeeReply | backend/app/routes/users.py:13-27 | Saving ("bob", "Lee") for the user Ann Lee gets back the stored user with "Bob" and "Lee". |
| CrossTier.EditSaveCancelExample | frontend/src/pages/ProfilePage.tsx:32-61 | Editing "Ann" to "bob", saving with the server's reply, editing again and cancelling shows "Bob", the server's stored name. |
| CrossTier.StoredSeparatorNameFailsPageCheck | backend/app/schemas.py:11-17 | The server stores "A" U+001C "B" unchanged, and the pages refuse it for its characters. |

## Left out

- Rendering: JSX, CSS classes, the meter's `color`, the show/hide password toggles and the "Saving..." text are presentation only.
- Network calls: `register` and `updateProfile` are outcomes passed in as parameters. A successful `updateProfile` carries the server's stored user, which the profile editor makes its current user, as the authentication context does (frontend/src/context/AuthContext.tsx:75-78). The HTTP requests, `navigate`, login and logout are not modelled. The alert dialog itself is not modelled; its text is `Profile.AlertMessage`.
- Registration.RegistrationForm.Submit: modelled as one atomic step, so the registration form's `isSubmitting` flag and keystrokes while `register` is pending are not modelled. In the program `await register(...)` yields and only the submit button is disabled, so `handleInputChange` can run meanwhile; a failure then replaces the whole error map (RegistrationForm.tsx:231) and drops entries written during the call. Registration.FailurePreservesConsistency and Registration.ReadyMeansAllFieldsPass therefore hold only when no keystroke lands during the call: typing "A" as first name while a valid submit is pending, then a failure, leaves "A" with no error entry, and re-typing the email reopens the gate. The profile page's flag is modelled, and it is false again at the end of every save that gets past validation.
- The registration form's failure message and the profile page's alert text (`Profile.AlertMessage`) assume the server's `detail` is a string. A non-string detail (such as Pydantic's list of validation errors) is not modelled.
- CrossTier.FrontendPasswordPassesBackend: holds for ASCII passwords only. The form's `password.length >= 12` counts UTF-16 code units (frontend/src/components/RegistrationForm.tsx:69), while the server's `len(v) < 12` counts code points (backend/app/schemas.py:24). "Abcdefgh1!" followed by U+1F600, with email "a@getcovered.io", is 12 units long: it passes all seven browser checks and opens the gate. It is 11 code points long, so the server refuses it as too short. The same limit applies to CrossTier.SubmittedRegistrationPassesBackend, and, through the U+FEFF case below, to CrossTier.SavedProfilePassesBackend and CrossTier.SavedProfileIsStoredNormalized.
- CrossTier.FrontendNamePassesBackend: holds for ASCII names only. Outside ASCII the tiers part both ways. "Ann" followed by U+FEFF passes `validateName`, because JavaScript's `trim` and `\s` count U+FEFF, but the server refuses it for its characters, because Python does not. U+0085 is another character that Python counts as whitespace and JavaScript does not, like U+001C.
- Only ASCII is modelled. Unicode whitespace, Unicode case mapping, UTF-16 lengths and regex-engine semantics beyond the character classes used here are left out.
- Pydantic's `EmailStr` check on the backend is a foreign library and is not modelled. Only the frontend email rules are.
- The login form, routes, the database layer, seeding and the welcome and auth pages hold no validation logic and are not part of this model.
- After a successful registration the form only navigates to the welcome page. Its values are not reset, and the model follows that code.
- Profile.ProfileEditor.OnChange: requires the class invariant that every recorded error agrees with its value. The source has no such precondition, but the invariant holds from construction onward because every handler keeps it.
