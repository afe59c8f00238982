# GUAU&MIAU registration and login, modelled in Dafny

GUAU&MIAU is a small Android app. A user registers an account with some pets, then logs in. The accounts live in a local Room table keyed by e-mail. This project models that flow and proves properties of it:

- **the account store**: the `users` table behind `UserDao`, and the `UserRepository` that forwards to it;
- **the registration view model**: its form state, its pet-id counter and its edit handlers; the rule set `validateAndRegister` applies; and the insert of the new user;
- **the login view model**: a state machine that goes edit → loading → success or the generic failure → acknowledged.

Files:

| file | module | models |
|---|---|---|
| wrappers.dfy | `Wrappers` | Kotlin nullable values as `Option` |
| runtime.dfy | `Runtime` | 32-bit `Int` with wrap-around, UTF-16 `String.length`, `isBlank`, `endsWith`, and the platform's character classification and e-mail pattern as parameters |
| accounts.dfy | `Accounts` | the `Pet` and `User` rows |
| user_dao.dfy | `UserStore` | the table as a map from e-mail to row, the insert that aborts on a duplicate key, the two lookups, and the `UserDao` class that holds the table |
| user_repository.dfy | `Repository` | the `UserRepository` class |
| register_form.dfy | `RegisterForm` | `PetState`, `RegisterFormState`, every validation rule, the verdict of a submit, the row built from a valid form, and the pet-list edits |
| registration.dfy | `Registration` | the `RegisterViewModel` class |
| login.dfy | `Login` | `LoginUiState` and the `LoginViewModel` class |

How the model is shaped:

- **Imperative state becomes a class.** Each view model and the DAO is a class. Its fields are the state the source updates in place (`_uiState`, `petIdCounter`, the table). Each handler is a method whose `ensures` gives the whole new state in terms of the old one. The repository and the platform are fixed at construction, a form of dependency injection.
- **Pure logic becomes functions.** The validation rules are functions, because in the source they are if/else chains and `map`/`all` expressions.
- **Platform classification is a parameter.** Unicode classification (`Char.isWhitespace`, `isUpperCase`, `isLowerCase`, `isDigit`) and Android's `Patterns.EMAIL_ADDRESS` are function-valued fields of a `Platform` value. No fixed table is assumed. The worked examples assume that the platform classifies ASCII as the JVM does (`AgreesWithAscii`, which counts codes 9–13 and 28–32 as whitespace). `ForeignDomainExample` also assumes that the e-mail pattern accepts `a@gmail.com`.
- **Kotlin iterates UTF-16 units.** A code point outside the Basic Multilingual Plane is two surrogate units, and no classifier accepts a surrogate. Lengths likewise count UTF-16 units (`Utf16Length`).
- **The special-character check follows the regex, line terminators included.** The password check `matches(".*[@#\\$%].*")` passes only when the password contains one of `@#$%` AND contains no line terminator. This is because, without the DOTALL flag, `.` does not match a line terminator. `IsLineTerminator` takes the set of the ICU engine behind Android's `java.util.regex`: `\n`, U+000B, U+000C, `\r`, U+0085, U+2028 and U+2029. `LineBreakHidesSpecial` shows two passwords rejected this way.
- **A submit is one atomic step.** The duplicate-e-mail check and the insert see the same table. So the insert's ABORT cannot happen after a form that validated. `ValidateAndRegister` proves that its `Aborted` outcome is never returned.

Three consequences of the code as written:

- The full-name rule accepts only the explicit set `a-z A-Z ñ Ñ á é í ó ú Á É Í Ó Ú ü Ü` and space. So other Latin accented letters, such as `à` or `ç`, are rejected.
- The store reports no storage failure. Its only failure outcome is the duplicate-key abort.
- The special-character rule also rejects a password that contains a line terminator, as described above.

## Model

| member | source | states |
|---|---|---|
| `Runtime.WrappingSucc` | app/src/main/java/com/example/guaumiauapp/viewmodels/RegisterViewModel.kt:58 | the counter after `getAndIncrement` is the old value plus one modulo 2^32, and it only grows while the old value is below `Int.MAX_VALUE` |
| `Runtime.Utf16Length` | app/src/main/java/com/example/guaumiauapp/viewmodels/RegisterViewModel.kt:75 | `String.length` is between the code-point count and twice it, and equals the code-point count exactly when every character is in the BMP (the exact count is `Utf16LengthCountsUnits`) |
| `Runtime.Utf16LengthCountsUnits` | app/src/main/java/com/example/guaumiauapp/viewmodels/RegisterViewModel.kt:75 | `String.length` is exactly the code-point count plus the number of code points outside the BMP |
| `Runtime.Utf16LengthAppend` | app/src/main/java/com/example/guaumiauapp/viewmodels/RegisterViewModel.kt:84 | the UTF-16 length of a concatenation is the sum of the two lengths |
| `UserStore.Insert` | app/src/main/java/com/example/guaumiauapp/Data/UserDao.kt:11-13 | the insert aborts exactly when a row with the new e-mail exists; otherwise the table gains exactly that row under its e-mail, keeps every other row and stays keyed by e-mail |
| `UserStore.FindByEmail` | app/src/main/java/com/example/guaumiauapp/Data/UserDao.kt:19-21 | a row is returned exactly when some stored row has the e-mail, and it is such a row |
| `UserStore.FindByCredentials` | app/src/main/java/com/example/guaumiauapp/Data/UserDao.kt:15-17 | a row is returned exactly when some stored row matches both e-mail and password, and it is such a row |
| `UserStore.UniqueEmails` | app/src/main/java/com/example/guaumiauapp/Data/User.kt:16-17 | with e-mail as primary key, two stored rows with the same e-mail are the same row |
| `UserStore.InsertThenFind` | app/src/main/java/com/example/guaumiauapp/Data/UserDao.kt:11-21 | after a successful insert both lookups return exactly the inserted user, ordered pet list included |
| `UserStore.InsertSameEmailAborts` | app/src/main/java/com/example/guaumiauapp/Data/UserDao.kt:11-13 | after a successful insert, any further insert with the same e-mail aborts, so nothing is overwritten |
| `UserStore.UserDao.constructor` | app/src/main/java/com/example/guaumiauapp/Data/UserDao.kt:9 | the DAO is a handle on the table as the database currently holds it |
| `UserStore.UserDao.InsertUser` | app/src/main/java/com/example/guaumiauapp/Data/UserDao.kt:11-13 | the table changes exactly as `Insert` says; on abort it is unchanged and `DuplicateKey` is returned |
| `UserStore.UserDao.FindUserByCredentials` | app/src/main/java/com/example/guaumiauapp/Data/UserDao.kt:15-17 | returns the credentials lookup on the current table and changes nothing |
| `UserStore.UserDao.FindUserByEmail` | app/src/main/java/com/example/guaumiauapp/Data/UserDao.kt:19-21 | returns the e-mail lookup on the current table and changes nothing |
| `Repository.UserRepository.constructor` | app/src/main/java/com/example/guaumiauapp/Data/UserRepository.kt:12 | the repository forwards to the given DAO and is valid when the DAO's table is keyed by e-mail |
| `Repository.UserRepository.AddUser` | app/src/main/java/com/example/guaumiauapp/Data/UserRepository.kt:19-21 | exactly the effect and the failure of the DAO's insert |
| `Repository.UserRepository.FindUserByCredentials` | app/src/main/java/com/example/guaumiauapp/Data/UserRepository.kt:26-28 | exactly the DAO's credentials lookup |
| `Repository.UserRepository.IsEmailRegistered` | app/src/main/java/com/example/guaumiauapp/Data/UserRepository.kt:33-35 | true exactly when the e-mail lookup finds a row, that is, when the e-mail is a key of the table; the table is unchanged |
| `Repository.UserRepository.AddThenAddAgain` | app/src/main/java/com/example/guaumiauapp/Data/UserRepository.kt:19-35 | after an add succeeds the e-mail reads as registered and a second add with the same e-mail fails; if the first add fails, the second fails too and the table is unchanged |
| `Repository.CheckTwice` | app/src/main/java/com/example/guaumiauapp/Data/UserRepository.kt:33-35 | two e-mail checks with no insert between them agree, and each is true exactly when the e-mail is stored |
| `RegisterForm.FirstFailure` | app/src/main/java/com/example/guaumiauapp/viewmodels/RegisterViewModel.kt:73-92 | reference meaning of an if/else rule chain: no message exactly when no check fails; otherwise the message of a failing check that has no failing check before it |
| `RegisterForm.NameErrorIsFirstFailure` | app/src/main/java/com/example/guaumiauapp/viewmodels/RegisterViewModel.kt:73-76 | the name error is the first failure among: blank, characters outside the allowed set, more than 50 units |
| `RegisterForm.EmailErrorIsFirstFailure` | app/src/main/java/com/example/guaumiauapp/viewmodels/RegisterViewModel.kt:78-82 | the e-mail error is the first failure among: blank, not matching the e-mail pattern, not ending in `@duoc.cl`, already registered |
| `RegisterForm.PasswordErrorIsFirstFailure` | app/src/main/java/com/example/guaumiauapp/viewmodels/RegisterViewModel.kt:84-90 | the password error is the first failure among: under 8 units, no uppercase, no lowercase, no digit, failing the special-character pattern |
| `RegisterForm.PetNameErrorIsFirstFailure` | app/src/main/java/com/example/guaumiauapp/viewmodels/RegisterViewModel.kt:95 | a pet name's error is the first failure among: blank, over 50 units |
| `RegisterForm.NoErrorIffAccepted` | app/src/main/java/com/example/guaumiauapp/viewmodels/RegisterViewModel.kt:73-96 | each field has no error exactly when all of its checks pass, both directions; the confirmation has no error exactly when it equals the password |
| `RegisterForm.ForeignCharIsFormatError` | app/src/main/java/com/example/guaumiauapp/viewmodels/RegisterViewModel.kt:73-75 | a name holding a non-whitespace character outside the allowed set gets the letters-only message, whatever its length |
| `RegisterForm.NameLengthIsCodePoints` | app/src/main/java/com/example/guaumiauapp/viewmodels/RegisterViewModel.kt:74-75 | for a name made of allowed characters, the UTF-16 length is the character count |
| `RegisterForm.StrongPasswordExample` | app/src/main/java/com/example/guaumiauapp/viewmodels/RegisterViewModel.kt:84-90 | `Abcdefg1@` passes every password check |
| `RegisterForm.NoUppercaseExample` | app/src/main/java/com/example/guaumiauapp/viewmodels/RegisterViewModel.kt:86 | `abcdefg1@` is rejected with the uppercase message |
| `RegisterForm.NoDigitExample` | app/src/main/java/com/example/guaumiauapp/viewmodels/RegisterViewModel.kt:88 | `Abcdefg@` is rejected with the digit message |
| `RegisterForm.LineBreakHidesSpecial` | app/src/main/java/com/example/guaumiauapp/viewmodels/RegisterViewModel.kt:89 | a password with `@` and a trailing newline, and one with `@` and a trailing vertical tab, are each rejected with the special-character message |
| `RegisterForm.AccentedNameExample` | app/src/main/java/com/example/guaumiauapp/viewmodels/RegisterViewModel.kt:73-76 | `José Pérez` passes the name checks |
| `RegisterForm.DigitInNameExample` | app/src/main/java/com/example/guaumiauapp/viewmodels/RegisterViewModel.kt:74 | `R2D2` gets the letters-only message |
| `RegisterForm.ForeignDomainExample` | app/src/main/java/com/example/guaumiauapp/viewmodels/RegisterViewModel.kt:78-82 | assuming the platform's e-mail pattern accepts `a@gmail.com`, that address gets the domain message, registered or not |
| `RegisterForm.ValidatePets` | app/src/main/java/com/example/guaumiauapp/viewmodels/RegisterViewModel.kt:94-98 | every pet is kept, in order, with id, name and type unchanged, and with its name and type errors recomputed |
| `RegisterForm.Validate` | app/src/main/java/com/example/guaumiauapp/viewmodels/RegisterViewModel.kt:94-101 | the form is valid exactly when name, e-mail and password pass all their checks, the confirmation equals the password, and every pet has a non-blank name of at most 50 units and a non-blank type; the checked pets keep ids and values |
| `RegisterForm.VerdictFieldsAreFirstFailures` | app/src/main/java/com/example/guaumiauapp/viewmodels/RegisterViewModel.kt:73-98 | one submit computes every field's error, each from that field's own ordered rule chain, pet names and pet types included |
| `RegisterForm.MismatchReportedAlone` | app/src/main/java/com/example/guaumiauapp/viewmodels/RegisterViewModel.kt:92 | with a good password and a different confirmation, only the confirmation errors and the form is invalid |
| `RegisterForm.PetsOf` | app/src/main/java/com/example/guaumiauapp/viewmodels/RegisterViewModel.kt:110 | the stored pets are the (name, type) pairs of the sub-forms, in list order |
| `RegisterForm.NewUser` | app/src/main/java/com/example/guaumiauapp/viewmodels/RegisterViewModel.kt:105-111 | the new row carries the form's name, e-mail and password; its phone is absent exactly when the phone is blank and is the phone otherwise; its pets are the sub-forms' (name, type) pairs in order |
| `RegisterForm.EditPet` | app/src/main/java/com/example/guaumiauapp/viewmodels/RegisterViewModel.kt:56-57 | the list keeps its length and order, the pets with the given id get the edit, and every other pet is unchanged |
| `RegisterForm.RemovePet` | app/src/main/java/com/example/guaumiauapp/viewmodels/RegisterViewModel.kt:59 | the result holds exactly the pets whose id differs from the given one; removing an id no pet has returns the list unchanged |
| `RegisterForm.EditKeepsIds` | app/src/main/java/com/example/guaumiauapp/viewmodels/RegisterViewModel.kt:56-57 | edits keep the ids increasing and below the counter |
| `RegisterForm.RemoveOnly` | app/src/main/java/com/example/guaumiauapp/viewmodels/RegisterViewModel.kt:59 | when only one entry carries the id, removal deletes exactly that entry and keeps the rest in order |
| `RegisterForm.RemovePetAt` | app/src/main/java/com/example/guaumiauapp/viewmodels/RegisterViewModel.kt:59 | with increasing ids, removing the id at position k yields the list without position k, in order |
| `RegisterForm.RemoveKeepsAbove` | app/src/main/java/com/example/guaumiauapp/viewmodels/RegisterViewModel.kt:59 | removal keeps every id above a lower bound the ids were above |
| `RegisterForm.RemoveKeepsBelow` | app/src/main/java/com/example/guaumiauapp/viewmodels/RegisterViewModel.kt:59 | removal keeps every id below an upper bound, such as the counter, that the ids were below |
| `RegisterForm.RemoveKeepsIncreasing` | app/src/main/java/com/example/guaumiauapp/viewmodels/RegisterViewModel.kt:59 | removal keeps increasing ids increasing |
| `RegisterForm.RemoveKeepsIds` | app/src/main/java/com/example/guaumiauapp/viewmodels/RegisterViewModel.kt:59 | removal keeps the ids increasing and below the counter |
| `RegisterForm.AddTwoRemoveFirst` | app/src/main/java/com/example/guaumiauapp/viewmodels/RegisterViewModel.kt:58-59 | adding two fresh pets and removing the first by its id leaves exactly the second one after the earlier pets |
| `Registration.RegisterViewModel.constructor` | app/src/main/java/com/example/guaumiauapp/viewmodels/RegisterViewModel.kt:42-45 | an empty form, counter zero, ordered pet ids, and a valid repository |
| `Registration.RegisterViewModel.OnFullNameChange` | app/src/main/java/com/example/guaumiauapp/viewmodels/RegisterViewModel.kt:51 | sets the name, clears only its error, and leaves everything else unchanged |
| `Registration.RegisterViewModel.OnEmailChange` | app/src/main/java/com/example/guaumiauapp/viewmodels/RegisterViewModel.kt:52 | sets the e-mail, clears only its error, and leaves everything else unchanged |
| `Registration.RegisterViewModel.OnPhoneChange` | app/src/main/java/com/example/guaumiauapp/viewmodels/RegisterViewModel.kt:53 | an all-digit phone is stored and nothing else changes; any other input leaves the state exactly as it was |
| `Registration.RegisterViewModel.OnPasswordChange` | app/src/main/java/com/example/guaumiauapp/viewmodels/RegisterViewModel.kt:54 | sets the password, clears only its error, and leaves everything else unchanged |
| `Registration.RegisterViewModel.OnConfirmPasswordChange` | app/src/main/java/com/example/guaumiauapp/viewmodels/RegisterViewModel.kt:55 | sets the confirmation, clears only its error, and leaves everything else unchanged |
| `Registration.RegisterViewModel.OnPetNameChange` | app/src/main/java/com/example/guaumiauapp/viewmodels/RegisterViewModel.kt:56 | edits only the matching pets' name and name error, and keeps the id ordering |
| `Registration.RegisterViewModel.OnPetTypeChange` | app/src/main/java/com/example/guaumiauapp/viewmodels/RegisterViewModel.kt:57 | edits only the matching pets' type and type error, and keeps the id ordering |
| `Registration.RegisterViewModel.AddPet` | app/src/main/java/com/example/guaumiauapp/viewmodels/RegisterViewModel.kt:58 | appends exactly one blank pet with the counter's value as its id, which, while the ids are ordered, is larger than every earlier id; advances the counter with wrap-around; keeps the ids ordered while the counter is below `Int.MAX_VALUE` |
| `Registration.RegisterViewModel.RemovePet` | app/src/main/java/com/example/guaumiauapp/viewmodels/RegisterViewModel.kt:59 | the list becomes the filtered list, nothing else changes, and the id ordering is kept |
| `Registration.RegisterViewModel.ValidateAndRegister` | app/src/main/java/com/example/guaumiauapp/viewmodels/RegisterViewModel.kt:65-127 | valid form: exactly the new user is added under its e-mail and only the success flag is raised. Invalid form: all errors and checked pets are written at once, entered values are kept, the flag is lowered and the table is unchanged. The insert never aborts |
| `Registration.RegisterViewModel.OnRegistrationHandled` | app/src/main/java/com/example/guaumiauapp/viewmodels/RegisterViewModel.kt:131-133 | clears only the success flag |
| `Registration.SecondRegistrationReportsDuplicate` | app/src/main/java/com/example/guaumiauapp/viewmodels/RegisterViewModel.kt:70-81 | once a valid form is stored, any form with the same e-mail gets the duplicate message and is invalid |
| `Login.Started` | app/src/main/java/com/example/guaumiauapp/viewmodels/LoginViewModel.kt:39 | loading on, message cleared, fields and success flag unchanged |
| `Login.Finished` | app/src/main/java/com/example/guaumiauapp/viewmodels/LoginViewModel.kt:48-55 | loading off; success exactly when a user was found; otherwise the one fixed message |
| `Login.Attempt` | app/src/main/java/com/example/guaumiauapp/viewmodels/LoginViewModel.kt:38-58 | success exactly when a stored row matches both e-mail and password exactly; the message is absent on success and the fixed one otherwise; the fields are kept |
| `Login.OutcomeDependsOnlyOnMatch` | app/src/main/java/com/example/guaumiauapp/viewmodels/LoginViewModel.kt:43-55 | two tables that agree on whether the credentials match give the same end state |
| `Login.UnknownEmailLooksLikeWrongPassword` | app/src/main/java/com/example/guaumiauapp/viewmodels/LoginViewModel.kt:50-55 | an unknown e-mail and a wrong password for a known one end in the same state with the same message |
| `Login.LoginViewModel.constructor` | app/src/main/java/com/example/guaumiauapp/viewmodels/LoginViewModel.kt:25-27 | the initial login state, with a valid repository |
| `Login.LoginViewModel.OnEmailChange` | app/src/main/java/com/example/guaumiauapp/viewmodels/LoginViewModel.kt:30-32 | sets the e-mail, clears the message, and leaves everything else unchanged |
| `Login.LoginViewModel.OnPasswordChange` | app/src/main/java/com/example/guaumiauapp/viewmodels/LoginViewModel.kt:34-36 | sets the password, clears the message, and leaves everything else unchanged |
| `Login.LoginViewModel.BeginLogin` | app/src/main/java/com/example/guaumiauapp/viewmodels/LoginViewModel.kt:39 | the update before the lookup: loading on, message cleared |
| `Login.LoginViewModel.CompleteLogin` | app/src/main/java/com/example/guaumiauapp/viewmodels/LoginViewModel.kt:41-57 | looks up the current credentials and records the result as `Finished` says |
| `Login.LoginViewModel.ValidateLogin` | app/src/main/java/com/example/guaumiauapp/viewmodels/LoginViewModel.kt:38-58 | the whole attempt: success exactly when the table has an exact (e-mail, password) match, with no format check |
| `Login.LoginViewModel.OnLoginHandled` | app/src/main/java/com/example/guaumiauapp/viewmodels/LoginViewModel.kt:60-62 | clears only the success flag |

## Left out

- UI: `RegisterScreen.kt`, `LoginScreen.kt`, `MainScreen.kt`, `PetFormComponent.kt`, `MainActivity.kt` and `AppRoutes.kt` are Compose layout, Toasts and navigation. The `petTypes` list (RegisterViewModel.kt:48) only feeds the UI's type picker.
- `AppDatabase.kt`: the lazily built, synchronized singleton and its destructive migration are framework plumbing. Here the DAO is built explicitly from the table the database holds.
- `DatabaseConverters.kt`: the Gson encoding of the pet list is a foreign library. The model stores the pet sequence itself, which assumes that encoding followed by decoding gives back the same list.
- Storage I/O failures: not modelled, since no code handles them.
- Coroutine scheduling: each submit and each login completion is one atomic step. So the model does not capture another coroutine interleaving between the snapshot and the write-back. Nor does it capture a concurrent insert between the duplicate check and the insert.
- The uncaught abort in `validateAndRegister` (RegisterViewModel.kt:112): the store's `DuplicateKey` outcome is modelled, and the view model writes nothing after it, as in the source. It cannot arise under the atomic-step model.
- `Platform`: Unicode character classification and `Patterns.EMAIL_ADDRESS` are parameters, not definitions.
- `RegisterForm.RemovePet`: its contract states membership for all inputs. Order preservation is stated (by `RemoveOnly` and `RemovePetAt`) only when the removed id is carried by one entry, which the view model's id ordering guarantees.
- Unpaired surrogates: a Kotlin `String` may hold a lone surrogate unit, but a Dafny `string` holds only Unicode scalar values. So strings with a lone surrogate are not modelled. Every modelled string is well-formed UTF-16.
