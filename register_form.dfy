/**
 * The registration form as a value, and the rule set `validateAndRegister`
 * applies to it: per-field checks in a fixed order (the first failing check
 * supplies the field's message), every field evaluated on every submit, and
 * the user row built from a valid form.
 */
module RegisterForm {
  import opened Wrappers
  import opened Runtime
  import opened Accounts

  /** One pet sub-form, located by its session-unique `id`. */
  datatype PetState = PetState(
    id: Int32,
    name: string,
    petType: string,
    nameError: Option<string>,
    typeError: Option<string>)

  datatype RegisterFormState = RegisterFormState(
    fullName: string,
    email: string,
    phone: string,
    pass: string,
    confirmPass: string,
    pets: seq<PetState>,
    fullNameError: Option<string>,
    emailError: Option<string>,
    passError: Option<string>,
    confirmPassError: Option<string>,
    registrationSuccess: bool)

  const InitialForm := RegisterFormState("", "", "", "", "", [], None, None, None, None, false)

  /** The sub-form `addPet` appends: empty fields, no errors. */
  function BlankPet(id: Int32): PetState {
    PetState(id, "", "", None, None)
  }

  // The messages the rules report.
  const Required := "No puede estar vacío"
  const LettersOnly := "Solo letras y espacios"
  const AtMost50 := "Máximo 50 caracteres"
  const BadEmailFormat := "Formato de correo inválido"
  const DuocOnly := "Solo se aceptan correos @duoc.cl"
  const AlreadyRegistered := "Este correo ya está registrado"
  const AtLeast8 := "Mínimo 8 caracteres"
  const NeedsUpper := "Debe contener al menos una mayúscula"
  const NeedsLower := "Debe contener al menos una minúscula"
  const NeedsDigit := "Debe contener al menos un número"
  const NeedsSpecial := "Debe contener un carácter especial (@#$% )"
  const Mismatch := "Las contraseñas no coinciden"
  const PetRequired := "Obligatorio"

  const DuocSuffix := "@duoc.cl"
  const MaxNameLength := 50
  const MinPassLength := 8

  /*--------------------------------------------------------------------------
   * Ordered checks: the reference reading of "first failing check wins"
   *------------------------------------------------------------------------*/

  datatype Check = Check(fails: bool, message: string)

  /** The message of the earliest failing check, or `None` when all pass. */
  function FirstFailure(checks: seq<Check>): (r: Option<string>)
    ensures r.None? <==> forall i :: 0 <= i < |checks| ==> !checks[i].fails
    ensures r.Some? ==> exists i :: 0 <= i < |checks| && checks[i].fails && r.value == checks[i].message
                                  && forall j :: 0 <= j < i ==> !checks[j].fails
  {
    if checks == [] then None
    else if checks[0].fails then Some(checks[0].message)
    else
      assert forall j :: 1 <= j < |checks| ==> checks[j] == checks[1..][j - 1];
      FirstFailure(checks[1..])
  }

  /*--------------------------------------------------------------------------
   * Character sets
   *------------------------------------------------------------------------*/

  /** `[a-zA-ZñÑáéíóúÁÉÍÓÚüÜ ]` */
  predicate IsNameChar(c: char) {
    || ('a' <= c <= 'z') || ('A' <= c <= 'Z') || c == ' '
    || c in {'ñ', 'Ñ', 'á', 'é', 'í', 'ó', 'ú', 'Á', 'É', 'Í', 'Ó', 'Ú', 'ü', 'Ü'}
  }

  /** `^[a-zA-ZñÑáéíóúÁÉÍÓÚüÜ ]+$` matched against the whole name. */
  predicate IsNameText(s: string) {
    |s| > 0 && forall i :: 0 <= i < |s| ==> IsNameChar(s[i])
  }

  /** `[@#\$%]` */
  predicate IsSpecial(c: char) {
    c in {'@', '#', '$', '%'}
  }

  /**
   * The characters a regex `.` does not match without the DOTALL flag, in
   * the ICU engine behind Android's `java.util.regex`: line feed, vertical
   * tab, form feed, carriage return, NEL, and the line and paragraph separators.
   */
  predicate IsLineTerminator(c: char) {
    (0x0A <= c as int <= 0x0D) || c as int == 0x85 || c as int == 0x2028 || c as int == 0x2029
  }

  /**
   * `.*[@#\$%].*` matched against the whole password: a special character
   * somewhere, and no line terminator anywhere (the `.*` around it cannot
   * cross one).
   */
  predicate MatchesSpecialPattern(s: string) {
    && (exists i :: 0 <= i < |s| && IsSpecial(s[i]))
    && (forall i :: 0 <= i < |s| ==> !IsLineTerminator(s[i]))
  }

  /*--------------------------------------------------------------------------
   * Field rules, as the source writes them
   *------------------------------------------------------------------------*/

  function NameError(p: Platform, name: string): Option<string> {
    if IsBlank(p, name) then Some(Required)
    else if !IsNameText(name) then Some(LettersOnly)
    else if Utf16Length(name) > MaxNameLength then Some(AtMost50)
    else None
  }

  /** `registered` is the store's answer for this e-mail, fetched before the rules run. */
  function EmailError(p: Platform, email: string, registered: bool): Option<string> {
    if IsBlank(p, email) then Some(Required)
    else if !p.emailAddress(email) then Some(BadEmailFormat)
    else if !EndsWith(email, DuocSuffix) then Some(DuocOnly)
    else if registered then Some(AlreadyRegistered)
    else None
  }

  function PasswordError(p: Platform, pass: string): Option<string> {
    if Utf16Length(pass) < MinPassLength then Some(AtLeast8)
    else if !AnyUnit(p.isUpperCase, pass) then Some(NeedsUpper)
    else if !AnyUnit(p.isLowerCase, pass) then Some(NeedsLower)
    else if !AnyUnit(p.isDigit, pass) then Some(NeedsDigit)
    else if !MatchesSpecialPattern(pass) then Some(NeedsSpecial)
    else None
  }

  function ConfirmError(pass: string, confirmPass: string): Option<string> {
    if pass != confirmPass then Some(Mismatch) else None
  }

  function PetNameError(p: Platform, name: string): Option<string> {
    if IsBlank(p, name) then Some(PetRequired)
    else if Utf16Length(name) > MaxNameLength then Some(AtMost50)
    else None
  }

  function PetTypeError(p: Platform, petType: string): Option<string> {
    if IsBlank(p, petType) then Some(PetRequired) else None
  }

  /*--------------------------------------------------------------------------
   * The same rules as ordered check lists
   *------------------------------------------------------------------------*/

  function NameChecks(p: Platform, name: string): seq<Check> {
    [Check(IsBlank(p, name), Required),
     Check(!IsNameText(name), LettersOnly),
     Check(Utf16Length(name) > MaxNameLength, AtMost50)]
  }

  function EmailChecks(p: Platform, email: string, registered: bool): seq<Check> {
    [Check(IsBlank(p, email), Required),
     Check(!p.emailAddress(email), BadEmailFormat),
     Check(!EndsWith(email, DuocSuffix), DuocOnly),
     Check(registered, AlreadyRegistered)]
  }

  function PasswordChecks(p: Platform, pass: string): seq<Check> {
    [Check(Utf16Length(pass) < MinPassLength, AtLeast8),
     Check(!AnyUnit(p.isUpperCase, pass), NeedsUpper),
     Check(!AnyUnit(p.isLowerCase, pass), NeedsLower),
     Check(!AnyUnit(p.isDigit, pass), NeedsDigit),
     Check(!MatchesSpecialPattern(pass), NeedsSpecial)]
  }

  function PetNameChecks(p: Platform, name: string): seq<Check> {
    [Check(IsBlank(p, name), PetRequired),
     Check(Utf16Length(name) > MaxNameLength, AtMost50)]
  }

  lemma {:induction false} Unroll(checks: seq<Check>)
    requires checks != []
    ensures FirstFailure(checks) == if checks[0].fails then Some(checks[0].message) else FirstFailure(checks[1..])
  {
  }

  lemma NameErrorIsFirstFailure(p: Platform, name: string)
    ensures NameError(p, name) == FirstFailure(NameChecks(p, name))
  {
    var c := NameChecks(p, name);
    Unroll(c); Unroll(c[1..]); Unroll(c[2..]);
    assert c[3..] == [];
  }

  lemma EmailErrorIsFirstFailure(p: Platform, email: string, registered: bool)
    ensures EmailError(p, email, registered) == FirstFailure(EmailChecks(p, email, registered))
  {
    var c := EmailChecks(p, email, registered);
    Unroll(c); Unroll(c[1..]); Unroll(c[2..]); Unroll(c[3..]);
    assert c[4..] == [];
  }

  lemma PasswordErrorIsFirstFailure(p: Platform, pass: string)
    ensures PasswordError(p, pass) == FirstFailure(PasswordChecks(p, pass))
  {
    var c := PasswordChecks(p, pass);
    Unroll(c); Unroll(c[1..]); Unroll(c[2..]); Unroll(c[3..]); Unroll(c[4..]);
    assert c[5..] == [];
  }

  lemma PetNameErrorIsFirstFailure(p: Platform, name: string)
    ensures PetNameError(p, name) == FirstFailure(PetNameChecks(p, name))
  {
    var c := PetNameChecks(p, name);
    Unroll(c); Unroll(c[1..]);
    assert c[2..] == [];
  }

  /*--------------------------------------------------------------------------
   * Acceptance, stated without the error chains
   *------------------------------------------------------------------------*/

  predicate NameAccepted(p: Platform, name: string) {
    !IsBlank(p, name) && IsNameText(name) && Utf16Length(name) <= MaxNameLength
  }

  predicate EmailAccepted(p: Platform, email: string, registered: bool) {
    !IsBlank(p, email) && p.emailAddress(email) && EndsWith(email, DuocSuffix) && !registered
  }

  predicate PasswordAccepted(p: Platform, pass: string) {
    && Utf16Length(pass) >= MinPassLength
    && AnyUnit(p.isUpperCase, pass)
    && AnyUnit(p.isLowerCase, pass)
    && AnyUnit(p.isDigit, pass)
    && MatchesSpecialPattern(pass)
  }

  predicate PetAccepted(p: Platform, pet: PetState) {
    !IsBlank(p, pet.name) && Utf16Length(pet.name) <= MaxNameLength && !IsBlank(p, pet.petType)
  }

  /** Each field reports no error exactly when all of its checks pass. */
  lemma NoErrorIffAccepted(p: Platform, s: RegisterFormState, registered: bool)
    ensures NameError(p, s.fullName).None? <==> NameAccepted(p, s.fullName)
    ensures EmailError(p, s.email, registered).None? <==> EmailAccepted(p, s.email, registered)
    ensures PasswordError(p, s.pass).None? <==> PasswordAccepted(p, s.pass)
    ensures ConfirmError(s.pass, s.confirmPass).None? <==> s.pass == s.confirmPass
    ensures forall pet: PetState :: PetNameError(p, pet.name).None? && PetTypeError(p, pet.petType).None? <==> PetAccepted(p, pet)
  {
  }

  /** A name holding any character outside the allowed set gets the format message, whatever its length. */
  lemma ForeignCharIsFormatError(p: Platform, name: string, i: nat)
    requires i < |name| && !IsNameChar(name[i]) && !UnitIs(p.isWhitespace, name[i])
    ensures NameError(p, name) == Some(LettersOnly)
  {
    assert !IsBlank(p, name);
  }

  /** For a name made of allowed characters, its UTF-16 length equals its character count. */
  lemma NameLengthIsCodePoints(name: string)
    requires IsNameText(name)
    ensures Utf16Length(name) == |name|
  {
    forall i | 0 <= i < |name| ensures InBmp(name[i]) {
      assert IsNameChar(name[i]);
    }
  }

  /*--------------------------------------------------------------------------
   * Worked examples, on any platform that classifies ASCII as Unicode does
   *------------------------------------------------------------------------*/

  lemma StrongPasswordExample(p: Platform)
    requires AgreesWithAscii(p)
    ensures PasswordError(p, "Abcdefg1@") == None
  {
    var good := "Abcdefg1@";
    assert UnitIs(p.isUpperCase, good[0]) && UnitIs(p.isLowerCase, good[1]) && UnitIs(p.isDigit, good[7]);
    assert IsSpecial(good[8]);
  }

  lemma NoUppercaseExample(p: Platform)
    requires AgreesWithAscii(p)
    ensures PasswordError(p, "abcdefg1@") == Some(NeedsUpper)
  {
    var s := "abcdefg1@";
    assert forall i :: 0 <= i < |s| ==> !UnitIs(p.isUpperCase, s[i]);
  }

  lemma NoDigitExample(p: Platform)
    requires AgreesWithAscii(p)
    ensures PasswordError(p, "Abcdefg@") == Some(NeedsDigit)
  {
    var s := "Abcdefg@";
    assert UnitIs(p.isUpperCase, s[0]) && UnitIs(p.isLowerCase, s[1]);
    assert forall i :: 0 <= i < |s| ==> !UnitIs(p.isDigit, s[i]);
  }

  /**
   * The special-character pattern cannot cross a line terminator, so a
   * password with `@` and a trailing newline, or a trailing vertical tab, is
   * still told it lacks a special character.
   */
  lemma LineBreakHidesSpecial(p: Platform)
    requires AgreesWithAscii(p)
    ensures PasswordError(p, "Abcdefg1@\n") == Some(NeedsSpecial)
    ensures PasswordError(p, "Abcdefg1@" + [11 as char]) == Some(NeedsSpecial)
  {
    var s := "Abcdefg1@\n";
    assert UnitIs(p.isUpperCase, s[0]) && UnitIs(p.isLowerCase, s[1]) && UnitIs(p.isDigit, s[7]);
    assert IsLineTerminator(s[9]);
    var v := "Abcdefg1@" + [11 as char];
    assert UnitIs(p.isUpperCase, v[0]) && UnitIs(p.isLowerCase, v[1]) && UnitIs(p.isDigit, v[7]);
    assert IsLineTerminator(v[9]);
  }

  lemma AccentedNameExample(p: Platform)
    requires AgreesWithAscii(p)
    ensures NameError(p, "José Pérez") == None
  {
    var good := "José Pérez";
    assert !UnitIs(p.isWhitespace, good[0]);
    assert IsNameText(good) by {
      forall i | 0 <= i < |good| ensures IsNameChar(good[i]) {
      }
    }
    NameLengthIsCodePoints(good);
  }

  lemma DigitInNameExample(p: Platform)
    requires AgreesWithAscii(p)
    ensures NameError(p, "R2D2") == Some(LettersOnly)
  {
    assert !UnitIs(p.isWhitespace, "R2D2"[1]);
    ForeignCharIsFormatError(p, "R2D2", 1);
  }

  /** A well-formed address outside the institutional domain gets the domain message. */
  lemma ForeignDomainExample(p: Platform)
    requires AgreesWithAscii(p) && p.emailAddress("a@gmail.com")
    ensures EmailError(p, "a@gmail.com", false) == Some(DuocOnly)
    ensures EmailError(p, "a@gmail.com", true) == Some(DuocOnly)
  {
    assert !UnitIs(p.isWhitespace, "a@gmail.com"[0]);
    assert "a@gmail.com"[3..] != DuocSuffix;
  }

  /*--------------------------------------------------------------------------
   * The whole submit
   *------------------------------------------------------------------------*/

  /** Every pet re-validated, values and ids kept. */
  function ValidatePets(p: Platform, pets: seq<PetState>): (r: seq<PetState>)
    ensures |r| == |pets|
    ensures forall i :: 0 <= i < |pets| ==>
      r[i] == pets[i].(nameError := PetNameError(p, pets[i].name), typeError := PetTypeError(p, pets[i].petType))
  {
    if pets == [] then []
    else
      [pets[0].(nameError := PetNameError(p, pets[0].name), typeError := PetTypeError(p, pets[0].petType))]
      + ValidatePets(p, pets[1..])
  }

  predicate PetsAreValid(pets: seq<PetState>) {
    forall i :: 0 <= i < |pets| ==> pets[i].nameError == None && pets[i].typeError == None
  }

  /** Everything one submit computes: all four field errors, the checked pets, the verdict. */
  datatype Verdict = Verdict(
    nameError: Option<string>,
    emailError: Option<string>,
    passError: Option<string>,
    confirmPassError: Option<string>,
    pets: seq<PetState>,
    isValid: bool)

  function Validate(p: Platform, s: RegisterFormState, registered: bool): (v: Verdict)
    ensures v.isValid <==>
      && NameAccepted(p, s.fullName)
      && EmailAccepted(p, s.email, registered)
      && PasswordAccepted(p, s.pass)
      && s.pass == s.confirmPass
      && forall i :: 0 <= i < |s.pets| ==> PetAccepted(p, s.pets[i])
    ensures |v.pets| == |s.pets|
    ensures forall i :: 0 <= i < |s.pets| ==>
      v.pets[i].id == s.pets[i].id && v.pets[i].name == s.pets[i].name && v.pets[i].petType == s.pets[i].petType
  {
    var nameErr := NameError(p, s.fullName);
    var emailErr := EmailError(p, s.email, registered);
    var passErr := PasswordError(p, s.pass);
    var confirmErr := ConfirmError(s.pass, s.confirmPass);
    var pets := ValidatePets(p, s.pets);
    NoErrorIffAccepted(p, s, registered);
    Verdict(nameErr, emailErr, passErr, confirmErr, pets,
            nameErr == None && emailErr == None && passErr == None && confirmErr == None && PetsAreValid(pets))
  }

  /** Every field's own rule chain supplies its error, independently of the others. */
  lemma VerdictFieldsAreFirstFailures(p: Platform, s: RegisterFormState, registered: bool)
    ensures Validate(p, s, registered).nameError == FirstFailure(NameChecks(p, s.fullName))
    ensures Validate(p, s, registered).emailError == FirstFailure(EmailChecks(p, s.email, registered))
    ensures Validate(p, s, registered).passError == FirstFailure(PasswordChecks(p, s.pass))
    ensures Validate(p, s, registered).confirmPassError == (if s.pass != s.confirmPass then Some(Mismatch) else None)
    ensures forall i :: 0 <= i < |s.pets| ==>
      Validate(p, s, registered).pets[i].nameError == FirstFailure(PetNameChecks(p, s.pets[i].name))
    ensures forall i :: 0 <= i < |s.pets| ==>
      Validate(p, s, registered).pets[i].typeError == PetTypeError(p, s.pets[i].petType)
  {
    NameErrorIsFirstFailure(p, s.fullName);
    EmailErrorIsFirstFailure(p, s.email, registered);
    PasswordErrorIsFirstFailure(p, s.pass);
    forall i | 0 <= i < |s.pets| {
      PetNameErrorIsFirstFailure(p, s.pets[i].name);
    }
  }

  /** A mismatched confirmation is reported on its own: a good password keeps no error. */
  lemma MismatchReportedAlone(p: Platform, s: RegisterFormState, registered: bool)
    requires PasswordAccepted(p, s.pass) && s.pass != s.confirmPass
    ensures Validate(p, s, registered).passError == None
    ensures Validate(p, s, registered).confirmPassError == Some(Mismatch)
    ensures !Validate(p, s, registered).isValid
  {
    NoErrorIffAccepted(p, s, registered);
  }

  /*--------------------------------------------------------------------------
   * The row a valid form becomes
   *------------------------------------------------------------------------*/

  function PetsOf(pets: seq<PetState>): (r: seq<Pet>)
    ensures |r| == |pets|
    ensures forall i :: 0 <= i < |pets| ==> r[i] == Pet(pets[i].name, pets[i].petType)
  {
    if pets == [] then [] else [Pet(pets[0].name, pets[0].petType)] + PetsOf(pets[1..])
  }

  function NewUser(p: Platform, s: RegisterFormState): (u: User)
    ensures u.fullName == s.fullName && u.email == s.email && u.pass == s.pass
    ensures u.phone.None? <==> IsBlank(p, s.phone)
    ensures u.phone.Some? ==> u.phone.value == s.phone
    ensures |u.pets| == |s.pets|
    ensures forall i :: 0 <= i < |s.pets| ==> u.pets[i] == Pet(s.pets[i].name, s.pets[i].petType)
  {
    User(s.fullName, s.email, if IsBlank(p, s.phone) then None else Some(s.phone), s.pass, PetsOf(s.pets))
  }

  /*--------------------------------------------------------------------------
   * The pet list: per-pet edits and removal by id
   *------------------------------------------------------------------------*/

  datatype PetEdit = SetName(name: string) | SetType(petType: string)

  /** A name edit sets the name and clears the name error; a type edit likewise. */
  function ApplyEdit(pet: PetState, e: PetEdit): PetState {
    match e
    case SetName(n) => pet.(name := n, nameError := None)
    case SetType(t) => pet.(petType := t, typeError := None)
  }

  /** `pets.map { if (it.id == id) edit(it) else it }` */
  function EditPet(pets: seq<PetState>, id: Int32, e: PetEdit): (r: seq<PetState>)
    ensures |r| == |pets|
    ensures forall i :: 0 <= i < |pets| ==> r[i] == if pets[i].id == id then ApplyEdit(pets[i], e) else pets[i]
  {
    if pets == [] then []
    else [if pets[0].id == id then ApplyEdit(pets[0], e) else pets[0]] + EditPet(pets[1..], id, e)
  }

  /** `pets.filterNot { it.id == id }` */
  function RemovePet(pets: seq<PetState>, id: Int32): (r: seq<PetState>)
    ensures |r| <= |pets|
    ensures forall q :: q in r <==> q in pets && q.id != id
    ensures (forall i :: 0 <= i < |pets| ==> pets[i].id != id) ==> r == pets
  {
    if pets == [] then []
    else if pets[0].id == id then RemovePet(pets[1..], id)
    else [pets[0]] + RemovePet(pets[1..], id)
  }

  /** Ids strictly increase along the list (so they are unique). */
  predicate IdsIncreasing(pets: seq<PetState>) {
    forall i, j :: 0 <= i < j < |pets| ==> pets[i].id < pets[j].id
  }

  /** Ids below the counter that will hand out the next one. */
  predicate IdsBelow(pets: seq<PetState>, bound: Int32) {
    forall i :: 0 <= i < |pets| ==> pets[i].id < bound
  }

  lemma TailKeepsIds(pets: seq<PetState>, bound: Int32)
    requires pets != []
    ensures IdsIncreasing(pets) ==> IdsIncreasing(pets[1..])
    ensures IdsBelow(pets, bound) ==> IdsBelow(pets[1..], bound)
  {
  }

  /** Edits keep every id where it was. */
  lemma EditKeepsIds(pets: seq<PetState>, id: Int32, e: PetEdit, bound: Int32)
    ensures IdsIncreasing(pets) ==> IdsIncreasing(EditPet(pets, id, e))
    ensures IdsBelow(pets, bound) ==> IdsBelow(EditPet(pets, id, e), bound)
  {
    var r := EditPet(pets, id, e);
    assert forall i :: 0 <= i < |pets| ==> r[i].id == pets[i].id by {
      forall i | 0 <= i < |pets| ensures r[i].id == pets[i].id {
        match e
        case SetName(_) =>
        case SetType(_) =>
      }
    }
  }

  lemma SliceOfTail<T>(s: seq<T>, k: nat)
    requires 1 <= k < |s|
    ensures s[..k] == [s[0]] + s[1..][..k - 1]
    ensures s[k + 1..] == s[1..][k..]
  {
  }

  /** No entry other than the one at k carries its id. */
  predicate OnlyAt(pets: seq<PetState>, k: nat)
    requires k < |pets|
  {
    forall i :: 0 <= i < |pets| && i != k ==> pets[i].id != pets[k].id
  }

  /** Removing an id held by one entry only deletes exactly that entry, order kept. */
  lemma {:induction false} RemoveOnly(pets: seq<PetState>, k: nat)
    requires k < |pets| && OnlyAt(pets, k)
    ensures RemovePet(pets, pets[k].id) == pets[..k] + pets[k + 1..]
  {
    var id, tail := pets[k].id, pets[1..];
    if k == 0 {
      assert forall i :: 0 <= i < |tail| ==> tail[i] == pets[i + 1];
      assert RemovePet(tail, id) == tail;
    } else {
      assert tail[k - 1] == pets[k];
      assert forall i :: 0 <= i < |tail| ==> tail[i] == pets[i + 1];
      RemoveOnly(tail, k - 1);
      SliceOfTail(pets, k);
    }
  }

  /** With unique ids, removing the id found at position k deletes exactly that entry, order kept. */
  lemma RemovePetAt(pets: seq<PetState>, k: nat)
    requires IdsIncreasing(pets) && k < |pets|
    ensures RemovePet(pets, pets[k].id) == pets[..k] + pets[k + 1..]
  {
    assert OnlyAt(pets, k) by {
      forall i | 0 <= i < |pets| && i != k ensures pets[i].id != pets[k].id {
        if i < k { assert pets[i].id < pets[k].id; } else { assert pets[k].id < pets[i].id; }
      }
    }
    RemoveOnly(pets, k);
  }

  /** Ids above a lower bound. */
  predicate IdsAbove(pets: seq<PetState>, bound: Int32) {
    forall i :: 0 <= i < |pets| ==> bound < pets[i].id
  }

  /** Prepending one pet to a list: how the three id predicates combine. */
  lemma ConsIds(x: PetState, rest: seq<PetState>, lo: Int32, hi: Int32)
    ensures IdsAbove(rest, lo) && lo < x.id ==> IdsAbove([x] + rest, lo)
    ensures IdsBelow(rest, hi) && x.id < hi ==> IdsBelow([x] + rest, hi)
    ensures IdsIncreasing(rest) && IdsAbove(rest, x.id) ==> IdsIncreasing([x] + rest)
  {
    var r := [x] + rest;
    assert forall i :: 1 <= i < |r| ==> r[i] == rest[i - 1];
  }

  /** Dropping the head of a list: the id predicates carry over to the tail. */
  lemma TailIds(pets: seq<PetState>, lo: Int32)
    requires pets != []
    ensures IdsAbove(pets, lo) ==> IdsAbove(pets[1..], lo)
    ensures IdsIncreasing(pets) ==> IdsAbove(pets[1..], pets[0].id)
  {
    assert forall i :: 0 <= i < |pets[1..]| ==> pets[1..][i] == pets[i + 1];
  }

  /** Removal never brings in an id, so a lower bound on the ids survives it. */
  lemma {:induction false} RemoveKeepsAbove(pets: seq<PetState>, id: Int32, lo: Int32)
    requires IdsAbove(pets, lo)
    ensures IdsAbove(RemovePet(pets, id), lo)
  {
    if pets != [] {
      TailIds(pets, lo);
      RemoveKeepsAbove(pets[1..], id, lo);
      ConsIds(pets[0], RemovePet(pets[1..], id), lo, lo);
    }
  }

  /** Likewise for an upper bound, such as the pet-id counter. */
  lemma {:induction false} RemoveKeepsBelow(pets: seq<PetState>, id: Int32, hi: Int32)
    requires IdsBelow(pets, hi)
    ensures IdsBelow(RemovePet(pets, id), hi)
  {
    if pets != [] {
      TailKeepsIds(pets, hi);
      RemoveKeepsBelow(pets[1..], id, hi);
      ConsIds(pets[0], RemovePet(pets[1..], id), hi, hi);
    }
  }

  /** Removal keeps the surviving entries in order, so increasing ids stay increasing. */
  lemma {:induction false} RemoveKeepsIncreasing(pets: seq<PetState>, id: Int32)
    requires IdsIncreasing(pets)
    ensures IdsIncreasing(RemovePet(pets, id))
  {
    if pets != [] {
      TailKeepsIds(pets, id);
      TailIds(pets, id);
      RemoveKeepsIncreasing(pets[1..], id);
      RemoveKeepsAbove(pets[1..], id, pets[0].id);
      ConsIds(pets[0], RemovePet(pets[1..], id), pets[0].id, pets[0].id);
    }
  }

  /** Removal keeps the list's ids increasing and under any bound they were under. */
  lemma RemoveKeepsIds(pets: seq<PetState>, id: Int32, bound: Int32)
    ensures IdsIncreasing(pets) ==> IdsIncreasing(RemovePet(pets, id))
    ensures IdsBelow(pets, bound) ==> IdsBelow(RemovePet(pets, id), bound)
  {
    if IdsIncreasing(pets) { RemoveKeepsIncreasing(pets, id); }
    if IdsBelow(pets, bound) { RemoveKeepsBelow(pets, id, bound); }
  }

  /** Two fresh pets, then removing the first by its id leaves exactly the second. */
  lemma AddTwoRemoveFirst(pets: seq<PetState>, a: Int32, b: Int32)
    requires IdsIncreasing(pets) && IdsBelow(pets, a) && a < b
    ensures RemovePet(pets + [BlankPet(a), BlankPet(b)], a) == pets + [BlankPet(b)]
  {
    var all := pets + [BlankPet(a), BlankPet(b)];
    assert IdsIncreasing(all);
    assert all[|pets|].id == a;
    RemovePetAt(all, |pets|);
    assert all[..|pets|] == pets;
    assert all[|pets| + 1..] == [BlankPet(b)];
  }
}
