/**
 * The registration view model: the form state and the pet-id counter it
 * updates in place, and the submit that validates the form and, when it is
 * valid, inserts one user through the repository. Each submit is one atomic
 * step: the e-mail check and the insert see the same table.
 */
module Registration {
  import opened Wrappers
  import opened Runtime
  import opened Accounts
  import opened UserStore
  import opened Repository
  import opened RegisterForm

  /** What one submit did; `Aborted` is the insert hitting an existing key, left uncaught by the source. */
  datatype Submission = Rejected | Registered | Aborted

  class RegisterViewModel {
    var state: RegisterFormState
    var petIdCounter: Int32
    const repository: UserRepository
    const platform: Platform

    ghost predicate Valid()
      reads repository.dao
    {
      repository.Valid()
    }

    /** Pet ids strictly increase along the list and stay below the counter. */
    ghost predicate PetIdsOrdered()
      reads this
    {
      IdsIncreasing(state.pets) && IdsBelow(state.pets, petIdCounter)
    }

    constructor (repository: UserRepository, platform: Platform)
      requires repository.Valid()
      ensures Valid()
      ensures this.repository == repository && this.platform == platform
      ensures state == InitialForm && petIdCounter == 0
      ensures PetIdsOrdered()
    {
      this.repository := repository;
      this.platform := platform;
      state := InitialForm;
      petIdCounter := 0;
    }

    method OnFullNameChange(name: string)
      modifies this`state
      ensures state == old(state).(fullName := name, fullNameError := None)
    {
      state := state.(fullName := name, fullNameError := None);
    }

    method OnEmailChange(email: string)
      modifies this`state
      ensures state == old(state).(email := email, emailError := None)
    {
      state := state.(email := email, emailError := None);
    }

    /** Only an all-digit phone is taken; anything else leaves the state as it was. */
    method OnPhoneChange(phone: string)
      modifies this`state
      ensures AllUnits(platform.isDigit, phone) ==> state == old(state).(phone := phone)
      ensures !AllUnits(platform.isDigit, phone) ==> state == old(state)
    {
      if AllUnits(platform.isDigit, phone) {
        state := state.(phone := phone);
      }
    }

    method OnPasswordChange(pass: string)
      modifies this`state
      ensures state == old(state).(pass := pass, passError := None)
    {
      state := state.(pass := pass, passError := None);
    }

    method OnConfirmPasswordChange(confirmPass: string)
      modifies this`state
      ensures state == old(state).(confirmPass := confirmPass, confirmPassError := None)
    {
      state := state.(confirmPass := confirmPass, confirmPassError := None);
    }

    method OnPetNameChange(petId: Int32, name: string)
      modifies this`state
      ensures state == old(state).(pets := EditPet(old(state.pets), petId, SetName(name)))
      ensures old(PetIdsOrdered()) ==> PetIdsOrdered()
    {
      EditKeepsIds(state.pets, petId, SetName(name), petIdCounter);
      state := state.(pets := EditPet(state.pets, petId, SetName(name)));
    }

    method OnPetTypeChange(petId: Int32, petType: string)
      modifies this`state
      ensures state == old(state).(pets := EditPet(old(state.pets), petId, SetType(petType)))
      ensures old(PetIdsOrdered()) ==> PetIdsOrdered()
    {
      EditKeepsIds(state.pets, petId, SetType(petType), petIdCounter);
      state := state.(pets := EditPet(state.pets, petId, SetType(petType)));
    }

    /**
     * Appends one blank pet whose id is the counter's value, then bumps the
     * counter (wrapping like `AtomicInteger`). The new id exceeds every earlier
     * one; the ordering survives as long as the counter has not reached `Int.MAX_VALUE`.
     */
    method AddPet()
      modifies this`state, this`petIdCounter
      ensures state == old(state).(pets := old(state.pets) + [BlankPet(old(petIdCounter))])
      ensures petIdCounter == WrappingSucc(old(petIdCounter))
      ensures old(PetIdsOrdered()) ==> forall i :: 0 <= i < |old(state.pets)| ==> old(state.pets)[i].id < old(petIdCounter)
      ensures old(PetIdsOrdered()) && old(petIdCounter) < Int32Max ==> PetIdsOrdered()
    {
      var id := petIdCounter;
      petIdCounter := WrappingSucc(petIdCounter);
      state := state.(pets := state.pets + [BlankPet(id)]);
    }

    method RemovePet(petId: Int32)
      modifies this`state
      ensures state == old(state).(pets := RegisterForm.RemovePet(old(state.pets), petId))
      ensures old(PetIdsOrdered()) ==> PetIdsOrdered()
    {
      RemoveKeepsIds(state.pets, petId, petIdCounter);
      state := state.(pets := RegisterForm.RemovePet(state.pets, petId));
    }

    /**
     * Validates every field against the table as it is now. A valid form adds
     * exactly the user built from it and raises the success flag; an invalid
     * one writes back all errors at once, keeps every entered value and
     * lowers the flag, and leaves the table alone.
     */
    method ValidateAndRegister() returns (outcome: Submission)
      requires Valid()
      modifies this`state, repository.dao
      ensures Valid()
      ensures var v := Validate(platform, old(state), old(state).email in old(repository.dao.users));
        if v.isValid then
          && outcome == Registered
          && repository.dao.users == old(repository.dao.users)[old(state).email := NewUser(platform, old(state))]
          && state == old(state).(registrationSuccess := true)
        else
          && outcome == Rejected
          && repository.dao.users == old(repository.dao.users)
          && state == old(state).(fullNameError := v.nameError, emailError := v.emailError,
                                  passError := v.passError, confirmPassError := v.confirmPassError,
                                  pets := v.pets, registrationSuccess := false)
      ensures old(PetIdsOrdered()) ==> PetIdsOrdered()
    {
      var s := state;
      var registered := repository.IsEmailRegistered(s.email);
      var v := Validate(platform, s, registered);
      if v.isValid {
        var r := repository.AddUser(NewUser(platform, s));
        if r == Inserted {
          state := state.(registrationSuccess := true);
          outcome := Registered;
        } else {
          outcome := Aborted;
        }
      } else {
        state := state.(fullNameError := v.nameError, emailError := v.emailError,
                        passError := v.passError, confirmPassError := v.confirmPassError,
                        pets := v.pets, registrationSuccess := false);
        outcome := Rejected;
      }
    }

    method OnRegistrationHandled()
      modifies this`state
      ensures state == old(state).(registrationSuccess := false)
    {
      state := state.(registrationSuccess := false);
    }
  }

  /**
   * Once a valid form has been stored, a second submit with the same e-mail
   * is refused with the duplicate message, whatever its other fields hold.
   */
  lemma SecondRegistrationReportsDuplicate(p: Platform, t: Table, s: RegisterFormState, s2: RegisterFormState)
    requires Keyed(t)
    requires Validate(p, s, s.email in t).isValid
    requires s2.email == s.email
    ensures var t2 := t[s.email := NewUser(p, s)];
      && Validate(p, s2, s2.email in t2).emailError == Some(AlreadyRegistered)
      && !Validate(p, s2, s2.email in t2).isValid
  {
    NoErrorIffAccepted(p, s, s.email in t);
  }
}
