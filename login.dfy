/**
 * The login view model: two text fields, an optional message and two flags,
 * moving edit -> loading -> success or the one generic failure -> acknowledged.
 * No format check is made; only an exact (e-mail, password) match in the
 * table decides.
 */
module Login {
  import opened Wrappers
  import opened Accounts
  import opened UserStore
  import opened Repository

  datatype LoginUiState = LoginUiState(
    email: string,
    pass: string,
    errorMessage: Option<string>,
    loginSuccess: bool,
    isLoading: bool)

  const InitialLogin := LoginUiState("", "", None, false, false)

  /** The single message for every failed login. */
  const BadCredentials := "Usuario o contraseña incorrectos."

  /** The update made before the lookup starts. */
  function Started(s: LoginUiState): (r: LoginUiState)
    ensures r.isLoading && r.errorMessage == None
    ensures r.email == s.email && r.pass == s.pass && r.loginSuccess == s.loginSuccess
  {
    s.(isLoading := true, errorMessage := None)
  }

  /** The update made with the lookup's result. */
  function Finished(s: LoginUiState, found: Option<User>): (r: LoginUiState)
    ensures !r.isLoading
    ensures r.loginSuccess <==> found.Some?
    ensures found.None? ==> r.errorMessage == Some(BadCredentials)
    ensures found.Some? ==> r.errorMessage == s.errorMessage
    ensures r.email == s.email && r.pass == s.pass
  {
    if found.Some? then s.(isLoading := false, loginSuccess := true)
    else s.(isLoading := false, errorMessage := Some(BadCredentials), loginSuccess := false)
  }

  /** A whole attempt against table `t`. */
  function Attempt(s: LoginUiState, t: Table): (r: LoginUiState)
    requires Keyed(t)
    ensures r.loginSuccess <==> HasMatch(t, s.email, s.pass)
    ensures !r.isLoading
    ensures r.errorMessage == if r.loginSuccess then None else Some(BadCredentials)
    ensures r.email == s.email && r.pass == s.pass
  {
    Finished(Started(s), FindByCredentials(t, s.email, s.pass))
  }

  /**
   * The end state depends on the table only through whether it holds an
   * exact match: in particular an unknown e-mail and a wrong password are
   * indistinguishable.
   */
  lemma OutcomeDependsOnlyOnMatch(s: LoginUiState, t1: Table, t2: Table)
    requires Keyed(t1) && Keyed(t2)
    requires HasMatch(t1, s.email, s.pass) == HasMatch(t2, s.email, s.pass)
    ensures Attempt(s, t1) == Attempt(s, t2)
  {
  }

  /** The two ways to fail, side by side: no user with the e-mail, or a user with another password. */
  lemma UnknownEmailLooksLikeWrongPassword(s: LoginUiState, t1: Table, t2: Table)
    requires Keyed(t1) && Keyed(t2)
    requires s.email !in t1
    requires s.email in t2 && t2[s.email].pass != s.pass
    ensures Attempt(s, t1) == Attempt(s, t2)
    ensures Attempt(s, t1).errorMessage == Some(BadCredentials)
  {
    OutcomeDependsOnlyOnMatch(s, t1, t2);
  }

  class LoginViewModel {
    var state: LoginUiState
    const repository: UserRepository

    ghost predicate Valid()
      reads repository.dao
    {
      repository.Valid()
    }

    constructor (repository: UserRepository)
      requires repository.Valid()
      ensures Valid() && this.repository == repository && state == InitialLogin
    {
      this.repository := repository;
      state := InitialLogin;
    }

    method OnEmailChange(email: string)
      modifies this`state
      ensures state == old(state).(email := email, errorMessage := None)
    {
      state := state.(email := email, errorMessage := None);
    }

    method OnPasswordChange(pass: string)
      modifies this`state
      ensures state == old(state).(pass := pass, errorMessage := None)
    {
      state := state.(pass := pass, errorMessage := None);
    }

    /** First half of `validateLogin`: show loading, drop the old message. */
    method BeginLogin()
      modifies this`state
      ensures state == Started(old(state))
    {
      state := Started(state);
    }

    /** Second half: look the current credentials up and record the result. */
    method CompleteLogin()
      requires Valid()
      modifies this`state
      ensures state == Finished(old(state), FindByCredentials(repository.dao.users, old(state).email, old(state).pass))
    {
      var s := state;
      var user := repository.FindUserByCredentials(s.email, s.pass);
      state := Finished(state, user);
    }

    method ValidateLogin()
      requires Valid()
      modifies this`state
      ensures state == Attempt(old(state), repository.dao.users)
      ensures state.loginSuccess <==> HasMatch(repository.dao.users, old(state).email, old(state).pass)
    {
      BeginLogin();
      CompleteLogin();
    }

    method OnLoginHandled()
      modifies this`state
      ensures state == old(state).(loginSuccess := false)
    {
      state := state.(loginSuccess := false);
    }
  }
}
