/**
 * The login page: the sign-in form with its guard and error messages, and
 * the registration form's validation chain and its reset.
 */
module LoginPage {
  import opened Options
  import opened Strings
  import opened Auth

  /** The messages the page can show under its forms. */
  datatype Message =
    | MissingCredentials | InvalidCredentials
    | FillAll | BadEmail | Mismatch | ShortPassword | RegisterFailed

  /** The text shown for each message. */
  function MessageText(m: Message): string {
    match m
    case MissingCredentials => "Please enter both username and password"
    case InvalidCredentials => "Invalid username or password"
    case FillAll => "Please fill in all fields"
    case BadEmail => "Please enter a valid email address"
    case Mismatch => "Passwords do not match"
    case ShortPassword => "Password must be at least 8 characters long"
    case RegisterFailed => "An error occurred during registration. Please try again."
  }

  /** `email.includes('@') && email.includes('.')`. */
  predicate LooksLikeEmail(email: string) {
    '@' in email && '.' in email
  }

  /**
   * The registration checks in order; the first one that fails gives the
   * message, `None` when all pass.
   */
  function RegistrationError(username: string, email: string, password: string, confirm: string): (r: Option<Message>)
    ensures r.None? <==> && !IsBlank(username) && !IsBlank(email) && !IsBlank(password) && !IsBlank(confirm)
                         && LooksLikeEmail(email) && password == confirm && Utf16Length(password) >= 8
  {
    if IsBlank(username) || IsBlank(email) || IsBlank(password) || IsBlank(confirm) then Some(FillAll)
    else if !LooksLikeEmail(email) then Some(BadEmail)
    else if password != confirm then Some(Mismatch)
    else if Utf16Length(password) < 8 then Some(ShortPassword)
    else None
  }

  /** Each message is given exactly when its check is the first to fail. */
  lemma RegistrationErrorOrder(username: string, email: string, password: string, confirm: string)
    ensures var r := RegistrationError(username, email, password, confirm);
            var filled := !IsBlank(username) && !IsBlank(email) && !IsBlank(password) && !IsBlank(confirm);
            && (r == Some(FillAll) <==> !filled)
            && (r == Some(BadEmail) <==> filled && !LooksLikeEmail(email))
            && (r == Some(Mismatch) <==> filled && LooksLikeEmail(email) && password != confirm)
            && (r == Some(ShortPassword) <==> filled && LooksLikeEmail(email) && password == confirm
                                                    && Utf16Length(password) < 8)
  {
  }

  /** Four emoji are eight code units: long enough, although they are four characters. */
  lemma FourEmojiPassword()
    ensures var p := "\U{1F600}\U{1F600}\U{1F600}\U{1F600}";
            |p| == 4 && RegistrationError("ana", "ana@example.com", p, p).None?
  {
    var p := "\U{1F600}\U{1F600}\U{1F600}\U{1F600}";
    assert Utf16Length(p) == 8 by {
      assert p[1..][1..][1..][1..] == [];
    }
    assert !IsBlank("ana") by { assert !IsWhitespace("ana"[0]); }
    assert '@' in "ana@example.com" && '.' in "ana@example.com" by {
      assert "ana@example.com"[3] == '@' && "ana@example.com"[11] == '.';
    }
    assert !IsBlank(p) by { assert !IsWhitespace(p[0]); }
  }

  /** The register form after a submit: its error (`None` for the empty text) and whether it was cleared. */
  datatype RegisterResult = RegisterResult(registerError: Option<Message>, cleared: bool)

  /**
   * `handleRegister` as written: past validation, the success path clears
   * the form and then calls a toast function the page never imports; the
   * `ReferenceError` lands in the `catch`, which reports a failure.
   */
  function RegisterAsWritten(username: string, email: string, password: string, confirm: string): (r: RegisterResult)
    ensures RegistrationError(username, email, password, confirm).Some? ==>
              r == RegisterResult(RegistrationError(username, email, password, confirm), false)
    ensures RegistrationError(username, email, password, confirm).None? ==> r == RegisterResult(Some(RegisterFailed), true)
  {
    var invalid := RegistrationError(username, email, password, confirm);
    if invalid.Some? then RegisterResult(invalid, false) else RegisterResult(Some(RegisterFailed), true)
  }

  /** A valid registration as written both clears the form and reports that it failed. */
  lemma RegisterAsWrittenReportsFailure()
    ensures var r := RegisterAsWritten("newuser", "new@example.com", "password1", "password1");
            r.cleared && r.registerError == Some(RegisterFailed)
  {
    var e := "new@example.com";
    assert !IsWhitespace("newuser"[0]);
    assert !IsWhitespace(e[0]);
    assert !IsWhitespace("password1"[0]);
    assert e[3] == '@' && e[11] == '.';
  }

  /** `handleRegister` as intended: a valid registration clears the form with no error. */
  function RegisterIntended(username: string, email: string, password: string, confirm: string): (r: RegisterResult)
    ensures r.cleared <==> RegistrationError(username, email, password, confirm).None?
    ensures r.registerError.None? <==> r.cleared
    ensures r.registerError == RegistrationError(username, email, password, confirm)
  {
    var invalid := RegistrationError(username, email, password, confirm);
    RegisterResult(invalid, invalid.None?)
  }

  /** The sign-in form's fields; an error of `None` is the empty text. */
  datatype LoginFields = LoginFields(username: string, password: string, error: Option<Message>)

  /** The registration form's fields. */
  datatype RegisterFields = RegisterFields(
    username: string, email: string, password: string, confirm: string, error: Option<Message>)

  function RegisterErrorOf(f: RegisterFields): Option<Message> {
    RegistrationError(f.username, f.email, f.password, f.confirm)
  }

  /** The two tabs of the page. */
  datatype Tab = LoginTab | RegisterTab

  /** The page's state. */
  class LoginForm {
    var login: LoginFields
    var isLoading: bool
    var register: RegisterFields
    var isRegistering: bool
    var selectedTab: Tab

    /** Between handler runs nothing is loading or registering. */
    predicate Valid()
      reads this
    {
      !isLoading && !isRegistering
    }

    constructor ()
      ensures Valid()
      ensures login == LoginFields("", "", None)
      ensures register == RegisterFields("", "", "", "", None)
      ensures selectedTab == LoginTab
    {
      login := LoginFields("", "", None);
      register := RegisterFields("", "", "", "", None);
      isLoading, isRegistering, selectedTab := false, false, LoginTab;
    }

    /**
     * `handleLogin`: blank (trimmed) fields give a message and no login;
     * otherwise the untrimmed fields are passed to `login` and a refusal
     * gives the other message. `navigated` is the move to the dashboard.
     */
    method HandleLogin(auth: AuthStore) returns (navigated: bool)
      requires Valid()
      modifies this, auth
      ensures Valid()
      ensures var f := old(login);
              IsBlank(f.username) || IsBlank(f.password) ==>
                login == f.(error := Some(MissingCredentials)) && !navigated && unchanged(auth)
      ensures var f := old(login);
              !IsBlank(f.username) && !IsBlank(f.password) ==>
                && (navigated <==> FindUser(MockUsers, f.username, f.password).Some?)
                && login == f.(error := if navigated then None else Some(InvalidCredentials))
                && (navigated ==> var u := SignedIn(FindUser(MockUsers, f.username, f.password).value);
                                  auth.isAuthenticated && auth.user == Some(u)
                                  && auth.storedAuth == Some("true") && auth.storedUser == Some(u))
                && (!navigated ==> auth.isAuthenticated == old(auth.isAuthenticated) && auth.user == old(auth.user)
                                   && auth.storedAuth == old(auth.storedAuth) && auth.storedUser == old(auth.storedUser))
      ensures register == old(register) && selectedTab == old(selectedTab)
    {
      if IsBlank(login.username) || IsBlank(login.password) {
        login := login.(error := Some(MissingCredentials));
        return false;
      }
      login := login.(error := None);
      isLoading := true;
      navigated := auth.Login(login.username, login.password);
      if !navigated {
        login := login.(error := Some(InvalidCredentials));
      }
      isLoading := false;
    }

    /**
     * `handleRegister`: a failing check sets its message and changes nothing
     * else; a valid form clears the error and the four fields, selects the
     * login tab and puts the chosen name into the login form.
     */
    method HandleRegister()
      requires Valid()
      modifies this
      ensures Valid()
      ensures RegisterErrorOf(old(register)).Some? ==>
                register == old(register).(error := RegisterErrorOf(old(register)))
                && selectedTab == old(selectedTab) && login == old(login)
      ensures RegisterErrorOf(old(register)).None? ==>
                register == RegisterFields("", "", "", "", None)
                && selectedTab == LoginTab && login == old(login).(username := old(register).username)
      ensures register.error
              == RegisterIntended(old(register).username, old(register).email, old(register).password,
                                  old(register).confirm).registerError
    {
      var f := register;
      var invalid := RegisterErrorOf(f);
      if invalid.None? {
        isRegistering := true;
        register := RegisterFields("", "", "", "", None);
        selectedTab := LoginTab;
        login := login.(username := f.username);
        isRegistering := false;
      } else {
        register := f.(error := invalid);
      }
    }
  }
}
