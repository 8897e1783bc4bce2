/** Accounts: registration with a case-insensitive check that the email is new, login
    by case-insensitive email and exact password, and the session that records who is
    signed in. */
module Users {
  import opened Wrappers
  import opened Text
  import opened Clock
  import opened Search
  import Validate

  /** A stored account, as registration writes it. */
  datatype User = User(fullName: string, email: string, password: string)

  /** One entry of the login history. */
  datatype LoginRecord = LoginRecord(email: string, at: Instant)

  /** The test `u.email.toLowerCase() === email.toLowerCase()`. */
  function EmailIs(email: string): User -> bool
  {
    (u: User) => SameIgnoringCase(u.email, email)
  }

  /** No two accounts share an email up to letter case. */
  predicate EmailsUnique(users: seq<User>)
  {
    forall i, j :: 0 <= i < j < |users| ==> !SameIgnoringCase(users[i].email, users[j].email)
  }

  /** Whether some account has `email`, up to letter case. */
  predicate Registered(users: seq<User>, email: string)
  {
    exists k :: 0 <= k < |users| && SameIgnoringCase(users[k].email, email)
  }

  /** `password.length >= 6`, counted in UTF-16 code units. */
  predicate PasswordLongEnough(password: string)
  {
    Utf16Length(password) >= 6
  }

  /** `fullName.length >= 3`, counted in UTF-16 code units. */
  predicate NameLongEnough(name: string)
  {
    Utf16Length(name) >= 3
  }

  // ---------------------------------------------------------------------------
  // Registration

  /** The form's verdict: every failed field is flagged at once. */
  datatype RegisterOutcome =
    | RegisterRejected(nameTooShort: bool, badEmail: bool, passwordTooShort: bool, mismatch: bool)
    | AlreadyRegistered
    | SignedUp

  /** The checks of the registration form, in their order, on the trimmed name and email. */
  function RegisterDecision(users: seq<User>, name: string, email: string, password: string, confirm: string)
    : (r: RegisterOutcome)
    ensures r == SignedUp <==>
              && NameLongEnough(Trim(name)) && Validate.IsEmail(Trim(email))
              && PasswordLongEnough(password) && password == confirm
              && !Registered(users, Trim(email))
    ensures r == AlreadyRegistered <==>
              && NameLongEnough(Trim(name)) && Validate.IsEmail(Trim(email))
              && PasswordLongEnough(password) && password == confirm
              && Registered(users, Trim(email))
    ensures r.RegisterRejected? ==>
              && r.nameTooShort == !NameLongEnough(Trim(name))
              && r.badEmail == !Validate.IsEmail(Trim(email))
              && r.passwordTooShort == !PasswordLongEnough(password)
              && r.mismatch == (password != confirm)
  {
    var n, e := Trim(name), Trim(email);
    var nameTooShort := !NameLongEnough(n);
    var badEmail := !Validate.IsEmail(e);
    var passwordTooShort := !PasswordLongEnough(password);
    var mismatch := password != confirm;
    if nameTooShort || badEmail || passwordTooShort || mismatch then
      RegisterRejected(nameTooShort, badEmail, passwordTooShort, mismatch)
    else if FirstMatch(users, EmailIs(e)) >= 0 then AlreadyRegistered
    else SignedUp
  }

  /** The account a successful registration appends. */
  function NewUser(name: string, email: string, password: string): User
  {
    User(Trim(name), Trim(email), password)
  }

  /** A successful registration keeps emails unique up to letter case. */
  lemma RegisterPreservesUniqueness(users: seq<User>, name: string, email: string, password: string, confirm: string)
    requires EmailsUnique(users)
    requires RegisterDecision(users, name, email, password, confirm) == SignedUp
    ensures EmailsUnique(users + [NewUser(name, email, password)])
  {
    var after := users + [NewUser(name, email, password)];
    forall i, j | 0 <= i < j < |after| ensures !SameIgnoringCase(after[i].email, after[j].email) {
      if j == |users| {
        assert after[i] == users[i];
      }
    }
  }

  // ---------------------------------------------------------------------------
  // Login

  datatype LoginOutcome =
    | LoginRejected(badEmail: bool, passwordTooShort: bool)
    | NotRegistered
    | WrongPassword
    | LoggedIn(user: User)

  /** The checks of the login form on the trimmed email: the first account whose email
      matches up to case is the one whose password must be equal. */
  function LoginDecision(users: seq<User>, email: string, password: string): (r: LoginOutcome)
    ensures r.LoginRejected? <==> !Validate.IsEmail(Trim(email)) || !PasswordLongEnough(password)
    ensures r.LoginRejected? ==>
              r.badEmail == !Validate.IsEmail(Trim(email)) && r.passwordTooShort == !PasswordLongEnough(password)
    ensures Validate.IsEmail(Trim(email)) && PasswordLongEnough(password) ==>
              (r == NotRegistered <==> !Registered(users, Trim(email)))
    ensures r.LoggedIn? ==> r.user in users && SameIgnoringCase(r.user.email, Trim(email)) && r.user.password == password
    ensures Registered(users, Trim(email)) ==>
              && 0 <= FirstMatch(users, EmailIs(Trim(email)))
              && (r == WrongPassword <==>
                    && Validate.IsEmail(Trim(email)) && PasswordLongEnough(password)
                    && users[FirstMatch(users, EmailIs(Trim(email)))].password != password)
              && (r.LoggedIn? <==>
                    && Validate.IsEmail(Trim(email)) && PasswordLongEnough(password)
                    && users[FirstMatch(users, EmailIs(Trim(email)))].password == password)
              && (r.LoggedIn? ==> r.user == users[FirstMatch(users, EmailIs(Trim(email)))])
  {
    var e := Trim(email);
    var badEmail := !Validate.IsEmail(e);
    var passwordTooShort := !PasswordLongEnough(password);
    if badEmail || passwordTooShort then LoginRejected(badEmail, passwordTooShort)
    else
      var i := FirstMatch(users, EmailIs(e));
      if i < 0 then NotRegistered
      else if users[i].password != password then WrongPassword
      else LoggedIn(users[i])
  }

  /** With unique emails, login succeeds exactly when the inputs are well formed and an
      account with that email, up to case, has exactly that password. */
  lemma LoginSucceedsIff(users: seq<User>, email: string, password: string)
    requires EmailsUnique(users)
    ensures LoginDecision(users, email, password).LoggedIn? <==>
              && Validate.IsEmail(Trim(email)) && PasswordLongEnough(password)
              && exists k :: 0 <= k < |users| && SameIgnoringCase(users[k].email, Trim(email))
                             && users[k].password == password
  {
    var e := Trim(email);
    if Validate.IsEmail(e) && PasswordLongEnough(password) {
      var i := FirstMatch(users, EmailIs(e));
      if k :| 0 <= k < |users| && SameIgnoringCase(users[k].email, e) && users[k].password == password {
        assert EmailIs(e)(users[k]);
        assert 0 <= i <= k;
        if i < k {
          assert EmailIs(e)(users[i]);
          assert SameIgnoringCase(users[i].email, users[k].email);
        }
      }
    }
  }

  /** Registering and then logging in with the same email and password signs in as the
      new account. */
  lemma RegisterThenLogin(users: seq<User>, name: string, email: string, password: string, confirm: string)
    requires RegisterDecision(users, name, email, password, confirm) == SignedUp
    ensures LoginDecision(users + [NewUser(name, email, password)], email, password) ==
            LoggedIn(NewUser(name, email, password))
  {
    var e := Trim(email);
    var after := users + [NewUser(name, email, password)];
    forall k | 0 <= k < |users| ensures !EmailIs(e)(after[k]) {
      assert after[k] == users[k];
    }
    assert EmailIs(e)(after[|users|]);
    FirstMatchUnique(after, EmailIs(e), |users|);
  }

  // ---------------------------------------------------------------------------
  // The stored accounts and session

  class Directory {
    var users: seq<User>
    var session: Option<string>
    var logins: seq<LoginRecord>

    ghost predicate Valid()
      reads this
    {
      EmailsUnique(users)
    }

    /** Nothing stored: no accounts, nobody signed in, no history. */
    constructor ()
      ensures Valid() && users == [] && session == None && logins == []
    {
      users := [];
      session := None;
      logins := [];
    }

    /** The registration form: append the account and sign in as its email. */
    method Register(name: string, email: string, password: string, confirm: string)
      returns (outcome: RegisterOutcome)
      requires Valid()
      modifies this
      ensures Valid()
      ensures outcome == RegisterDecision(old(users), name, email, password, confirm)
      ensures outcome == SignedUp ==>
                users == old(users) + [NewUser(name, email, password)] && session == Some(Trim(email))
      ensures outcome != SignedUp ==> users == old(users) && session == old(session)
      ensures logins == old(logins)
    {
      outcome := RegisterDecision(users, name, email, password, confirm);
      if outcome == SignedUp {
        RegisterPreservesUniqueness(users, name, email, password, confirm);
        users := users + [NewUser(name, email, password)];
        session := Some(Trim(email));
      }
    }

    /** The login form: sign in as the stored email of the matching account and record
      the login at `at`. */
    method Login(email: string, password: string, at: Instant) returns (outcome: LoginOutcome)
      modifies this
      ensures outcome == LoginDecision(old(users), email, password)
      ensures users == old(users)
      ensures outcome.LoggedIn? ==>
                session == Some(outcome.user.email) && logins == old(logins) + [LoginRecord(outcome.user.email, at)]
      ensures !outcome.LoggedIn? ==> session == old(session) && logins == old(logins)
    {
      var e := Trim(email);
      ghost var decision := LoginDecision(users, email, password);
      if !Validate.IsEmail(e) || !PasswordLongEnough(password) {
        assert decision == LoginRejected(!Validate.IsEmail(e), !PasswordLongEnough(password));
        return LoginRejected(!Validate.IsEmail(e), !PasswordLongEnough(password));
      }
      var i := FindFirst(users, EmailIs(e));
      assert i == FirstMatch(users, EmailIs(e));
      if i < 0 {
        return NotRegistered;
      }
      if users[i].password != password {
        return WrongPassword;
      }
      var user := users[i];
      assert decision == LoggedIn(user);
      session := Some(user.email);
      logins := logins + [LoginRecord(user.email, at)];
      outcome := LoggedIn(user);
    }

    /** `clearSession`. */
    method Logout()
      modifies this
      ensures session == None && users == old(users) && logins == old(logins)
    {
      session := None;
    }
  }
}
