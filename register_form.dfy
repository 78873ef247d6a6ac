/** The registration page's submit handler as a decision: the two password checks,
    in their order, then the call to `register` and what its answer leads to. The
    answer `register` would give is a parameter, consulted only when the call is made. */
module RegisterForm {
  import opened Lists
  import opened Text
  import Session

  datatype Form = Form(name: string, email: string, password: string, confirmPassword: string)

  /** The arguments `register` is called with. */
  datatype Call = Call(email: string, password: string, name: string)

  /** The page after the handler: the error shown, the loading flag, the call made
      (if any) and the route navigated to (if any). */
  datatype Outcome = Outcome(error: string, loading: bool, call: Option<Call>, navigateTo: Option<string>)

  const MismatchError: string := "Пароли не совпадают"
  const TooShortError: string := "Пароль должен содержать минимум 6 символов"
  const DuplicateError: string := "Пользователь с таким email уже существует"
  const MinPasswordLength: nat := 6
  const ProfileRoute: string := "/profile"

  /** The checks that must pass before `register` is called. */
  predicate PasswordsAccepted(f: Form)
  {
    f.password == f.confirmPassword && Utf16Length(f.password) >= MinPasswordLength
  }

  /** `handleSubmit`. */
  function Submit(f: Form, registered: bool): (o: Outcome)
    ensures !o.loading
    ensures o.call.Some? <==> PasswordsAccepted(f)
    ensures o.call.Some? ==> o.call.value == Call(f.email, f.password, f.name)
    ensures f.password != f.confirmPassword ==> o.error == MismatchError
    ensures f.password == f.confirmPassword && Utf16Length(f.password) < MinPasswordLength ==> o.error == TooShortError
    ensures PasswordsAccepted(f) && !registered ==> o.error == DuplicateError
    ensures o.navigateTo.Some? <==> PasswordsAccepted(f) && registered
    ensures o.navigateTo.Some? ==> o.navigateTo.value == ProfileRoute
    ensures o.error == "" <==> o.navigateTo.Some?
  {
    if f.password != f.confirmPassword then
      Outcome(MismatchError, false, None, None)
    else if Utf16Length(f.password) < MinPasswordLength then
      Outcome(TooShortError, false, None, None)
    else if registered then
      Outcome("", false, Some(Call(f.email, f.password, f.name)), Some(ProfileRoute))
    else
      Outcome(DuplicateError, false, Some(Call(f.email, f.password, f.name)), None)
  }

  /** Against the store's identity list: the page reaches the profile exactly when
      both checks pass and the email is new, and then the new credentials log in. */
  lemma SubmitAgainstStore(accounts: seq<Session.Account>, f: Form, now: int)
    ensures var o := Submit(f, !Session.EmailTaken(accounts, f.email));
            (o.navigateTo.Some? <==> PasswordsAccepted(f) && forall i :: 0 <= i < |accounts| ==> accounts[i].email != f.email)
            && (o.navigateTo.Some? ==>
                  Session.LoginLookup(accounts + [Session.NewAccount(now, f.email, f.password, f.name)], f.email, f.password, Some(Session.UserRole))
                  == Some(Session.User(now, f.email, f.name, Session.UserRole)))
  {
    if !Session.EmailTaken(accounts, f.email) {
      Session.LoginAfterRegister(accounts, now, f.email, f.password, f.name, Some(Session.UserRole));
    }
  }
}
