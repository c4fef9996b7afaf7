/** The sign-in form (src/screens/AuthScreen.tsx): one form for logging in
    and for registering, with a check before the one auth call. */
module AuthScreen {

  /** What a press of the submit button does: nothing but an alert, or one
      call to the auth service. */
  datatype AuthCall =
    | Rejected
    | SignIn(email: string, password: string)
    | SignUp(email: string, password: string, name: string)

  /** The check of handleAuth: both fields filled, and when registering the
      password confirmed. */
  predicate InputsOk(isLogin: bool, email: string, password: string, confirm: string) {
    email != "" && password != "" && (isLogin || password == confirm)
  }

  function ChooseCall(isLogin: bool, email: string, password: string, name: string, confirm: string): (c: AuthCall)
    ensures c.Rejected? <==> !InputsOk(isLogin, email, password, confirm)
    ensures c.SignIn? <==> InputsOk(isLogin, email, password, confirm) && isLogin
    ensures c.SignUp? <==> InputsOk(isLogin, email, password, confirm) && !isLogin
    ensures !c.Rejected? ==> c.email == email && c.password == password
    ensures c.SignUp? ==> c.name == name
  {
    if !InputsOk(isLogin, email, password, confirm) then Rejected
    else if isLogin then SignIn(email, password)
    else SignUp(email, password, name)
  }

  /** An empty email or password is never sent. */
  lemma EmptyRejected(isLogin: bool, email: string, password: string, name: string, confirm: string)
    requires email == "" || password == ""
    ensures ChooseCall(isLogin, email, password, name, confirm) == Rejected
  {
  }

  /** When logging in, the confirmation and the name make no difference. */
  lemma LoginIgnoresConfirm(email: string, password: string, name1: string, confirm1: string, name2: string, confirm2: string)
    ensures ChooseCall(true, email, password, name1, confirm1) == ChooseCall(true, email, password, name2, confirm2)
  {
  }

  /** When registering, a mismatched confirmation is rejected. */
  lemma RegisterNeedsConfirm(email: string, password: string, name: string, confirm: string)
    requires password != confirm
    ensures ChooseCall(false, email, password, name, confirm) == Rejected
  {
  }

  class AuthForm {
    var isLogin: bool
    var email: string
    var password: string
    var name: string
    var confirm: string

    constructor()
      ensures isLogin && email == "" && password == "" && name == "" && confirm == ""
    {
      isLogin := true;
      email, password, name, confirm := "", "", "", "";
    }

    method SetEmail(s: string)
      modifies this
      ensures email == s && isLogin == old(isLogin) && password == old(password)
      ensures name == old(name) && confirm == old(confirm)
    {
      email := s;
    }

    method SetPassword(s: string)
      modifies this
      ensures password == s && isLogin == old(isLogin) && email == old(email)
      ensures name == old(name) && confirm == old(confirm)
    {
      password := s;
    }

    method SetName(s: string)
      modifies this
      ensures name == s && isLogin == old(isLogin) && email == old(email)
      ensures password == old(password) && confirm == old(confirm)
    {
      name := s;
    }

    method SetConfirm(s: string)
      modifies this
      ensures confirm == s && isLogin == old(isLogin) && email == old(email)
      ensures password == old(password) && name == old(name)
    {
      confirm := s;
    }

    /** The link under the button switches between the two modes and keeps
        what was typed. */
    method Toggle()
      modifies this
      ensures isLogin == !old(isLogin)
      ensures email == old(email) && password == old(password) && name == old(name) && confirm == old(confirm)
    {
      isLogin := !isLogin;
    }

    /** handleAuth; the service's answer (an error alert) is not modelled. */
    method HandleAuth() returns (call: AuthCall)
      ensures call == ChooseCall(isLogin, email, password, name, confirm)
    {
      if email == "" || password == "" || (!isLogin && password != confirm) {
        return Rejected;
      }
      if isLogin {
        call := SignIn(email, password);
      } else {
        call := SignUp(email, password, name);
      }
    }
  }
}
