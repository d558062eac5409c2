/** The sign-in form: two text fields, an error slot, a sign-in button that
    navigates home once the service accepts, and a link to the sign-up form. */
module SignInViewModel {
  import opened ReplyScript
  import opened Wrappers
  import opened MarketRoutes
  import opened AccountService

  const EmptyCredentials := "Login failed: Given String is empty or null"
  const EmptyCredentialsHint := "Email and password cannot be empty."

  /** The message shown for a refused sign-in: the service's message, except
      that its empty-credentials message is replaced by a friendlier one. */
  function SignInErrorText(message: Option<string>): (shown: Option<string>)
  {
    if message == Some(EmptyCredentials) then Some(EmptyCredentialsHint) else message
  }

  /** Exactly one message is rewritten; every other message, null included,
      is shown as it came; the raw empty-credentials message is never shown,
      and rewriting what is shown changes nothing further. */
  lemma SignInErrorRewrite(message: Option<string>)
    ensures SignInErrorText(message) == message <==> message != Some(EmptyCredentials)
    ensures SignInErrorText(message) != Some(EmptyCredentials)
    ensures SignInErrorText(SignInErrorText(message)) == SignInErrorText(message)
  {
  }

  class SignInViewModel {
    const accountService: AccountService
    var email: string
    var password: string
    var errorMessage: Option<string>

    constructor (accountService: AccountService)
      ensures this.accountService == accountService
      ensures email == "" && password == "" && errorMessage.None?
    {
      this.accountService := accountService;
      email := "";
      password := "";
      errorMessage := None;
    }

    method UpdateEmail(newEmail: string)
      modifies this
      ensures email == newEmail && password == old(password) && errorMessage == old(errorMessage)
    {
      email := newEmail;
    }

    method UpdatePassword(newPassword: string)
      modifies this
      ensures password == newPassword && email == old(email) && errorMessage == old(errorMessage)
    {
      password := newPassword;
    }

    /** `onSignInClick(openAndPopUp)`; `navigation` is what `openAndPopUp`
        receives, None when it is not called. */
    method OnSignInClick() returns (navigation: Option<(string, string)>)
      modifies this, accountService
      ensures email == old(email) && password == old(password)
      ensures accountService.calls == old(accountService.calls) + [SignIn(email, password)]
      ensures accountService.replies == Consume(old(accountService.replies))
      ensures var reply := NextReply(old(accountService.replies), NoAuthReply);
        && (reply.Accepted? ==> navigation == Some((HOME_SCREEN, SIGN_IN_SCREEN)) && errorMessage == old(errorMessage))
        && (reply.Refused? ==> navigation.None? && errorMessage == SignInErrorText(reply.message))
    {
      var reply := accountService.Call(SignIn(email, password));
      if reply.Refused? {
        if reply.message == Some(EmptyCredentials) {
          errorMessage := Some(EmptyCredentialsHint);
        } else {
          errorMessage := reply.message;
        }
        return None;
      }
      navigation := Some((HOME_SCREEN, SIGN_IN_SCREEN));
    }

    method ClearErrorMessage()
      modifies this
      ensures errorMessage.None? && email == old(email) && password == old(password)
    {
      errorMessage := None;
    }

    /** `onSignUpClick(navigate)`: the route handed to `navigate`; nothing changes. */
    method OnSignUpClick() returns (route: string)
      ensures route == SIGN_UP_SCREEN
    {
      route := SIGN_UP_SCREEN;
    }
  }
}
