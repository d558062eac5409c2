/** The sign-up form: three text fields, an error slot, and a button that
    validates the form, registers the account and navigates home. The email
    and password format rules are not part of this model; they are given as
    predicates. */
module SignUpViewModel {
  import opened ReplyScript
  import opened Wrappers
  import opened MarketRoutes
  import opened AccountService

  const InvalidEmail := "Invalid email format"
  const InvalidPassword := "Invalid password format"
  const PasswordsDiffer := "Passwords do not match"

  /** The message of the first validation step that fails, None when the form passes. */
  function SignUpCheck(email: string, password: string, confirmPassword: string,
                       isValidEmail: string -> bool, isValidPassword: string -> bool): (failure: Option<string>)
  {
    if !isValidEmail(email) then Some(InvalidEmail)
    else if !isValidPassword(password) then Some(InvalidPassword)
    else if password != confirmPassword then Some(PasswordsDiffer)
    else None
  }

  /** The form passes exactly when all three checks pass; a failure names
      the first failing check in the order email format, password format,
      password equality (the later messages imply the earlier checks passed). */
  lemma SignUpCheckOrder(email: string, password: string, confirmPassword: string,
                         isValidEmail: string -> bool, isValidPassword: string -> bool)
    ensures var failure := SignUpCheck(email, password, confirmPassword, isValidEmail, isValidPassword);
      && (failure.None? <==> isValidEmail(email) && isValidPassword(password) && password == confirmPassword)
      && (failure == Some(InvalidEmail) <==> !isValidEmail(email))
      && (failure == Some(InvalidPassword) <==> isValidEmail(email) && !isValidPassword(password))
      && (failure == Some(PasswordsDiffer) <==>
            isValidEmail(email) && isValidPassword(password) && password != confirmPassword)
  {
  }

  class SignUpViewModel {
    const accountService: AccountService
    var email: string
    var password: string
    var confirmPassword: string
    var errorMessage: Option<string>

    constructor (accountService: AccountService)
      ensures this.accountService == accountService
      ensures email == "" && password == "" && confirmPassword == "" && errorMessage.None?
    {
      this.accountService := accountService;
      email := "";
      password := "";
      confirmPassword := "";
      errorMessage := None;
    }

    method UpdateEmail(newEmail: string)
      modifies this
      ensures email == newEmail
      ensures password == old(password) && confirmPassword == old(confirmPassword) && errorMessage == old(errorMessage)
    {
      email := newEmail;
    }

    method UpdatePassword(newPassword: string)
      modifies this
      ensures password == newPassword
      ensures email == old(email) && confirmPassword == old(confirmPassword) && errorMessage == old(errorMessage)
    {
      password := newPassword;
    }

    method UpdateConfirmPassword(newConfirmPassword: string)
      modifies this
      ensures confirmPassword == newConfirmPassword
      ensures email == old(email) && password == old(password) && errorMessage == old(errorMessage)
    {
      confirmPassword := newConfirmPassword;
    }

    /** `onSignUpClick(openAndPopUp)`; `navigation` is the (route, popped
        route) pair handed to `openAndPopUp`, None when it is not called. */
    method OnSignUpClick(isValidEmail: string -> bool, isValidPassword: string -> bool)
      returns (navigation: Option<(string, string)>)
      modifies this, accountService
      ensures email == old(email) && password == old(password) && confirmPassword == old(confirmPassword)
      ensures var failure := SignUpCheck(email, password, confirmPassword, isValidEmail, isValidPassword);
        && (failure.Some? ==>
              && navigation.None? && errorMessage == failure
              && accountService.calls == old(accountService.calls)
              && accountService.replies == old(accountService.replies))
        && (failure.None? ==>
              var reply := NextReply(old(accountService.replies), NoAuthReply);
              && accountService.calls == old(accountService.calls) + [SignUp(email, password)]
              && accountService.replies == Consume(old(accountService.replies))
              && (reply.Accepted? ==> navigation == Some((HOME_SCREEN, SIGN_UP_SCREEN))
                                      && errorMessage == old(errorMessage))
              && (reply.Refused? ==> navigation.None? && errorMessage == reply.message))
    {
      navigation := None;
      if !isValidEmail(email) {
        errorMessage := Some(InvalidEmail);
        return;
      }
      if !isValidPassword(password) {
        errorMessage := Some(InvalidPassword);
        return;
      }
      if password != confirmPassword {
        errorMessage := Some(PasswordsDiffer);
        return;
      }
      var reply := accountService.Call(SignUp(email, password));
      if reply.Refused? {
        errorMessage := reply.message;
        return;
      }
      navigation := Some((HOME_SCREEN, SIGN_UP_SCREEN));
    }

    method ClearErrorMessage()
      modifies this
      ensures errorMessage.None?
      ensures email == old(email) && password == old(password) && confirmPassword == old(confirmPassword)
    {
      errorMessage := None;
    }
  }
}
