/**
 * The administrator's sign-up and password-reset forms: the checks they run, in order, before
 * calling the identity provider, and the user-pool password policy those checks stand in front of.
 */
module AuthForms {
  import opened Common
  import opened Text

  predicate HasLower(s: string) { exists i :: 0 <= i < |s| && 'a' <= s[i] <= 'z' }
  predicate HasUpper(s: string) { exists i :: 0 <= i < |s| && 'A' <= s[i] <= 'Z' }
  predicate HasDigit(s: string) { exists i :: 0 <= i < |s| && '0' <= s[i] <= '9' }

  /** The password policy of a user pool. */
  datatype PasswordPolicy = PasswordPolicy(minLength: nat, requireLowercase: bool, requireUppercase: bool,
                                           requireDigits: bool, requireSymbols: bool)

  /** The policy the administrators' user pool is created with. */
  const UserPoolPolicy := PasswordPolicy(8, true, true, true, false)

  const SymbolChars := "^$*.[]{}()?\"!@#%&/\\,><':;|_~`=+-"

  predicate Satisfies(policy: PasswordPolicy, pwd: string)
  {
    JsLength(pwd) >= policy.minLength
    && (policy.requireLowercase ==> HasLower(pwd))
    && (policy.requireUppercase ==> HasUpper(pwd))
    && (policy.requireDigits ==> HasDigit(pwd))
    && (policy.requireSymbols ==> exists i :: 0 <= i < |pwd| && pwd[i] in SymbolChars)
  }

  const TooShort := "Password must be at least 8 characters long"
  const NoLower := "Password must contain at least one lowercase letter"
  const NoUpper := "Password must contain at least one uppercase letter"
  const NoDigit := "Password must contain at least one number"

  /** The sign-up rules in the order they are checked, each with its message. */
  const RuleMessages: seq<string> := [TooShort, NoLower, NoUpper, NoDigit]

  predicate Broken(rule: nat, pwd: string)
  {
    match rule
    case 0 => JsLength(pwd) < 8
    case 1 => !HasLower(pwd)
    case 2 => !HasUpper(pwd)
    case 3 => !HasDigit(pwd)
    case _ => false
  }

  /** `validatePassword`: the message of the first rule the password breaks, or `null`. */
  function ValidatePassword(pwd: string): (r: Option<string>)
    ensures r.Some? ==> r.value in RuleMessages
  {
    if JsLength(pwd) < 8 then Some(TooShort)
    else if !HasLower(pwd) then Some(NoLower)
    else if !HasUpper(pwd) then Some(NoUpper)
    else if !HasDigit(pwd) then Some(NoDigit)
    else None
  }

  /** A password passes the form exactly when the user pool's policy accepts it: symbols are required by neither. */
  lemma ValidatePasswordMatchesPolicy(pwd: string)
    ensures ValidatePassword(pwd) == None <==> Satisfies(UserPoolPolicy, pwd)
  {
  }

  /** The message reported belongs to a rule the password breaks, and every rule checked before it holds. */
  lemma ValidatePasswordFirstBroken(pwd: string)
    ensures ValidatePassword(pwd).Some? ==>
              exists k :: 0 <= k < |RuleMessages| && ValidatePassword(pwd).value == RuleMessages[k]
                && Broken(k, pwd) && forall j :: 0 <= j < k ==> !Broken(j, pwd)
    ensures ValidatePassword(pwd) == None ==> forall k :: 0 <= k < |RuleMessages| ==> !Broken(k, pwd)
  {
    if JsLength(pwd) < 8 {
      assert Broken(0, pwd);
    } else if !HasLower(pwd) {
      assert !Broken(0, pwd) && Broken(1, pwd);
    } else if !HasUpper(pwd) {
      assert !Broken(0, pwd) && !Broken(1, pwd) && Broken(2, pwd);
    } else if !HasDigit(pwd) {
      assert !Broken(0, pwd) && !Broken(1, pwd) && !Broken(2, pwd) && Broken(3, pwd);
    }
  }

  const AllRequired := "All fields are required"
  const Mismatch := "Passwords do not match"

  datatype Toast = ToastError(message: string) | ToastSuccess(message: string)

  /** How the identity provider answers `signUp`. */
  datatype SignUpAnswer = Complete | NextStep(signUpStep: string) | SignUpFails(error: string)

  datatype SignUpRequest = SignUpRequest(username: string, password: string, email: string)

  const ConfirmSignUpStep := "CONFIRM_SIGN_UP"
  const SignupConfirmation := "signupConfirmation"

  /** The check `handleSubmit` of the sign-up form stops at, if any: empty fields, a mismatch, then the password rules. */
  function SignUpCheck(email: string, password: string, confirmPassword: string): (r: Option<string>)
    ensures r == None ==> email != "" && password == confirmPassword && Satisfies(UserPoolPolicy, password)
  {
    if email == "" || password == "" || confirmPassword == "" then Some(AllRequired)
    else if password != confirmPassword then Some(Mismatch)
    else ValidatePassword(password)
  }

  /** `SignUp` with the state it sets on the authentication page. */
  class SignUpForm {
    var email: string
    var password: string
    var confirmPassword: string
    var loading: bool
    var authState: string
    var toasts: seq<Toast>
    var requests: seq<SignUpRequest>

    constructor(email: string, password: string, confirmPassword: string, authState: string)
      ensures this.email == email && this.password == password && this.confirmPassword == confirmPassword
      ensures this.authState == authState && !loading && toasts == [] && requests == []
    {
      this.email := email;
      this.password := password;
      this.confirmPassword := confirmPassword;
      this.authState := authState;
      loading := false;
      toasts := [];
      requests := [];
    }

    /**
     * `handleSubmit`: a failed check shows its message and stops before loading starts; otherwise
     * the sign-up is sent with the lower-cased address as user name, and only a confirmation step
     * or an error ends the loading state.
     */
    method HandleSubmit(answer: SignUpAnswer)
      modifies this
      ensures var check := SignUpCheck(old(email), old(password), old(confirmPassword));
              if check.Some? then
                toasts == old(toasts) + [ToastError(check.value)] && requests == old(requests)
                && loading == old(loading) && authState == old(authState)
              else
                requests == old(requests) + [SignUpRequest(Lower(old(email)), old(password), old(email))]
                && (answer.SignUpFails? ==> toasts == old(toasts) + [ToastError("Error signing up: " + answer.error)]
                                            && !loading && authState == old(authState))
                && (answer.NextStep? && answer.signUpStep == ConfirmSignUpStep ==>
                      toasts == old(toasts) && !loading && authState == SignupConfirmation)
                && (answer.Complete? || (answer.NextStep? && answer.signUpStep != ConfirmSignUpStep) ==>
                      toasts == old(toasts) && loading && authState == old(authState))
      ensures email == old(email) && password == old(password) && confirmPassword == old(confirmPassword)
    {
      if email == "" || password == "" || confirmPassword == "" {
        toasts := toasts + [ToastError(AllRequired)];
        return;
      }
      if password != confirmPassword {
        toasts := toasts + [ToastError(Mismatch)];
        return;
      }
      var passwordError := ValidatePassword(password);
      if passwordError.Some? {
        toasts := toasts + [ToastError(passwordError.value)];
        return;
      }
      loading := true;
      requests := requests + [SignUpRequest(Lower(email), password, email)];
      match answer {
        case SignUpFails(error) =>
          toasts := toasts + [ToastError("Error signing up: " + error)];
          loading := false;
        case NextStep(step) =>
          if step == ConfirmSignUpStep {
            loading := false;
            authState := SignupConfirmation;
          }
        case Complete =>
      }
    }
  }

  datatype ResetRequest = ResetRequest(username: string, confirmationCode: string, newPassword: string)

  const ResetDone := "Password reset successful!"

  /** The check `handleSubmit` of the reset form stops at, if any: empty fields, a mismatch, then the length. */
  function ResetCheck(code: string, newPassword: string, confirmNewPassword: string): (r: Option<string>)
    ensures r == None ==> code != "" && newPassword == confirmNewPassword && JsLength(newPassword) >= 8
  {
    if code == "" || newPassword == "" || confirmNewPassword == "" then Some(AllRequired)
    else if newPassword != confirmNewPassword then Some(Mismatch)
    else if JsLength(newPassword) < 8 then Some(TooShort)
    else None
  }

  /** The reset form checks only the length: a password the user pool rejects passes it and reaches the provider. */
  lemma ResetCheckWeakerThanPolicy(code: string, pwd: string)
    requires code != "" && |pwd| >= 8 && forall i :: 0 <= i < |pwd| ==> 'a' <= pwd[i] <= 'z'
    ensures ResetCheck(code, pwd, pwd) == None
    ensures ValidatePassword(pwd) == Some(NoUpper) && !Satisfies(UserPoolPolicy, pwd)
  {
    assert HasLower(pwd) by { assert 'a' <= pwd[0] <= 'z'; }
  }

  /** Every password the sign-up form lets through passes the reset form's own rules too. */
  lemma SignUpRulesImplyResetRules(code: string, pwd: string)
    requires code != "" && ValidatePassword(pwd) == None
    ensures ResetCheck(code, pwd, pwd) == None
  {
  }

  /** `PasswordReset` with its own fields and the state it sets on the authentication page. */
  class PasswordResetForm {
    var confirmationCode: string
    var newPassword: string
    var confirmNewPassword: string
    var loading: bool
    var toasts: seq<Toast>
    var requests: seq<ResetRequest>

    constructor()
      ensures confirmationCode == "" && newPassword == "" && confirmNewPassword == ""
      ensures !loading && toasts == [] && requests == []
    {
      confirmationCode, newPassword, confirmNewPassword := "", "", "";
      loading := false;
      toasts := [];
      requests := [];
    }

    /**
     * `handleSubmit`: a failed check shows its message and stops before loading starts; otherwise
     * the reset is sent, its outcome shown, and loading ends in every case.
     * `failure` is the provider's error message when it rejects the reset.
     */
    method HandleSubmit(email: string, failure: Option<string>)
      modifies this
      ensures var check := ResetCheck(old(confirmationCode), old(newPassword), old(confirmNewPassword));
              if check.Some? then
                toasts == old(toasts) + [ToastError(check.value)] && requests == old(requests) && loading == old(loading)
              else
                requests == old(requests) + [ResetRequest(email, old(confirmationCode), old(newPassword))] && !loading
                && toasts == old(toasts) + [if failure.Some? then ToastError("Error resetting password: " + failure.value)
                                            else ToastSuccess(ResetDone)]
      ensures confirmationCode == old(confirmationCode) && newPassword == old(newPassword)
      ensures confirmNewPassword == old(confirmNewPassword)
    {
      if confirmationCode == "" || newPassword == "" || confirmNewPassword == "" {
        toasts := toasts + [ToastError(AllRequired)];
        return;
      }
      if newPassword != confirmNewPassword {
        toasts := toasts + [ToastError(Mismatch)];
        return;
      } else if JsLength(newPassword) < 8 {
        toasts := toasts + [ToastError(TooShort)];
        return;
      }
      loading := true;
      requests := requests + [ResetRequest(email, confirmationCode, newPassword)];
      if failure.Some? {
        toasts := toasts + [ToastError("Error resetting password: " + failure.value)];
      } else {
        toasts := toasts + [ToastSuccess(ResetDone)];
      }
      loading := false;
    }
  }
}
