/** The page a reset link opens (src/components/ResetPasswordPage.tsx): it
    verifies the link's token, checks the new password, submits it, and
    shows one of four views. */
module ResetPasswordPage {
  import opened Js
  import AuthRoutes
  import opened PasswordForm

  /** What a `fetch` to the backend yields: the status's `ok` and the JSON
      body's `success`, `error` and `data.email`, or nothing when the
      request or the JSON parse threw. */
  datatype Response = Response(ok: bool, success: bool, error: Field, email: Field) | NoResponse

  /** The `reset-password` request body. */
  datatype ResetRequest = ResetRequest(token: string, newPassword: string)

  /** The four screens, in the order the component tests for them. */
  datatype View = VerifyingView | InvalidTokenView | SuccessView | FormView

  const MinLength: nat := 6
  const VerifyDefaultError: string := "Invalid or expired reset token"
  const VerifyUnreachableError: string := "Unable to verify reset token. Please try again."
  const ResetDefaultError: string := "Failed to reset password."
  const ResetUnreachableError: string := "Unable to connect to the server. Please try again."

  function FormErrorMessage(e: FormError): string {
    match e
    case TooShort => "Password must be at least 6 characters long"
    case Mismatch => "Passwords do not match"
  }

  /** The backend's message for each reason it refuses a token. */
  function TokenProblemMessage(p: AuthRoutes.TokenProblem): string {
    match p
    case TokenNotFound => "Invalid or expired reset token"
    case TokenAlreadyUsed => "This reset token has already been used"
    case TokenExpired => "Reset token has expired"
  }

  /** The response `POST /verify-reset-token` sends for each outcome. */
  function VerifyResponse(r: AuthRoutes.VerifyResult): Response {
    match r
    case VerifyTokenRequired => Response(false, false, Given("Token is required"), Absent)
    case VerifyRejected(p) => Response(false, false, Given(TokenProblemMessage(p)), Absent)
    case VerifyOk(email) => Response(true, true, Absent, Given(email))
  }

  /** The response `POST /reset-password` sends for each outcome. */
  function ResetResponse(r: AuthRoutes.ResetResult): Response {
    match r
    case ResetFieldsRequired => Response(false, false, Given("Token and new password are required"), Absent)
    case ResetPasswordTooShort => Response(false, false, Given("Password must be at least 6 characters long"), Absent)
    case ResetRejected(p) => Response(false, false, Given(TokenProblemMessage(p)), Absent)
    case ResetDone => Response(true, true, Absent, Absent)
  }

  /** `response.ok && data.success` */
  predicate Accepted(resp: Response) {
    resp.Response? && resp.ok && resp.success
  }

  /** The error a refused or failed call shows: the server's, else the
      default, or the connection message when nothing came back. */
  function ErrorShown(resp: Response, fallback: string, unreachable: string): (e: string)
    ensures resp.NoResponse? ==> e == unreachable
    ensures resp.Response? && Truthy(resp.error) ==> e == resp.error.text
    ensures resp.Response? && !Truthy(resp.error) ==> e == fallback
  {
    if resp.NoResponse? then unreachable else OrElse(resp.error, fallback)
  }

  /** The token is taken as valid exactly when the backend verified it, the
      e-mail shown is the token's, and a refusal shows the backend's reason. */
  lemma VerifyVerdict(r: AuthRoutes.VerifyResult)
    ensures Accepted(VerifyResponse(r)) <==> r.VerifyOk?
    ensures r.VerifyOk? ==> OrElse(VerifyResponse(r).email, "") == r.email
    ensures r.VerifyRejected? ==>
      ErrorShown(VerifyResponse(r), VerifyDefaultError, VerifyUnreachableError) == TokenProblemMessage(r.problem)
  {
  }

  /** The page reports success exactly when the backend reset the password. */
  lemma ResetVerdict(r: AuthRoutes.ResetResult)
    ensures Accepted(ResetResponse(r)) <==> r.ResetDone?
    ensures r.ResetRejected? ==>
      ErrorShown(ResetResponse(r), ResetDefaultError, ResetUnreachableError) == TokenProblemMessage(r.problem)
  {
  }

  /** The form's checks, with its 6-character minimum. */
  function FormProblem(newPassword: string, confirmPassword: string): Option<FormError> {
    Problem(MinLength, newPassword, confirmPassword)
  }

  /** A password the form lets through is never refused by the backend for
      being missing or too short. */
  lemma FormPasswordMeetsBackend(newPassword: string, confirmPassword: string)
    requires FormProblem(newPassword, confirmPassword).None?
    ensures Truthy(Given(newPassword)) && Utf16Length(newPassword) >= AuthRoutes.ResetMinLength
  {
  }

  /** Which view renders: verifying, then an invalid token, then success,
      then the form. */
  function ViewOf(isVerifying: bool, tokenValid: bool, isSuccess: bool): (v: View)
    ensures v == VerifyingView <==> isVerifying
    ensures v == InvalidTokenView <==> !isVerifying && !tokenValid
    ensures v == SuccessView <==> !isVerifying && tokenValid && isSuccess
    ensures v == FormView <==> !isVerifying && tokenValid && !isSuccess
  {
    if isVerifying then VerifyingView
    else if !tokenValid then InvalidTokenView
    else if isSuccess then SuccessView
    else FormView
  }

  class ResetPage {
    const token: string
    var newPassword: string
    var confirmPassword: string
    var error: string
    var isLoading: bool
    var isSuccess: bool
    var isVerifying: bool
    var tokenValid: bool
    var userEmail: string

    constructor(token: string)
      ensures this.token == token && newPassword == "" && confirmPassword == "" && error == ""
      ensures !isLoading && !isSuccess && isVerifying && !tokenValid && userEmail == ""
    {
      this.token := token;
      newPassword := "";
      confirmPassword := "";
      error := "";
      isLoading := false;
      isSuccess := false;
      isVerifying := true;
      tokenValid := false;
      userEmail := "";
    }

    function CurrentView(): View
      reads this
    {
      ViewOf(isVerifying, tokenValid, isSuccess)
    }

    /** `verifyToken`: `response` is what the verify request yielded. */
    method VerifyToken(response: Response)
      modifies this`isVerifying, this`tokenValid, this`userEmail, this`error
      ensures !isVerifying
      ensures tokenValid <==> Accepted(response)
      ensures Accepted(response) ==> userEmail == OrElse(response.email, "") && error == old(error)
      ensures !Accepted(response) ==>
        userEmail == old(userEmail) && error == ErrorShown(response, VerifyDefaultError, VerifyUnreachableError)
    {
      isVerifying := true;
      if Accepted(response) {
        tokenValid := true;
        userEmail := OrElse(response.email, "");
      } else {
        tokenValid := false;
        error := ErrorShown(response, VerifyDefaultError, VerifyUnreachableError);
      }
      isVerifying := false;
    }

    /** `handleSubmit`: the form's checks, then the reset request
        (`response` is what it yielded). */
    method HandleSubmit(response: Response) returns (request: Option<ResetRequest>)
      modifies this`error, this`isLoading, this`isSuccess
      ensures var problem := FormProblem(newPassword, confirmPassword);
        && (request.Some? <==> problem.None?)
        && (problem.Some? ==>
              error == FormErrorMessage(problem.value) && isLoading == old(isLoading) && isSuccess == old(isSuccess))
        && (problem.None? ==>
              && request == Some(ResetRequest(token, newPassword)) && !isLoading
              && (Accepted(response) ==> isSuccess && error == "")
              && (!Accepted(response) ==>
                    isSuccess == old(isSuccess) && error == ErrorShown(response, ResetDefaultError, ResetUnreachableError)))
    {
      error := "";
      var problem := FormProblem(newPassword, confirmPassword);
      if problem.Some? {
        error := FormErrorMessage(problem.value);
        return None;
      }
      isLoading := true;
      request := Some(ResetRequest(token, newPassword));
      if Accepted(response) {
        isSuccess := true;
      } else {
        error := ErrorShown(response, ResetDefaultError, ResetUnreachableError);
      }
      isLoading := false;
    }
  }
}
