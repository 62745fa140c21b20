/** The sign-up page: the checks made before the account is requested, in order, and
    the page state around the request. The request itself is the parameter `signUp`. */
module SignUp {
  import opened Wrappers
  import opened Text

  /** The checks `handleSubmit` makes, by the message the first failing one shows. */
  datatype Failure = Missing | TooShort | Mismatch

  function FailureText(f: Failure): string {
    match f
    case Missing => "Email and password are required"
    case TooShort => "Password must be at least 6 characters"
    case Mismatch => "Passwords do not match"
  }

  /** The shortest password accepted. */
  const MinPasswordLength: nat := 6

  /** Where a new account is sent. */
  const ExitBoardPath: string := "/exit-board"

  /** The first check that fails, if any: a blank email or an empty password, then a
      short password, then a confirmation that differs. */
  function FirstFailure(email: string, password: string, confirmPassword: string): (r: Option<Failure>)
    ensures r == Some(Missing) <==> Blank(email) || password == []
    ensures r == Some(TooShort) <==> !Blank(email) && password != [] && |password| < MinPasswordLength
    ensures r == Some(Mismatch) <==>
              !Blank(email) && |password| >= MinPasswordLength && password != confirmPassword
    ensures r.None? <==> !Blank(email) && |password| >= MinPasswordLength && password == confirmPassword
  {
    if Blank(email) || password == [] then Some(Missing)
    else if |password| < MinPasswordLength then Some(TooShort)
    else if password != confirmPassword then Some(Mismatch)
    else None
  }

  /** What `signUp` answers: whether `data.user` is present, and the error's message. */
  datatype Reply = Reply(hasUser: bool, error: Option<string>)

  /** `signUp(email, password)`. */
  type Service = (string, string) -> Reply

  /** The page's state. `requests` records the arguments of every `signUp` call and
      `redirect` the last `router.push` target. */
  class SignUpPage {
    var email: string
    var password: string
    var confirmPassword: string
    var error: string
    var isLoading: bool
    var redirect: Option<string>
    var requests: seq<(string, string)>

    constructor ()
      ensures email == "" && password == "" && confirmPassword == ""
      ensures error == "" && !isLoading && redirect == None && requests == []
    {
      email, password, confirmPassword := "", "", "";
      error, isLoading, redirect, requests := "", false, None, [];
    }

    /** `handleSubmit`: a failed check shows its message and nothing is requested; else
        the account is requested with the trimmed email and the password as typed, a
        refusal shows its message, and a created user is sent to the Exit Board. */
    method HandleSubmit(signUp: Service)
      modifies this
      ensures email == old(email) && password == old(password) && confirmPassword == old(confirmPassword)
      ensures var failure := FirstFailure(email, password, confirmPassword);
              failure.Some? ==>
                && error == FailureText(failure.value)
                && requests == old(requests) && redirect == old(redirect) && isLoading == old(isLoading)
      ensures var reply := signUp(Trim(email), password);
              FirstFailure(email, password, confirmPassword).None? ==>
                && requests == old(requests) + [(Trim(email), password)]
                && !isLoading
                && error == (if reply.error.Some? then reply.error.value else "")
                && redirect == (if reply.error.None? && reply.hasUser then Some(ExitBoardPath) else old(redirect))
    {
      error := "";
      if Blank(email) || password == [] {
        error := FailureText(Missing);
        return;
      }
      if |password| < MinPasswordLength {
        error := FailureText(TooShort);
        return;
      }
      if password != confirmPassword {
        error := FailureText(Mismatch);
        return;
      }
      isLoading := true;
      var reply := signUp(Trim(email), password);
      requests := requests + [(Trim(email), password)];
      if reply.error.Some? {
        error := reply.error.value;
        isLoading := false;
        return;
      }
      if reply.hasUser {
        redirect := Some(ExitBoardPath);
      }
      isLoading := false;
    }
  }

  // ------------------------------------------------------------------ lemmas

  /** A password of exactly six characters passes the length check. */
  lemma SixCharactersEnough(email: string, password: string)
    requires !Blank(email) && |password| == MinPasswordLength
    ensures FirstFailure(email, password, password).None?
    ensures FirstFailure(email, password, password + "x") == Some(Mismatch)
  {
    assert |password + "x"| == |password| + 1;
  }

  /** The password is never trimmed: six spaces are a password of length six. */
  lemma SpacesArePassword(email: string)
    requires !Blank(email)
    ensures FirstFailure(email, "      ", "      ").None?
    ensures Blank("      ")
  {
  }

  /** The order of the checks: a blank email is reported before a short password, and
      a short password before a mismatch. */
  lemma ChecksInOrder(password: string, confirmPassword: string)
    requires 0 < |password| < MinPasswordLength && password != confirmPassword
    ensures FirstFailure(" ", password, confirmPassword) == Some(Missing)
    ensures FirstFailure("a@b.c", password, confirmPassword) == Some(TooShort)
  {
    assert !Blank("a@b.c") by {
      assert !IsSpace("a@b.c"[0]);
    }
  }
}
