/**
 * The signup form's submit handler: it checks the terms box, then the required fields,
 * builds the body for POST /api/auth/signup, and stores the returned token or shows an error.
 */
module SignupPage {
  import opened Wrappers
  import BackendModel
  import BackendServer

  /** The JSON body the form posts. */
  datatype SignupData = SignupData(name: string, email: string, password: string, confirmPassword: string)

  /** How the POST ended: a response body with or without `token`, an error response with or without `message`, no response, or a failure before sending. */
  datatype Reply = Answered(token: Option<string>) | ErrorResponse(message: Option<string>) | NoResponse | RequestError

  const TermsRequired := "Please agree to the Terms of Service and Privacy Policy"
  const FieldsRequired := "All fields are required"
  const InvalidResponse := "Invalid response from server"
  const SignupFailed := "Signup failed. Please try again."
  const NoResponseMessage := "No response from server. Please try again."
  const GenericError := "An error occurred. Please try again."

  /** Why the form refuses to send, in the order the handler checks; `company` is not checked. */
  function FormRefusal(agreedToTerms: bool, firstName: string, lastName: string, email: string, password: string): (r: Option<string>)
    ensures r.None? <==> agreedToTerms && firstName != "" && lastName != "" && email != "" && password != ""
    ensures !agreedToTerms ==> r == Some(TermsRequired)
    ensures agreedToTerms && r.Some? ==> r == Some(FieldsRequired)
  {
    if !agreedToTerms then Some(TermsRequired)
    else if firstName == "" || lastName == "" || email == "" || password == "" then Some(FieldsRequired)
    else None
  }

  /** `signupData`. */
  function Body(firstName: string, lastName: string, email: string, password: string): SignupData {
    SignupData(firstName + " " + lastName, email, password, password)
  }

  /** The error a reply leaves on the form; None when a token came back. */
  function ReplyError(reply: Reply): Option<string> {
    match reply
    case Answered(token) => if token.Some? && token.value != "" then None else Some(InvalidResponse)
    case ErrorResponse(message) => Some(if message.Some? && message.value != "" then message.value else SignupFailed)
    case NoResponse => Some(NoResponseMessage)
    case RequestError => Some(GenericError)
  }

  /**
   * The body the form sends never trips the backend's password check: the backend refuses it
   * only when the email is taken.
   */
  lemma FormBodyPassesPasswordCheck(users: map<BackendModel.UserId, BackendModel.User>,
                                    firstName: string, lastName: string, email: string, password: string)
    ensures var b := Body(firstName, lastName, email, password);
      BackendServer.SignupRefusal(users, b.email, b.password, b.confirmPassword) ==
        if BackendServer.EmailTaken(users, email) then Some(BackendModel.EmailAlreadyTaken) else None
  {
  }

  /** The name the backend stores is the first and last name with one space between them. */
  lemma BodyName(firstName: string, lastName: string, email: string, password: string)
    ensures var n := Body(firstName, lastName, email, password).name;
      |n| == |firstName| + 1 + |lastName| && n[..|firstName|] == firstName
      && n[|firstName|] == ' ' && n[|firstName| + 1..] == lastName
  {
    var n := Body(firstName, lastName, email, password).name;
    assert n[..|firstName|] == firstName;
    assert n[|firstName| + 1..] == lastName;
  }

  class Form {
    var agreedToTerms: bool
    var firstName: string
    var lastName: string
    var email: string
    var company: string
    var password: string
    var error: string
    var isLoading: bool
    /** `localStorage.getItem("token")`. */
    var storedToken: Option<string>

    constructor (storedToken: Option<string>)
      ensures !agreedToTerms && firstName == "" && lastName == "" && email == "" && company == "" && password == ""
      ensures error == "" && !isLoading && this.storedToken == storedToken
    {
      agreedToTerms := false;
      firstName, lastName, email, company, password := "", "", "", "", "";
      error, isLoading := "", false;
      this.storedToken := storedToken;
    }

    /** `handleSubmit` given how the POST would end: answers with the body sent, if any. */
    method HandleSubmit(reply: Reply) returns (sent: Option<SignupData>)
      modifies this
      ensures agreedToTerms == old(agreedToTerms) && firstName == old(firstName) && lastName == old(lastName)
      ensures email == old(email) && company == old(company) && password == old(password)
      ensures !isLoading || (isLoading == old(isLoading) && sent.None?)
      ensures var refusal := FormRefusal(old(agreedToTerms), old(firstName), old(lastName), old(email), old(password));
        && (refusal.Some? ==>
              sent.None? && error == refusal.value && storedToken == old(storedToken) && isLoading == old(isLoading))
        && (refusal.None? ==>
              && sent == Some(Body(old(firstName), old(lastName), old(email), old(password)))
              && !isLoading
              && (ReplyError(reply).None? ==> error == "" && storedToken == reply.token)
              && (ReplyError(reply).Some? ==> error == ReplyError(reply).value && storedToken == old(storedToken)))
    {
      var refusal := FormRefusal(agreedToTerms, firstName, lastName, email, password);
      if refusal.Some? {
        error := refusal.value;
        return None;
      }
      error := "";
      isLoading := true;
      sent := Some(Body(firstName, lastName, email, password));
      match reply {
        case Answered(token) =>
          if token.Some? && token.value != "" {
            storedToken := token;
          } else {
            error := InvalidResponse;
          }
        case ErrorResponse(message) =>
          error := if message.Some? && message.value != "" then message.value else SignupFailed;
        case NoResponse =>
          error := NoResponseMessage;
        case RequestError =>
          error := GenericError;
      }
      isLoading := false;
    }
  }
}
