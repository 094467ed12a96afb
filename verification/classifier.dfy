/** Deciding, after the form was submitted, whether the login worked: an
    ordered hierarchy of evidence, where the first conclusive signal wins. */
module Classifier {
  import opened Results
  import opened Strings
  import Accounts

  /** A probe of the page that may throw instead of answering. */
  datatype Probe<T> = Returned(value: T) | Threw

  /** What the page shows after submission: whether a link to `/logout/`
      exists, the current URL, and the text of the first element that looks
      like an error message (`None` when there is no such element). */
  datatype Observation = Observation(logoutLink: Probe<bool>, url: string, errorText: Probe<Option<string>>)

  /** Which piece of evidence decided. */
  datatype Verdict =
    | LogoutLinkFound
    | LeftLoginPage
    | NoErrorShown
    | ErrorShown(text: string)
    | ProbeFailed

  const LoginMarker: string := "login"

  /** Text that reads as "no error" under JavaScript's `!errorMsg`. */
  predicate Falsy(text: Option<string>) {
    text.None? || text.value == ""
  }

  /** The evidence, consulted in order: the logout link, then the URL, then
      the error elements; a probe that throws ends the check as a failure. */
  function Classify(obs: Observation): (v: Verdict)
    ensures v == LogoutLinkFound <==> obs.logoutLink == Returned(true)
    ensures v == LeftLoginPage <==> obs.logoutLink == Returned(false) && !Occurs(obs.url, LoginMarker)
    ensures v == NoErrorShown <==>
              obs.logoutLink == Returned(false) && Occurs(obs.url, LoginMarker)
              && obs.errorText.Returned? && Falsy(obs.errorText.value)
    ensures v.ErrorShown? <==>
              obs.logoutLink == Returned(false) && Occurs(obs.url, LoginMarker)
              && obs.errorText.Returned? && !Falsy(obs.errorText.value)
    ensures v.ErrorShown? ==> v.text != "" && obs.errorText == Returned(Some(v.text))
    ensures v == ProbeFailed <==>
              obs.logoutLink.Threw?
              || (obs.logoutLink == Returned(false) && Occurs(obs.url, LoginMarker) && obs.errorText.Threw?)
  {
    IncludesIsOccurs(obs.url, LoginMarker);
    match obs.logoutLink
    case Threw => ProbeFailed
    case Returned(true) => LogoutLinkFound
    case Returned(false) =>
      if !Includes(obs.url, LoginMarker) then LeftLoginPage
      else
        match obs.errorText
        case Threw => ProbeFailed
        case Returned(text) => if Falsy(text) then NoErrorShown else ErrorShown(text.value)
  }

  /** The verdicts that count as a successful login. */
  predicate Succeeded(v: Verdict) {
    v.LogoutLinkFound? || v.LeftLoginPage? || v.NoErrorShown?
  }

  /** The boolean the script acts on. */
  function CheckLoginSuccess(obs: Observation): (ok: bool)
    ensures ok <==>
              obs.logoutLink == Returned(true)
              || (obs.logoutLink == Returned(false)
                  && (!Occurs(obs.url, LoginMarker)
                      || obs.errorText == Returned(None)
                      || obs.errorText == Returned(Some(""))))
  {
    Succeeded(Classify(obs))
  }

  /** A logout link means success, whatever the URL and the error elements
      say, and even if probing them would throw. */
  lemma LogoutLinkWins(obs: Observation, url: string, errorText: Probe<Option<string>>)
    requires obs.logoutLink == Returned(true)
    ensures CheckLoginSuccess(obs.(url := url, errorText := errorText))
  {
  }

  /** Without a logout link, a URL free of `login` means success whatever
      the error elements say. */
  lemma LeavingLoginPageWins(obs: Observation, errorText: Probe<Option<string>>)
    requires obs.logoutLink == Returned(false) && !Includes(obs.url, LoginMarker)
    ensures CheckLoginSuccess(obs.(errorText := errorText))
  {
  }

  /** Still on a `login` URL without a logout link, the error elements
      decide: success exactly when no error text was found. */
  lemma ErrorTextDecides(obs: Observation)
    requires obs.logoutLink == Returned(false) && Includes(obs.url, LoginMarker)
    ensures CheckLoginSuccess(obs) <==> obs.errorText.Returned? && Falsy(obs.errorText.value)
  {
  }

  /** A probe that throws before a conclusive signal means failure. */
  lemma ProbeFailureMeansFailure(obs: Observation)
    requires obs.logoutLink.Threw?
             || (obs.logoutLink == Returned(false) && Includes(obs.url, LoginMarker) && obs.errorText.Threw?)
    ensures !CheckLoginSuccess(obs)
  {
  }

  /** A page that stayed at the account's login URL can only count as a
      success through the logout link or the absence of error text. */
  lemma StayingOnLoginUrl(a: Accounts.Account, obs: Observation)
    requires obs.url == Accounts.LoginUrl(a)
    ensures CheckLoginSuccess(obs) <==>
              obs.logoutLink == Returned(true)
              || (obs.logoutLink == Returned(false) && obs.errorText.Returned? && Falsy(obs.errorText.value))
  {
    Accounts.LoginUrlMentionsLogin(a);
  }
}
