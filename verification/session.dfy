/** One account's task: open the login page, fill and submit the form,
    classify the result, and produce the account's single report line. */
module Session {
  import opened Results
  import opened Strings
  import opened Accounts
  import opened Selectors
  import opened Forms
  import opened Classifier

  /** What the panel does when the task runs against it. `navigation`,
      `typing` and `submitting` hold the message of the error thrown by
      `page.goto`, by clearing or typing into the fields, and by the
      `page.evaluate` call of the submission step, when they throw; `page`
      says which selector lookups find an element and which reject;
      `forms` and `button` describe the page for the submission step;
      `after` is what the classifier observes once the page has settled. */
  datatype Scenario = Scenario(
    navigation: Option<string>,
    page: Page,
    typing: Option<string>,
    submitting: Option<string>,
    forms: seq<Form>,
    button: SubmitButton,
    after: Observation)

  /** How a task ends: the classifier accepted or rejected the login, or a
      step threw and the message was caught. */
  datatype TaskOutcome = LoggedIn | Rejected | Errored(message: string)

  /** Submission finds something to submit. */
  ghost predicate CanSubmit(forms: seq<Form>, button: SubmitButton) {
    (exists j :: 0 <= j < |forms| && IsLoginForm(forms[j]))
    || (button.InForm? && !Occurs(button.form.action, LangPath))
  }

  /** The page loaded and both inputs were found. */
  ghost predicate FieldsFound(sc: Scenario) {
    sc.navigation.None? && Matches(UsernameSelectors, sc.page) && Matches(PasswordSelectors, sc.page)
  }

  /** Every step up to the classification went through. */
  ghost predicate ReachesClassifier(sc: Scenario) {
    FieldsFound(sc) && sc.typing.None? && sc.submitting.None? && CanSubmit(sc.forms, sc.button)
  }

  /** The steps in order; the first one that throws decides the message. */
  function RunTask(sc: Scenario): (o: TaskOutcome)
    ensures o == LoggedIn <==> ReachesClassifier(sc) && CheckLoginSuccess(sc.after)
    ensures o == Rejected <==> ReachesClassifier(sc) && !CheckLoginSuccess(sc.after)
    ensures sc.navigation.Some? ==> o == Errored(sc.navigation.value)
    ensures sc.navigation.None? && !AnySettles(UsernameSelectors, sc.page) ==>
              o == Errored(UsernameNotFound)
    ensures forall i :: sc.navigation.None? && IsFirstRejection(UsernameSelectors, sc.page, i) ==>
              o == Errored(sc.page.failing[UsernameSelectors[i]])
    ensures sc.navigation.None? && Matches(UsernameSelectors, sc.page)
            && !AnySettles(PasswordSelectors, sc.page) ==>
              o == Errored(PasswordNotFound)
    ensures forall j :: sc.navigation.None? && Matches(UsernameSelectors, sc.page)
                        && IsFirstRejection(PasswordSelectors, sc.page, j) ==>
              o == Errored(sc.page.failing[PasswordSelectors[j]])
    ensures FieldsFound(sc) && sc.typing.Some? ==> o == Errored(sc.typing.value)
    ensures FieldsFound(sc) && sc.typing.None? && sc.submitting.Some? ==>
              o == Errored(SubmitErrorPrefix + sc.submitting.value)
    ensures FieldsFound(sc) && sc.typing.None? && sc.submitting.None?
            && !CanSubmit(sc.forms, sc.button) ==>
              o == Errored(SubmitErrorPrefix + NoSubmitPath)
  {
    if sc.navigation.Some? then Errored(sc.navigation.value)
    else
      match ResolveLoginFields(sc.page)
      case Err(m) => Errored(m)
      case Ok(_) =>
        if sc.typing.Some? then Errored(sc.typing.value)
        else if sc.submitting.Some? then Errored(SubmitErrorPrefix + sc.submitting.value)
        else
          match SubmitLogin(sc.forms, sc.button)
          case Err(m) => Errored(m)
          case Ok(_) => if CheckLoginSuccess(sc.after) then LoggedIn else Rejected
  }

  const SucceededText: string := "登录成功"
  const FailedText: string := "登录失败"
  const ErrorInfix: string := "登录时出现错误: "

  /** `账号（<username>）（<server label>）`, shared by every line of the
      account. */
  function Header(a: Account): string {
    "账号（" + a.username + "）（" + ServerName(a) + "）"
  }

  /** The account's line in the report. Whatever the outcome, the line
      starts with the same header, so the server label is the same on the
      success path and on the error path. */
  function ResultLine(a: Account, o: TaskOutcome): (line: string)
    ensures Header(a) <= line
  {
    match o
    case LoggedIn => Header(a) + SucceededText
    case Rejected => Header(a) + FailedText
    case Errored(m) => Header(a) + ErrorInfix + m
  }

  /** Reads the outcome back from an account's line. */
  function DecodeLine(a: Account, line: string): Option<TaskOutcome> {
    var h := Header(a);
    if !(h <= line) then None
    else
      var rest := line[|h|..];
      if rest == SucceededText then Some(LoggedIn)
      else if rest == FailedText then Some(Rejected)
      else if ErrorInfix <= rest then Some(Errored(rest[|ErrorInfix|..]))
      else None
  }

  /** A line determines the outcome it reports. */
  lemma DecodeResultLine(a: Account, o: TaskOutcome)
    ensures DecodeLine(a, ResultLine(a, o)) == Some(o)
  {
  }

  /** The task as a whole: exactly one line, carrying the account's header
      and the outcome of its run. */
  function TaskLine(a: Account, sc: Scenario): (line: string)
    ensures Header(a) <= line
    ensures DecodeLine(a, line) == Some(RunTask(sc))
  {
    DecodeResultLine(a, RunTask(sc));
    ResultLine(a, RunTask(sc))
  }
}
