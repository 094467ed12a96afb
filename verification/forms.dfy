/** Submitting the login form without submitting the language-switch form
    that shares the page with it. */
module Forms {
  import opened Results
  import opened Strings
  import opened Selectors

  /** A `<form>` on the page: its resolved `action` URL, the value of its
      `data-language-form` attribute (absent when the attribute is not
      set), and the selectors that find an element inside it. */
  datatype Form = Form(action: string, languageAttr: Option<string>, fields: set<Selector>)

  /** The first `button[type="submit"]` on the page, if any, and the form
      that encloses it. */
  datatype SubmitButton = NoButton | OutsideForm | InForm(form: Form)

  /** How the credentials are sent: `submit()` on the form at `index`, or a
      click on the first submit button. */
  datatype Submission = SubmitForm(index: nat) | ClickButton

  /** The inputs that mark a form as holding a username field. This list is
      narrower than `UsernameSelectors`. */
  const FormUsernameSelectors: seq<Selector> := [
    "input[name=\"login\"]",
    "input[name=\"username\"]",
    "#id_username"
  ]

  const LangPath: string := "/lang/"
  const SubmitErrorPrefix: string := "无法提交登录表单: "
  const NoSubmitPath: string := "找不到登录表单或登录按钮"

  /** JavaScript truthiness of `getAttribute`'s result: `null` and the
      empty string are falsy. */
  predicate Truthy(attr: Option<string>) {
    attr.Some? && attr.value != ""
  }

  /** A form skipped during the search: its action goes through `/lang/`,
      or it carries a non-empty `data-language-form` attribute. */
  predicate IsLanguageForm(f: Form) {
    Includes(f.action, LangPath) || Truthy(f.languageAttr)
  }

  predicate HoldsUsernameInput(f: Form) {
    exists i :: 0 <= i < |FormUsernameSelectors| && FormUsernameSelectors[i] in f.fields
  }

  /** A form the search accepts. */
  predicate IsLoginForm(f: Form) {
    !IsLanguageForm(f) && HoldsUsernameInput(f)
  }

  /** The fallback button is used only when it sits inside a form whose
      action does not go through `/lang/`. */
  predicate ButtonUsable(b: SubmitButton) {
    b.InForm? && !Includes(b.form.action, LangPath)
  }

  /** The first form, in document order, that is not a language form and
      holds a username input. */
  function ChooseLoginForm(forms: seq<Form>): (r: Option<nat>)
    ensures r.Some? ==> r.value < |forms|
    ensures r.Some? ==> !Occurs(forms[r.value].action, LangPath)
                        && !Truthy(forms[r.value].languageAttr)
                        && HoldsUsernameInput(forms[r.value])
    ensures r.Some? ==> forall j :: 0 <= j < r.value ==> !IsLoginForm(forms[j])
    ensures r.None? ==> forall j :: 0 <= j < |forms| ==> !IsLoginForm(forms[j])
  {
    var r := FirstIndex(forms, IsLoginForm);
    if r.Some? then IncludesIsOccurs(forms[r.value].action, LangPath); r else r
  }

  /** Submits the chosen login form; failing that, clicks the first submit
      button if its form is usable; failing that, the error thrown inside the
      page comes back with the prefix that the surrounding `catch` adds. */
  function SubmitLogin(forms: seq<Form>, button: SubmitButton): (r: Result<Submission>)
    ensures r.Ok? && r.value.SubmitForm? ==>
              r.value.index < |forms| && IsLoginForm(forms[r.value.index])
              && forall j :: 0 <= j < r.value.index ==> !IsLoginForm(forms[j])
    ensures r == Ok(ClickButton) <==>
              (forall j :: 0 <= j < |forms| ==> !IsLoginForm(forms[j]))
              && button.InForm? && !Occurs(button.form.action, LangPath)
    ensures r.Err? <==>
              (forall j :: 0 <= j < |forms| ==> !IsLoginForm(forms[j]))
              && !(button.InForm? && !Occurs(button.form.action, LangPath))
    ensures r.Err? ==> r.message == SubmitErrorPrefix + NoSubmitPath
  {
    match ChooseLoginForm(forms)
    case Some(i) =>
      Ok(SubmitForm(i))
    case None =>
      if button.InForm? then IncludesIsOccurs(button.form.action, LangPath); Fallback(button)
      else Fallback(button)
  }

  /** The fallback branch on its own. */
  function Fallback(button: SubmitButton): Result<Submission> {
    if ButtonUsable(button) then Ok(ClickButton) else Err(SubmitErrorPrefix + NoSubmitPath)
  }

  /** Whatever is submitted, it is never a form whose action goes through
      `/lang/`, and a submitted form never carries a non-empty
      `data-language-form` attribute. */
  lemma NeverSubmitsLanguageSwitch(forms: seq<Form>, button: SubmitButton)
    ensures SubmitLogin(forms, button) == Ok(ClickButton) ==>
              button.InForm? && !Occurs(button.form.action, LangPath)
    ensures SubmitLogin(forms, button).Ok? && SubmitLogin(forms, button).value.SubmitForm? ==>
              var f := forms[SubmitLogin(forms, button).value.index];
              !Occurs(f.action, LangPath) && !Truthy(f.languageAttr)
  {
  }

  /** The fallback looks only at the action: on a page without a login
      form, a button inside a form marked `data-language-form` is still
      clicked when that form's action avoids `/lang/`. */
  lemma FallbackIgnoresLanguageAttribute(forms: seq<Form>, f: Form)
    requires Truthy(f.languageAttr) && !Occurs(f.action, LangPath)
    requires forall j :: 0 <= j < |forms| ==> !IsLoginForm(forms[j])
    ensures IsLanguageForm(f)
    ensures SubmitLogin(forms, InForm(f)) == Ok(ClickButton)
  {
  }
}
