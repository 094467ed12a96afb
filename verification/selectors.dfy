/** Finding the username and password inputs: each is looked up through an
    ordered list of candidate CSS selectors, and the first one that matches
    something on the page wins. */
module Selectors {
  import opened Results

  type Selector = string

  /** Candidates for the username input, most specific first. */
  const UsernameSelectors: seq<Selector> := [
    "#id_username",
    "#id_login",
    "input[name=\"login\"]",
    "input[name=\"username\"]",
    "input[type=\"text\"]"
  ]

  /** Candidates for the password input, most specific first. */
  const PasswordSelectors: seq<Selector> := [
    "#id_password",
    "input[name=\"password\"]",
    "input[type=\"password\"]"
  ]

  const UsernameNotFound: string := "无法找到用户名输入框"
  const PasswordNotFound: string := "无法找到密码输入框"

  /** The index of the first element satisfying `p`, scanning left to
      right and stopping at the first hit. */
  function FirstIndex<T>(xs: seq<T>, p: T -> bool): (r: Option<nat>)
    ensures r.Some? ==> r.value < |xs| && p(xs[r.value])
    ensures r.Some? ==> forall j :: 0 <= j < r.value ==> !p(xs[j])
    ensures r.None? ==> forall j :: 0 <= j < |xs| ==> !p(xs[j])
    decreases |xs|
  {
    if |xs| == 0 then None
    else if p(xs[0]) then Some(0)
    else
      match FirstIndex(xs[1..], p)
      case None =>
        assert forall j :: 1 <= j < |xs| ==> xs[j] == xs[1..][j - 1];
        None
      case Some(i) =>
        assert forall j :: 1 <= j <= i ==> xs[j] == xs[1..][j - 1];
        Some(i + 1)
  }

  /** The login page as `page.$` sees it: the selectors that find an
      element, and the selectors whose lookup rejects, with the message of
      the rejection. */
  datatype Page = Page(matching: set<Selector>, failing: map<Selector, string>)

  /** The lookup of `s` ends the search: it rejects, or it finds an
      element. */
  predicate Settles(page: Page, s: Selector) {
    s in page.failing || s in page.matching
  }

  /** The result of probing a candidate list. */
  datatype Lookup = Found(selector: Selector) | NotFound | LookupFailed(message: string)

  /** `i` is the position of the first candidate that finds an element,
      and no earlier lookup found an element or rejected. */
  ghost predicate IsFirstMatch(candidates: seq<Selector>, page: Page, i: int) {
    0 <= i < |candidates| && candidates[i] in page.matching && candidates[i] !in page.failing
    && forall j :: 0 <= j < i ==> !Settles(page, candidates[j])
  }

  /** `i` is the position of a lookup that rejects before any earlier
      lookup found an element or rejected. */
  ghost predicate IsFirstRejection(candidates: seq<Selector>, page: Page, i: int) {
    0 <= i < |candidates| && candidates[i] in page.failing
    && forall j :: 0 <= j < i ==> !Settles(page, candidates[j])
  }

  /** Some candidate is the first match. */
  ghost predicate Matches(candidates: seq<Selector>, page: Page) {
    exists i :: IsFirstMatch(candidates, page, i)
  }

  /** Some candidate's lookup ends the search. */
  ghost predicate AnySettles(candidates: seq<Selector>, page: Page) {
    exists i :: 0 <= i < |candidates| && Settles(page, candidates[i])
  }

  /** Probes the candidates in declared order and stops at the first
      lookup that finds an element or rejects; `NotFound` when every lookup
      comes back empty. */
  function Resolve(candidates: seq<Selector>, page: Page): (r: Lookup)
    ensures r.Found? <==> Matches(candidates, page)
    ensures r.Found? ==> exists i :: IsFirstMatch(candidates, page, i) && candidates[i] == r.selector
    ensures r.LookupFailed? <==> exists i :: IsFirstRejection(candidates, page, i)
    ensures r.LookupFailed? ==>
              exists i :: IsFirstRejection(candidates, page, i) && page.failing[candidates[i]] == r.message
    ensures r.NotFound? <==> !AnySettles(candidates, page)
  {
    match FirstIndex(candidates, s => Settles(page, s))
    case None => NotFound
    case Some(i) =>
      if candidates[i] in page.failing then
        assert IsFirstRejection(candidates, page, i);
        LookupFailed(page.failing[candidates[i]])
      else
        assert IsFirstMatch(candidates, page, i);
        Found(candidates[i])
  }

  /** The first match is unique: once a candidate matches, no later
      candidate can be the first match. */
  lemma FirstMatchUnique(candidates: seq<Selector>, page: Page, i: int, j: int)
    requires IsFirstMatch(candidates, page, i) && IsFirstMatch(candidates, page, j)
    ensures i == j
  {
  }

  /** A candidate at position `i` that finds an element means the search
      stops at `i` or earlier: no later candidate is chosen. */
  lemma EarlierCandidateWins(candidates: seq<Selector>, page: Page, i: nat)
    requires i < |candidates| && candidates[i] in page.matching
    ensures !Resolve(candidates, page).NotFound?
    ensures Resolve(candidates, page).Found? ==>
              exists k :: 0 <= k <= i && IsFirstMatch(candidates, page, k)
                          && candidates[k] == Resolve(candidates, page).selector
  {
  }

  /** The two inputs the login form is filled through. */
  datatype LoginFields = LoginFields(username: Selector, password: Selector)

  /** Resolves the username input, then the password input. A rejected
      lookup passes its message on; a list that finds nothing raises its own
      message; the password list is not probed once the username search
      failed. */
  function ResolveLoginFields(page: Page): (r: Result<LoginFields>)
    ensures !AnySettles(UsernameSelectors, page) ==> r == Err(UsernameNotFound)
    ensures forall i :: IsFirstRejection(UsernameSelectors, page, i) ==>
              r == Err(page.failing[UsernameSelectors[i]])
    ensures Matches(UsernameSelectors, page) && !AnySettles(PasswordSelectors, page) ==>
              r == Err(PasswordNotFound)
    ensures forall j :: Matches(UsernameSelectors, page) && IsFirstRejection(PasswordSelectors, page, j) ==>
              r == Err(page.failing[PasswordSelectors[j]])
    ensures r.Ok? <==> Matches(UsernameSelectors, page) && Matches(PasswordSelectors, page)
    ensures r.Ok? ==> exists i :: IsFirstMatch(UsernameSelectors, page, i)
                                  && UsernameSelectors[i] == r.value.username
    ensures r.Ok? ==> exists i :: IsFirstMatch(PasswordSelectors, page, i)
                                  && PasswordSelectors[i] == r.value.password
  {
    match Resolve(UsernameSelectors, page)
    case NotFound => Err(UsernameNotFound)
    case LookupFailed(m) => Err(m)
    case Found(user) =>
      match Resolve(PasswordSelectors, page)
      case NotFound => Err(PasswordNotFound)
      case LookupFailed(m) => Err(m)
      case Found(pass) => Ok(LoginFields(user, pass))
  }
}
