/** Accounts and what the script derives from them: the panel host, the
    login URL and the server label shown in the report. */
module Accounts {
  import opened Results
  import opened Strings

  /** One entry of the account list. `panelnum` is kept as the text the
      template literal renders; `domain` is absent when the entry has none. */
  datatype Account = Account(username: string, password: string, panelnum: string, domain: Option<string>)

  const PanelPrefix: string := "panel"
  const DefaultDomain: string := "serv00.com"
  /** The one domain whose panel lives on a fixed host without a number. */
  const Ct8Domain: string := "ct8.pl"
  const Ct8Label: string := "ct8"
  const Serv00LabelPrefix: string := "serv00-"
  const Scheme: string := "https://"
  const LoginPath: string := "/login/?next=/"

  /** `domain === "ct8.pl"`: a strict comparison, so only that exact text. */
  predicate IsCt8(a: Account) {
    a.domain == Some(Ct8Domain)
  }

  /** `domain || defaultDomain`: an absent domain and the empty string are
      both falsy and fall back to the default. */
  function EffectiveDomain(domain: Option<string>): (d: string)
    ensures d != ""
    ensures domain.Some? && domain.value != "" ==> d == domain.value
    ensures domain.None? || domain.value == "" ==> d == DefaultDomain
  {
    if domain.Some? && domain.value != "" then domain.value else DefaultDomain
  }

  /** The host name of the account's control panel. */
  function PanelHost(a: Account): string {
    if IsCt8(a) then PanelPrefix + "." + Ct8Domain
    else PanelPrefix + a.panelnum + "." + EffectiveDomain(a.domain)
  }

  /** The page the script navigates to first. */
  function LoginUrl(a: Account): string {
    Scheme + PanelHost(a) + LoginPath
  }

  /** The label shown for the account in the report: `ct8` for the special
      domain and `serv00-<panelnum>` for everything else. */
  function ServerName(a: Account): (name: string)
    ensures name == Ct8Label <==> IsCt8(a)
    ensures !IsCt8(a) ==> Serv00LabelPrefix <= name && name[|Serv00LabelPrefix|..] == a.panelnum
  {
    if IsCt8(a) then Ct8Label
    else
      var name := Serv00LabelPrefix + a.panelnum;
      assert name[0] == 's';
      name
  }

  /** Recovers the host from a login URL, the inverse of `LoginUrl`. */
  function HostOf(url: string): Option<string> {
    if |Scheme| + |LoginPath| <= |url| && Scheme <= url && url[|url| - |LoginPath|..] == LoginPath
    then Some(url[|Scheme|..|url| - |LoginPath|])
    else None
  }

  /** The login URL embeds the panel host recoverably. */
  lemma HostRoundTrip(a: Account)
    ensures HostOf(LoginUrl(a)) == Some(PanelHost(a))
  {
  }

  /** Every account's panel host: `panel.ct8.pl` for the special domain,
      and `panel<panelnum>.<domain or serv00.com>` otherwise. */
  lemma HostShape(a: Account)
    ensures IsCt8(a) ==> PanelHost(a) == "panel.ct8.pl"
    ensures !IsCt8(a) && (a.domain.None? || a.domain == Some("")) ==>
              PanelHost(a) == "panel" + a.panelnum + ".serv00.com"
    ensures !IsCt8(a) && a.domain.Some? && a.domain.value != "" ==>
              PanelHost(a) == "panel" + a.panelnum + "." + a.domain.value
  {
  }

  /** On the special domain the panel number plays no part in the URL. */
  lemma Ct8IgnoresPanelNumber(a: Account, b: Account)
    requires IsCt8(a) && IsCt8(b)
    ensures LoginUrl(a) == LoginUrl(b)
  {
  }

  /** On any one ordinary domain, different panel numbers lead to different
      login URLs. */
  lemma PanelNumberSelectsPanel(a: Account, b: Account)
    requires !IsCt8(a) && !IsCt8(b)
    requires EffectiveDomain(a.domain) == EffectiveDomain(b.domain)
    requires a.panelnum != b.panelnum
    ensures LoginUrl(a) != LoginUrl(b)
  {
    var p, q := a.panelnum, b.panelnum;
    if |p| != |q| {
      assert |LoginUrl(a)| != |LoginUrl(b)|;
    } else {
      var k :| 0 <= k < |p| && p[k] != q[k];
      var at := |Scheme| + |PanelPrefix| + k;
      assert LoginUrl(a)[at] == p[k];
      assert LoginUrl(b)[at] == q[k];
    }
  }

  /** The login URL always contains `login`, so a page still at that URL
      never counts as having navigated away from the login page. */
  lemma LoginUrlMentionsLogin(a: Account)
    ensures Occurs(LoginUrl(a), "login")
    ensures Includes(LoginUrl(a), "login")
  {
    var url := LoginUrl(a);
    var i := |Scheme| + |PanelHost(a)| + 1;
    assert url[i..i + 5] == "login";
    assert OccursAt(url, "login", i);
    IncludesIsOccurs(url, "login");
  }
}
