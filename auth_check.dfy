/** components/auth-check.tsx: the gate in front of the vault. It shows a spinner
    until its effect has run, then the dashboard when the auth cookie is present and
    the session still holds the master password, and the login form otherwise. A
    cookie without a session copy of the password is an expired session: the gate
    clears the cookie and leaves a message for the form. */
module AuthCheck {
  import opened Common
  import opened Storage
  import opened Encryption

  const SessionExpired: string := "Session expired. Please log in again."

  /** The three outcomes of the gate's effect. */
  datatype Decision = NoCookie | Expired | Unlocked

  /** The gate's decision from the cookie string and `sessionStorage`. */
  function Gate(doc: string, session: map<string, string>): (d: Decision)
    ensures d == NoCookie <==> !HasAuthCookie(doc)
    ensures d == Unlocked <==> HasAuthCookie(doc) && Truthy(Get(session, MasterKey))
  {
    if !HasAuthCookie(doc) then NoCookie
    else if !Truthy(Get(session, MasterKey)) then Expired
    else Unlocked
  }

  datatype View = Spinner | Dashboard | Form

  /** What the gate renders for `isAuthenticated`. */
  function ViewOf(isAuthenticated: Option<bool>): (v: View)
    ensures v == Spinner <==> isAuthenticated.None?
    ensures v == Dashboard <==> isAuthenticated == Some(true)
  {
    match isAuthenticated
    case None => Spinner
    case Some(b) => if b then Dashboard else Form
  }

  class AuthCheck {
    var isAuthenticated: Option<bool>
    const browser: Browser

    constructor (browser: Browser)
      ensures this.browser == browser && isAuthenticated == None
    {
      this.browser := browser;
      isAuthenticated := None;
    }

    /** The mount effect. */
    method CheckSession()
      modifies this`isAuthenticated, browser`cookies, browser`session
      ensures var d := Gate(Render(old(browser.cookies)), old(browser.session));
        && isAuthenticated == Some(d == Unlocked)
        && browser.cookies == (if d == Expired then Expire(old(browser.cookies), AuthToken) else old(browser.cookies))
        && browser.session == (if d == Expired then old(browser.session)[AuthErrorKey := SessionExpired] else old(browser.session))
    {
      var hasCookie := HasAuthCookie(browser.CookieString());
      if !hasCookie {
        isAuthenticated := Some(false);
        return;
      }
      var masterPassword := Get(browser.session, MasterKey);
      if !Truthy(masterPassword) {
        browser.ExpireCookie(AuthToken);
        browser.session := browser.session[AuthErrorKey := SessionExpired];
        isAuthenticated := Some(false);
        return;
      }
      isAuthenticated := Some(true);
    }
  }

  /** An expired session settles: once the gate has cleared the cookie, running it
      again finds no cookie and writes nothing. */
  lemma ExpiredSettles(jar: seq<Cookie>, session: map<string, string>)
    requires JarValid(jar)
    requires Gate(Render(jar), session) == Expired
    ensures Gate(Render(Expire(jar, AuthToken)), session[AuthErrorKey := SessionExpired]) == NoCookie
  {
    ExpiredIsGone(jar);
  }

  /** Past the gate, `getMasterPassword`, whenever it is called, returns the session
      copy without prompting, whatever the prompt would have answered. */
  lemma UnlockedNeedsNoPrompt(c: Cipher, doc: string, session: map<string, string>, answer: Option<string>)
    requires Gate(doc, session) == Unlocked
    ensures MasterPassword(c, session, doc, answer) == Some(session[MasterKey])
  {
  }

  /** Without the auth cookie the unlock path also gives up: the gate and
      `getMasterPassword` read the cookie string the same way. */
  lemma NoCookieNoPassword(c: Cipher, doc: string, session: map<string, string>, answer: Option<string>)
    requires Gate(doc, session) == NoCookie && !Truthy(Get(session, MasterKey))
    ensures MasterPassword(c, session, doc, answer) == None
  {
    HasAuthCookieFinds(doc);
  }
}
