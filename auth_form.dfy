/** components/auth-form.tsx: registering a vault and unlocking it.

    On submit the form validates the master password (the only schema rule is a
    minimum length of 8), then, in register mode, that the confirmation matches. On
    success it writes the auth cookie `encrypt("authenticated", pw)`, keeps `pw` in
    `sessionStorage` and, when registering, stores an encrypted empty vault. Logging
    in checks nothing against the existing auth token: any long-enough password is
    accepted and overwrites the token. */
module AuthForm {
  import opened Common
  import opened Text
  import opened Storage
  import opened Encryption

  datatype Tab = Login | Register

  const TooShort: string := "Master password must be at least 8 characters"
  const Mismatch: string := "Passwords do not match"
  const Created: string := "Vault created successfully!"
  const Unlocked: string := "Vault unlocked successfully!"

  /** `JSON.stringify([])` */
  const EmptyListJson: string := "[]"

  /** The schema's verdict on `{ masterPassword, confirmPassword }`: only the
      master password's length is constrained, counted as zod counts it, in UTF-16
      code units. */
  function SchemaError(master: string, confirm: string): Option<string> {
    if Utf16Length(master) < 8 then Some(TooShort) else None
  }

  /** The error `handleSubmit` reports, if any: the length rule first, then (when
      registering) the confirmation. */
  function Validate(tab: Tab, master: string, confirm: string): (err: Option<string>)
    ensures Utf16Length(master) < 8 ==> err == Some(TooShort)
    ensures Utf16Length(master) >= 8 ==> (err.Some? <==> tab == Register && master != confirm)
    ensures Utf16Length(master) >= 8 && err.Some? ==> err == Some(Mismatch)
    ensures tab == Login ==> (err.None? <==> Utf16Length(master) >= 8)
  {
    var schema := SchemaError(master, if tab == Register then confirm else master);
    if schema.Some? then schema
    else if tab == Register && master != confirm then Some(Mismatch)
    else None
  }

  /** The success message left for the dashboard. */
  function SuccessMessage(tab: Tab): string {
    if tab == Register then Created else Unlocked
  }

  class AuthForm {
    var activeTab: Tab
    var masterPassword: string
    var confirmPassword: string
    var error: string
    var isLoading: bool
    const browser: Browser
    const cipher: Cipher

    constructor (browser: Browser, cipher: Cipher)
      ensures this.browser == browser && this.cipher == cipher
      ensures activeTab == Login && masterPassword == "" && confirmPassword == ""
      ensures error == "" && !isLoading
    {
      this.browser := browser;
      this.cipher := cipher;
      activeTab := Login;
      masterPassword := "";
      confirmPassword := "";
      error := "";
      isLoading := false;
    }

    /** The inputs: the selected tab and the two password fields. */
    method Fill(tab: Tab, master: string, confirm: string)
      modifies this`activeTab, this`masterPassword, this`confirmPassword
      ensures activeTab == tab && masterPassword == master && confirmPassword == confirm
    {
      activeTab, masterPassword, confirmPassword := tab, master, confirm;
    }

    /** The mount effect: an `auth_error` left by the authentication gate is shown
        once and removed. */
    method ShowPendingError() returns (shown: Option<string>)
      modifies browser`session
      ensures shown == if Truthy(Get(old(browser.session), AuthErrorKey)) then Get(old(browser.session), AuthErrorKey) else None
      ensures browser.session == if shown.Some? then old(browser.session) - {AuthErrorKey} else old(browser.session)
    {
      var authError := Get(browser.session, AuthErrorKey);
      if Truthy(authError) {
        browser.session := browser.session - {AuthErrorKey};
        return authError;
      }
      return None;
    }

    /** `handleSubmit` */
    method HandleSubmit()
      modifies this`error, this`isLoading, browser`cookies, browser`session, browser`local
      ensures var err := Validate(activeTab, masterPassword, confirmPassword);
        && error == (if err.Some? then err.value else "")
        && isLoading == err.None?
        && (err.Some? ==> browser.cookies == old(browser.cookies) && browser.session == old(browser.session)
                          && browser.local == old(browser.local))
        && (err.None? ==>
              && browser.cookies == Upsert(old(browser.cookies), Cookie(AuthToken, cipher.encrypt(Sentinel, masterPassword)))
              && browser.session == old(browser.session)[MasterKey := masterPassword][AuthSuccessKey := SuccessMessage(activeTab)]
              && browser.local == if activeTab == Register
                                  then old(browser.local)[VaultKey := cipher.encrypt(EmptyListJson, masterPassword)]
                                  else old(browser.local))
    {
      error := "";
      isLoading := true;
      var result := SchemaError(masterPassword, if activeTab == Register then confirmPassword else masterPassword);
      if result.Some? {
        error := result.value;
        isLoading := false;
        return;
      }
      if activeTab == Register && masterPassword != confirmPassword {
        error := Mismatch;
        isLoading := false;
        return;
      }
      var authToken := cipher.encrypt(Sentinel, masterPassword);
      browser.SetCookie(AuthToken, authToken);
      browser.session := browser.session[MasterKey := masterPassword];
      if activeTab == Register {
        var emptyVault := cipher.encrypt(EmptyListJson, masterPassword);
        browser.local := browser.local[VaultKey := emptyVault];
        browser.session := browser.session[AuthSuccessKey := Created];
      } else {
        browser.session := browser.session[AuthSuccessKey := Unlocked];
      }
    }
  }

  /** Logging in never consults the stored token: every password of 8 or more
      UTF-16 code units is accepted, whatever the confirmation field holds, and the token it
      writes replaces the old one, so the cookie now unlocks with the new password
      only. */
  lemma LoginReplacesToken(c: Cipher, jar: seq<Cookie>, previous: string, pw: string, confirm: string)
    requires DecryptsOwn(c) && SentinelBindsKey(c) && IgnoresPadding(c)
    requires Utf16Length(pw) >= 8 && previous != pw
    requires JarValid(jar) && Lookup(jar, AuthToken) == Some(c.encrypt(Sentinel, previous))
    requires WellFormed(Cookie(AuthToken, c.encrypt(Sentinel, pw)))
    requires c.encrypt(Sentinel, pw) != "" && c.encrypt(Sentinel, pw)[0] != '='
    ensures Validate(Login, pw, confirm) == None
    ensures var after := Render(Upsert(jar, Cookie(AuthToken, c.encrypt(Sentinel, pw))));
      && MasterPassword(c, map[], after, Some(pw)) == Some(pw)
      && MasterPassword(c, map[], after, Some(previous)) == None
  {
    UnlockWithToken(c, jar, map[], pw, pw);
    if previous != "" {
      UnlockWithToken(c, jar, map[], pw, previous);
    }
  }
}
