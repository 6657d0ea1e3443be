/** lib/encryption.ts: the cipher wrappers and `getMasterPassword`.

    `encryptData`/`decryptData` wrap CryptoJS AES, a library outside this model: the
    cipher is a parameter, a pair of functions, and what the vault needs of it is
    stated as hypotheses of the lemmas that use it. `decrypt` yields `None` where
    `decryptData` throws. */
module Encryption {
  import opened Common
  import opened Text
  import opened Storage

  datatype Cipher = Cipher(encrypt: (string, string) -> string, decrypt: (string, string) -> Option<string>)

  /** The constant the auth token encrypts. */
  const Sentinel: string := "authenticated"

  /** Decrypting with the key used to encrypt gives the plaintext back. */
  ghost predicate DecryptsOwn(c: Cipher) {
    forall data, key :: c.decrypt(c.encrypt(data, key), key) == Some(data)
  }

  /** A token made under one key never decrypts to the sentinel under another. */
  ghost predicate SentinelBindsKey(c: Cipher) {
    forall k1, k2 :: k1 != k2 ==> c.decrypt(c.encrypt(Sentinel, k1), k2) != Some(Sentinel)
  }

  /** Decryption parses the token's Base64, which stops at the first `=`, the start
      of the padding: a token cut at its first `=` decrypts as the whole token does. */
  ghost predicate IgnoresPadding(c: Cipher) {
    forall t, k :: c.decrypt(Split(t, '=')[0], k) == c.decrypt(t, k)
  }

  /** What `getMasterPassword` returns, given what it reads: `sessionStorage`, the
      cookie string and the answer typed at the prompt (`None` when cancelled). */
  function MasterPassword(c: Cipher, session: map<string, string>, doc: string, answer: Option<string>): (r: Option<string>)
    ensures Truthy(Get(session, MasterKey)) ==> r == Some(session[MasterKey])
    ensures !Truthy(Get(session, MasterKey)) && AuthCookie(doc).None? ==> r == None
    ensures !Truthy(Get(session, MasterKey)) && !Truthy(TokenFromDoc(doc)) ==> r == None
    ensures !Truthy(Get(session, MasterKey)) && !Truthy(answer) ==> r == None
    ensures !Truthy(Get(session, MasterKey)) ==>
      (r.Some? <==> Truthy(TokenFromDoc(doc)) && Truthy(answer)
                    && c.decrypt(TokenFromDoc(doc).value, answer.value) == Some(Sentinel))
    ensures !Truthy(Get(session, MasterKey)) && r.Some? ==> r == answer
    ensures r.Some? ==> r.value != ""
  {
    var cached := Get(session, MasterKey);
    if Truthy(cached) then cached
    else
      match AuthCookie(doc)
      case None => None
      case Some(piece) =>
        var token := TokenOf(piece);
        if !Truthy(token) then None
        else if !Truthy(answer) then None
        else if c.decrypt(token.value, answer.value) == Some(Sentinel) then answer
        else None
  }

  /** `getMasterPassword`: the session copy when there is one; otherwise prompt for
      the password, check it against the auth token and, when it decrypts the token
      to the sentinel, keep it in `sessionStorage` for the rest of the session. */
  method GetMasterPassword(b: Browser, c: Cipher, answer: Option<string>) returns (r: Option<string>)
    modifies b`session
    ensures r == MasterPassword(c, old(b.session), b.CookieString(), answer)
    ensures b.session == if r.Some? then old(b.session)[MasterKey := r.value] else old(b.session)
    ensures Truthy(Get(old(b.session), MasterKey)) ==> b.session == old(b.session)
  {
    var masterPassword := Get(b.session, MasterKey);
    if Truthy(masterPassword) {
      return masterPassword;
    }
    var authCookie := AuthCookie(b.CookieString());
    if authCookie.None? {
      return None;
    }
    var authToken := TokenOf(authCookie.value);
    if !Truthy(authToken) {
      return None;
    }
    if !Truthy(answer) {
      return None;
    }
    var decrypted := c.decrypt(authToken.value, answer.value);
    if decrypted == Some(Sentinel) {
      b.session := b.session[MasterKey := answer.value];
      return answer;
    }
    return None;
  }

  /** The unlock round trip: with an auth cookie written as `encrypt("authenticated",
      pw)` and no cached copy, answering `pw` at the prompt unlocks, and any other
      answer is refused when the cipher binds the token to its key. The cookie string
      hands over the token cut at its first `=`, which decrypts alike; a Base64 token
      is never empty and never begins with `=`. */
  lemma UnlockWithToken(c: Cipher, jar: seq<Cookie>, session: map<string, string>, pw: string, answer: string)
    requires DecryptsOwn(c) && SentinelBindsKey(c) && IgnoresPadding(c)
    requires JarValid(jar) && WellFormed(Cookie(AuthToken, c.encrypt(Sentinel, pw)))
    requires c.encrypt(Sentinel, pw) != "" && c.encrypt(Sentinel, pw)[0] != '='
    requires !Truthy(Get(session, MasterKey))
    requires answer != ""
    ensures MasterPassword(c, session, Render(Upsert(jar, Cookie(AuthToken, c.encrypt(Sentinel, pw)))), Some(answer))
      == if answer == pw then Some(pw) else None
  {
    var token := c.encrypt(Sentinel, pw);
    TokenRoundTrip(jar, token);
    SplitFirstNonEmpty(token, '=');
    var cut := Split(token, '=')[0];
    assert TokenFromDoc(Render(Upsert(jar, Cookie(AuthToken, token)))) == Some(cut);
    assert c.decrypt(cut, answer) == c.decrypt(token, answer);
  }
}
