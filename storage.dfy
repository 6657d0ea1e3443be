/** The three browser stores the vault keeps its state in: the cookie jar behind
    `document.cookie`, `sessionStorage` and `localStorage`. Web Storage areas are maps
    from keys to strings; the jar is the ordered list of cookies, which a script reads
    as one string `name=value; name=value` and which it writes one cookie at a time. */
module Storage {
  import opened Common
  import opened Text

  const AuthToken: string := "auth_token"
  const MasterKey: string := "master_password"
  const AuthErrorKey: string := "auth_error"
  const AuthSuccessKey: string := "auth_success"
  const VaultKey: string := "password_vault"

  datatype Cookie = Cookie(name: string, value: string)

  /** A cookie as the browser keeps it: a non-empty name without `;`, `=` or
      whitespace, and a value without `;` or whitespace. */
  predicate WellFormed(c: Cookie) {
    && |c.name| > 0
    && (forall i :: 0 <= i < |c.name| ==> c.name[i] != ';' && c.name[i] != '=' && !IsSpace(c.name[i]))
    && (forall i :: 0 <= i < |c.value| ==> c.value[i] != ';' && !IsSpace(c.value[i]))
  }

  predicate JarValid(jar: seq<Cookie>) {
    forall i :: 0 <= i < |jar| ==> WellFormed(jar[i])
  }

  function Pair(c: Cookie): string {
    c.name + "=" + c.value
  }

  /** `document.cookie` as a script reads it. */
  function Render(jar: seq<Cookie>): string
    decreases |jar|
  {
    if |jar| == 0 then ""
    else if |jar| == 1 then Pair(jar[0])
    else Pair(jar[0]) + "; " + Render(jar[1..])
  }

  /** The value of the first cookie with the given name. */
  function Lookup(jar: seq<Cookie>, name: string): (r: Option<string>)
    ensures r.None? <==> forall i :: 0 <= i < |jar| ==> jar[i].name != name
    decreases |jar|
  {
    if |jar| == 0 then None
    else if jar[0].name == name then Some(jar[0].value)
    else Lookup(jar[1..], name)
  }

  /** `document.cookie = "name=value; ..."`: replaces the cookie of that name where
      it stands, or adds it at the end. */
  function Upsert(jar: seq<Cookie>, c: Cookie): (r: seq<Cookie>)
    decreases |jar|
  {
    if |jar| == 0 then [c]
    else if jar[0].name == c.name then [c] + jar[1..]
    else [jar[0]] + Upsert(jar[1..], c)
  }

  /** `document.cookie = "name=; path=/; max-age=0"`: removes the cookie. */
  function Expire(jar: seq<Cookie>, name: string): (r: seq<Cookie>)
    decreases |jar|
  {
    if |jar| == 0 then []
    else if jar[0].name == name then Expire(jar[1..], name)
    else [jar[0]] + Expire(jar[1..], name)
  }

  /** Writing a cookie makes it the one read back, keeps the jar valid and leaves
      every other cookie as it was. */
  lemma {:induction false} UpsertLookup(jar: seq<Cookie>, c: Cookie, name: string)
    ensures Lookup(Upsert(jar, c), name) == if name == c.name then Some(c.value) else Lookup(jar, name)
    ensures JarValid(jar) && WellFormed(c) ==> JarValid(Upsert(jar, c))
    decreases |jar|
  {
    if |jar| > 0 && jar[0].name != c.name {
      UpsertLookup(jar[1..], c, name);
      var r := Upsert(jar[1..], c);
      assert Upsert(jar, c) == [jar[0]] + r;
      assert ([jar[0]] + r)[1..] == r;
      if JarValid(jar) && WellFormed(c) {
        assert JarValid(jar[1..]);
      }
    } else if |jar| > 0 {
      assert Upsert(jar, c)[1..] == jar[1..];
    }
  }

  /** Expiring a cookie removes it and nothing else. */
  lemma {:induction false} ExpireLookup(jar: seq<Cookie>, gone: string, name: string)
    ensures Lookup(Expire(jar, gone), name) == if name == gone then None else Lookup(jar, name)
    ensures JarValid(jar) ==> JarValid(Expire(jar, gone))
    decreases |jar|
  {
    if |jar| > 0 {
      ExpireLookup(jar[1..], gone, name);
      var r := Expire(jar[1..], gone);
      if jar[0].name != gone {
        assert Expire(jar, gone) == [jar[0]] + r;
        assert ([jar[0]] + r)[1..] == r;
      }
      if JarValid(jar) {
        assert JarValid(jar[1..]);
      }
    }
  }

  // ---------------------------------------------------------------------------
  // Reading the auth cookie back from the cookie string

  /** `cookie.trim().startsWith("auth_token=")` */
  predicate IsAuthPiece(piece: string) {
    StartsWith(Trim(piece), AuthToken + "=")
  }

  /** `pieces.find(...)`: the first piece that is the auth cookie. */
  function FindAuth(pieces: seq<string>): (r: Option<string>)
    ensures r.None? <==> forall k :: 0 <= k < |pieces| ==> !IsAuthPiece(pieces[k])
    ensures r.Some? ==> exists k :: 0 <= k < |pieces| && r.value == pieces[k] && IsAuthPiece(pieces[k])
    decreases |pieces|
  {
    if |pieces| == 0 then None
    else if IsAuthPiece(pieces[0]) then Some(pieces[0])
    else
      var r := FindAuth(pieces[1..]);
      assert forall k :: 1 <= k < |pieces| ==> pieces[1..][k - 1] == pieces[k];
      r
  }

  /** `document.cookie.split(";").find((c) => c.trim().startsWith("auth_token="))` */
  function AuthCookie(doc: string): Option<string> {
    FindAuth(Split(doc, ';'))
  }

  /** `document.cookie.split(";").some(...)`, the test the authentication gate uses. */
  predicate HasAuthCookie(doc: string) {
    var pieces := Split(doc, ';');
    exists k :: 0 <= k < |pieces| && IsAuthPiece(pieces[k])
  }

  /** The gate's `some` and the unlock path's `find` agree. */
  lemma HasAuthCookieFinds(doc: string)
    ensures HasAuthCookie(doc) <==> AuthCookie(doc).Some?
  {
  }

  /** `authCookie.split("=")[1]`: undefined when the piece has no `=`. */
  function TokenOf(piece: string): (r: Option<string>)
    ensures r.Some? ==> '=' !in r.value
  {
    var parts := Split(piece, '=');
    if |parts| > 1 then Some(parts[1]) else None
  }

  /** The token the unlock path extracts from the cookie string, if any. */
  function TokenFromDoc(doc: string): Option<string> {
    match AuthCookie(doc)
    case None => None
    case Some(piece) => TokenOf(piece)
  }

  /** The `k`-th piece of the rendered jar after `split(";")`. */
  function Piece(jar: seq<Cookie>, k: nat): string
    requires k < |jar|
  {
    (if k == 0 then "" else " ") + Pair(jar[k])
  }

  /** A well-formed cookie's `name=value` holds no `;` and neither starts nor ends
      with whitespace. */
  lemma PairShape(c: Cookie)
    requires WellFormed(c)
    ensures ';' !in Pair(c)
    ensures |Pair(c)| > 0 && !IsSpace(Pair(c)[0]) && !IsSpace(Pair(c)[|Pair(c)| - 1])
  {
    var x := Pair(c);
    forall i | 0 <= i < |x|
      ensures x[i] != ';'
    {
      if i < |c.name| { assert x[i] == c.name[i]; }
      else if i > |c.name| { assert x[i] == c.value[i - |c.name| - 1]; }
    }
    assert x[0] == c.name[0];
    if |c.value| > 0 {
      assert x[|x| - 1] == c.value[|c.value| - 1];
    } else {
      assert x[|x| - 1] == '=';
    }
  }

  /** Splitting the rendered jar at `;` gives one piece per cookie, each but the
      first behind the space of the `"; "` separator. */
  lemma {:induction false} RenderSplit(jar: seq<Cookie>)
    requires JarValid(jar) && |jar| > 0
    ensures |Split(Render(jar), ';')| == |jar|
    ensures forall k :: 0 <= k < |jar| ==> Split(Render(jar), ';')[k] == Piece(jar, k)
    decreases |jar|
  {
    var c := jar[0];
    PairShape(c);
    SplitNoSep(Pair(c), ';');
    if |jar| > 1 {
      var rest := jar[1..];
      assert JarValid(rest);
      RenderSplit(rest);
      var x := Render(rest);
      SplitBehind(Pair(c), x);
      var sx := Split(x, ';');
      var parts := Split(Render(jar), ';');
      forall k | 0 <= k < |jar|
        ensures parts[k] == Piece(jar, k)
      {
        if k >= 1 {
          assert rest[k - 1] == jar[k];
          if k >= 2 {
            assert parts[k] == sx[k - 1] == Piece(rest, k - 1);
          }
        }
      }
    }
  }

  /** Splitting `a; x` where `a` holds no `;`. */
  lemma SplitBehind(a: string, x: string)
    requires ';' !in a
    ensures Split(a + "; " + x, ';') == [a] + ([" " + Split(x, ';')[0]] + Split(x, ';')[1..])
  {
    assert a + "; " + x == a + [';'] + (" " + x);
    SplitConcat(a, " " + x, ';');
    SplitNoSep(a, ';');
    assert (" " + x)[1..] == x;
  }

  /** A piece of the rendered jar is the auth cookie exactly when its name is
      `auth_token`. */
  lemma AuthPieceIff(c: Cookie, lead: string)
    requires WellFormed(c)
    requires lead == "" || lead == " "
    ensures IsAuthPiece(lead + Pair(c)) <==> c.name == AuthToken
  {
    PairTrims(c, lead);
    PairStartsIff(c);
  }

  lemma PairTrims(c: Cookie, lead: string)
    requires WellFormed(c)
    requires lead == "" || lead == " "
    ensures Trim(lead + Pair(c)) == Pair(c)
  {
    PairShape(c);
    TrimSpaced(Pair(c));
    if lead == "" {
      assert lead + Pair(c) == Pair(c);
    }
  }

  lemma PairStartsIff(c: Cookie)
    requires WellFormed(c)
    ensures StartsWith(Pair(c), AuthToken + "=") <==> c.name == AuthToken
  {
    var x := Pair(c);
    var pre := AuthToken + "=";
    assert pre == "auth_token=" && pre[..10] == AuthToken;
    assert forall i :: 0 <= i < 10 ==> pre[i] != '=';
    assert x[..|c.name|] == c.name && x[|c.name|] == '=';
    assert forall i :: 0 <= i < |c.name| ==> x[i] != '=';
  }

  /** `find` returns the first piece that passes its test. */
  lemma {:induction false} FindFirstAt(pieces: seq<string>, i: nat)
    requires i < |pieces| && IsAuthPiece(pieces[i])
    requires forall k :: 0 <= k < i ==> !IsAuthPiece(pieces[k])
    ensures FindAuth(pieces) == Some(pieces[i])
    decreases i
  {
    if i > 0 {
      assert pieces[1..][i - 1] == pieces[i];
      FindFirstAt(pieces[1..], i - 1);
    }
  }

  /** The position of the cookie `Lookup` finds: the first with that name. */
  lemma {:induction false} LookupFirst(jar: seq<Cookie>, name: string) returns (i: nat)
    requires Lookup(jar, name).Some?
    ensures i < |jar| && jar[i] == Cookie(name, Lookup(jar, name).value)
    ensures forall k :: 0 <= k < i ==> jar[k].name != name
    decreases |jar|
  {
    if jar[0].name == name {
      i := 0;
    } else {
      var j := LookupFirst(jar[1..], name);
      i := j + 1;
    }
  }

  /** Among the pieces of the rendered jar, the auth pieces are those of the
      cookies named `auth_token`. */
  lemma AuthPieces(jar: seq<Cookie>)
    requires JarValid(jar) && |jar| > 0
    ensures |Split(Render(jar), ';')| == |jar|
    ensures forall k :: 0 <= k < |jar| ==> Split(Render(jar), ';')[k] == Piece(jar, k)
    ensures forall k :: 0 <= k < |jar| ==> (IsAuthPiece(Piece(jar, k)) <==> jar[k].name == AuthToken)
  {
    RenderSplit(jar);
    forall k | 0 <= k < |jar| ensures IsAuthPiece(Piece(jar, k)) <==> jar[k].name == AuthToken {
      AuthPieceIff(jar[k], if k == 0 then "" else " ");
    }
  }

  /** The token in the piece of an auth cookie is its value up to the first `=`. */
  lemma TokenOfPiece(lead: string, v: string)
    requires lead == "" || lead == " "
    ensures TokenOf(lead + Pair(Cookie(AuthToken, v))) == Some(Split(v, '=')[0])
  {
    assert lead + Pair(Cookie(AuthToken, v)) == (lead + AuthToken) + ['='] + v;
    assert '=' !in lead + AuthToken;
    SplitFirstPiece(lead + AuthToken, v, '=');
  }

  /** Without a cookie named `auth_token` the cookie string holds no auth piece. */
  lemma NoAuthCookie(jar: seq<Cookie>)
    requires JarValid(jar) && Lookup(jar, AuthToken).None?
    ensures AuthCookie(Render(jar)) == None && !HasAuthCookie(Render(jar))
  {
    if |jar| == 0 {
      assert Split("", ';') == [""];
      assert !IsAuthPiece("");
    } else {
      AuthPieces(jar);
    }
    HasAuthCookieFinds(Render(jar));
  }

  /** With one, the auth piece is the first such cookie's, and the token is its
      value up to the first `=`. */
  lemma AuthCookieToken(jar: seq<Cookie>)
    requires JarValid(jar) && Lookup(jar, AuthToken).Some?
    ensures TokenFromDoc(Render(jar)) == Some(Split(Lookup(jar, AuthToken).value, '=')[0])
  {
    AuthPieces(jar);
    var i := LookupFirst(jar, AuthToken);
    FindFirstAt(Split(Render(jar), ';'), i);
    TokenOfPiece(if i == 0 then "" else " ", Lookup(jar, AuthToken).value);
  }

  /** What the unlock path reads back from `document.cookie`: the stored auth
      cookie's value up to its first `=`, or nothing when there is no auth cookie. */
  lemma TokenFromJar(jar: seq<Cookie>)
    requires JarValid(jar)
    ensures TokenFromDoc(Render(jar)) ==
      match Lookup(jar, AuthToken)
      case None => None
      case Some(v) => Some(Split(v, '=')[0])
  {
    if Lookup(jar, AuthToken).Some? {
      AuthCookieToken(jar);
    } else {
      NoAuthCookie(jar);
    }
  }

  /** The unlock path gets the stored token back whole only when the token holds no
      `=`; otherwise it gets the part before the first `=`. */
  lemma TokenRoundTrip(jar: seq<Cookie>, token: string)
    requires JarValid(jar) && WellFormed(Cookie(AuthToken, token))
    ensures TokenFromDoc(Render(Upsert(jar, Cookie(AuthToken, token)))) == Some(Split(token, '=')[0])
    ensures TokenFromDoc(Render(Upsert(jar, Cookie(AuthToken, token)))) == Some(token) <==> '=' !in token
  {
    var c := Cookie(AuthToken, token);
    UpsertLookup(jar, c, AuthToken);
    TokenFromJar(Upsert(jar, c));
    if '=' !in token {
      SplitNoSep(token, '=');
    } else {
      assert '=' !in Split(token, '=')[0];
    }
  }

  /** After the auth cookie is expired, the gate no longer sees it. */
  lemma ExpiredIsGone(jar: seq<Cookie>)
    requires JarValid(jar)
    ensures !HasAuthCookie(Render(Expire(jar, AuthToken)))
    ensures TokenFromDoc(Render(Expire(jar, AuthToken))) == None
  {
    ExpireLookup(jar, AuthToken, AuthToken);
    NoAuthCookie(Expire(jar, AuthToken));
  }

  /** The stores a page script sees. Each method models one write and states what
      the other stores keep. */
  class Browser {
    var cookies: seq<Cookie>
    var session: map<string, string>
    var local: map<string, string>

    constructor (cookies: seq<Cookie>, session: map<string, string>, local: map<string, string>)
      ensures this.cookies == cookies && this.session == session && this.local == local
    {
      this.cookies := cookies;
      this.session := session;
      this.local := local;
    }

    /** `document.cookie` read. */
    function CookieString(): string
      reads this
    {
      Render(cookies)
    }

    /** `document.cookie = "<name>=<value>; path=/; max-age=..."` with a positive age. */
    method SetCookie(name: string, value: string)
      modifies this`cookies
      ensures cookies == Upsert(old(cookies), Cookie(name, value))
      ensures Lookup(cookies, name) == Some(value)
    {
      cookies := Upsert(cookies, Cookie(name, value));
      UpsertLookup(old(cookies), Cookie(name, value), name);
    }

    /** `document.cookie = "<name>=; path=/; max-age=0"` */
    method ExpireCookie(name: string)
      modifies this`cookies
      ensures cookies == Expire(old(cookies), name)
      ensures Lookup(cookies, name) == None
    {
      cookies := Expire(cookies, name);
      ExpireLookup(old(cookies), name, name);
    }
  }
}
