/** components/password-dashboard.tsx: the vault view. The list of entries lives in
    component state and, encrypted under the master password, in `localStorage`
    under `password_vault`. Every change goes through `savePasswords`, which asks
    `getMasterPassword` for the key and logs out when there is none. */
module PasswordDashboard {
  import opened Common
  import opened Text
  import opened Lists
  import opened Storage
  import opened Encryption

  /** A stored password entry. */
  datatype Entry = Entry(id: string, title: string, username: string, password: string,
                         url: string, notes: string, createdAt: string)

  /** A `Partial<PasswordEntry>`: the form being filled in. An absent field is `None`. */
  datatype Draft = Draft(id: Option<string>, title: Option<string>, username: Option<string>,
                         password: Option<string>, url: Option<string>, notes: Option<string>,
                         createdAt: Option<string>)

  /** The form after a reset: every field but `createdAt` present and empty. */
  const BlankDraft: Draft := Draft(Some(""), Some(""), Some(""), Some(""), Some(""), Some(""), None)

  /** An entry loaded into the form for editing: every field present. */
  function DraftOf(e: Entry): (d: Draft)
    ensures d.id == Some(e.id) && d.title == Some(e.title) && d.password == Some(e.password)
  {
    Draft(Some(e.id), Some(e.title), Some(e.username), Some(e.password), Some(e.url), Some(e.notes), Some(e.createdAt))
  }

  /** `JSON.stringify` and `JSON.parse` on entry lists; `parse` yields `None` where
      it throws. */
  datatype Json = Json(stringify: seq<Entry> -> string, parse: string -> Option<seq<Entry>>)

  /** Parsing what was stringified gives the list back. */
  ghost predicate ParsesOwn(j: Json) {
    forall l :: j.parse(j.stringify(l)) == Some(l)
  }

  /** The entries a stored vault holds under `key`: `None` when decryption or
      parsing fails. */
  function Decoded(c: Cipher, j: Json, vault: string, key: string): Option<seq<Entry>> {
    match c.decrypt(vault, key)
    case None => None
    case Some(text) => j.parse(text)
  }

  /** What `savePasswords` stores is what loading decodes again. */
  lemma VaultRoundTrip(c: Cipher, j: Json, list: seq<Entry>, key: string)
    requires DecryptsOwn(c) && ParsesOwn(j)
    ensures Decoded(c, j, c.encrypt(j.stringify(list), key), key) == Some(list)
  {
    assert c.decrypt(c.encrypt(j.stringify(list), key), key) == Some(j.stringify(list));
    assert j.parse(j.stringify(list)) == Some(list);
  }

  /** The entry `handleAddPassword` builds from the form, a fresh id and a timestamp. */
  function NewEntry(d: Draft, uuid: string, now: string): (e: Entry)
    requires Truthy(d.title) && Truthy(d.password)
    ensures e.id == uuid && e.createdAt == now
    ensures e.title == d.title.value && e.password == d.password.value
    ensures e.username == (if d.username.Some? then d.username.value else "")
    ensures e.url == (if d.url.Some? then d.url.value else "")
    ensures e.notes == (if d.notes.Some? then d.notes.value else "")
  {
    Entry(uuid, d.title.value, d.username.GetOr(""), d.password.value, d.url.GetOr(""), d.notes.GetOr(""), now)
  }

  /** `{ ...p, ...draft, id }`: the draft's present fields over the entry's, with the
      id forced. */
  function Overlay(p: Entry, d: Draft, id: string): (e: Entry)
    ensures e.id == id
    ensures e.title == (if d.title.Some? then d.title.value else p.title)
    ensures e.username == (if d.username.Some? then d.username.value else p.username)
    ensures e.password == (if d.password.Some? then d.password.value else p.password)
    ensures e.url == (if d.url.Some? then d.url.value else p.url)
    ensures e.notes == (if d.notes.Some? then d.notes.value else p.notes)
    ensures e.createdAt == (if d.createdAt.Some? then d.createdAt.value else p.createdAt)
  {
    Entry(id, d.title.GetOr(p.title), d.username.GetOr(p.username), d.password.GetOr(p.password),
          d.url.GetOr(p.url), d.notes.GetOr(p.notes), d.createdAt.GetOr(p.createdAt))
  }

  /** The list `handleUpdatePassword` saves: every entry with the edited id takes
      the draft's fields; the rest are left as they are. */
  function UpdateWhere(s: seq<Entry>, id: string, d: Draft): (r: seq<Entry>)
    ensures |r| == |s|
    ensures forall i :: 0 <= i < |s| ==> r[i].id == s[i].id
    ensures forall i :: 0 <= i < |s| && s[i].id != id ==> r[i] == s[i]
    ensures forall i :: 0 <= i < |s| && s[i].id == id ==> r[i] == Overlay(s[i], d, id)
  {
    seq(|s|, i requires 0 <= i < |s| => if s[i].id == id then Overlay(s[i], d, id) else s[i])
  }

  /** Saving the same edit twice changes nothing the first save did not. */
  lemma UpdateIdempotent(s: seq<Entry>, id: string, d: Draft)
    ensures UpdateWhere(UpdateWhere(s, id, d), id, d) == UpdateWhere(s, id, d)
  {
  }

  /** The entry's id, the key deletion and uniqueness go by. */
  function IdOf(e: Entry): string { e.id }

  /** Opening an entry for editing and saving it untouched leaves the list as it was. */
  lemma UpdateUntouched(s: seq<Entry>, e: Entry)
    requires UniqueKeys(s, IdOf) && e in s
    ensures UpdateWhere(s, e.id, DraftOf(e)) == s
  {
    var r := UpdateWhere(s, e.id, DraftOf(e));
    forall i | 0 <= i < |s|
      ensures r[i] == s[i]
    {
      if s[i].id == e.id {
        var k :| 0 <= k < |s| && s[k] == e;
        assert i == k;
      }
    }
  }

  /** Adding keeps ids unique when the new id is fresh; updating and deleting keep
      them unique always. */
  lemma UniqueIdsKept(s: seq<Entry>, e: Entry, id: string, d: Draft)
    requires UniqueKeys(s, IdOf)
    ensures (forall i :: 0 <= i < |s| ==> s[i].id != e.id) ==> UniqueKeys(s + [e], IdOf)
    ensures UniqueKeys(UpdateWhere(s, id, d), IdOf)
    ensures UniqueKeys(RemoveKey(s, IdOf, id), IdOf)
  {
    UniqueKeysRemove(s, IdOf, id);
  }

  /** The search filter: the lowered term occurs in the lowered title, username or url. */
  predicate Matches(e: Entry, term: string) {
    Mentions(e.title, term) || Mentions(e.username, term) || Mentions(e.url, term)
  }

  /** `filteredPasswords` */
  function Search(s: seq<Entry>, term: string): (r: seq<Entry>)
    ensures forall i :: 0 <= i < |r| ==> Matches(r[i], term)
  {
    Filter(s, (e: Entry) => Matches(e, term))
  }

  /** An entry is listed exactly when it is in the vault and matches. */
  lemma SearchMember(s: seq<Entry>, term: string, e: Entry)
    ensures e in Search(s, term) <==> e in s && Matches(e, term)
  {
    FilterMember(s, (e: Entry) => Matches(e, term), e);
  }

  /** An empty search lists the whole vault, in order. */
  lemma SearchEmpty(s: seq<Entry>)
    ensures Search(s, "") == s
  {
    forall i | 0 <= i < |s|
      ensures Matches(s[i], "")
    {
      MentionsFacts(s[i].title, "");
    }
    FilterAll(s, (e: Entry) => Matches(e, ""));
  }

  /** The search ignores the case of the term. */
  lemma SearchIgnoresCase(s: seq<Entry>, term: string)
    ensures Search(s, term) == Search(s, ToLower(term))
  {
    forall i | 0 <= i < |s|
      ensures Matches(s[i], term) == Matches(s[i], ToLower(term))
    {
      MentionsFacts(s[i].title, term);
      MentionsFacts(s[i].username, term);
      MentionsFacts(s[i].url, term);
    }
    FilterAgree(s, (e: Entry) => Matches(e, term), (e: Entry) => Matches(e, ToLower(term)));
  }

  /** The link target: a url that does not begin with `http` gets `https://` in front. */
  function Href(url: string): (h: string)
    ensures StartsWith(h, "http")
    ensures h == url || h == "https://" + url
    ensures h == url <==> StartsWith(url, "http")
  {
    if StartsWith(url, "http") then url else "https://" + url
  }

  /** Linking is idempotent: an href taken as a url links to itself. */
  lemma HrefIdempotent(url: string)
    ensures Href(Href(url)) == Href(url)
  {
  }

  class Dashboard {
    var passwords: seq<Entry>
    var searchTerm: string
    var isAddDialogOpen: bool
    var editingId: Option<string>
    var newEntry: Draft
    const browser: Browser
    const cipher: Cipher
    const json: Json

    constructor (browser: Browser, cipher: Cipher, json: Json)
      ensures this.browser == browser && this.cipher == cipher && this.json == json
      ensures passwords == [] && searchTerm == "" && !isAddDialogOpen
      ensures editingId == None && newEntry == BlankDraft
    {
      this.browser := browser;
      this.cipher := cipher;
      this.json := json;
      passwords := [];
      searchTerm := "";
      isAddDialogOpen := false;
      editingId := None;
      newEntry := BlankDraft;
    }

    /** `filteredPasswords`: what the list shows. */
    function Filtered(): seq<Entry>
      reads this
    {
      Search(passwords, searchTerm)
    }

    method SetSearchTerm(term: string)
      modifies this`searchTerm
      ensures searchTerm == term
    {
      searchTerm := term;
    }

    /** The key `getMasterPassword` returned, given the prompt's answer, and its
        effect on `sessionStorage`. */
    twostate predicate Unlocked(answer: Option<string>, key: Option<string>)
      reads browser
    {
      && key == MasterPassword(cipher, old(browser.session), old(browser.CookieString()), answer)
      && browser.session == if key.Some? then old(browser.session)[MasterKey := key.value] else old(browser.session)
    }

    /** What `savePasswords(list)` leaves behind: without a key, the auth cookie is
        cleared and nothing else changes; with one, the vault holds the encrypted
        list and the state shows it. */
    twostate predicate Saved(list: seq<Entry>, answer: Option<string>)
      reads this, browser
    {
      var key := MasterPassword(cipher, old(browser.session), old(browser.CookieString()), answer);
      && Unlocked(answer, key)
      && (key.None? ==>
            browser.cookies == Expire(old(browser.cookies), AuthToken)
            && browser.local == old(browser.local) && passwords == old(passwords))
      && (key.Some? ==>
            browser.cookies == old(browser.cookies)
            && browser.local == old(browser.local)[VaultKey := cipher.encrypt(json.stringify(list), key.value)]
            && passwords == list)
    }

    /** `handleLogout` (the router refresh aside). */
    method Logout()
      modifies browser`cookies
      ensures browser.cookies == Expire(old(browser.cookies), AuthToken)
    {
      browser.ExpireCookie(AuthToken);
    }

    /** The load effect. */
    method Load(answer: Option<string>)
      modifies this`passwords, browser`cookies, browser`session, browser`local
      ensures var key := MasterPassword(cipher, old(browser.session), old(browser.CookieString()), answer);
        && Unlocked(answer, key)
        && (key.None? ==>
              browser.cookies == Expire(old(browser.cookies), AuthToken)
              && browser.local == old(browser.local) && passwords == old(passwords))
        && (key.Some? && !Truthy(Get(old(browser.local), VaultKey)) ==>
              browser.cookies == old(browser.cookies)
              && browser.local == old(browser.local)[VaultKey := cipher.encrypt(json.stringify([]), key.value)]
              && passwords == [])
        && (key.Some? && Truthy(Get(old(browser.local), VaultKey)) ==>
              var loaded := Decoded(cipher, json, old(browser.local)[VaultKey], key.value);
              && browser.local == old(browser.local)
              && browser.cookies == (if loaded.Some? then old(browser.cookies) else Expire(old(browser.cookies), AuthToken))
              && passwords == (if loaded.Some? then loaded.value else old(passwords)))
    {
      ghost var local0, cookies0 := browser.local, browser.cookies;
      var masterPassword := GetMasterPassword(browser, cipher, answer);
      assert Unlocked(answer, masterPassword);
      assert browser.local == local0 && browser.cookies == cookies0;
      if !Truthy(masterPassword) {
        Logout();
        assert Unlocked(answer, masterPassword);
        return;
      }
      var encryptedData := Get(browser.local, VaultKey);
      if Truthy(encryptedData) {
        var decrypted := Decoded(cipher, json, encryptedData.value, masterPassword.value);
        assert decrypted == Decoded(cipher, json, local0[VaultKey], masterPassword.value);
        if decrypted.Some? {
          passwords := decrypted.value;
        } else {
          Logout();
        }
        assert browser.local == local0;
      } else {
        var emptyVault := cipher.encrypt(json.stringify([]), masterPassword.value);
        browser.local := browser.local[VaultKey := emptyVault];
        passwords := [];
        assert browser.cookies == cookies0;
      }
      assert Unlocked(answer, masterPassword);
    }

    /** `savePasswords` */
    method SavePasswords(list: seq<Entry>, answer: Option<string>)
      modifies this`passwords, browser`cookies, browser`session, browser`local
      ensures Saved(list, answer)
    {
      var masterPassword := GetMasterPassword(browser, cipher, answer);
      assert Unlocked(answer, masterPassword);
      if !Truthy(masterPassword) {
        Logout();
        return;
      }
      var encryptedData := cipher.encrypt(json.stringify(list), masterPassword.value);
      browser.local := browser.local[VaultKey := encryptedData];
      passwords := list;
    }

    /** `handleAddPassword`, given the fresh id and the current time. */
    method AddPassword(uuid: string, now: string, answer: Option<string>)
      modifies this`passwords, this`newEntry, this`isAddDialogOpen
      modifies browser`cookies, browser`session, browser`local
      ensures !(Truthy(old(newEntry.title)) && Truthy(old(newEntry.password))) ==>
        passwords == old(passwords) && newEntry == old(newEntry) && isAddDialogOpen == old(isAddDialogOpen)
        && browser.cookies == old(browser.cookies) && browser.session == old(browser.session)
        && browser.local == old(browser.local)
      ensures Truthy(old(newEntry.title)) && Truthy(old(newEntry.password)) ==>
        Saved(old(passwords) + [NewEntry(old(newEntry), uuid, now)], answer)
        && newEntry == BlankDraft && !isAddDialogOpen
    {
      if !Truthy(newEntry.title) || !Truthy(newEntry.password) {
        return;
      }
      var entry := NewEntry(newEntry, uuid, now);
      SavePasswords(passwords + [entry], answer);
      newEntry := BlankDraft;
      isAddDialogOpen := false;
    }

    /** `handleUpdatePassword` */
    method UpdatePassword(answer: Option<string>)
      modifies this`passwords, this`editingId
      modifies browser`cookies, browser`session, browser`local
      ensures !Truthy(old(editingId)) ==>
        passwords == old(passwords) && editingId == old(editingId)
        && browser.cookies == old(browser.cookies) && browser.session == old(browser.session)
        && browser.local == old(browser.local)
      ensures Truthy(old(editingId)) ==>
        Saved(UpdateWhere(old(passwords), old(editingId).value, newEntry), answer) && editingId == None
    {
      if !Truthy(editingId) {
        return;
      }
      var updated := UpdateWhere(passwords, editingId.value, newEntry);
      SavePasswords(updated, answer);
      editingId := None;
    }

    /** `handleDeletePassword` */
    method DeletePassword(id: string, answer: Option<string>)
      modifies this`passwords, browser`cookies, browser`session, browser`local
      ensures Saved(RemoveKey(old(passwords), IdOf, id), answer)
    {
      SavePasswords(RemoveKey(passwords, IdOf, id), answer);
    }

    /** `handleEdit` */
    method Edit(e: Entry)
      modifies this`editingId, this`newEntry
      ensures editingId == Some(e.id) && newEntry == DraftOf(e)
    {
      editingId := Some(e.id);
      newEntry := DraftOf(e);
    }

    /** `handleCancelEdit` */
    method CancelEdit()
      modifies this`editingId, this`newEntry
      ensures editingId == None && newEntry == BlankDraft
    {
      editingId := None;
      newEntry := BlankDraft;
    }
  }
}
