/** components/password-manager.tsx: the second vault view, kept in component
    state only. New entries go to the front with a favicon derived from the url;
    edits overwrite the four form fields of the entry being edited; deletion can be
    undone, which puts the entry back at the end. */
module PasswordManager {
  import opened Common
  import opened Text
  import opened Lists
  import opened PasswordUtils
  import opened PasswordGenerator

  /** A stored entry; `favicon` is optional. */
  datatype Saved = Saved(id: string, website: string, url: string, username: string,
                         password: string, lastUsed: string, favicon: Option<string>)

  /** The validated add/edit form. */
  datatype FormValues = FormValues(website: string, url: string, username: string, password: string)

  function IdOf(p: Saved): string { p.id }

  const JustNow: string := "Just now"

  /** `url.replace(/^https?:\/\//, "")`: one leading `https://` or `http://`,
      matched case-sensitively, is dropped. */
  function StripScheme(url: string): (r: string)
    ensures StartsWith(url, "https://") ==> r == url[8..]
    ensures !StartsWith(url, "https://") && StartsWith(url, "http://") ==> r == url[7..]
    ensures !StartsWith(url, "https://") && !StartsWith(url, "http://") ==> r == url
  {
    if StartsWith(url, "https://") then url[8..]
    else if StartsWith(url, "http://") then url[7..]
    else url
  }

  /** The host part: what is left of the url without its scheme, up to the first `/`. */
  function Host(url: string): (h: string)
    ensures '/' !in h
    ensures StartsWith(StripScheme(url), h)
    ensures h == StripScheme(url) || (|h| < |StripScheme(url)| && StripScheme(url)[|h|] == '/')
  {
    var parts := Split(StripScheme(url), '/');
    JoinSplit(StripScheme(url), '/');
    JoinPrefix(parts);
    assert |parts| > 1 ==> Join(parts, "/") == parts[0] + "/" + Join(parts[1..], "/");
    parts[0]
  }

  /** The first piece of a split starts the joined string. */
  lemma JoinPrefix(parts: seq<string>)
    requires |parts| >= 1
    ensures StartsWith(Join(parts, "/"), parts[0])
  {
  }

  /** The favicon address stored with a new entry. */
  function Favicon(url: string): string {
    "https://" + Host(url) + "/favicon.ico"
  }

  /** A string without `/` does not start with a scheme, and neither does one
      followed by `/`, unless it is the scheme's own text before its first `/`. */
  lemma NoScheme(h: string, rest: string, scheme: string, j: nat)
    requires '/' !in h
    requires j < |scheme| && scheme[j] == '/' && '/' !in scheme[..j]
    requires |h| == j ==> h != scheme[..j]
    ensures !StartsWith(h, scheme)
    ensures !StartsWith(h + "/" + rest, scheme)
  {
    if |scheme| <= |h| {
      assert h[..|scheme|][j] == h[j] != scheme[j];
    }
    var t := h + "/" + rest;
    if |scheme| <= |t| {
      if |h| > j {
        assert t[..|scheme|][j] == h[j] != scheme[j];
      } else if |h| < j {
        assert t[..|scheme|][|h|] == '/' && scheme[|h|] in scheme[..j];
      } else {
        var k :| 0 <= k < j && h[k] != scheme[k];
        assert t[..|scheme|][k] == h[k];
      }
    }
  }

  /** A url not starting with `http://` or `https://`: the host is everything before
      the first `/`, even when that is another scheme's name. */
  lemma HostPlain(h: string, path: string)
    requires '/' !in h && h != "http:" && h != "https:"
    ensures Host(h) == h && Host(h + "/" + path) == h
  {
    var http, https := "http://", "https://";
    assert http[5] == '/' && https[6] == '/' && http[..5] == "http:" && https[..6] == "https:";
    assert '/' !in http[..5] && '/' !in https[..6];
    NoScheme(h, path, http, 5);
    NoScheme(h, path, https, 6);
    SplitNoSep(h, '/');
    SplitFirstPiece(h, path, '/');
  }

  /** A leading `http://` or `https://` is dropped whatever follows. */
  lemma StripsScheme(t: string)
    ensures StripScheme("http://" + t) == t && StripScheme("https://" + t) == t
  {
    assert StartsWith("https://" + t, "https://");
    assert ("https://" + t)[8..] == t;
    assert ("http://" + t)[7..] == t;
    assert !StartsWith("http://" + t, "https://") by {
      if 8 <= |"http://" + t| {
        assert ("http://" + t)[..8][4] == ':';
      }
    }
  }

  /** The host is read back from every usual way of writing a site's address (a
      host never ends in `:`). */
  lemma HostOf(h: string, path: string)
    requires '/' !in h && (h == "" || h[|h| - 1] != ':')
    ensures Host(h) == h
    ensures Host(h + "/" + path) == h
    ensures Host("http://" + h) == h && Host("https://" + h) == h
    ensures Host("https://" + h + "/" + path) == h && Host("http://" + h + "/" + path) == h
  {
    HostPlain(h, path);
    HostBehindScheme(h, "");
    HostBehindScheme(h, "/" + path);
    assert h + "" == h;
    Regroup("https://", h, "/", path);
    Regroup("http://", h, "/", path);
  }

  lemma Regroup(a: string, b: string, c: string, d: string)
    ensures a + b + c + d == a + (b + (c + d))
  {
  }

  /** Only `http://` and `https://` are stripped: behind any other scheme the host
      is the scheme's name with its colon. */
  lemma HostOtherScheme()
    ensures Host("ftp://site") == "ftp:"
  {
    HostPlain("ftp:", "/site");
    assert "ftp:" + "/" + "/site" == "ftp://site";
  }

  /** Behind a scheme, the host is everything up to the first `/`. */
  lemma HostBehindScheme(h: string, rest: string)
    requires '/' !in h && (rest == "" || rest[0] == '/')
    ensures Host("http://" + (h + rest)) == h && Host("https://" + (h + rest)) == h
  {
    StripsScheme(h + rest);
    if rest == "" {
      assert h + rest == h;
      SplitNoSep(h, '/');
    } else {
      assert h + rest == h + "/" + rest[1..];
      SplitFirstPiece(h, rest[1..], '/');
    }
  }

  /** The entry `handleAddPassword` creates, given `Date.now().toString()`. */
  function NewSaved(data: FormValues, id: string): (p: Saved)
    ensures p.id == id && p.lastUsed == JustNow && p.favicon == Some(Favicon(data.url))
    ensures p.website == data.website && p.url == data.url
    ensures p.username == data.username && p.password == data.password
  {
    Saved(id, data.website, data.url, data.username, data.password, JustNow, Some(Favicon(data.url)))
  }

  /** `{ ...currentPassword, website, url, username, password }` */
  function Edited(cur: Saved, data: FormValues): (p: Saved)
    ensures p.id == cur.id && p.lastUsed == cur.lastUsed && p.favicon == cur.favicon
    ensures p.website == data.website && p.url == data.url
    ensures p.username == data.username && p.password == data.password
  {
    cur.(website := data.website, url := data.url, username := data.username, password := data.password)
  }

  /** The list `handleEditPassword` saves: every entry with the current id becomes
      the edited current entry. */
  function ReplaceWhere(s: seq<Saved>, cur: Saved, data: FormValues): (r: seq<Saved>)
    ensures |r| == |s|
    ensures forall i :: 0 <= i < |s| ==> r[i].id == s[i].id
    ensures forall i :: 0 <= i < |s| && s[i].id != cur.id ==> r[i] == s[i]
    ensures forall i :: 0 <= i < |s| && s[i].id == cur.id ==> r[i] == Edited(cur, data)
  {
    seq(|s|, i requires 0 <= i < |s| => if s[i].id == cur.id then Edited(cur, data) else s[i])
  }

  /** With unique ids, editing the entry at `i` rewrites that one entry in place and
      keeps its id, `lastUsed` and favicon. */
  lemma EditInPlace(s: seq<Saved>, i: nat, data: FormValues)
    requires UniqueKeys(s, IdOf) && i < |s|
    ensures ReplaceWhere(s, s[i], data) == s[i := Edited(s[i], data)]
  {
    var r := ReplaceWhere(s, s[i], data);
    forall k | 0 <= k < |s| && k != i
      ensures r[k] == s[k]
    {
      assert IdOf(s[k]) != IdOf(s[i]);
    }
  }

  /** `filteredPasswords`: the lowered term occurs in the website, username or url. */
  predicate Matches(p: Saved, term: string) {
    Mentions(p.website, term) || Mentions(p.username, term) || Mentions(p.url, term)
  }

  function Search(s: seq<Saved>, term: string): (r: seq<Saved>)
    ensures forall i :: 0 <= i < |r| ==> Matches(r[i], term)
  {
    Filter(s, (p: Saved) => Matches(p, term))
  }

  /** An empty search shows everything; the term's case does not matter. */
  lemma SearchFacts(s: seq<Saved>, term: string)
    ensures Search(s, "") == s
    ensures Search(s, term) == Search(s, ToLower(term))
  {
    forall i | 0 <= i < |s|
      ensures Matches(s[i], "") && Matches(s[i], term) == Matches(s[i], ToLower(term))
    {
      MentionsFacts(s[i].website, term);
      MentionsFacts(s[i].username, term);
      MentionsFacts(s[i].url, term);
    }
    FilterAll(s, (p: Saved) => Matches(p, ""));
    FilterAgree(s, (p: Saved) => Matches(p, term), (p: Saved) => Matches(p, ToLower(term)));
  }

  /** Deleting the entry at `i` and undoing puts it back at the end: the vault holds
      the same entries, but not in the same order unless it was already last. */
  lemma UndoMovesToEnd(s: seq<Saved>, i: nat)
    requires UniqueKeys(s, IdOf) && i < |s|
    ensures RemoveKey(s, IdOf, s[i].id) + [s[i]] == s[..i] + s[i + 1..] + [s[i]]
    ensures multiset(RemoveKey(s, IdOf, s[i].id) + [s[i]]) == multiset(s)
    ensures RemoveKey(s, IdOf, s[i].id) + [s[i]] == s <==> i == |s| - 1
  {
    RemoveAt(s, IdOf, i);
    assert s == s[..i] + [s[i]] + s[i + 1..];
    var t := s[..i] + s[i + 1..] + [s[i]];
    if i < |s| - 1 {
      assert t[i] == s[i + 1];
      assert IdOf(s[i]) != IdOf(s[i + 1]);
    }
    if i == |s| - 1 {
      assert s[i + 1..] == [];
    }
  }

  /** Visibility of an entry's password: an absent key reads as hidden. */
  predicate Visible(m: map<string, bool>, id: string) {
    id in m && m[id]
  }

  /** `{ ...prev, [id]: !prev[id] }` */
  function Toggle(m: map<string, bool>, id: string): (r: map<string, bool>)
    ensures id in r && (Visible(r, id) <==> !Visible(m, id))
    ensures forall k :: k != id ==> (k in r <==> k in m) && (k in m ==> r[k] == m[k])
  {
    m[id := !Visible(m, id)]
  }

  /** Clicking twice shows the entry as before and touches no other entry. */
  lemma ToggleTwice(m: map<string, bool>, id: string)
    ensures Visible(Toggle(Toggle(m, id), id), id) == Visible(m, id)
    ensures forall k :: k != id ==> Visible(Toggle(Toggle(m, id), id), k) == Visible(m, k)
  {
  }

  /** The strength shown under the form: 0 for an empty password. */
  function StrengthShown(password: string): (s: int)
    ensures password == "" ==> s == 0
    ensures password != "" ==> s == CalculatePasswordStrength(password)
    ensures 0 <= s <= 90 && s % 10 == 0
  {
    if password != "" then CalculatePasswordStrength(password) else 0
  }

  /** The options `generateNewPassword` asks for: 16 characters, every class. */
  const GenerateOptions: PasswordOptions := PasswordOptions(16, true, true, true, true)

  const DemoPasswords: seq<Saved> := [
    Saved("1", "Google", "google.com", "user@example.com", "StrongP@ssw0rd1", "2 days ago",
          Some("https://www.google.com/favicon.ico")),
    Saved("2", "Twitter", "twitter.com", "twitteruser", "Tw1tterP@ss!", "1 week ago",
          Some("https://twitter.com/favicon.ico")),
    Saved("3", "Example Site", "example.com", "demouser", "Ex@mpleP@ss123", "3 days ago",
          Some("/placeholder.svg?height=16&width=16"))
  ]

  class Manager {
    var savedPasswords: seq<Saved>
    var showPassword: map<string, bool>
    var isAddDialogOpen: bool
    var isEditDialogOpen: bool
    var isDeleteDialogOpen: bool
    var passwordToDelete: Option<Saved>
    var currentPassword: Option<Saved>
    var passwordStrength: int

    constructor ()
      ensures savedPasswords == [] && showPassword == map[]
      ensures !isAddDialogOpen && !isEditDialogOpen && !isDeleteDialogOpen
      ensures passwordToDelete == None && currentPassword == None && passwordStrength == 0
    {
      savedPasswords := [];
      showPassword := map[];
      isAddDialogOpen, isEditDialogOpen, isDeleteDialogOpen := false, false, false;
      passwordToDelete, currentPassword := None, None;
      passwordStrength := 0;
    }

    /** The mount effect: three demonstration entries. */
    method LoadDemo()
      modifies this`savedPasswords
      ensures savedPasswords == DemoPasswords
    {
      savedPasswords := DemoPasswords;
    }

    /** The two strength effects, for whichever form's password changed. */
    method OnFormPasswordChanged(password: string)
      modifies this`passwordStrength
      ensures passwordStrength == StrengthShown(password)
    {
      if password != "" {
        passwordStrength := CalculatePasswordStrength(password);
      } else {
        passwordStrength := 0;
      }
    }

    /** `handleAddPassword`, given the id `Date.now().toString()` produced. */
    method AddPassword(data: FormValues, id: string)
      modifies this`savedPasswords, this`isAddDialogOpen
      ensures savedPasswords == [NewSaved(data, id)] + old(savedPasswords)
      ensures !isAddDialogOpen
    {
      var newEntry := Saved(id, data.website, data.url, data.username, data.password, JustNow,
                            Some("https://" + Split(StripScheme(data.url), '/')[0] + "/favicon.ico"));
      savedPasswords := [newEntry] + savedPasswords;
      isAddDialogOpen := false;
    }

    /** The edit menu item: select the entry and open the dialog. */
    method SelectForEdit(p: Saved)
      modifies this`currentPassword, this`isEditDialogOpen
      ensures currentPassword == Some(p) && isEditDialogOpen
    {
      currentPassword := Some(p);
      isEditDialogOpen := true;
    }

    /** `handleEditPassword` */
    method EditPassword(data: FormValues)
      modifies this`savedPasswords, this`isEditDialogOpen, this`currentPassword
      ensures old(currentPassword).None? ==>
        savedPasswords == old(savedPasswords) && isEditDialogOpen == old(isEditDialogOpen) && currentPassword == None
      ensures old(currentPassword).Some? ==>
        savedPasswords == ReplaceWhere(old(savedPasswords), old(currentPassword).value, data)
        && !isEditDialogOpen && currentPassword == None
    {
      if currentPassword.None? {
        return;
      }
      savedPasswords := ReplaceWhere(savedPasswords, currentPassword.value, data);
      isEditDialogOpen := false;
      currentPassword := None;
    }

    /** `confirmDeletePassword` */
    method ConfirmDelete(p: Saved)
      modifies this`passwordToDelete, this`isDeleteDialogOpen
      ensures passwordToDelete == Some(p) && isDeleteDialogOpen
    {
      passwordToDelete := Some(p);
      isDeleteDialogOpen := true;
    }

    /** `handleDeletePassword`: returns the copy the undo action will restore. */
    method DeletePassword() returns (restore: Option<Saved>)
      modifies this`savedPasswords, this`isDeleteDialogOpen, this`passwordToDelete
      ensures restore == old(passwordToDelete)
      ensures restore.None? ==> savedPasswords == old(savedPasswords) && isDeleteDialogOpen == old(isDeleteDialogOpen)
      ensures restore.Some? ==>
        savedPasswords == RemoveKey(old(savedPasswords), IdOf, restore.value.id) && !isDeleteDialogOpen
      ensures passwordToDelete == None
    {
      if passwordToDelete.None? {
        return None;
      }
      restore := passwordToDelete;
      savedPasswords := RemoveKey(savedPasswords, IdOf, restore.value.id);
      isDeleteDialogOpen := false;
      passwordToDelete := None;
    }

    /** The toast's undo action. */
    method Undo(restore: Saved)
      modifies this`savedPasswords
      ensures savedPasswords == old(savedPasswords) + [restore]
    {
      savedPasswords := savedPasswords + [restore];
    }

    /** `handlePasswordItemClick` */
    method TogglePassword(id: string)
      modifies this`showPassword
      ensures showPassword == Toggle(old(showPassword), id)
    {
      showPassword := showPassword[id := !(id in showPassword && showPassword[id])];
    }

    /** `generateNewPassword`: its result goes into the open form's password field. */
    method GenerateNewPassword(draws: seq<seq<int>>) returns (r: Option<string>)
      requires ValidDraws(GenerateOptions, draws)
      ensures r == Generated(GenerateOptions, draws)
      ensures r.Some? ==> StrengthShown(r.value) == 90 && StrengthLabel(StrengthShown(r.value)) == VeryStrong
    {
      r := GeneratePassword(GenerateOptions, draws);
      if r.Some? {
        FullPolicyScoresTop(r.value, GenerateOptions);
      }
    }
  }
}
