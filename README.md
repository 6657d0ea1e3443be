# Password vault: a Dafny model

The system is a browser password vault written in TypeScript with React. The master
password is never written to a cookie or to `localStorage`; it is kept in
`sessionStorage` for the browser session. Registering writes an auth cookie holding
`encrypt("authenticated", master)`, which later proves the password when the session
copy is gone. The list of entries is stored in
`localStorage` as one ciphertext, encrypted under the master password.

Around that core:

- an authentication gate decides between the login form and the vault;
- the login/register form writes the cookie and the session copy;
- the vault dashboard loads, adds, edits, deletes and searches entries, re-encrypting
  on every change;
- a second, in-memory manager view adds favicons, undoable deletion and a
  visibility toggle;
- a generator card draws random passwords that cover every enabled character class
  and scores them.

The model has one Dafny module per source file, plus three shared modules:

| module | file | models |
|---|---|---|
| `Common` | `common.dfy` | the option type for `null`/`undefined`/throw, and Web Storage `getItem` |
| `Text` | `text.dfy` | the string operations the sources call: `split`, `trim`, `startsWith`, `includes`, ASCII `toLowerCase`, and `.length` in UTF-16 code units |
| `Lists` | `lists.dfy` | `Array.prototype.filter`, and deletion by id |
| `Storage` | `storage.dfy` | the cookie jar and the string `document.cookie` reads as, the two Web Storage areas, and the `Browser` object that holds all three |
| `PasswordUtils` | `password_utils.dfy` | `lib/password-utils.ts`: `generatePassword` and `calculatePasswordStrength` |
| `Encryption` | `encryption.dfy` | `lib/encryption.ts`: the cipher as a parameter, and `getMasterPassword` |
| `AuthCheck` | `auth_check.dfy` | `components/auth-check.tsx` |
| `AuthForm` | `auth_form.dfy` | `components/auth-form.tsx` |
| `PasswordDashboard` | `dashboard.dfy` | `components/password-dashboard.tsx` |
| `PasswordGenerator` | `generator.dfy` | `components/password-generator.tsx` |
| `PasswordManager` | `manager.dfy` | `components/password-manager.tsx` |

The library files are pure, so they become functions and lemmas. `generatePassword`
has a character loop and a coverage check, so it is also a method proved equal to the
function. Components update state in place, so each one is a `class`: its fields are
the `useState` variables, and its methods are the handlers and effects. The browser
stores are the fields of a shared `Browser` object. Each handler's `modifies` clause
names exactly the fields and stores it writes.

Outside inputs are parameters:

- AES (CryptoJS) is a `Cipher` record of two functions. `decrypt` yields `None`
  where `decryptData` throws.
- `JSON` is a `Json` record of two functions.
- `Math.random` is a list of index draws per attempt.
- The answer typed at `prompt` is a parameter.
- `crypto.randomUUID`, `Date.now` and `toISOString` are parameters.

What the vault needs of the cipher and the serialiser is stated as hypotheses of the
lemmas that use it:

- `DecryptsOwn`: decrypting with the encryption key gives the plaintext back.
- `SentinelBindsKey`: a token made under one key never decrypts to the sentinel under
  another.
- `ParsesOwn`: parsing what was stringified gives the list back.
- `IgnoresPadding`: a ciphertext cut at its first `=` decrypts as the whole one does.
  CryptoJS's Base64 parser stops at the first `=`, so this holds of the library.

Behaviour of the code worth knowing:

- `generatePassword` retries by unbounded recursion and has no "length too short"
  error. `PasswordUtils.ShortLengthNeverReturns` proves that such a policy never yields
  a password.
- Logging in does not check the password against the existing auth token. It accepts
  any password of 8 or more UTF-16 code units and overwrites the token
  (`AuthForm.LoginReplacesToken`). The token is checked only when the session copy is
  missing (`Encryption.MasterPassword`).
- The strength score is `10 × criteria` and tops out at 90, not 100
  (`PasswordUtils.CalculatePasswordStrength`).
- `getMasterPassword` keeps the master password itself in `sessionStorage`.
- The cookie reader splits each cookie at `=`, so a Base64 token, which ends in `=`
  padding, is read back cut at its first `=` (`Storage.TokenRoundTrip`). The cut token
  still decrypts, because CryptoJS ignores what follows the first `=`
  (`Encryption.UnlockWithToken`).
- Lengths (`password.length`, zod's `min(8)`) count UTF-16 code units, so a character
  outside the Basic Multilingual Plane counts twice (`Text.Utf16LengthAstral`).

## Model

| member | source | states |
|---|---|---|
| Common.Get | lib/encryption.ts:18 | `getItem` gives a value exactly when the key is stored, and then the stored value |
| Text.ToLower | components/password-dashboard.tsx:155-157 | lowering keeps the length, maps each character by ASCII lowering, and leaves no uppercase letter |
| Text.ToLowerIdempotent | components/password-dashboard.tsx:155-157 | lowering twice is lowering once |
| Text.ContainsAt | components/password-dashboard.tsx:155 | a string `includes` every substring that occurs at some position |
| Text.MentionsFacts | components/password-dashboard.tsx:155-157 | the search test on one field accepts the empty term, and lowering the term first changes nothing |
| Text.Split | lib/encryption.ts:24 | `split` gives at least one piece and no piece holds the separator |
| Text.JoinSplit | lib/encryption.ts:24 | joining the pieces of a `split` with the separator gives the string back |
| Text.SplitNoSep | lib/encryption.ts:29 | a string without the separator splits into itself alone |
| Text.SplitConcat | lib/encryption.ts:24 | splitting `a + sep + b` splits `a` and `b` separately |
| Text.SplitFirstPiece | lib/encryption.ts:29 | when `a` has no separator, piece 0 of `a + sep + b` is `a` and piece 1 is the first piece of `b` |
| Text.TrimStart | lib/encryption.ts:25 | the result is a suffix of the input that starts with no whitespace, and every character removed is whitespace |
| Text.TrimEnd | lib/encryption.ts:25 | the result is a prefix of the input that ends with no whitespace, and every character removed is whitespace |
| Text.SplitFirstNonEmpty | lib/encryption.ts:29-30 | a string that does not start with the separator has a non-empty first piece |
| Text.Utf16Length | lib/password-utils.ts:57-59 | `.length` in UTF-16 code units lies between the number of characters and twice that |
| Text.Utf16LengthBmp | components/auth-form.tsx:17 | a string with no character outside the Basic Multilingual Plane has one code unit per character |
| Text.Utf16LengthAstral | components/auth-form.tsx:17 | four emoji are four characters but eight code units, so they meet an 8-unit minimum |
| Text.TrimSpaced | lib/encryption.ts:25 | `trim` leaves a string without edge whitespace alone and removes one leading space |
| Lists.Filter | components/password-dashboard.tsx:128 | `filter` keeps only elements that pass, and never more than there were |
| Lists.FilterCount | components/password-dashboard.tsx:153-158 | every occurrence of a passing value is kept and every occurrence of a failing value is dropped |
| Lists.FilterMember | components/password-dashboard.tsx:153-158 | a value is in the result exactly when it is in the input and passes |
| Lists.FilterConcat | components/password-dashboard.tsx:128 | filtering a concatenation filters each side, keeping the order |
| Lists.FilterAll | components/password-dashboard.tsx:153-158 | when every element passes, the filter returns the input unchanged |
| Lists.FilterAgree | components/password-dashboard.tsx:153-158 | two tests that agree on every element filter alike |
| Lists.RemoveKey | components/password-dashboard.tsx:128 | deletion by id leaves nothing with that id, keeps everything else, and adds nothing |
| Lists.RemoveAbsent | components/password-dashboard.tsx:128 | deleting an id nothing carries leaves the list as it is |
| Lists.RemoveConcat | components/password-dashboard.tsx:128 | deleting from a concatenation deletes from each side |
| Lists.AppendThenRemove | components/password-dashboard.tsx:106 | deleting the id of an entry just appended under a fresh id gives the list back |
| Lists.RemoveAround | components/password-dashboard.tsx:128 | deleting the id of `x` from `a + [x] + b`, with no other carrier, leaves `a + b` |
| Lists.RemoveAt | components/password-manager.tsx:218 | with unique ids, deleting the id of entry `i` removes exactly that entry and keeps the order of the rest |
| Lists.UniqueKeysFilter | components/password-dashboard.tsx:128 | filtering keeps ids unique |
| Lists.UniqueKeysRemove | components/password-dashboard.tsx:128 | deleting by id keeps ids unique |
| PasswordUtils.UpperChars | lib/password-utils.ts:10 | the uppercase constant holds exactly the characters `/[A-Z]/` matches (line 38) |
| PasswordUtils.LowerChars | lib/password-utils.ts:11 | the lowercase constant holds exactly the characters `/[a-z]/` matches (line 39) |
| PasswordUtils.DigitChars | lib/password-utils.ts:12 | the digit constant holds exactly the characters `/[0-9]/` matches (line 40) |
| PasswordUtils.SymbolCharsExact | lib/password-utils.ts:13 | the symbol constant holds exactly the characters the symbol class of line 41 matches |
| PasswordUtils.Alphabet | lib/password-utils.ts:15-27 | the alphabet is never empty, and with no class enabled it is lowercase followed by digits |
| PasswordUtils.AlphabetMember | lib/password-utils.ts:19-27 | a character is in the alphabet exactly when an enabled class admits it; with none enabled, exactly when it is a lowercase letter or a digit |
| PasswordUtils.Spell | lib/password-utils.ts:30-33 | one attempt yields one character per draw, the alphabet character at the drawn index |
| PasswordUtils.Generated | lib/password-utils.ts:9-48 | a returned password has the requested length, uses only alphabet characters, covers every enabled class, and is the spelling of one of the attempts; with no class enabled the first attempt is returned (that it is the first passing attempt is `GeneratedFirst`) |
| PasswordUtils.GeneratedFirst | lib/password-utils.ts:29-47 | the result is the password of the first attempt that passes the coverage check, whatever the later attempts are; there is no result exactly when no attempt passes |
| PasswordUtils.BuildAlphabet | lib/password-utils.ts:15-27 | the step-by-step `chars +=` and the fallback build the alphabet |
| PasswordUtils.Draw | lib/password-utils.ts:30-33 | the character loop spells the attempt |
| PasswordUtils.CheckCoverage | lib/password-utils.ts:36-41 | `validPassword` is true exactly when every enabled class occurs |
| PasswordUtils.GeneratePassword | lib/password-utils.ts:9-48 | the method, with its loop and its recursion on failure, returns what `Generated` describes |
| PasswordUtils.ClassesOfHas | lib/password-utils.ts:38-41 | a class is among a password's classes exactly when its regular expression finds a match |
| PasswordUtils.ClassesOfBound | lib/password-utils.ts:38-41 | a password shows at most as many classes as it has characters |
| PasswordUtils.CoverNeedsLength | lib/password-utils.ts:35-41 | a password that passes the coverage check is at least as long as the number of enabled classes |
| PasswordUtils.ShortLengthNeverReturns | lib/password-utils.ts:44-46 | when the length is below the number of enabled classes, no attempt ever passes, so the call never returns a password |
| PasswordUtils.LongEnoughCanReturn | lib/password-utils.ts:30-48 | when the length reaches the number of enabled classes, some first attempt passes |
| PasswordUtils.SpellConcat | lib/password-utils.ts:30-33 | spelling two runs of draws is spelling each in turn |
| PasswordUtils.CoversExtend | lib/password-utils.ts:36-41 | coverage survives appending characters |
| PasswordUtils.Starts | lib/password-utils.ts:19-22 | the start of each enabled class is a valid alphabet index, one per enabled class |
| PasswordUtils.StartsCover | lib/password-utils.ts:19-22 | drawing the first character of each enabled class covers every enabled class |
| PasswordUtils.LengthPoints | lib/password-utils.ts:57-59 | the length criteria (8, 12 and 16 UTF-16 code units) give at most 3 points |
| PasswordUtils.Points | lib/password-utils.ts:56-69 | the nine criteria give at most 9 points |
| PasswordUtils.CalculatePasswordStrength | lib/password-utils.ts:51-73 | the empty password scores 0; any other scores ten times its criteria count, with length counted in UTF-16 code units; every score is a multiple of 10 between 0 and 90 |
| PasswordUtils.LengthPointsMonotone | lib/password-utils.ts:57-59 | a longer password never earns fewer length points |
| PasswordUtils.TopScore | lib/password-utils.ts:56-72 | the top score 90 is reached exactly when all nine criteria hold, the first being 16 or more UTF-16 code units |
| PasswordUtils.StrengthExamples | lib/password-utils.ts:51-73 | eight lowercase letters score 30, a mixed 8-character password 70, a mixed 12-character password 80 |
| PasswordUtils.AsciiLength | lib/password-utils.ts:57-59 | an ASCII string's `.length` is its number of characters |
| PasswordUtils.AllClassesPoints | lib/password-utils.ts:62-69 | a password with an uppercase letter, a lowercase letter, a digit and another character meets all six class criteria |
| PasswordUtils.LettersOnly | lib/password-utils.ts:56-69 | eight lowercase letters meet 3 criteria |
| PasswordUtils.MixedShort | lib/password-utils.ts:56-69 | a password with all four classes in 8 characters meets 7 criteria |
| PasswordUtils.MixedTwelve | lib/password-utils.ts:56-69 | a password with all four classes in 12 characters meets 8 criteria |
| PasswordUtils.FullPolicyScoresTop | lib/password-utils.ts:38-41 | a password with all four classes enabled, at least 16 characters and passing the coverage check scores 90 |
| Storage.Lookup | components/auth-form.tsx:80 | there is no cookie of a name exactly when no cookie in the jar carries it |
| Storage.UpsertLookup | components/auth-form.tsx:80 | writing a cookie makes its value the one read back, keeps every other cookie, and keeps the jar well formed |
| Storage.ExpireLookup | components/auth-check.tsx:25 | expiring a cookie removes it, keeps every other cookie, and keeps the jar well formed |
| Storage.FindAuth | lib/encryption.ts:25 | `find` gives nothing exactly when no piece is the auth cookie, and otherwise one of the pieces that is |
| Storage.HasAuthCookieFinds | components/auth-check.tsx:14 | the gate's `some` and the unlock path's `find` agree on whether there is an auth cookie |
| Storage.TokenOf | lib/encryption.ts:29 | the extracted token holds no `=` |
| Storage.RenderSplit | lib/encryption.ts:24 | splitting `document.cookie` at `;` gives one piece per cookie, `name=value` with a space before all but the first |
| Storage.AuthPieceIff | lib/encryption.ts:25 | a piece passes the trim-and-startsWith test exactly when its cookie is named `auth_token` |
| Storage.PairTrims | lib/encryption.ts:25 | `trim` removes the separator's space from a piece |
| Storage.PairStartsIff | lib/encryption.ts:25 | `name=value` starts with `auth_token=` exactly when the name is `auth_token` |
| Storage.FindFirstAt | lib/encryption.ts:25 | `find` returns the first piece that passes |
| Storage.LookupFirst | lib/encryption.ts:25 | the cookie found by name is the first of that name in the jar |
| Storage.AuthPieces | lib/encryption.ts:24-25 | the auth pieces of the cookie string are exactly those of the cookies named `auth_token` |
| Storage.TokenOfPiece | lib/encryption.ts:29 | the token in an auth piece is the cookie value up to its first `=` |
| Storage.NoAuthCookie | lib/encryption.ts:24-27 | without an `auth_token` cookie, neither the unlock path nor the gate finds one |
| Storage.AuthCookieToken | lib/encryption.ts:24-29 | with one, the unlock path reads the first such cookie's value up to its first `=` |
| Storage.TokenFromJar | lib/encryption.ts:24-30 | the token read back is the stored auth value up to its first `=`, or nothing when there is no auth cookie |
| Storage.TokenRoundTrip | components/auth-form.tsx:79-80 | after writing the auth cookie, the unlock path reads the token back whole exactly when it holds no `=` |
| Storage.ExpiredIsGone | components/auth-check.tsx:25 | after the auth cookie is expired, the gate does not see it and no token can be read |
| Storage.Browser.constructor | components/auth-check.tsx:14 | the browser starts with the given jar and storage areas |
| Storage.Browser.SetCookie | components/auth-form.tsx:80 | the jar becomes the old one with the cookie written, and the cookie reads back |
| Storage.Browser.ExpireCookie | components/auth-check.tsx:25 | the jar becomes the old one without the cookie, and the cookie reads back as absent |
| Encryption.MasterPassword | lib/encryption.ts:15-54 | a non-empty session copy is returned as is. Otherwise the result is the typed answer exactly when there is an auth cookie with a non-empty token, a non-empty answer, and the token decrypts under the answer to `authenticated`; otherwise nothing. A result is never empty |
| Encryption.GetMasterPassword | lib/encryption.ts:15-54 | the method returns `MasterPassword`, and stores the answer in `sessionStorage` exactly when it unlocked with it |
| Encryption.UnlockWithToken | lib/encryption.ts:24-42 | with the cookie written as `encrypt("authenticated", pw)`, `=` padding included, and no session copy, the answer `pw` unlocks and every other answer is refused (for a cipher that ignores what follows the first `=`) |
| AuthCheck.Gate | components/auth-check.tsx:14-31 | no cookie exactly when the cookie test fails; unlocked exactly when there is a cookie and a non-empty session copy |
| AuthCheck.ViewOf | components/auth-check.tsx:34-43 | a spinner exactly while undecided; the dashboard exactly when authenticated |
| AuthCheck.AuthCheck.constructor | components/auth-check.tsx:10 | the gate starts undecided |
| AuthCheck.AuthCheck.CheckSession | components/auth-check.tsx:12-32 | authenticated exactly when unlocked. An expired session clears the auth cookie and leaves the expiry message; nothing else is written |
| AuthCheck.ExpiredSettles | components/auth-check.tsx:14-28 | after an expired session is cleared, the next check finds no cookie |
| AuthCheck.UnlockedNeedsNoPrompt | components/auth-check.tsx:21-31 | past the gate, `getMasterPassword` returns the session copy whatever the prompt would say |
| AuthCheck.NoCookieNoPassword | components/auth-check.tsx:14-19 | when the gate sees no cookie and there is no session copy, `getMasterPassword` gives nothing |
| AuthForm.Validate | components/auth-form.tsx:51-76 | a password under 8 UTF-16 code units fails with the length message. Otherwise the only failure is a mismatched confirmation when registering. Login succeeds exactly when the length rule holds |
| AuthForm.AuthForm.constructor | components/auth-form.tsx:25-29 | the form starts on the login tab, empty and idle |
| AuthForm.AuthForm.Fill | components/auth-form.tsx:123 | the tab and both fields take the entered values |
| AuthForm.AuthForm.ShowPendingError | components/auth-form.tsx:32-42 | a pending `auth_error` is shown once and removed; nothing else is touched |
| AuthForm.AuthForm.HandleSubmit | components/auth-form.tsx:44-98 | on a validation error, the message is set and no store changes. On success: the auth cookie is written; the session gets the master password and the success message; registering also stores an encrypted empty vault |
| AuthForm.LoginReplacesToken | components/auth-form.tsx:79-94 | logging in with any password of 8 or more UTF-16 code units is accepted, and then the cookie unlocks with the new password and no longer with the old one |
| PasswordDashboard.DraftOf | components/password-dashboard.tsx:132-135 | the form loaded for editing carries the entry's id, title and password |
| PasswordDashboard.VaultRoundTrip | components/password-dashboard.tsx:80 | what saving stores is what loading decodes (lines 52-53), given a cipher and a serialiser that invert themselves |
| PasswordDashboard.NewEntry | components/password-dashboard.tsx:93-104 | a new entry takes the fresh id, the time, the title and the password, and `""` for each absent optional field |
| PasswordDashboard.Overlay | components/password-dashboard.tsx:121 | the edited entry takes the edited id, every field the draft holds, and the old entry's value for every field the draft lacks |
| PasswordDashboard.UpdateWhere | components/password-dashboard.tsx:121 | updating keeps the length and every id, overlays the draft on every entry with the edited id, and leaves every entry with another id as it was |
| PasswordDashboard.UpdateIdempotent | components/password-dashboard.tsx:118-125 | saving the same edit twice equals saving it once |
| PasswordDashboard.UpdateUntouched | components/password-dashboard.tsx:132-135 | opening an entry for editing and saving it unchanged leaves the vault as it was |
| PasswordDashboard.UniqueIdsKept | components/password-dashboard.tsx:106 | adding under a fresh id, updating and deleting keep ids unique (lines 121, 128) |
| PasswordDashboard.Search | components/password-dashboard.tsx:153-158 | every listed entry matches the term |
| PasswordDashboard.SearchMember | components/password-dashboard.tsx:153-158 | an entry is listed exactly when it is in the vault and matches |
| PasswordDashboard.SearchEmpty | components/password-dashboard.tsx:153-158 | an empty search lists the whole vault, in order |
| PasswordDashboard.SearchIgnoresCase | components/password-dashboard.tsx:155-157 | the search does not depend on the case of the term |
| PasswordDashboard.Href | components/password-dashboard.tsx:379 | the link starts with `http`. It is the url itself exactly when the url starts with `http`, and otherwise the url behind `https://` |
| PasswordDashboard.HrefIdempotent | components/password-dashboard.tsx:379 | a link taken as a url links to itself |
| PasswordDashboard.Dashboard.constructor | components/password-dashboard.tsx:26-37 | the dashboard starts empty, closed, not editing, with a blank form |
| PasswordDashboard.Dashboard.SetSearchTerm | components/password-dashboard.tsx:194 | the search term takes the typed value |
| PasswordDashboard.Dashboard.Logout | components/password-dashboard.tsx:88-91 | the auth cookie is expired |
| PasswordDashboard.Dashboard.Load | components/password-dashboard.tsx:41-69 | Without a key, the dashboard logs out and shows nothing new. With a key and no vault, it stores an encrypted empty vault and shows none. With a vault, it shows the decoded entries, or logs out when decoding fails |
| PasswordDashboard.Dashboard.SavePasswords | components/password-dashboard.tsx:72-86 | without a key, it logs out and changes nothing else; with one, the vault holds the encrypted list and the state shows it |
| PasswordDashboard.Dashboard.AddPassword | components/password-dashboard.tsx:93-116 | without a title or password nothing changes; otherwise the new entry is saved at the end, the form is reset and the dialog closed |
| PasswordDashboard.Dashboard.UpdatePassword | components/password-dashboard.tsx:118-125 | without an edited id nothing changes; otherwise the updated list is saved and editing ends |
| PasswordDashboard.Dashboard.DeletePassword | components/password-dashboard.tsx:127-130 | the list without that id is saved |
| PasswordDashboard.Dashboard.Edit | components/password-dashboard.tsx:132-135 | the entry is selected and loaded into the form |
| PasswordDashboard.Dashboard.CancelEdit | components/password-dashboard.tsx:137-147 | editing ends and the form is reset |
| PasswordGenerator.StrengthLabel | components/password-generator.tsx:64-69 | Weak exactly below 30, Moderate exactly from 30 to below 60, Strong exactly from 60 to below 80, Very Strong exactly from 80 (the same rule as password-manager.tsx lines 292-297) |
| PasswordGenerator.LabelMonotone | components/password-generator.tsx:64-69 | a higher score never gets a weaker label |
| PasswordGenerator.LabelOfPoints | components/password-generator.tsx:64-69 | on real scores: up to 2 criteria is Weak, 3-5 Moderate, 6-7 Strong, 8-9 Very Strong |
| PasswordGenerator.Generator.Options | components/password-generator.tsx:43-49 | in a valid state, some class is enabled and the loop runs `length` times |
| PasswordGenerator.Generator.constructor | components/password-generator.tsx:21-28 | the card starts valid: 16 characters, every class, no password, score 0 |
| PasswordGenerator.Generator.Regenerate | components/password-generator.tsx:31-52 | a generated password replaces the old one, resets the copied flag and is scored when non-empty; when the attempts run out nothing changes |
| PasswordGenerator.Generator.OnPasswordChanged | components/password-generator.tsx:36-40 | a non-empty password is scored; an empty one keeps the old score |
| PasswordGenerator.Generator.SetLength | components/password-generator.tsx:117-123 | the slider sets the length and keeps the card valid |
| PasswordGenerator.Generator.SetUppercase | components/password-generator.tsx:133-134 | the switch takes the click unless it is the only one on; the card stays valid |
| PasswordGenerator.Generator.SetLowercase | components/password-generator.tsx:143-144 | the switch takes the click unless it is the only one on; the card stays valid |
| PasswordGenerator.Generator.SetNumbers | components/password-generator.tsx:153-154 | the switch takes the click unless it is the only one on; the card stays valid |
| PasswordGenerator.Generator.SetSymbols | components/password-generator.tsx:163-164 | the switch takes the click unless it is the only one on; the card stays valid |
| PasswordGenerator.Generator.Copy | components/password-generator.tsx:54-62 | with a password present (the button is disabled otherwise), the text handed to the clipboard is the current password and the copied flag is set |
| PasswordGenerator.ValidCanGenerate | components/password-generator.tsx:117-164 | in every state the card allows, generation can finish |
| PasswordGenerator.DefaultIsVeryStrong | components/password-generator.tsx:23-27 | at the default settings every generated password scores 90 and is labelled Very Strong |
| PasswordManager.StripScheme | components/password-manager.tsx:170 | a leading `https://`, or else `http://`, is removed case-sensitively; anything else is kept |
| PasswordManager.Host | components/password-manager.tsx:170 | the host holds no `/`, begins the url without its scheme, and ends where that url ends or at its first `/` |
| PasswordManager.HostPlain | components/password-manager.tsx:170 | a url not starting with `http://` or `https://`, other schemes included, has everything before its first `/` as host |
| PasswordManager.HostOtherScheme | components/password-manager.tsx:170 | only `http://` and `https://` are stripped: the host of `ftp://site` is `ftp:` |
| PasswordManager.StripsScheme | components/password-manager.tsx:170 | `http://` and `https://` are removed whatever follows |
| PasswordManager.HostOf | components/password-manager.tsx:170 | the host is read back from `h`, `h/path`, `http://h`, `https://h`, `https://h/path` and `http://h/path` |
| PasswordManager.NewSaved | components/password-manager.tsx:162-171 | a new entry takes the id and the form fields, is marked "Just now", and gets the host's favicon |
| PasswordManager.Edited | components/password-manager.tsx:186-192 | an edit replaces the four form fields and keeps the id, `lastUsed` and favicon |
| PasswordManager.ReplaceWhere | components/password-manager.tsx:194 | the edited list keeps the length and every id, turns every entry with the current id into the edited current entry, and changes no entry with another id |
| PasswordManager.EditInPlace | components/password-manager.tsx:183-196 | with unique ids, editing entry `i` rewrites exactly that entry |
| PasswordManager.Search | components/password-manager.tsx:301-306 | every listed entry matches the term |
| PasswordManager.SearchFacts | components/password-manager.tsx:301-306 | an empty search lists everything, and the case of the term does not matter |
| PasswordManager.UndoMovesToEnd | components/password-manager.tsx:218 | deleting entry `i` and undoing (line 234) restores the same entries, with entry `i` moved to the end; the list is unchanged exactly when the entry was last |
| PasswordManager.Toggle | components/password-manager.tsx:286-289 | the toggled entry flips visibility; every other entry keeps its setting |
| PasswordManager.ToggleTwice | components/password-manager.tsx:284-290 | two clicks restore every entry's visibility |
| PasswordManager.StrengthShown | components/password-manager.tsx:131-148 | an empty form password shows 0; any other shows its score, a multiple of 10 up to 90 |
| PasswordManager.Manager.constructor | components/password-manager.tsx:60-71 | the manager starts empty, with every dialog closed and nothing selected |
| PasswordManager.Manager.LoadDemo | components/password-manager.tsx:96-128 | the list becomes the three demonstration entries |
| PasswordManager.Manager.OnFormPasswordChanged | components/password-manager.tsx:131-148 | the shown strength follows the form's password |
| PasswordManager.Manager.AddPassword | components/password-manager.tsx:162-181 | the new entry goes to the front and the dialog closes |
| PasswordManager.Manager.SelectForEdit | components/password-manager.tsx:564-565 | the entry is selected and the edit dialog opens |
| PasswordManager.Manager.EditPassword | components/password-manager.tsx:183-204 | without a selected entry nothing changes; otherwise the edited list is stored, the dialog closes and the selection clears |
| PasswordManager.Manager.ConfirmDelete | components/password-manager.tsx:206-209 | the entry is marked for deletion and the dialog opens |
| PasswordManager.Manager.DeletePassword | components/password-manager.tsx:211-231 | without a marked entry nothing changes; otherwise its id is removed, the dialog closes and the marked entry is handed to undo |
| PasswordManager.Manager.Undo | components/password-manager.tsx:232-234 | the restored entry is appended at the end |
| PasswordManager.Manager.TogglePassword | components/password-manager.tsx:284-290 | visibility becomes the toggled map |
| PasswordManager.Manager.GenerateNewPassword | components/password-manager.tsx:263-282 | the result is the generator's at 16 characters with every class, and any password it returns scores 90 and is labelled Very Strong |

## Left out

- The encryption library (CryptoJS AES) is not modelled: the cipher is a pair of
  functions, and its round trip, its key binding and its Base64 parser's stop at the
  first `=` are hypotheses (`DecryptsOwn`, `SentinelBindsKey`, `IgnoresPadding`).
  CryptoJS draws a fresh salt on every `encrypt`, so two encryptions of the same text
  differ; that randomness is not modelled, and `encrypt` is a function of its text
  and key. A wrong key is not known to give `""` or to throw; any
  non-sentinel result is refused alike.
- `JSON.stringify`/`JSON.parse` are a pair of functions. A vault that parses to
  something other than an entry list is not distinguished from one that fails to
  parse.
- `Math.random`: a list of index draws stands in for it. There is no claim about
  uniformity, or about the probability that the retry ends.
- PasswordUtils.Generated: returns `None` when the supplied attempts run out, which
  stands for the source still recursing. It does not model a call that never
  returns.
- PasswordUtils.CalculatePasswordStrength: the floating-point
  `Math.floor((score / 10) * 100)` is written as `score * 100 / 10`. The two agree
  for the nine possible point totals, 0 through 9.
- Text.ToLower: lowers ASCII letters only. `toLowerCase` on other scripts and Unicode
  case folding are not modelled.
- Cookie attributes (`path`, `max-age`), expiry by time, and RFC 6265 details are not
  modelled. The jar is the ordered list a script sees: writing a name replaces that
  cookie in place or adds it at the end, and `max-age=0` removes it.
- The outer `try`/`catch` of `getMasterPassword`, of the dashboard's load and save,
  and of the form's submit handler are not modelled. Only decryption and parsing can
  fail in the model, and those failures are modelled.
- `prompt` and `alert`: the prompt's answer is a parameter (`None` when cancelled).
  Alerts and console messages are not modelled.
- React rendering, toasts, the clipboard itself (`Copy` returns the text it is
  handed), `setTimeout` resets,
  `window.location` reloads and `router.refresh` are not modelled. The handlers'
  state changes are.
- zod: the form schema is modelled as its only rule, a minimum of 8 UTF-16 code units. The
  manager's add/edit forms validate each field to be non-empty before the handler
  runs, and that validation is not modelled: the handlers take the validated values.
- The manager's edit-form reset effect (password-manager.tsx lines 151-160) and its
  `activeTab` and `searchTerm` setters are not modelled. They only copy values into
  fields the model reads directly.
- The manager's per-entry `copied` map and its `deletedPassword` state are not
  modelled. The state is never read, and the `copied` map only drives an icon.
- The dashboard's own visibility map (password-dashboard.tsx lines 247, 335, 425) is
  not modelled. It is the same update as `PasswordManager.Toggle`.
- `crypto.randomUUID()`, `Date.now().toString()` and `new Date().toISOString()` are
  parameters of the handlers that use them.
- components/simple-dashboard.tsx, which the gate renders, is not part of this model.
