/** The password generator and the strength scorer of lib/password-utils.ts.

    `generatePassword` draws each character with `Math.random`; here the draws are
    given: one list of alphabet indices per attempt, in the order the attempts are
    made. The source retries by recursion until the coverage check passes, without
    bound; the model returns `None` when the supplied attempts run out, which stands
    for the source still recursing. */
module PasswordUtils {
  import opened Common
  import opened Text

  const UppercaseChars: string := "ABCDEFGHIJKLMNOPQRSTUVWXYZ"
  const LowercaseChars: string := "abcdefghijklmnopqrstuvwxyz"
  const NumberChars: string := "0123456789"
  const SymbolChars: string := "!@#$%^&*()_-+=<>?/"

  datatype PasswordOptions = PasswordOptions(
    length: int, uppercase: bool, lowercase: bool, numbers: bool, symbols: bool)

  /** The four character classes of the options and of the coverage check. */
  datatype CharClass = Upper | Lower | Digit | Symbol

  /** The regular expression class `[!@#$%^&*()_\-+=<>?/]` of the symbol check. */
  predicate IsSymbolClass(c: char) {
    || c == '!' || c == '@' || c == '#' || c == '$' || c == '%' || c == '^'
    || c == '&' || c == '*' || c == '(' || c == ')' || c == '_' || c == '-'
    || c == '+' || c == '=' || c == '<' || c == '>' || c == '?' || c == '/'
  }

  /** The regular expression the coverage check uses for class `k`. */
  predicate Member(c: char, k: CharClass) {
    match k
    case Upper => IsUpper(c)
    case Lower => IsLower(c)
    case Digit => IsDigit(c)
    case Symbol => IsSymbolClass(c)
  }

  /** `/[...]/.test(p)` for class `k`. */
  predicate Has(p: string, k: CharClass) {
    exists i :: 0 <= i < |p| && Member(p[i], k)
  }

  /** The classes the options switch on. */
  function Enabled(o: PasswordOptions): set<CharClass> {
    (if o.uppercase then {Upper} else {}) + (if o.lowercase then {Lower} else {})
    + (if o.numbers then {Digit} else {}) + (if o.symbols then {Symbol} else {})
  }

  /** The coverage check of the generator: every enabled class occurs. */
  predicate Covers(p: string, o: PasswordOptions) {
    forall k :: k in Enabled(o) ==> Has(p, k)
  }

  /** The class constants are exactly the characters of their regular expressions. */
  lemma UpperChars(c: char)
    ensures c in UppercaseChars <==> IsUpper(c)
  {
    if IsUpper(c) {
      assert UppercaseChars[c as int - 'A' as int] == c;
    }
  }

  lemma LowerChars(c: char)
    ensures c in LowercaseChars <==> IsLower(c)
  {
    if IsLower(c) {
      assert LowercaseChars[c as int - 'a' as int] == c;
    }
  }

  lemma DigitChars(c: char)
    ensures c in NumberChars <==> IsDigit(c)
  {
    if IsDigit(c) {
      assert NumberChars[c as int - '0' as int] == c;
    }
  }

  /** The symbol test of the coverage check matches exactly the symbol constant. */
  lemma SymbolCharsExact(c: char)
    ensures c in SymbolChars <==> IsSymbolClass(c)
  {
  }

  /** Membership in the alphabet, stated class by class. */
  predicate InAlphabet(o: PasswordOptions, c: char) {
    if Enabled(o) == {} then IsLower(c) || IsDigit(c)
    else exists k :: k in Enabled(o) && Member(c, k)
  }

  /** The enabled classes concatenated in the order upper, lower, digits, symbols. */
  function Joined(o: PasswordOptions): string {
    (if o.uppercase then UppercaseChars else "") + (if o.lowercase then LowercaseChars else "")
    + (if o.numbers then NumberChars else "") + (if o.symbols then SymbolChars else "")
  }

  /** The alphabet: the enabled classes concatenated, or lowercase followed by digits
      when that is empty. */
  function Alphabet(o: PasswordOptions): (chars: string)
    ensures |chars| > 0
    ensures Enabled(o) == {} ==> chars == LowercaseChars + NumberChars
  {
    if Joined(o) == "" then LowercaseChars + NumberChars else Joined(o)
  }

  /** A character is in the alphabet exactly when an enabled class allows it; with
      no class enabled, exactly when it is a lowercase letter or a digit. */
  lemma AlphabetMember(o: PasswordOptions, c: char)
    ensures c in Alphabet(o) <==> InAlphabet(o, c)
  {
    UpperChars(c); LowerChars(c); DigitChars(c); SymbolCharsExact(c);
    if Joined(o) == "" {
      assert !o.uppercase && !o.lowercase && !o.numbers && !o.symbols by {
        assert UppercaseChars[0] == 'A' && LowercaseChars[0] == 'a';
        assert NumberChars[0] == '0' && SymbolChars[0] == '!';
      }
    } else {
      assert Enabled(o) != {} by {
        assert o.uppercase || o.lowercase || o.numbers || o.symbols;
      }
      if o.uppercase && IsUpper(c) { assert Member(c, Upper); }
      if o.lowercase && IsLower(c) { assert Member(c, Lower); }
      if o.numbers && IsDigit(c) { assert Member(c, Digit); }
      if o.symbols && IsSymbolClass(c) { assert Member(c, Symbol); }
    }
  }

  /** How many times `for (let i = 0; i < length; i++)` runs. */
  function Count(length: int): nat {
    if length > 0 then length else 0
  }

  /** One attempt's random indices: one per character, each below the alphabet size,
      as `Math.floor(Math.random() * chars.length)` gives. */
  predicate ValidDraw(o: PasswordOptions, d: seq<int>) {
    |d| == Count(o.length) && forall j :: 0 <= j < |d| ==> 0 <= d[j] < |Alphabet(o)|
  }

  predicate ValidDraws(o: PasswordOptions, draws: seq<seq<int>>) {
    forall k :: 0 <= k < |draws| ==> ValidDraw(o, draws[k])
  }

  /** The password one attempt spells out of the alphabet. */
  function Spell(chars: string, d: seq<int>): (p: string)
    requires forall j :: 0 <= j < |d| ==> 0 <= d[j] < |chars|
    ensures |p| == |d|
    ensures forall j :: 0 <= j < |d| ==> p[j] == chars[d[j]]
  {
    seq(|d|, j requires 0 <= j < |d| => chars[d[j]])
  }

  /** What `generatePassword` returns after the given attempts: the first attempt that
      covers every enabled class, or `None` when no attempt does (see `GeneratedFirst`). */
  function Generated(o: PasswordOptions, draws: seq<seq<int>>): (r: Option<string>)
    requires ValidDraws(o, draws)
    ensures r.Some? ==> |r.value| == Count(o.length)
    ensures r.Some? ==> forall i :: 0 <= i < |r.value| ==> r.value[i] in Alphabet(o)
    ensures r.Some? ==> Covers(r.value, o)
    ensures r.Some? ==> exists k :: 0 <= k < |draws| && r.value == Spell(Alphabet(o), draws[k])
    ensures Enabled(o) == {} && |draws| > 0 ==> r == Some(Spell(LowercaseChars + NumberChars, draws[0]))
    decreases |draws|
  {
    if |draws| == 0 then None
    else
      assert ValidDraw(o, draws[0]);
      var p := Spell(Alphabet(o), draws[0]);
      assert forall i :: 0 <= i < |p| ==> p[i] in Alphabet(o);
      if Covers(p, o) then Some(p)
      else
        var r := Generated(o, draws[1..]);
        assert r.Some? ==> exists k :: 0 <= k < |draws| && r.value == Spell(Alphabet(o), draws[k]) by {
          if r.Some? {
            var k :| 0 <= k < |draws[1..]| && r.value == Spell(Alphabet(o), draws[1..][k]);
            assert draws[1..][k] == draws[k + 1];
          }
        }
        r
  }

  /** The attempt `d` spells a password that passes the coverage check. */
  predicate Passes(o: PasswordOptions, d: seq<int>) {
    ValidDraw(o, d) && Covers(Spell(Alphabet(o), d), o)
  }

  /** The generator returns the password of the first passing attempt, ignoring all
      later ones, and returns nothing exactly when no attempt passes. */
  lemma {:induction false} GeneratedFirst(o: PasswordOptions, draws: seq<seq<int>>)
    requires ValidDraws(o, draws)
    ensures Generated(o, draws).None? <==> forall k :: 0 <= k < |draws| ==> !Passes(o, draws[k])
    ensures forall k :: 0 <= k < |draws| && Passes(o, draws[k])
                        && (forall j :: 0 <= j < k ==> !Passes(o, draws[j])) ==>
                        Generated(o, draws) == Some(Spell(Alphabet(o), draws[k]))
    decreases |draws|
  {
    if |draws| > 0 {
      var rest := draws[1..];
      assert ValidDraws(o, rest) by {
        forall k | 0 <= k < |rest| ensures ValidDraw(o, rest[k]) { assert rest[k] == draws[k + 1]; }
      }
      GeneratedFirst(o, rest);
      if !Passes(o, draws[0]) {
        assert Generated(o, draws) == Generated(o, rest);
        forall k | 0 < k < |draws| ensures draws[k] == rest[k - 1] { }
        forall k | 0 <= k < |draws| && Passes(o, draws[k]) && (forall j :: 0 <= j < k ==> !Passes(o, draws[j]))
          ensures Generated(o, draws) == Some(Spell(Alphabet(o), draws[k]))
        {
          assert k > 0;
          assert forall j :: 0 <= j < k - 1 ==> !Passes(o, rest[j]) by {
            forall j | 0 <= j < k - 1 ensures !Passes(o, rest[j]) { assert rest[j] == draws[j + 1]; }
          }
        }
      }
    }
  }

  /** The alphabet step of `generatePassword`: append each enabled class, and fall
      back to lowercase and digits when nothing was appended. */
  method BuildAlphabet(o: PasswordOptions) returns (chars: string)
    ensures chars == Alphabet(o)
  {
    chars := "";
    ghost var before := chars;
    if o.uppercase { chars := chars + UppercaseChars; }
    AppendWhen(before, o.uppercase, UppercaseChars, chars);
    before := chars;
    if o.lowercase { chars := chars + LowercaseChars; }
    AppendWhen(before, o.lowercase, LowercaseChars, chars);
    before := chars;
    if o.numbers { chars := chars + NumberChars; }
    AppendWhen(before, o.numbers, NumberChars, chars);
    before := chars;
    if o.symbols { chars := chars + SymbolChars; }
    AppendWhen(before, o.symbols, SymbolChars, chars);
    JoinedParts(o, chars);
    if |chars| == 0 {
      chars := LowercaseChars + NumberChars;
    }
  }

  /** One `if (flag) chars += part` step. */
  lemma AppendWhen(before: string, flag: bool, part: string, after: string)
    requires after == if flag then before + part else before
    ensures after == before + (if flag then part else "")
  {
  }

  lemma JoinedParts(o: PasswordOptions, chars: string)
    requires chars == "" + (if o.uppercase then UppercaseChars else "") + (if o.lowercase then LowercaseChars else "")
      + (if o.numbers then NumberChars else "") + (if o.symbols then SymbolChars else "")
    ensures chars == Joined(o)
    ensures Alphabet(o) == if |chars| == 0 then LowercaseChars + NumberChars else chars
  {
    assert "" + (if o.uppercase then UppercaseChars else "") == (if o.uppercase then UppercaseChars else "");
  }

  /** The sampling loop: one character of the alphabet per drawn index. */
  method Draw(chars: string, attempt: seq<int>) returns (password: string)
    requires forall j :: 0 <= j < |attempt| ==> 0 <= attempt[j] < |chars|
    ensures password == Spell(chars, attempt)
  {
    password := "";
    var i := 0;
    while i < |attempt|
      invariant 0 <= i <= |attempt|
      invariant password == Spell(chars, attempt[..i])
    {
      password := password + [chars[attempt[i]]];
      i := i + 1;
    }
    assert attempt[..i] == attempt;
  }

  /** The coverage check: one regular-expression test per enabled class. */
  method CheckCoverage(password: string, o: PasswordOptions) returns (valid: bool)
    ensures valid == Covers(password, o)
  {
    valid := true;
    if o.uppercase && !Has(password, Upper) { valid := false; }
    if o.lowercase && !Has(password, Lower) { valid := false; }
    if o.numbers && !Has(password, Digit) { valid := false; }
    if o.symbols && !Has(password, Symbol) { valid := false; }
  }

  /** `generatePassword`: build the alphabet, draw `length` characters, check that
      every enabled class occurs, and retry with the next attempt when one does not. */
  method GeneratePassword(o: PasswordOptions, draws: seq<seq<int>>) returns (r: Option<string>)
    requires ValidDraws(o, draws)
    ensures r == Generated(o, draws)
    decreases |draws|
  {
    var chars := BuildAlphabet(o);
    if |draws| == 0 {
      return None;
    }
    assert ValidDraw(o, draws[0]);
    var password := Draw(chars, draws[0]);
    var valid := CheckCoverage(password, o);
    if !valid {
      r := GeneratePassword(o, draws[1..]);
      return;
    }
    r := Some(password);
  }

  /** The classes that occur in a string. */
  function ClassesOf(p: string): set<CharClass>
    decreases |p|
  {
    if |p| == 0 then {}
    else
      (set k | k in {Upper, Lower, Digit, Symbol} && Member(p[0], k)) + ClassesOf(p[1..])
  }

  lemma {:induction false} ClassesOfHas(p: string, k: CharClass)
    ensures k in ClassesOf(p) <==> Has(p, k)
    decreases |p|
  {
    if |p| > 0 {
      ClassesOfHas(p[1..], k);
      if Has(p[1..], k) {
        var i :| 0 <= i < |p[1..]| && Member(p[1..][i], k);
        assert Member(p[i + 1], k);
      }
      if Has(p, k) && !Member(p[0], k) {
        var i :| 0 <= i < |p| && Member(p[i], k);
        assert Member(p[1..][i - 1], k);
      }
    }
  }

  /** The classes are disjoint, so each character contributes at most one class. */
  lemma {:induction false} ClassesOfBound(p: string)
    ensures |ClassesOf(p)| <= |p|
    decreases |p|
  {
    if |p| > 0 {
      ClassesOfBound(p[1..]);
      var first := set k | k in {Upper, Lower, Digit, Symbol} && Member(p[0], k);
      assert first == {} || first == {Upper} || first == {Lower} || first == {Digit} || first == {Symbol};
      assert |first| <= 1;
    }
  }

  /** A password that passes the coverage check has at least one character per
      enabled class. */
  lemma CoverNeedsLength(p: string, o: PasswordOptions)
    requires Covers(p, o)
    ensures |Enabled(o)| <= |p|
  {
    forall k | k in Enabled(o) ensures k in ClassesOf(p) {
      ClassesOfHas(p, k);
    }
    ClassesOfBound(p);
    SubsetSize(Enabled(o), ClassesOf(p));
  }

  lemma SubsetSize(a: set<CharClass>, b: set<CharClass>)
    requires a <= b
    ensures |a| <= |b|
  {
    assert b == a + (b - a);
  }

  /** With some class enabled and fewer characters than enabled classes, no attempt
      ever passes: the source keeps recursing until the engine's stack overflows and
      never returns a password, and however many attempts are supplied the model
      never returns one either. */
  lemma ShortLengthNeverReturns(o: PasswordOptions, draws: seq<seq<int>>)
    requires ValidDraws(o, draws)
    requires Count(o.length) < |Enabled(o)|
    ensures Generated(o, draws) == None
  {
    var r := Generated(o, draws);
    if r.Some? {
      CoverNeedsLength(r.value, o);
    }
  }

  /** The converse: once the length reaches the number of enabled classes, some
      first attempt passes, so the generator can return. */
  lemma LongEnoughCanReturn(o: PasswordOptions)
    requires |Enabled(o)| <= Count(o.length)
    ensures exists d :: ValidDraw(o, d) && Generated(o, [d]).Some?
  {
    var chars := Alphabet(o);
    var starts := Starts(o);
    EnabledSize(o);
    var pad := seq(Count(o.length) - |starts|, _ => 0);
    var d := starts + pad;
    assert ValidDraw(o, d);
    SpellConcat(chars, starts, pad);
    StartsCover(o);
    CoversExtend(Spell(chars, starts), Spell(chars, pad), o);
    assert ValidDraws(o, [d]);
    assert Generated(o, [d]) == Some(Spell(chars, d));
  }

  lemma SpellConcat(chars: string, a: seq<int>, b: seq<int>)
    requires forall j :: 0 <= j < |a| ==> 0 <= a[j] < |chars|
    requires forall j :: 0 <= j < |b| ==> 0 <= b[j] < |chars|
    ensures Spell(chars, a + b) == Spell(chars, a) + Spell(chars, b)
  {
  }

  lemma CoversExtend(q: string, r: string, o: PasswordOptions)
    requires Covers(q, o)
    ensures Covers(q + r, o)
  {
    forall k | k in Enabled(o) ensures Has(q + r, k) {
      var i :| 0 <= i < |q| && Member(q[i], k);
      assert (q + r)[i] == q[i];
    }
  }

  /** The alphabet index of the first character of each enabled class. */
  function Starts(o: PasswordOptions): (s: seq<int>)
    ensures |s| == Bit(o.uppercase) + Bit(o.lowercase) + Bit(o.numbers) + Bit(o.symbols)
    ensures forall j :: 0 <= j < |s| ==> 0 <= s[j] < |Alphabet(o)|
  {
    var u := if o.uppercase then 26 else 0;
    var l := if o.lowercase then 26 else 0;
    var n := if o.numbers then 10 else 0;
    (if o.uppercase then [0] else []) + (if o.lowercase then [u] else [])
    + (if o.numbers then [u + l] else []) + (if o.symbols then [u + l + n] else [])
  }

  lemma StartsCover(o: PasswordOptions)
    ensures Covers(Spell(Alphabet(o), Starts(o)), o)
  {
    var s := Starts(o);
    var p := Spell(Alphabet(o), s);
    var U := if o.uppercase then UppercaseChars else "";
    var L := if o.lowercase then LowercaseChars else "";
    var N := if o.numbers then NumberChars else "";
    var S := if o.symbols then SymbolChars else "";
    if Enabled(o) != {} {
      assert Alphabet(o) == U + L + N + S by {
        assert |U + L + N + S| > 0;
      }
      ConcatAt(U, L, N, S);
      var a := Bit(o.uppercase);
      var b := a + Bit(o.lowercase);
      var c := b + Bit(o.numbers);
      if o.uppercase { assert Member(p[0], Upper); }
      if o.lowercase { assert s[a] == |U|; assert Member(p[a], Lower); }
      if o.numbers { assert s[b] == |U| + |L|; assert Member(p[b], Digit); }
      if o.symbols { assert s[c] == |U| + |L| + |N|; assert Member(p[c], Symbol); }
    }
  }

  /** Where each part of a four-part concatenation begins. */
  lemma ConcatAt(a: string, b: string, c: string, d: string)
    ensures |a| > 0 ==> (a + b + c + d)[0] == a[0]
    ensures |b| > 0 ==> (a + b + c + d)[|a|] == b[0]
    ensures |c| > 0 ==> (a + b + c + d)[|a| + |b|] == c[0]
    ensures |d| > 0 ==> (a + b + c + d)[|a| + |b| + |c|] == d[0]
  {
  }

  lemma EnabledSize(o: PasswordOptions)
    ensures |Enabled(o)| == Bit(o.uppercase) + Bit(o.lowercase) + Bit(o.numbers) + Bit(o.symbols)
  {
  }

  // ---------------------------------------------------------------------------
  // calculatePasswordStrength

  /** `/[^A-Za-z0-9]/.test(p)` */
  predicate HasOther(p: string) {
    exists i :: 0 <= i < |p| && !IsLetter(p[i]) && !IsDigit(p[i])
  }

  /** `/^[a-zA-Z]+$/.test(p)` and `/^[0-9]+$/.test(p)` */
  predicate AllLetters(p: string) {
    |p| > 0 && forall i :: 0 <= i < |p| ==> IsLetter(p[i])
  }

  predicate AllDigits(p: string) {
    |p| > 0 && forall i :: 0 <= i < |p| ==> IsDigit(p[i])
  }

  function Bit(b: bool): nat { if b then 1 else 0 }

  /** The three length criteria on `password.length`: 8, 12 and 16 code units or more. */
  function LengthPoints(n: nat): (pts: nat)
    ensures pts <= 3
  {
    Bit(n >= 8) + Bit(n >= 12) + Bit(n >= 16)
  }

  /** The nine criteria, added up as the source accumulates `score`. */
  function Points(p: string): (k: nat)
    ensures k <= 9
  {
    LengthPoints(Utf16Length(p))
    + Bit(Has(p, Upper)) + Bit(Has(p, Lower)) + Bit(Has(p, Digit)) + Bit(HasOther(p))
    + Bit(!AllLetters(p)) + Bit(!AllDigits(p))
  }

  function Min(a: int, b: int): int { if a <= b then a else b }

  /** `calculatePasswordStrength`: the criteria count scaled by `(score / 10) * 100`,
      floored and capped at 100. For 0 to 9 points the floating-point scaling is
      exactly ten times the count, which the integer division reproduces. */
  function CalculatePasswordStrength(p: string): (score: int)
    ensures p == "" ==> score == 0
    ensures p != "" ==> score == 10 * Points(p)
    ensures 0 <= score <= 90 && score % 10 == 0
  {
    if p == "" then 0 else Min((Points(p) * 100) / 10, 100)
  }

  /** Length points never drop as a password grows. */
  lemma LengthPointsMonotone(m: nat, n: nat)
    requires m <= n
    ensures LengthPoints(m) <= LengthPoints(n)
  {
  }

  /** A score of 90, the largest, is reached exactly when all nine criteria hold. */
  lemma TopScore(p: string)
    ensures CalculatePasswordStrength(p) == 90 <==>
      Utf16Length(p) >= 16 && Has(p, Upper) && Has(p, Lower) && Has(p, Digit) && HasOther(p)
      && !AllLetters(p) && !AllDigits(p)
  {
  }

  /** Three passwords in increasing order of strength. */
  lemma StrengthExamples()
    ensures CalculatePasswordStrength("aaaaaaaa") == 30
    ensures CalculatePasswordStrength("aB3!aaaa") == 70
    ensures CalculatePasswordStrength("aB3!xyz9Q#mN") == 80
  {
    LettersOnly();
    MixedShort();
    MixedTwelve();
  }

  /** An ASCII string's `.length` is its number of characters. */
  lemma AsciiLength(s: string)
    requires forall i :: 0 <= i < |s| ==> s[i] as int < 0x80
    ensures Utf16Length(s) == |s|
  {
    Utf16LengthBmp(s);
  }

  lemma LettersOnlyLength()
    ensures Utf16Length("aaaaaaaa") == 8
  {
    AsciiLength("aaaaaaaa");
  }

  /** Eight lowercase letters: length 8, lowercase, and not all digits. */
  lemma LettersOnly()
    ensures Points("aaaaaaaa") == 3
  {
    var a := "aaaaaaaa";
    LettersOnlyLength();
    assert Member(a[0], Lower);
    assert !HasOther(a) && AllLetters(a) && !Has(a, Upper) && !Has(a, Digit);
  }

  lemma MixedShortLength()
    ensures Utf16Length("aB3!aaaa") == 8
  {
    AsciiLength("aB3!aaaa");
  }

  /** All four classes in eight characters: every criterion but the two longer lengths. */
  lemma MixedShort()
    ensures Points("aB3!aaaa") == 7
  {
    var b := "aB3!aaaa";
    MixedShortLength();
    assert Member(b[1], Upper) && Member(b[0], Lower) && Member(b[2], Digit);
    assert !IsLetter(b[3]) && !IsDigit(b[3]);
    AllClassesPoints(b);
  }

  lemma MixedTwelveLength()
    ensures Utf16Length("aB3!xyz9Q#mN") == 12
  {
    AsciiLength("aB3!xyz9Q#mN");
  }

  /** All four classes in twelve characters: every criterion but length 16. */
  lemma MixedTwelve()
    ensures Points("aB3!xyz9Q#mN") == 8
  {
    var c := "aB3!xyz9Q#mN";
    MixedTwelveLength();
    assert Member(c[1], Upper) && Member(c[0], Lower) && Member(c[2], Digit);
    assert !IsLetter(c[3]) && !IsDigit(c[3]);
    AllClassesPoints(c);
  }

  /** A password with an uppercase letter, a lowercase letter, a digit and another
      character meets all six class criteria, so only its length decides the rest. */
  lemma AllClassesPoints(p: string)
    requires Has(p, Upper) && Has(p, Lower) && Has(p, Digit) && HasOther(p)
    ensures Points(p) == LengthPoints(Utf16Length(p)) + 6
  {
    var i :| 0 <= i < |p| && !IsLetter(p[i]) && !IsDigit(p[i]);
    assert !AllLetters(p) && !AllDigits(p);
  }

  /** A password that passes the coverage check with all four classes enabled and
      length 16 or more scores the maximum, 90. */
  lemma FullPolicyScoresTop(p: string, o: PasswordOptions)
    requires o.uppercase && o.lowercase && o.numbers && o.symbols
    requires |p| >= 16 && Covers(p, o)
    ensures CalculatePasswordStrength(p) == 90
  {
    assert Has(p, Upper) && Has(p, Lower) && Has(p, Digit) && Has(p, Symbol);
    var i :| 0 <= i < |p| && Member(p[i], Symbol);
    assert !IsLetter(p[i]) && !IsDigit(p[i]);
    var j :| 0 <= j < |p| && Member(p[j], Digit);
    assert !IsLetter(p[j]);
  }
}
