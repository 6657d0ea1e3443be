/** components/password-generator.tsx: the generator card. Its state is the four
    class switches, the length slider, the current password, the copied flag and the
    strength shown. Changing an option regenerates: the setters below change the
    option alone, and the options effect (password-generator.tsx lines 31-33) then
    runs `Regenerate` with the new options. A switch is disabled while it is the only
    one on, so some class is always enabled. */
module PasswordGenerator {
  import opened Common
  import opened PasswordUtils

  /** The four strength bands. */
  datatype Label = Weak | Moderate | Strong | VeryStrong

  /** The band's caption. */
  function Caption(l: Label): string {
    match l
    case Weak => "Weak"
    case Moderate => "Moderate"
    case Strong => "Strong"
    case VeryStrong => "Very Strong"
  }

  /** The band's position, weakest first. */
  function Rank(l: Label): nat {
    match l
    case Weak => 0
    case Moderate => 1
    case Strong => 2
    case VeryStrong => 3
  }

  /** `getStrengthLabel` (the same rule in the generator and the manager): below 30,
      below 60, below 80, and the rest. */
  function StrengthLabel(strength: int): (l: Label)
    ensures l == Weak <==> strength < 30
    ensures l == Moderate <==> 30 <= strength < 60
    ensures l == Strong <==> 60 <= strength < 80
    ensures l == VeryStrong <==> 80 <= strength
  {
    if strength < 30 then Weak
    else if strength < 60 then Moderate
    else if strength < 80 then Strong
    else VeryStrong
  }

  /** A higher score never gets a weaker label. */
  lemma LabelMonotone(s: int, t: int)
    requires s <= t
    ensures Rank(StrengthLabel(s)) <= Rank(StrengthLabel(t))
  {
  }

  /** On the scores the scorer produces, the bands are: up to 2 criteria Weak, 3 to 5
      Moderate, 6 or 7 Strong, 8 or 9 Very Strong. */
  lemma LabelOfPoints(p: string)
    requires p != ""
    ensures StrengthLabel(CalculatePasswordStrength(p)) ==
      if Points(p) <= 2 then Weak else if Points(p) <= 5 then Moderate
      else if Points(p) <= 7 then Strong else VeryStrong
  {
  }

  /** The generator's options record for its current switches and length. */
  function OptionsOf(length: int, upper: bool, lower: bool, numbers: bool, symbols: bool): PasswordOptions {
    PasswordOptions(length, upper, lower, numbers, symbols)
  }

  class Generator {
    var length: int
    var includeUppercase: bool
    var includeLowercase: bool
    var includeNumbers: bool
    var includeSymbols: bool
    var password: string
    var copied: bool
    var passwordStrength: int

    /** The slider stays within 8..32 and at least one switch is on. */
    predicate Valid()
      reads this
    {
      && 8 <= length <= 32
      && (includeUppercase || includeLowercase || includeNumbers || includeSymbols)
    }

    function Options(): (o: PasswordOptions)
      reads this
      ensures Valid() ==> Enabled(o) != {} && Count(o.length) == length
    {
      OptionsOf(length, includeUppercase, includeLowercase, includeNumbers, includeSymbols)
    }

    constructor ()
      ensures Valid()
      ensures length == 16 && includeUppercase && includeLowercase && includeNumbers && includeSymbols
      ensures password == "" && !copied && passwordStrength == 0
    {
      length := 16;
      includeUppercase, includeLowercase, includeNumbers, includeSymbols := true, true, true, true;
      password := "";
      copied := false;
      passwordStrength := 0;
    }

    /** `handleGeneratePassword` followed by the strength effect. When the supplied
        attempts run out, the source would still be retrying: nothing changes. */
    method Regenerate(draws: seq<seq<int>>)
      requires ValidDraws(Options(), draws)
      modifies this`password, this`copied, this`passwordStrength
      ensures var r := Generated(Options(), draws);
        && password == (if r.Some? then r.value else old(password))
        && copied == (if r.Some? then false else old(copied))
        && passwordStrength == (if r.Some? && r.value != "" then CalculatePasswordStrength(r.value) else old(passwordStrength))
    {
      var o := Options();
      var newPassword := GeneratePassword(o, draws);
      if newPassword.Some? {
        var score := if newPassword.value != "" then CalculatePasswordStrength(newPassword.value) else passwordStrength;
        password, copied, passwordStrength := newPassword.value, false, score;
      }
      assert o == Options();
    }

    /** The strength effect alone: a new non-empty password is scored; an empty one
        leaves the previous score. */
    method OnPasswordChanged()
      modifies this`passwordStrength
      ensures passwordStrength == if password != "" then CalculatePasswordStrength(password) else old(passwordStrength)
    {
      if password != "" {
        passwordStrength := CalculatePasswordStrength(password);
      }
    }

    /** The slider, which only offers 8..32. The options effect then runs
        `Regenerate`. */
    method SetLength(n: int)
      requires Valid() && 8 <= n <= 32
      modifies this`length
      ensures Valid() && length == n
    {
      length := n;
    }

    /** The four switches: a switch whose three companions are off is disabled and
        ignores the click. After each change the options effect runs `Regenerate`. */
    method SetUppercase(on: bool)
      requires Valid()
      modifies this`includeUppercase
      ensures Valid()
      ensures includeUppercase == if !includeLowercase && !includeNumbers && !includeSymbols then old(includeUppercase) else on
    {
      if !(!includeLowercase && !includeNumbers && !includeSymbols) {
        includeUppercase := on;
      }
    }

    method SetLowercase(on: bool)
      requires Valid()
      modifies this`includeLowercase
      ensures Valid()
      ensures includeLowercase == if !includeUppercase && !includeNumbers && !includeSymbols then old(includeLowercase) else on
    {
      if !(!includeUppercase && !includeNumbers && !includeSymbols) {
        includeLowercase := on;
      }
    }

    method SetNumbers(on: bool)
      requires Valid()
      modifies this`includeNumbers
      ensures Valid()
      ensures includeNumbers == if !includeUppercase && !includeLowercase && !includeSymbols then old(includeNumbers) else on
    {
      if !(!includeUppercase && !includeLowercase && !includeSymbols) {
        includeNumbers := on;
      }
    }

    method SetSymbols(on: bool)
      requires Valid()
      modifies this`includeSymbols
      ensures Valid()
      ensures includeSymbols == if !includeUppercase && !includeLowercase && !includeNumbers then old(includeSymbols) else on
    {
      if !(!includeUppercase && !includeLowercase && !includeNumbers) {
        includeSymbols := on;
      }
    }

    /** `copyToClipboard`: the button is disabled while there is no password; the
        text handed to the clipboard is the current password (the two-second reset
        aside). */
    method Copy() returns (clipboard: string)
      requires password != ""
      modifies this`copied
      ensures clipboard == password && copied
    {
      clipboard := password;
      copied := true;
    }
  }

  /** In every state the card can reach, generation can finish: the length (at least
      8) always covers the enabled classes (at most 4). */
  lemma ValidCanGenerate(length: int, upper: bool, lower: bool, numbers: bool, symbols: bool)
    requires 8 <= length <= 32 && (upper || lower || numbers || symbols)
    ensures var o := OptionsOf(length, upper, lower, numbers, symbols);
      exists d :: ValidDraw(o, d) && Generated(o, [d]).Some?
  {
    var o := OptionsOf(length, upper, lower, numbers, symbols);
    assert Enabled(o) <= {Upper, Lower, Digit, Symbol};
    SubsetSize(Enabled(o), {Upper, Lower, Digit, Symbol});
    LongEnoughCanReturn(o);
  }

  /** A generated password at the card's default settings is rated Very Strong. */
  lemma DefaultIsVeryStrong(draws: seq<seq<int>>)
    requires ValidDraws(OptionsOf(16, true, true, true, true), draws)
    ensures var r := Generated(OptionsOf(16, true, true, true, true), draws);
      r.Some? ==> CalculatePasswordStrength(r.value) == 90 && StrengthLabel(CalculatePasswordStrength(r.value)) == VeryStrong
  {
    var o := OptionsOf(16, true, true, true, true);
    if Generated(o, draws).Some? {
      FullPolicyScoresTop(Generated(o, draws).value, o);
    }
  }
}
