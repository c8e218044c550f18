/** cmd/generate.go: validate the flags, map them to generator options, generate `--count`
    passwords and describe the settings used. Nothing is stored. */
module GenerateCommand {
  import opened Wrappers
  import opened Text
  import opened Generator
  import opened Display
  import opened Commands

  datatype GenerateFlags = GenerateFlags(
    length: int, noUpper: bool, noLower: bool, noNumbers: bool, noSymbols: bool,
    ambiguous: bool, count: int)

  const MinLength: int := 4
  const MaxCount: int := 50

  /** Each class is included unless its `--no-*` flag is set; ambiguous characters are excluded
      unless `--ambiguous` is set. */
  function Options(fl: GenerateFlags): (opts: PasswordOptions)
    ensures opts.length == fl.length
    ensures opts.includeLower == !fl.noLower && opts.includeUpper == !fl.noUpper
    ensures opts.includeNumbers == !fl.noNumbers && opts.includeSymbols == !fl.noSymbols
    ensures opts.excludeAmbiguous == !fl.ambiguous
  {
    PasswordOptions(fl.length, !fl.noLower, !fl.noUpper, !fl.noNumbers, !fl.noSymbols, !fl.ambiguous)
  }

  /** The validation, in the source's order; `None` means the flags are accepted. */
  function Validate(fl: GenerateFlags): (err: Option<string>)
    ensures err.None? <==> fl.length >= MinLength && 1 <= fl.count <= MaxCount && AnyClass(Options(fl))
    ensures fl.length < MinLength ==> err == Some("Password length must be at least 4 characters")
    ensures fl.length >= MinLength && !(1 <= fl.count <= MaxCount) ==> err == Some("Count must be between 1 and 50")
    ensures fl.length >= MinLength && 1 <= fl.count <= MaxCount && !AnyClass(Options(fl)) ==>
              err == Some("At least one character type must be included")
  {
    if fl.length < MinLength then Some("Password length must be at least 4 characters")
    else if fl.count < 1 || fl.count > MaxCount then Some("Count must be between 1 and 50")
    else if !AnyClass(Options(fl)) then Some("At least one character type must be included")
    else None
  }

  /** Accepted flags never reach the generator's fallback charset or its default length. */
  lemma AcceptedFlags(fl: GenerateFlags)
    requires Validate(fl).None?
    ensures EffectiveLength(Options(fl)) == fl.length
    ensures Charset(Options(fl)) == (if Options(fl).excludeAmbiguous then Without(Selected(Options(fl)), Ambiguous)
                                     else Selected(Options(fl)))
  {
    SomeClassSurvives(Options(fl));
  }

  /** `password` is what the generator draws for `opts` from the index oracle `d`. */
  predicate DrawnFrom(password: string, opts: PasswordOptions, d: nat -> nat) {
    && |password| == EffectiveLength(opts)
    && forall k :: 0 <= k < |password| ==> password[k] == Charset(opts)[d(k) % |Charset(opts)|]
  }

  /** Go's `%2d`: right-aligned in a field of at least two. */
  function CountLabel(n: nat): (field: string)
    ensures |field| >= 2 && |field| >= |Decimal(n)| && field[|field| - |Decimal(n)|..] == Decimal(n)
    ensures forall k :: 0 <= k < |field| - |Decimal(n)| ==> field[k] == ' '
  {
    if n < 10 then " " + Decimal(n) else Decimal(n)
  }

  /** Up to 99 (the largest accepted count is 50) the numbers line up in two columns. */
  lemma CountLabelWidth(n: nat)
    requires n < 100
    ensures |CountLabel(n)| == 2
  {
    DecimalWidth(n, 2);
  }

  /** The line printed for password `i` (0-based) of `count`. */
  function PasswordLine(count: int, i: nat, password: string): string {
    if count == 1 then "Password: " + password else CountLabel(i + 1) + ": " + password
  }

  const ClassNames: seq<string> := ["lowercase", "uppercase", "numbers", "symbols"]

  function Enabled(opts: PasswordOptions): seq<bool> {
    [opts.includeLower, opts.includeUpper, opts.includeNumbers, opts.includeSymbols]
  }

  /** The names whose flag is set, in their original order. */
  function Kept(names: seq<string>, keep: seq<bool>): seq<string>
    requires |names| == |keep|
  {
    if names == [] then [] else (if keep[0] then [names[0]] else []) + Kept(names[1..], keep[1..])
  }

  /** A kept name is one whose flag is set. */
  lemma {:induction false} KeptMembers(names: seq<string>, keep: seq<bool>, x: string)
    requires |names| == |keep|
    ensures x in Kept(names, keep) <==> exists k :: 0 <= k < |names| && keep[k] && names[k] == x
  {
    if names != [] {
      KeptMembers(names[1..], keep[1..], x);
      if x in Kept(names[1..], keep[1..]) {
        var k :| 0 <= k < |names[1..]| && keep[1..][k] && names[1..][k] == x;
        assert keep[k + 1] && names[k + 1] == x;
      }
      if exists k :: 0 <= k < |names| && keep[k] && names[k] == x {
        var k :| 0 <= k < |names| && keep[k] && names[k] == x;
        if k > 0 {
          assert keep[1..][k - 1] && names[1..][k - 1] == x;
        }
      }
    }
  }

  /** Go's `%v` of a string slice: the elements separated by spaces, in brackets. */
  function Join(items: seq<string>): string {
    if items == [] then "" else if |items| == 1 then items[0] else items[0] + " " + Join(items[1..])
  }

  /** The four class names differ (they differ in their first letter). */
  lemma ClassNamesDistinct()
    ensures forall i, j :: 0 <= i < j < 4 ==> ClassNames[i] != ClassNames[j]
  {
    assert ClassNames[0][0] == 'l' && ClassNames[1][0] == 'u' && ClassNames[2][0] == 'n' && ClassNames[3][0] == 's';
  }

  /** `Kept` over four names, unfolded. */
  lemma KeptFour(n: seq<string>, e: seq<bool>)
    requires |n| == |e| == 4
    ensures Kept(n, e) == (if e[0] then [n[0]] else []) + (if e[1] then [n[1]] else [])
                          + (if e[2] then [n[2]] else []) + (if e[3] then [n[3]] else [])
  {
    var k3 := Kept(n[3..], e[3..]);
    assert k3 == (if e[3] then [n[3]] else []) by {
      assert n[3..] != [] && n[3..][0] == n[3] && e[3..][0] == e[3];
      assert n[3..][1..] == [] && e[3..][1..] == [];
      assert Kept(n[3..][1..], e[3..][1..]) == [];
    }
    assert n[2..][1..] == n[3..] && e[2..][1..] == e[3..];
    var k2 := Kept(n[2..], e[2..]);
    assert k2 == (if e[2] then [n[2]] else []) + k3;
    assert n[1..][1..] == n[2..] && e[1..][1..] == e[2..];
    var k1 := Kept(n[1..], e[1..]);
    assert k1 == (if e[1] then [n[1]] else []) + k2;
    assert Kept(n, e) == (if e[0] then [n[0]] else []) + k1;
  }

  /** The "Includes" list, built by successive appends. */
  method IncludedList(opts: PasswordOptions) returns (included: seq<string>)
    ensures included == Kept(ClassNames, Enabled(opts))
    ensures forall k :: 0 <= k < 4 ==> (ClassNames[k] in included <==> Enabled(opts)[k])
    ensures |included| > 0 <==> AnyClass(opts)
  {
    var e, n := Enabled(opts), ClassNames;
    included := [];
    if opts.includeLower {
      included := included + [n[0]];
    }
    var lower := if e[0] then [n[0]] else [];
    assert included == lower;
    if opts.includeUpper {
      included := included + [n[1]];
    }
    var upper := if e[1] then [n[1]] else [];
    assert included == lower + upper;
    if opts.includeNumbers {
      included := included + [n[2]];
    }
    assert included == lower + upper + (if e[2] then [n[2]] else []);
    if opts.includeSymbols {
      included := included + [n[3]];
    }
    KeptFour(n, e);
    ClassNamesDistinct();
    forall k | 0 <= k < 4
      ensures ClassNames[k] in included <==> e[k]
    {
      KeptMembers(ClassNames, e, ClassNames[k]);
    }
  }

  /** The passwords and their lines, generated one after the other. */
  method GenerateAll(opts: PasswordOptions, count: nat, draw: nat -> nat -> nat)
    returns (passwords: seq<string>, lines: seq<string>)
    ensures |passwords| == |lines| == count
    ensures forall i :: 0 <= i < count ==> DrawnFrom(passwords[i], opts, draw(i))
    ensures forall i :: 0 <= i < count ==> lines[i] == PasswordLine(count, i, passwords[i])
  {
    var generated := new string[count];
    var printed := new string[count];
    var i := 0;
    while i < count
      invariant 0 <= i <= count
      invariant forall j :: 0 <= j < i ==> DrawnFrom(generated[j], opts, draw(j))
      invariant forall j :: 0 <= j < i ==> printed[j] == PasswordLine(count, j, generated[j])
    {
      var password := GeneratePassword(opts, draw(i));
      generated[i] := password;
      printed[i] := PasswordLine(count, i, password);
      i := i + 1;
    }
    passwords, lines := generated[..], printed[..];
  }

  /** The settings lines: the length, the included classes when there are any, and a note when
      ambiguous characters were excluded. */
  method DescribeSettings(opts: PasswordOptions) returns (settings: seq<string>)
    ensures |settings| == 1 + (if AnyClass(opts) then 1 else 0) + (if opts.excludeAmbiguous then 1 else 0)
    ensures settings[0] == "Settings: Length=" + IntText(opts.length)
    ensures AnyClass(opts) ==> settings[1] == "Includes: [" + Join(Kept(ClassNames, Enabled(opts))) + "]"
    ensures opts.excludeAmbiguous ==> settings[|settings| - 1] == "Ambiguous characters excluded"
  {
    settings := ["Settings: Length=" + IntText(opts.length)];
    var included := IncludedList(opts);
    if |included| > 0 {
      settings := settings + ["Includes: [" + Join(included) + "]"];
    }
    if opts.excludeAmbiguous {
      settings := settings + ["Ambiguous characters excluded"];
    }
  }

  /** `runGenerate`: a rejected flag set generates nothing; otherwise exactly `count` passwords,
      password `i` drawn with the oracle `draw(i)`, each printed on its line; a single password is
      followed by its strength line (`strength`); then the settings. */
  method RunGenerate(fl: GenerateFlags, draw: nat -> nat -> nat)
    returns (r: Result<seq<string>>, passwords: seq<string>, strength: seq<string>, settings: seq<string>)
    ensures Validate(fl).Some? ==> r == Err(Validate(fl).value) && passwords == [] && strength == [] && settings == []
    ensures Validate(fl).None? && fl.count == 1 ==>
              |passwords| == 1 && strength == ["Password strength: " + StrengthLabel(Points(passwords[0]))
                                               + " (Length: " + Decimal(Utf8Len(passwords[0])) + ", Score: "
                                               + Decimal(Points(passwords[0])) + "/6)"]
    ensures Validate(fl).None? && fl.count != 1 ==> strength == []
    ensures Validate(fl).None? ==>
              && r.Ok? && |passwords| == |r.value| == fl.count
              && (forall i :: 0 <= i < fl.count ==> DrawnFrom(passwords[i], Options(fl), draw(i)))
              && (forall i :: 0 <= i < fl.count ==> |passwords[i]| == fl.length)
              && (forall i :: 0 <= i < fl.count ==> r.value[i] == PasswordLine(fl.count, i, passwords[i]))
              && |settings| >= 2
              && settings[0] == "Settings: Length=" + IntText(fl.length)
              && settings[1] == "Includes: [" + Join(Kept(ClassNames, Enabled(Options(fl)))) + "]"
              && (|settings| == 3 <==> !fl.ambiguous)
  {
    passwords, strength, settings := [], [], [];
    var error := Validate(fl);
    if error.Some? {
      return Err(error.value), passwords, strength, settings;
    }
    var opts := Options(fl);
    AcceptedFlags(fl);
    var lines;
    passwords, lines := GenerateAll(opts, fl.count, draw);
    if fl.count == 1 {
      var line := ShowPasswordStrength(passwords[0]);
      strength := [line];
    }
    settings := DescribeSettings(opts);
    r := Ok(lines);
  }
}
