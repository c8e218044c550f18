/** internal/generator/password.go: character-set construction and the fill loop. The system
    random source (`rand.Int`) is an oracle: `draw(i)` is the i-th value it supplies. */
module Generator {

  const Lowercase: string := "abcdefghijklmnopqrstuvwxyz"
  const Uppercase: string := "ABCDEFGHIJKLMNOPQRSTUVWXYZ"
  const Numbers: string := "0123456789"
  const Symbols: string := "!@#$%^&*()_+-=[]{}|;:,.<>?"
  const Ambiguous: string := "0O1lI|"
  const DefaultLength: nat := 16

  datatype PasswordOptions = PasswordOptions(
    length: int,
    includeLower: bool,
    includeUpper: bool,
    includeNumbers: bool,
    includeSymbols: bool,
    excludeAmbiguous: bool)

  /** `DefaultOptions`: sixteen characters from all four classes, ambiguous ones excluded. */
  function DefaultOptions(): (opts: PasswordOptions)
    ensures EffectiveLength(opts) == DefaultLength
    ensures opts.includeLower && opts.includeUpper && opts.includeNumbers && opts.includeSymbols
    ensures opts.excludeAmbiguous
  {
    PasswordOptions(16, true, true, true, true, true)
  }

  predicate AnyClass(opts: PasswordOptions) {
    opts.includeLower || opts.includeUpper || opts.includeNumbers || opts.includeSymbols
  }

  /** The selected classes, concatenated in the order lower, upper, digits, symbols. */
  function Selected(opts: PasswordOptions): string {
    (if opts.includeLower then Lowercase else "")
    + (if opts.includeUpper then Uppercase else "")
    + (if opts.includeNumbers then Numbers else "")
    + (if opts.includeSymbols then Symbols else "")
  }

  /** `s` without any character of `bad`, order kept: the specification of the removal loop. */
  function Without(s: string, bad: string): (r: string)
    ensures |r| <= |s|
  {
    if s == [] then [] else (if s[0] in bad then [] else [s[0]]) + Without(s[1..], bad)
  }

  /** A character is in the concatenation exactly when it belongs to a selected class. */
  lemma SelectedMembers(opts: PasswordOptions, c: char)
    ensures c in Selected(opts) <==> ((opts.includeLower && c in Lowercase) || (opts.includeUpper && c in Uppercase)
                                      || (opts.includeNumbers && c in Numbers) || (opts.includeSymbols && c in Symbols))
  {
  }

  /** Filtering keeps exactly the characters outside `bad`. */
  lemma {:induction false} WithoutMembers(s: string, bad: string, c: char)
    ensures c in Without(s, bad) <==> c in s && c !in bad
  {
    if s != [] {
      WithoutMembers(s[1..], bad, c);
      assert s == [s[0]] + s[1..];
    }
  }

  /** `strings.ReplaceAll(s, string(c), "")`. */
  function Strip(s: string, c: char): string {
    if s == [] then [] else (if s[0] == c then [] else [s[0]]) + Strip(s[1..], c)
  }

  /** Removing one more character from an already filtered string is filtering by one more. */
  lemma {:induction false} StripWithout(s: string, bad: string, c: char)
    ensures Strip(Without(s, bad), c) == Without(s, bad + [c])
  {
    if s != [] {
      StripWithout(s[1..], bad, c);
      var head := if s[0] in bad then [] else [s[0]];
      assert Without(s, bad) == head + Without(s[1..], bad);
      StripAppend(head, Without(s[1..], bad), c);
    }
  }

  lemma {:induction false} StripAppend(a: string, b: string, c: char)
    ensures Strip(a + b, c) == Strip(a, c) + Strip(b, c)
  {
    if a != [] {
      assert (a + b)[1..] == a[1..] + b;
      StripAppend(a[1..], b, c);
    } else {
      assert a + b == b;
    }
  }

  /** The character set `GeneratePassword` draws from: the selected classes, without the
      ambiguous characters when asked, and lower + upper + digits, unfiltered, when that
      leaves nothing. */
  function Charset(opts: PasswordOptions): (cs: string)
    ensures |cs| > 0
  {
    var filtered := if opts.excludeAmbiguous then Without(Selected(opts), Ambiguous) else Selected(opts);
    if |filtered| == 0 then Lowercase + Uppercase + Numbers else filtered
  }

  /** The length `GeneratePassword` uses: a non-positive length becomes 16. */
  function EffectiveLength(opts: PasswordOptions): (n: nat)
    ensures n > 0
    ensures opts.length > 0 ==> n == opts.length
  {
    if opts.length <= 0 then DefaultLength else opts.length
  }

  /** The charset string built as the source does: appended class by class, then one
      `ReplaceAll` per ambiguous character, then the fallback. */
  method BuildCharset(opts: PasswordOptions) returns (charset: string)
    ensures charset == Charset(opts)
  {
    charset := AppendClasses(opts);
    if opts.excludeAmbiguous {
      charset := RemoveAll(charset, Ambiguous);
    }
    if |charset| == 0 {
      charset := Lowercase + Uppercase + Numbers;
    }
  }

  /** The `+=` steps: the selected classes in the order lower, upper, digits, symbols. */
  method AppendClasses(opts: PasswordOptions) returns (charset: string)
    ensures charset == Selected(opts)
  {
    charset := "";
    if opts.includeLower {
      charset := charset + Lowercase;
    }
    var lower := if opts.includeLower then Lowercase else "";
    assert charset == lower;
    if opts.includeUpper {
      charset := charset + Uppercase;
    }
    var upper := if opts.includeUpper then Uppercase else "";
    assert charset == lower + upper;
    if opts.includeNumbers {
      charset := charset + Numbers;
    }
    assert charset == lower + upper + (if opts.includeNumbers then Numbers else "");
    if opts.includeSymbols {
      charset := charset + Symbols;
    }
  }

  /** The `ReplaceAll` loop: each character of `bad` in turn is deleted from `s`. */
  method RemoveAll(s: string, bad: string) returns (r: string)
    ensures r == Without(s, bad)
  {
    WithoutNothing(s);
    r := s;
    var k := 0;
    while k < |bad|
      invariant 0 <= k <= |bad|
      invariant r == Without(s, bad[..k])
    {
      StripWithout(s, bad[..k], bad[k]);
      assert bad[..k] + [bad[k]] == bad[..k + 1];
      r := Strip(r, bad[k]);
      k := k + 1;
    }
    assert bad[..k] == bad;
  }

  lemma {:induction false} WithoutNothing(s: string)
    ensures Without(s, []) == s
  {
    if s != [] {
      WithoutNothing(s[1..]);
    }
  }

  /** `GeneratePassword`: exactly EffectiveLength(opts) characters, the i-th being the
      character of the charset at the i-th random index. */
  method GeneratePassword(opts: PasswordOptions, draw: nat -> nat) returns (password: string)
    ensures |password| == EffectiveLength(opts)
    ensures forall i :: 0 <= i < |password| ==> password[i] in Charset(opts)
    ensures forall i :: 0 <= i < |password| ==> password[i] == Charset(opts)[draw(i) % |Charset(opts)|]
  {
    var length: nat := if opts.length <= 0 then DefaultLength else opts.length;
    var charset := BuildCharset(opts);
    var buffer := new char[length];
    var i := 0;
    while i < length
      invariant 0 <= i <= length
      invariant forall j :: 0 <= j < i ==> buffer[j] == charset[draw(j) % |charset|]
    {
      buffer[i] := charset[draw(i) % |charset|];
      i := i + 1;
    }
    password := buffer[..];
  }

  /** With at least one class selected, some selected character is not ambiguous, so the
      filtered set is never empty. */
  lemma SomeClassSurvives(opts: PasswordOptions)
    requires AnyClass(opts)
    ensures Without(Selected(opts), Ambiguous) != []
  {
    var sample: char;
    if opts.includeLower {
      sample := 'a';
      assert sample in Lowercase;
    } else if opts.includeUpper {
      sample := 'A';
      assert sample in Uppercase;
    } else if opts.includeNumbers {
      sample := '2';
      assert sample in Numbers;
    } else {
      sample := '!';
      assert sample in Symbols;
    }
    assert sample !in Ambiguous;
    SelectedMembers(opts, sample);
    WithoutMembers(Selected(opts), Ambiguous, sample);
  }

  /** So the fallback is not taken and no ambiguous character can be drawn when exclusion is on. */
  lemma CharsetMembership(opts: PasswordOptions, c: char)
    requires AnyClass(opts)
    ensures c in Charset(opts) <==> c in Selected(opts) && !(opts.excludeAmbiguous && c in Ambiguous)
  {
    SomeClassSurvives(opts);
    WithoutMembers(Selected(opts), Ambiguous, c);
  }

  /** With no class selected the fallback is lower + upper + digits and it is not filtered:
      ambiguous characters such as '0' stay in even when exclusion is on. */
  lemma FallbackUnfiltered(opts: PasswordOptions)
    requires !AnyClass(opts)
    ensures Charset(opts) == Lowercase + Uppercase + Numbers
    ensures '0' in Charset(opts) && '0' in Ambiguous
  {
    assert Selected(opts) == [];
    assert (Lowercase + Uppercase + Numbers)[52] == '0';
  }

  lemma {:induction false} WithoutAppend(a: string, b: string, bad: string)
    ensures Without(a + b, bad) == Without(a, bad) + Without(b, bad)
  {
    if a == [] {
      assert a + b == b;
    } else {
      assert (a + b)[1..] == a[1..] + b;
      WithoutAppend(a[1..], b, bad);
    }
  }

  /** A piece with no bad character is kept whole. */
  lemma {:induction false} WithoutKeeps(s: string, bad: string)
    requires forall c :: c in s ==> c !in bad
    ensures Without(s, bad) == s
  {
    if s != [] {
      WithoutKeeps(s[1..], bad);
    }
  }

  /** A piece made only of bad characters disappears. */
  lemma {:induction false} WithoutDrops(s: string, bad: string)
    requires forall c :: c in s ==> c in bad
    ensures Without(s, bad) == []
  {
    if s != [] {
      WithoutDrops(s[1..], bad);
    }
  }

  /** |Without(s)| for s made of a kept piece a, a dropped piece b and a kept piece c. The
      class strings are passed as parameters so that `Without` is never applied to a literal,
      which the verifier would try to evaluate. */
  lemma KeepDropKeep(s: string, a: string, b: string, c: string)
    requires s == a + b + c
    requires forall x :: x in a ==> x !in Ambiguous
    requires forall x :: x in b ==> x in Ambiguous
    requires forall x :: x in c ==> x !in Ambiguous
    ensures |Without(s, Ambiguous)| == |a| + |c|
  {
    WithoutAppend(a + b, c, Ambiguous);
    WithoutAppend(a, b, Ambiguous);
    WithoutKeeps(a, Ambiguous);
    WithoutDrops(b, Ambiguous);
    WithoutKeeps(c, Ambiguous);
  }

  /** The classes lose 1, 2, 2 and 1 characters to the ambiguity filter. */
  lemma LowercaseKept(s: string)
    requires s == Lowercase
    ensures |Without(s, Ambiguous)| == 25
  {
    KeepDropKeep(s, "abcdefghijk", "l", "mnopqrstuvwxyz");
  }

  lemma UppercaseKept(s: string)
    requires s == Uppercase
    ensures |Without(s, Ambiguous)| == 24
  {
    KeepDropKeepDropKeep(s, "ABCDEFGH", "I", "JKLMN", "O", "PQRSTUVWXYZ");
  }

  /** The same with two dropped pieces. */
  lemma KeepDropKeepDropKeep(s: string, a: string, b: string, c: string, d: string, e: string)
    requires s == a + b + c + d + e
    requires forall x :: x in a ==> x !in Ambiguous
    requires forall x :: x in b ==> x in Ambiguous
    requires forall x :: x in c ==> x !in Ambiguous
    requires forall x :: x in d ==> x in Ambiguous
    requires forall x :: x in e ==> x !in Ambiguous
    ensures |Without(s, Ambiguous)| == |a| + |c| + |e|
  {
    var head, tail := a + b + c, d + e;
    assert s == head + tail;
    assert tail == [] + d + e;
    WithoutAppend(head, tail, Ambiguous);
    KeepDropKeep(head, a, b, c);
    KeepDropKeep(tail, [], d, e);
  }

  lemma NumbersKept(s: string)
    requires s == Numbers
    ensures |Without(s, Ambiguous)| == 8
  {
    KeepDropKeep(s, "", "01", "23456789");
  }

  lemma SymbolsKept(s: string)
    requires s == Symbols
    ensures |Without(s, Ambiguous)| == 25
  {
    KeepDropKeep(s, "!@#$%^&*()_+-=[]{}", "|", ";:,.<>?");
  }

  /** The four classes together keep 82 of their 88 characters. */
  lemma ClassesKept(l: string, u: string, n: string, y: string)
    requires l == Lowercase && u == Uppercase && n == Numbers && y == Symbols
    ensures |Without(l + u + n + y, Ambiguous)| == 82
  {
    WithoutAppend(l + u + n, y, Ambiguous);
    WithoutAppend(l + u, n, Ambiguous);
    WithoutAppend(l, u, Ambiguous);
    LowercaseKept(l);
    UppercaseKept(u);
    NumbersKept(n);
    SymbolsKept(y);
  }

  /** The default options draw from 82 characters: 88 minus the six ambiguous ones. */
  lemma DefaultCharsetSize()
    ensures |Charset(DefaultOptions())| == 82
  {
    assert Selected(DefaultOptions()) == Lowercase + Uppercase + Numbers + Symbols;
    ClassesKept(Lowercase, Uppercase, Numbers, Symbols);
  }
}
