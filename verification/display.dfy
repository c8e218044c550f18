/** The computing parts of internal/display/display.go: masking, "time ago" buckets, the
    strength score, column truncation, the title sort and row numbering of the listing, and
    the title underline. Colours and terminal output are not modelled; what would be printed
    is returned. */
module Display {
  import opened Text
  import opened Models

  const Minute: nat := 60 * NanosPerSecond
  const Hour: nat := 60 * Minute
  const Day: nat := 24 * Hour

  /** The underline `Title` prints below a heading: one '=' per byte of the heading. */
  function Underline(message: string): (u: string)
    ensures |u| == Utf8Len(message) && |message| <= |u|
    ensures forall i :: 0 <= i < |u| ==> u[i] == '='
  {
    Repeat('=', Utf8Len(message))
  }

  function Min(a: int, b: int): (m: int)
    ensures m <= a && m <= b
    ensures m == a || m == b
  {
    if a < b then a else b
  }

  /** `MaskPassword`: one '*' per byte, at most eight, and nothing for an empty password, so
      the mask reveals the length of passwords shorter than eight bytes only. */
  function MaskPassword(password: string): (masked: string)
    ensures |masked| == Min(Utf8Len(password), 8)
    ensures forall i :: 0 <= i < |masked| ==> masked[i] == '*'
    ensures password == [] <==> masked == []
  {
    if Utf8Len(password) == 0 then "" else Repeat('*', Min(Utf8Len(password), 8))
  }

  /** The bucket `FormatTimeAgo` reports for an elapsed duration. */
  datatype Ago = JustNow | MinutesAgo(minutes: nat) | HoursAgo(hours: nat) | DaysAgo(days: nat)

  /** The buckets: under a minute (a negative duration included), then whole minutes under an
      hour, whole hours under a day, whole days otherwise; each count is the elapsed time
      rounded down to its unit. */
  function TimeAgo(duration: int): (a: Ago)
    ensures a.JustNow? <==> duration < Minute
    ensures a.MinutesAgo? <==> Minute <= duration < Hour
    ensures a.HoursAgo? <==> Hour <= duration < Day
    ensures a.DaysAgo? <==> Day <= duration
    ensures a.MinutesAgo? ==> 1 <= a.minutes < 60 && a.minutes * Minute <= duration < (a.minutes + 1) * Minute
    ensures a.HoursAgo? ==> 1 <= a.hours < 24 && a.hours * Hour <= duration < (a.hours + 1) * Hour
    ensures a.DaysAgo? ==> 1 <= a.days && a.days * Day <= duration < (a.days + 1) * Day
  {
    if duration < Minute then JustNow
    else if duration < Hour then MinutesAgo(duration / Minute)
    else if duration < Day then HoursAgo(duration / Hour)
    else DaysAgo(duration / Day)
  }

  function RenderAgo(a: Ago): string {
    match a
    case JustNow => "just now"
    case MinutesAgo(m) => Decimal(m) + " min ago"
    case HoursAgo(h) => Decimal(h) + " hr ago"
    case DaysAgo(d) => Decimal(d) + " days ago"
  }

  /** `FormatTimeAgo(t)` read at instant `now`: the elapsed time in its largest whole unit. */
  function FormatTimeAgo(now: Time, t: Time): (text: string)
    ensures now < t + Minute ==> text == "just now"
    ensures t + Minute <= now < t + Hour ==> text == Decimal((now - t) / Minute) + " min ago"
    ensures t + Hour <= now < t + Day ==> text == Decimal((now - t) / Hour) + " hr ago"
    ensures t + Day <= now ==> text == Decimal((now - t) / Day) + " days ago"
  {
    RenderAgo(TimeAgo(now - t))
  }

  /** `strings.ContainsAny`. */
  predicate ContainsAny(s: string, chars: string) {
    exists i :: 0 <= i < |s| && s[i] in chars
  }

  const UpperChars: string := "ABCDEFGHIJKLMNOPQRSTUVWXYZ"
  const LowerChars: string := "abcdefghijklmnopqrstuvwxyz"
  const DigitChars: string := "0123456789"
  const SymbolChars: string := "!@#$%^&*()_+-=[]{}|;:,.<>?"

  /** The six criteria of the strength score, one point each; the length is Go's `len`, in bytes. */
  function Criteria(password: string): seq<bool> {
    [Utf8Len(password) >= 8, Utf8Len(password) >= 12, ContainsAny(password, UpperChars), ContainsAny(password, LowerChars),
     ContainsAny(password, DigitChars), ContainsAny(password, SymbolChars)]
  }

  function Point(b: bool): nat {
    if b then 1 else 0
  }

  /** One point per criterion met. */
  function Points(password: string): (n: nat)
    ensures n <= 6
  {
    var c := Criteria(password);
    Point(c[0]) + Point(c[1]) + Point(c[2]) + Point(c[3]) + Point(c[4]) + Point(c[5])
  }

  /** The label for a score: 5 or more is Strong, 3 or 4 Medium, anything else Weak. */
  function StrengthLabel(score: int): (level: string)
    ensures level == "Strong" <==> score >= 5
    ensures level == "Medium" <==> 3 <= score < 5
    ensures level == "Weak" <==> score < 3
  {
    if score >= 5 then "Strong" else if score >= 3 then "Medium" else "Weak"
  }

  /** The score and label `ShowPasswordStrength` reports, accumulated point by point. */
  method PasswordStrength(password: string) returns (score: nat, strength: string)
    ensures score <= 6
    ensures score == Points(password)
    ensures strength == StrengthLabel(score)
  {
    var length := Utf8Len(password);
    var hasUpper := ContainsAny(password, UpperChars);
    var hasLower := ContainsAny(password, LowerChars);
    var hasDigit := ContainsAny(password, DigitChars);
    var hasSymbol := ContainsAny(password, SymbolChars);
    score := 0;
    if length >= 8 {
      score := score + 1;
    }
    if length >= 12 {
      score := score + 1;
    }
    if hasUpper {
      score := score + 1;
    }
    if hasLower {
      score := score + 1;
    }
    if hasDigit {
      score := score + 1;
    }
    if hasSymbol {
      score := score + 1;
    }
    if score >= 5 {
      strength := "Strong";
    } else if score >= 3 {
      strength := "Medium";
    } else {
      strength := "Weak";
    }
  }

  /** `ShowPasswordStrength`: the line it prints (without colour), carrying the label, the length
      in bytes and the score out of six. */
  method ShowPasswordStrength(password: string) returns (line: string)
    ensures line == "Password strength: " + StrengthLabel(Points(password))
                    + " (Length: " + Decimal(Utf8Len(password)) + ", Score: " + Decimal(Points(password)) + "/6)"
  {
    var score, strength := PasswordStrength(password);
    line := "Password strength: " + strength + " (Length: " + Decimal(Utf8Len(password)) + ", Score: " + Decimal(score) + "/6)";
  }

  /** A password of twelve characters or more drawing on all four classes scores the full six. */
  lemma FullMarks(password: string)
    requires |password| >= 12
    requires ContainsAny(password, UpperChars) && ContainsAny(password, LowerChars)
    requires ContainsAny(password, DigitChars) && ContainsAny(password, SymbolChars)
    ensures Points(password) == 6
    ensures StrengthLabel(Points(password)) == "Strong"
  {
  }

  /** A password shorter than eight characters made of lower-case letters only is Weak: being
      ASCII, it is also shorter than eight bytes. */
  lemma ShortLowercaseIsWeak(password: string)
    requires |password| < 8
    requires forall i :: 0 <= i < |password| ==> 'a' <= password[i] <= 'z'
    ensures Points(password) <= 1
    ensures StrengthLabel(Points(password)) == "Weak"
  {
    assert Utf8Len(password) < 8 by {
      Utf8LenAscii(password);
    }
    assert !ContainsAny(password, UpperChars) by {
      forall i | 0 <= i < |password| ensures password[i] !in UpperChars {
      }
    }
    assert !ContainsAny(password, DigitChars) by {
      forall i | 0 <= i < |password| ensures password[i] !in DigitChars {
      }
    }
    assert !ContainsAny(password, SymbolChars) by {
      forall i | 0 <= i < |password| ensures password[i] !in SymbolChars {
      }
    }
  }

  /** A table cell: a value longer than `limit` is cut to its first limit - 3 characters
      followed by "..."; shorter values are kept. The cell never exceeds `limit`. */
  function Truncate(s: string, limit: nat): (cell: string)
    requires limit >= 3
    ensures |cell| <= limit && |cell| <= |s|
    ensures |s| <= limit ==> cell == s
    ensures |s| > limit ==> |cell| == limit && cell[..limit - 3] == s[..limit - 3] && cell[limit - 3..] == "..."
  {
    if |s| > limit then s[..limit - 3] + "..." else s
  }

  const UrlWidth: nat := 28
  const NameWidth: nat := 18

  /** Entries in the listing's order: no title sorts strictly before the title of an earlier row. */
  predicate TitleOrdered(s: seq<Entry>) {
    forall i, j :: 0 <= i < j < |s| ==> TitleLe(s[i], s[j])
  }

  /** x may come before y in the listing. */
  predicate TitleLe(x: Entry, y: Entry) {
    !StrLess(y.title, x.title)
  }

  lemma TitleLeTransitive(x: Entry, y: Entry, z: Entry)
    requires TitleLe(x, y) && TitleLe(y, z)
    ensures TitleLe(x, z)
  {
    StrLessTotal(x.title, y.title);
    if StrLess(z.title, x.title) && StrLess(x.title, y.title) {
      StrLessTransitive(z.title, x.title, y.title);
    }
  }

  method Swap(a: array<Entry>, i: nat, j: nat)
    requires i < j < a.Length
    modifies a
    ensures a[i] == old(a[j]) && a[j] == old(a[i])
    ensures forall k :: 0 <= k < a.Length && k != i && k != j ==> a[k] == old(a[k])
    ensures multiset(a[..]) == multiset(old(a[..]))
  {
    a[i], a[j] := a[j], a[i];
  }

  /** One insertion step: the entry at index i sinks into the ordered prefix a[..i]. */
  method Insert(a: array<Entry>, i: nat)
    requires i < a.Length
    requires forall p, q :: 0 <= p < q < i ==> TitleLe(a[p], a[q])
    modifies a
    ensures forall p, q :: 0 <= p < q <= i ==> TitleLe(a[p], a[q])
    ensures multiset(a[..]) == multiset(old(a[..]))
  {
    var j := i;
    while j > 0 && StrLess(a[j].title, a[j - 1].title)
      invariant 0 <= j <= i
      invariant multiset(a[..]) == multiset(old(a[..]))
      invariant forall p, q :: 0 <= p < q <= i && p != j && q != j ==> TitleLe(a[p], a[q])
      invariant forall q :: j < q <= i ==> TitleLe(a[j], a[q])
    {
      StrLessAsymmetric(a[j].title, a[j - 1].title);
      Swap(a, j - 1, j);
      j := j - 1;
    }
    forall p | 0 <= p < j
      ensures TitleLe(a[p], a[j])
    {
      if p < j - 1 {
        TitleLeTransitive(a[p], a[j - 1], a[j]);
      }
    }
  }

  /** `sort.Slice(entries, title less)`, in place: afterwards the array is title-ordered and holds
      the same entries. Go's sort is not stable, so entries with equal titles may come out in
      either order; callers rely only on this contract. */
  method SortByTitle(a: array<Entry>)
    modifies a
    ensures TitleOrdered(a[..])
    ensures multiset(a[..]) == multiset(old(a[..]))
  {
    var i := 0;
    while i < a.Length
      invariant 0 <= i <= a.Length
      invariant forall p, q :: 0 <= p < q < i ==> TitleLe(a[p], a[q])
      invariant multiset(a[..]) == multiset(old(a[..]))
    {
      Insert(a, i);
      i := i + 1;
    }
  }

  /** One row of the listing table. */
  datatype Row = Row(number: nat, title: string, username: string, password: string, url: string, updated: string)

  function MakeRow(number: nat, e: Entry, showPasswords: bool, now: Time): Row {
    Row(number,
        Truncate(e.title, NameWidth),
        Truncate(e.username, NameWidth),
        if showPasswords then e.password else MaskPassword(e.password),
        Truncate(e.url, UrlWidth),
        FormatTimeAgo(now, e.updatedAt))
  }

  /** `ListEntries`: sorts the caller's slice by title in place and numbers the rows from 1 in
      that order; an empty slice gives no rows and is left alone. */
  method ListEntries(entries: array<Entry>, showPasswords: bool, now: Time) returns (rows: seq<Row>)
    modifies entries
    ensures entries.Length == 0 ==> rows == []
    ensures TitleOrdered(entries[..]) && multiset(entries[..]) == multiset(old(entries[..]))
    ensures |rows| == entries.Length
    ensures forall i :: 0 <= i < |rows| ==> rows[i] == MakeRow(i + 1, entries[i], showPasswords, now)
  {
    rows := [];
    if entries.Length == 0 {
      return;
    }
    SortByTitle(entries);
    var i := 0;
    while i < entries.Length
      invariant 0 <= i <= entries.Length
      invariant |rows| == i
      invariant forall k :: 0 <= k < i ==> rows[k] == MakeRow(k + 1, entries[k], showPasswords, now)
    {
      rows := rows + [MakeRow(i + 1, entries[i], showPasswords, now)];
      i := i + 1;
    }
  }
}
