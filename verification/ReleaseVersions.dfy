// The version functions of apps/windows-ui/src/windows-update.ts: parsing, printing and
// ordering release versions, and judging a release against the running version.
module ReleaseVersions {
  import opened Decimal
  import opened Options

  const MAX_SAFE_INTEGER := 9007199254740991

  datatype Version = Version(major: nat, minor: nat, patch: nat)
  {
    predicate IsSafe() { major <= MAX_SAFE_INTEGER && minor <= MAX_SAFE_INTEGER && patch <= MAX_SAFE_INTEGER }
  }

  // ---------------------------------------------------------------- text

  // String.prototype.trim
  predicate IsSpace(c: char)
  {
    || '\t' <= c <= '\r' || c == ' ' || c == '\U{A0}' || c == '\U{1680}' || '\U{2000}' <= c <= '\U{200A}'
    || c == '\U{2028}' || c == '\U{2029}' || c == '\U{202F}' || c == '\U{205F}' || c == '\U{3000}' || c == '\U{FEFF}'
  }

  function TrimStart(s: string): string
  {
    if s != [] && IsSpace(s[0]) then TrimStart(s[1..]) else s
  }

  function TrimEnd(s: string): string
  {
    if s != [] && IsSpace(s[|s| - 1]) then TrimEnd(s[..|s| - 1]) else s
  }

  function Trim(s: string): string { TrimEnd(TrimStart(s)) }

  // String.prototype.split(".")
  function Split(s: string): (parts: seq<string>)
    ensures |parts| > 0
  {
    if s == [] then [[]]
    else
      var rest := Split(s[1..]);
      if s[0] == '.' then [[]] + rest else [[s[0]] + rest[0]] + rest[1..]
  }

  lemma {:induction false} SplitAtDot(a: string, b: string)
    requires '.' !in a
    ensures Split(a + "." + b) == [a] + Split(b)
  {
    if a == [] {
      assert ([] + "." + b)[1..] == b;
    } else {
      SplitAtDot(a[1..], b);
      assert (a + "." + b)[1..] == a[1..] + "." + b;
      assert [a[0]] + a[1..] == a;
    }
  }

  lemma {:induction false} SplitWithoutDot(a: string)
    requires '.' !in a
    ensures Split(a) == [a]
  {
    if a != [] {
      SplitWithoutDot(a[1..]);
      assert [a[0]] + a[1..] == a;
    }
  }

  // ---------------------------------------------------------------- versions

  function Show(v: Version): string
  {
    Print(v.major) + "." + (Print(v.minor) + "." + Print(v.patch))
  }

  // ^v?(0|[1-9]\d*)\.(0|[1-9]\d*)\.(0|[1-9]\d*)$ after trimming, all three numbers safe.
  function Parse(value: string): Option<Version>
  {
    var text := Trim(value);
    var body := if text != [] && text[0] == 'v' then text[1..] else text;
    var parts := Split(body);
    if |parts| == 3 && IsCanonical(parts[0]) && IsCanonical(parts[1]) && IsCanonical(parts[2]) then
      var v := Version(Value(parts[0]), Value(parts[1]), Value(parts[2]));
      if v.IsSafe() then Some(v) else None
    else None
  }

  // A value that is not a string is None.
  function NormalizeReleaseVersion(value: Option<string>): Option<string>
  {
    if value.None? then None
    else
      match Parse(value.value)
      case None => None
      case Some(v) => Some(Show(v))
  }

  lemma NoDots(s: string)
    requires IsDigits(s)
    ensures '.' !in s
  {
  }

  lemma SplitShow(v: Version)
    ensures Split(Show(v)) == [Print(v.major), Print(v.minor), Print(v.patch)]
  {
    NoDots(Print(v.major));
    NoDots(Print(v.minor));
    NoDots(Print(v.patch));
    SplitThree(Print(v.major), Print(v.minor), Print(v.patch));
  }

  lemma SplitThree(a: string, b: string, c: string)
    requires '.' !in a && '.' !in b && '.' !in c
    ensures Split(a + "." + (b + "." + c)) == [a, b, c]
  {
    SplitAtDot(a, b + "." + c);
    SplitAtDot(b, c);
    SplitWithoutDot(c);
  }

  lemma ShowIsTrimmed(v: Version)
    ensures Trim(Show(v)) == Show(v) && Show(v) != [] && Show(v)[0] != 'v'
  {
    var s, last := Show(v), Print(v.patch);
    assert s[0] == Print(v.major)[0];
    assert s[|s| - 1] == last[|last| - 1];
  }

  // Parsing what was printed gives the version back.
  lemma ParseOfShow(v: Version)
    requires v.IsSafe()
    ensures Parse(Show(v)) == Some(v)
  {
    ShowIsTrimmed(v);
    SplitShow(v);
    ValueOfPrint(v.major);
    ValueOfPrint(v.minor);
    ValueOfPrint(v.patch);
  }

  // Normalising is idempotent, and normal forms are exactly the printed safe versions.
  lemma NormalizeIsIdempotent(value: string)
    ensures var n := NormalizeReleaseVersion(Some(value));
            n.Some? ==> NormalizeReleaseVersion(n) == n && exists v: Version :: v.IsSafe() && n.value == Show(v)
  {
    match Parse(value) {
      case None =>
      case Some(v) => ParseOfShow(v);
    }
  }

  // ---------------------------------------------------------------- what is a version

  ghost predicate AllSpaces(s: string) { forall i :: 0 <= i < |s| ==> IsSpace(s[i]) }

  // A text that spells a version: blanks around it, perhaps a "v" in front.
  ghost predicate Spells(value: string, before: string, mark: string, v: Version, after: string)
  {
    && AllSpaces(before) && AllSpaces(after) && mark in {"", "v"}
    && v.major <= 9007199254740991 && v.minor <= 9007199254740991 && v.patch <= 9007199254740991
    && value == before + (mark + Show(v)) + after
  }

  lemma {:induction false} TrimStartCuts(s: string) returns (before: string)
    ensures AllSpaces(before) && s == before + TrimStart(s)
  {
    if s != [] && IsSpace(s[0]) {
      var rest := TrimStartCuts(s[1..]);
      before := [s[0]] + rest;
      assert s == [s[0]] + s[1..];
    } else {
      before := [];
    }
  }

  lemma {:induction false} TrimEndCuts(s: string) returns (after: string)
    ensures AllSpaces(after) && s == TrimEnd(s) + after
  {
    if s != [] && IsSpace(s[|s| - 1]) {
      var rest := TrimEndCuts(s[..|s| - 1]);
      after := rest + [s[|s| - 1]];
      assert s == s[..|s| - 1] + [s[|s| - 1]];
    } else {
      after := [];
    }
  }

  lemma {:induction false} TrimStartOf(before: string, t: string)
    requires AllSpaces(before) && t != [] && !IsSpace(t[0])
    ensures TrimStart(before + t) == t
  {
    if before == [] {
      assert before + t == t;
    } else {
      TrimStartOf(before[1..], t);
      assert (before + t)[1..] == before[1..] + t;
    }
  }

  lemma {:induction false} TrimEndOf(t: string, after: string)
    requires AllSpaces(after) && t != [] && !IsSpace(t[|t| - 1])
    ensures TrimEnd(t + after) == t
  {
    if after == [] {
      assert t + after == t;
    } else {
      TrimEndOf(t, after[..|after| - 1]);
      assert (t + after)[..|t + after| - 1] == t + after[..|after| - 1];
    }
  }

  // Splitting and joining again.
  lemma {:induction false} JoinOfSplit(s: string)
    ensures Joined(Split(s)) == s
  {
    if s != [] {
      JoinOfSplit(s[1..]);
      var rest := Split(s[1..]);
      assert s == [s[0]] + s[1..];
      if s[0] == '.' {
        assert ([[]] + rest)[1..] == rest;
      } else {
        assert ([[s[0]] + rest[0]] + rest[1..])[1..] == rest[1..];
      }
    }
  }

  function Joined(parts: seq<string>): string
    requires parts != []
  {
    if |parts| == 1 then parts[0] else parts[0] + "." + Joined(parts[1..])
  }

  lemma JoinedThree(a: string, b: string, c: string)
    ensures Joined([a, b, c]) == a + "." + (b + "." + c)
  {
    assert [a, b, c][1..] == [b, c] && [b, c][1..] == [c];
    assert Joined([b, c]) == b + "." + Joined([c]);
  }

  lemma BodyIsShown(body: string, v: Version)
    requires var parts := Split(body);
             && |parts| == 3 && IsCanonical(parts[0]) && IsCanonical(parts[1]) && IsCanonical(parts[2])
             && v == Version(Value(parts[0]), Value(parts[1]), Value(parts[2]))
    ensures body == Show(v)
  {
    var parts := Split(body);
    JoinOfSplit(body);
    assert parts == [parts[0], parts[1], parts[2]];
    JoinedThree(parts[0], parts[1], parts[2]);
    PrintOfValue(parts[0]);
    PrintOfValue(parts[1]);
    PrintOfValue(parts[2]);
  }

  lemma TrimCuts(value: string) returns (before: string, after: string)
    ensures AllSpaces(before) && AllSpaces(after) && value == before + Trim(value) + after
  {
    before := TrimStartCuts(value);
    after := TrimEndCuts(TrimStart(value));
    assert before + (Trim(value) + after) == before + Trim(value) + after;
  }

  lemma TrimmedIsShown(value: string, v: Version) returns (mark: string)
    requires Parse(value) == Some(v)
    ensures mark in {"", "v"} && Trim(value) == mark + Show(v) && v.IsSafe()
  {
    var text := Trim(value);
    if text != [] && text[0] == 'v' {
      mark := "v";
      BodyIsShown(text[1..], v);
      assert text == "v" + text[1..];
    } else {
      mark := "";
      BodyIsShown(text, v);
      assert text == "" + text;
    }
  }

  lemma ParsedIsSpelled(value: string, v: Version) returns (before: string, mark: string, after: string)
    requires Parse(value) == Some(v)
    ensures Spells(value, before, mark, v, after)
  {
    mark := TrimmedIsShown(value, v);
    before, after := TrimCuts(value);
  }

  lemma SpelledIsParsed(value: string, before: string, mark: string, v: Version, after: string)
    requires Spells(value, before, mark, v, after)
    ensures Parse(value) == Some(v)
  {
    var text := mark + Show(v);
    ShowIsTrimmed(v);
    var last := Print(v.patch);
    assert text[|text| - 1] == last[|last| - 1];
    assert value == before + (text + after);
    TrimStartOf(before, text + after);
    TrimEndOf(text, after);
    assert Trim(value) == text;
    assert (if text[0] == 'v' then text[1..] else text) == Show(v);
    ParseOfShow(v);
  }

  // Exactly the spellings of a version are parsed as it.
  lemma ParseIsExact(value: string, v: Version)
    ensures Parse(value) == Some(v) <==> exists before, mark, after :: Spells(value, before, mark, v, after)
  {
    if Parse(value) == Some(v) {
      var before, mark, after := ParsedIsSpelled(value, v);
    }
    if before, mark, after :| Spells(value, before, mark, v, after) {
      SpelledIsParsed(value, before, mark, v, after);
    }
  }

  // ---------------------------------------------------------------- order

  // The numbers decide in turn.
  ghost predicate IsNewer(l: Version, c: Version)
  {
    || l.major > c.major
    || (l.major == c.major && (l.minor > c.minor || (l.minor == c.minor && l.patch > c.patch)))
  }

  function Sign(d: int): int { if d < 0 then -1 else if d == 0 then 0 else 1 }

  function Compare(l: Version, r: Version): int
  {
    if l.major != r.major then Sign(l.major - r.major)
    else if l.minor != r.minor then Sign(l.minor - r.minor)
    else Sign(l.patch - r.patch)
  }

  function ToNumbers(parts: seq<string>): (numbers: seq<nat>)
    requires forall p <- parts :: IsDigits(p)
    ensures |numbers| == |parts| && forall i :: 0 <= i < |parts| ==> numbers[i] == Value(parts[i])
  {
    seq(|parts|, i requires 0 <= i < |parts| => Value(parts[i]))
  }

  // The loop of `compareReleaseVersions` over the parts of two normal forms.
  method ComparePartsFrom(left: seq<nat>, right: seq<nat>) returns (sign: int)
    requires |left| == |right| == 3
    ensures sign == Compare(Version(left[0], left[1], left[2]), Version(right[0], right[1], right[2]))
  {
    var index := 0;
    while index < |left|
      invariant index <= |left|
      invariant forall k :: 0 <= k < index ==> left[k] == right[k]
    {
      var difference := left[index] as int - right[index] as int;
      if difference != 0 {
        return Sign(difference);
      }
      index := index + 1;
    }
    return 0;
  }

  method CompareReleaseVersions(left: string, right: string) returns (sign: Option<int>)
    ensures sign == if Parse(left).Some? && Parse(right).Some?
            then Some(Compare(Parse(left).value, Parse(right).value)) else None
    ensures sign.Some? ==> Parse(left).Some? && Parse(right).Some?
    ensures sign.Some? ==>
              var l, r := Parse(left).value, Parse(right).value;
              && sign.value in {-1, 0, 1}
              && (sign.value == 1 <==> IsNewer(l, r)) && (sign.value == -1 <==> IsNewer(r, l))
              && (sign.value == 0 <==> l == r)
  {
    var normalizedLeft, normalizedRight := NormalizeReleaseVersion(Some(left)), NormalizeReleaseVersion(Some(right));
    if normalizedLeft.None? || normalizedRight.None? {
      return None;
    }
    ShownParts(Parse(left).value);
    ShownParts(Parse(right).value);
    var s := ComparePartsFrom(ToNumbers(Split(normalizedLeft.value)), ToNumbers(Split(normalizedRight.value)));
    return Some(s);
  }

  lemma ShownParts(v: Version)
    ensures |Split(Show(v))| == 3 && forall p <- Split(Show(v)) :: IsDigits(p)
    ensures var n := ToNumbers(Split(Show(v))); Version(n[0], n[1], n[2]) == v
  {
    SplitShow(v);
    ValueOfPrint(v.major);
    ValueOfPrint(v.minor);
    ValueOfPrint(v.patch);
  }

  // The order is that of the numbers, and total: antisymmetric, transitive, and zero only between
  // equal versions.
  lemma OrderIsTotal(a: Version, b: Version, c: Version)
    ensures Compare(a, b) == if IsNewer(a, b) then 1 else if IsNewer(b, a) then -1 else 0
    ensures Compare(a, b) == -Compare(b, a)
    ensures Compare(a, b) == 0 <==> a == b
    ensures Compare(a, b) <= 0 && Compare(b, c) <= 0 ==> Compare(a, c) <= 0
    ensures Compare(a, b) < 0 && Compare(b, c) <= 0 ==> Compare(a, c) < 0
  {
  }

  // ---------------------------------------------------------------- releases

  datatype Reason = NoRelease | InvalidRelease | IncompleteWindowsRelease | UnverifiedWindowsRelease

  datatype ReleaseSource = Release(latestVersion: string, publishedAt: Option<string>) | NotAvailable(reason: Reason)

  datatype UpdateCheck =
    | Newer(currentVersion: string, latestVersion: string, publishedAt: Option<string>)
    | UpToDate(currentVersion: string, latestVersion: string)
    | Unavailable(currentVersion: string, reason: Reason)

  method EvaluateWindowsRelease(currentVersion: string, source: ReleaseSource) returns (check: UpdateCheck)
    ensures check == Evaluated(currentVersion, source)
    ensures check.Newer? <==> IsOffer(currentVersion, source)
    ensures check.UpToDate? <==>
              && source.Release? && Parse(currentVersion).Some? && Parse(source.latestVersion).Some?
              && !IsNewer(Parse(source.latestVersion).value, Parse(currentVersion).value)
    ensures check.Newer? ==> check.publishedAt == source.publishedAt
    ensures check.Newer? || check.UpToDate? ==>
              && check.currentVersion == Show(Parse(currentVersion).value)
              && check.latestVersion == Show(Parse(source.latestVersion).value)
  {
    OffersOnlyNewer(currentVersion, source);
    var current := NormalizeReleaseVersion(Some(currentVersion));
    if current.None? {
      return Unavailable(currentVersion, InvalidRelease);
    }
    if source.NotAvailable? {
      return Unavailable(current.value, source.reason);
    }
    var latest := NormalizeReleaseVersion(Some(source.latestVersion));
    var comparison: Option<int> := None;
    if latest.Some? {
      ParseOfShow(Parse(source.latestVersion).value);
      ParseOfShow(Parse(currentVersion).value);
      comparison := CompareReleaseVersions(latest.value, current.value);
    }
    if latest.None? || comparison.None? {
      return Unavailable(current.value, InvalidRelease);
    }
    if comparison.value <= 0 {
      return UpToDate(current.value, latest.value);
    }
    return Newer(current.value, latest.value, source.publishedAt);
  }

  // The verdict in terms of the numbers alone.
  function Evaluated(currentVersion: string, source: ReleaseSource): UpdateCheck
  {
    match Parse(currentVersion)
    case None => Unavailable(currentVersion, InvalidRelease)
    case Some(current) =>
      match source
      case NotAvailable(reason) => Unavailable(Show(current), reason)
      case Release(latestVersion, publishedAt) =>
        match Parse(latestVersion)
        case None => Unavailable(Show(current), InvalidRelease)
        case Some(latest) =>
          if Compare(latest, current) > 0 then Newer(Show(current), Show(latest), publishedAt)
          else UpToDate(Show(current), Show(latest))
  }

  // A release of a strictly newer version.
  ghost predicate IsOffer(currentVersion: string, source: ReleaseSource)
  {
    && source.Release? && Parse(currentVersion).Some? && Parse(source.latestVersion).Some?
    && IsNewer(Parse(source.latestVersion).value, Parse(currentVersion).value)
  }

  // An update is offered only for a strictly newer version, never for the same or an older one.
  lemma OffersOnlyNewer(currentVersion: string, source: ReleaseSource)
    ensures var check := Evaluated(currentVersion, source);
            check.Newer? <==>
              && source.Release? && Parse(currentVersion).Some? && Parse(source.latestVersion).Some?
              && var c, l := Parse(currentVersion).value, Parse(source.latestVersion).value;
                 || l.major > c.major
                 || (l.major == c.major && (l.minor > c.minor || (l.minor == c.minor && l.patch > c.patch)))
  {
  }
}
