/** Release versions: their normal form, their order, and what the controller says about updates. */
module Releases {
  import opened Text

  // ---- Normal form ----

  /** What comes before the first "+" or "-". */
  function CutSuffix(value: string): string {
    var i, j := FirstIndex(value, '+'), FirstIndex(value, '-');
    value[..if i < j then i else j]
  }

  function TrimPrefixV(value: string): string {
    if HasPrefix(value, "v") then value[1..] else value
  }

  predicate IsPart(part: string) {
    part != "" && Atoi(part).Some?
  }

  /** The parts of a version, or none if it is no release version. */
  function PartsOf(value: string): seq<string> {
    var trimmed := TrimSpace(value);
    var core := TrimPrefixV(CutSuffix(trimmed));
    if ToLower(trimmed) in ["dev", "main", "latest", "unknown"] || core == "" then []
    else if forall part | part in Split(core, '.') :: IsPart(part) then Split(core, '.')
    else []
  }

  predicate IsRelease(value: string) {
    PartsOf(value) != []
  }

  function Normalized(value: string): string {
    if IsRelease(value) then "v" + Join(PartsOf(value), ".") else ""
  }

  method NormalizeReleaseVersion(raw: string) returns (version: string)
    ensures version == Normalized(raw)
  {
    hide TrimSpace, ToLower, Atoi, FirstIndex;
    var value := TrimSpace(raw);
    if value == "" {
      EmptyIsNoRelease(raw);
      return "";
    }
    var lower := ToLower(value);
    if lower == "dev" || lower == "main" || lower == "latest" || lower == "unknown" {
      return "";
    }
    value := CutSuffix(value);
    value := TrimPrefixV(value);
    if value == "" {
      return "";
    }
    var parts := Split(value, '.');
    for n := 0 to |parts|
      invariant forall part :: part in parts[..n] ==> IsPart(part)
    {
      if parts[n] == "" || Atoi(parts[n]).None? {
        assert !IsPart(parts[n]) && parts[n] in parts;
        return "";
      }
      assert parts[..n + 1] == parts[..n] + [parts[n]];
    }
    assert parts[..|parts|] == parts;
    return "v" + Join(parts, ".");
  }

  lemma EmptyIsNoRelease(raw: string)
    requires TrimSpace(raw) == ""
    ensures !IsRelease(raw)
  {
  }

  // ---- Comparison ----

  function PartAt(parts: seq<string>, index: nat): int {
    if index >= |parts| then 0
    else if Atoi(parts[index]).Some? then Atoi(parts[index]).value
    else 0
  }

  /** The first difference from a place on, missing parts counting as zero. */
  function CompareFrom(a: seq<string>, b: seq<string>, i: nat): int
    decreases (if |a| > |b| then |a| else |b|) - i
  {
    if i >= |a| && i >= |b| then 0
    else if PartAt(a, i) < PartAt(b, i) then -1
    else if PartAt(a, i) > PartAt(b, i) then 1
    else CompareFrom(a, b, i + 1)
  }

  function Compared(current: string, latest: string): int {
    if !IsRelease(current) || !IsRelease(latest) then 0 else CompareFrom(PartsOf(current), PartsOf(latest), 0)
  }

  method CompareReleaseVersions(current: string, latest: string) returns (order: int)
    ensures order == Compared(current, latest)
  {
    hide PartsOf, PartAt;
    var a := NormalizeReleaseVersion(current);
    var b := NormalizeReleaseVersion(latest);
    NormalIsNotEmpty(current);
    NormalIsNotEmpty(latest);
    if a == "" || b == "" {
      return 0;
    }
    PartsOfNormal(current);
    PartsOfNormal(latest);
    var currentParts, latestParts := Split(TrimPrefixV(a), '.'), Split(TrimPrefixV(b), '.');
    var maxParts := |currentParts|;
    if |latestParts| > maxParts {
      maxParts := |latestParts|;
    }
    for i := 0 to maxParts
      invariant CompareFrom(currentParts, latestParts, 0) == CompareFrom(currentParts, latestParts, i)
    {
      var currentValue, latestValue := PartAt(currentParts, i), PartAt(latestParts, i);
      if currentValue < latestValue {
        return -1;
      } else if currentValue > latestValue {
        return 1;
      }
    }
    return 0;
  }

  lemma NormalIsNotEmpty(value: string)
    ensures Normalized(value) == "" <==> !IsRelease(value)
  {
  }

  // ---- The normal form is normal ----

  lemma {:induction false} JoinDigits(parts: seq<string>, c: char)
    requires forall k :: 0 <= k < |parts| ==> All(parts[k], IsDigit)
    requires c in Join(parts, ".")
    ensures IsDigit(c) || c == '.'
  {
    if |parts| == 1 {
      var i :| 0 <= i < |parts[0]| && parts[0][i] == c;
    } else if |parts| > 1 {
      var rest := Join(parts[1..], ".");
      if c in parts[0] {
        var i :| 0 <= i < |parts[0]| && parts[0][i] == c;
      } else if c != '.' {
        assert c in rest;
        JoinDigits(parts[1..], c);
      }
    }
  }

  lemma {:induction false} JoinedIsClean(parts: seq<string>)
    requires parts != [] && forall k :: 0 <= k < |parts| ==> parts[k] != "" && All(parts[k], IsDigit)
    ensures var s := Join(parts, "."); s != "" && IsDigit(s[0]) && IsDigit(s[|s| - 1])
  {
    if |parts| > 1 {
      JoinedIsClean(parts[1..]);
      assert Join(parts, ".")[0] == parts[0][0];
    }
  }

  lemma CutKeepsOut(value: string)
    ensures '+' !in CutSuffix(value) && '-' !in CutSuffix(value)
  {
    var i, j := FirstIndex(value, '+'), FirstIndex(value, '-');
    assert forall k :: 0 <= k < i ==> value[..i][k] == value[k];
    assert forall k :: 0 <= k < j ==> value[..j][k] == value[k];
  }

  /** The parts are digits: signs are cut off before the parts are read. */
  lemma PartsAreDigits(value: string)
    ensures forall k :: 0 <= k < |PartsOf(value)| ==>
              var part := PartsOf(value)[k]; part != "" && All(part, IsDigit) && Atoi(part).Some?
  {
    var core := TrimPrefixV(CutSuffix(TrimSpace(value)));
    CutKeepsOut(TrimSpace(value));
    forall k | 0 <= k < |PartsOf(value)|
      ensures var part := PartsOf(value)[k]; part != "" && All(part, IsDigit) && Atoi(part).Some?
    {
      var part := Split(core, '.')[k];
      assert part in Split(core, '.') && IsPart(part);
      if part[0] == '+' || part[0] == '-' {
        SplitPartsWithin(core, IsChar('.'), k, part[0]);
      }
    }
  }

  /** Reading a version from its normal form gives the same parts. */
  lemma PartsOfNormal(value: string)
    requires IsRelease(value)
    ensures Split(TrimPrefixV(Normalized(value)), '.') == PartsOf(value)
    ensures PartsOf(Normalized(value)) == PartsOf(value)
  {
    var parts := PartsOf(value);
    var joined := Join(parts, ".");
    hide PartsOf, Atoi;
    PartsAreDigits(value);
    JoinedIsClean(parts);
    forall k | 0 <= k < |parts| ensures FreeOf(parts[k], IsChar('.')) {
      assert forall i :: 0 <= i < |parts[k]| ==> IsDigit(parts[k][i]);
    }
    SplitJoin(parts, '.', IsChar('.'));
    assert Normalized(value)[1..] == joined;
    NormalReads(parts, joined);
  }

  lemma {:induction false} NormalReads(parts: seq<string>, joined: string)
    requires parts != [] && joined == Join(parts, ".") && Split(joined, '.') == parts
    requires forall k :: 0 <= k < |parts| ==> parts[k] != "" && All(parts[k], IsDigit) && Atoi(parts[k]).Some?
    ensures PartsOf("v" + joined) == parts
  {
    hide Join, Split, Atoi, CutSuffix, ToLower, Trim;
    var value := "v" + joined;
    JoinedIsClean(parts);
    TrimCleanIsIdentity(value, IsSpace);
    NoSigns(parts, value);
    CutNothing(value);
    assert value[1..] == joined;
    VersionIsNoKeyword(value);
    forall part | part in parts ensures IsPart(part) {
      var k :| 0 <= k < |parts| && parts[k] == part;
    }
  }

  lemma {:induction false} NoSigns(parts: seq<string>, value: string)
    requires forall k :: 0 <= k < |parts| ==> All(parts[k], IsDigit)
    requires value == "v" + Join(parts, ".")
    ensures '+' !in value && '-' !in value
  {
    hide Join;
    if '+' in value { JoinDigits(parts, '+'); }
    if '-' in value { JoinDigits(parts, '-'); }
  }

  lemma VersionIsNoKeyword(value: string)
    requires value != "" && value[0] == 'v'
    ensures ToLower(value) !in ["dev", "main", "latest", "unknown"]
  {
    assert ToLower(value)[0] == 'v';
  }

  lemma CutNothing(value: string)
    requires '+' !in value && '-' !in value
    ensures CutSuffix(value) == value
  {
    assert FirstIndex(value, '+') == |value| == FirstIndex(value, '-');
  }

  /** Normalizing twice is normalizing once, and comparing normal forms is comparing versions. */
  lemma NormalizedIsNormal(value: string)
    ensures Normalized(Normalized(value)) == Normalized(value)
    ensures IsRelease(Normalized(value)) <==> IsRelease(value)
    ensures forall other :: Compared(Normalized(value), other) == Compared(value, other)
  {
    hide PartsOf;
    if IsRelease(value) {
      PartsOfNormal(value);
    } else {
      EmptyTextIsNoRelease();
    }
  }

  lemma EmptyTextIsNoRelease()
    ensures !IsRelease("")
  {
    EmptyIsNoRelease("");
  }

  // ---- The order ----

  /** The versions agree before place k, where the first has the smaller part. */
  predicate LowerAt(a: seq<string>, b: seq<string>, k: nat) {
    PartAt(a, k) < PartAt(b, k) && forall j: nat | j < k :: PartAt(a, j) == PartAt(b, j)
  }

  /** The result tells which version has the smaller part where they first differ. */
  lemma {:induction false} CompareMeans(a: seq<string>, b: seq<string>, i: nat)
    requires forall j: nat :: j < i ==> PartAt(a, j) == PartAt(b, j)
    ensures var order := CompareFrom(a, b, i);
            && -1 <= order <= 1
            && (order == -1 <==> exists k: nat :: LowerAt(a, b, k))
            && (order == 1 <==> exists k: nat :: LowerAt(b, a, k))
            && (order == 0 <==> forall j: nat :: PartAt(a, j) == PartAt(b, j))
    decreases (if |a| > |b| then |a| else |b|) - i
  {
    if i >= |a| && i >= |b| {
    } else if PartAt(a, i) < PartAt(b, i) {
      assert LowerAt(a, b, i);
      assert forall k: nat :: LowerAt(b, a, k) ==> k <= i;
    } else if PartAt(a, i) > PartAt(b, i) {
      assert LowerAt(b, a, i);
      assert forall k: nat :: LowerAt(a, b, k) ==> k <= i;
    } else {
      CompareMeans(a, b, i + 1);
    }
  }

  /** The comparison is antisymmetric, and transitive through every release version. */
  lemma ComparisonIsAPreorder(a: string, b: string, c: string)
    ensures -1 <= Compared(a, b) <= 1 && Compared(a, b) == -Compared(b, a)
    ensures Compared(a, a) == 0
    ensures IsRelease(b) && Compared(a, b) <= 0 && Compared(b, c) <= 0 ==> Compared(a, c) <= 0
    ensures IsRelease(b) && IsRelease(a) && IsRelease(c) && Compared(a, b) <= 0 && Compared(b, c) < 0 ==> Compared(a, c) < 0
  {
    hide PartsOf, PartAt, CompareFrom;
    var x, y, z := PartsOf(a), PartsOf(b), PartsOf(c);
    CompareMeans(x, y, 0);
    CompareMeans(y, x, 0);
    CompareMeans(x, x, 0);
    CompareMeans(y, z, 0);
    CompareMeans(x, z, 0);
    if exists k: nat :: LowerAt(x, y, k) {
      var k: nat :| LowerAt(x, y, k);
      if exists l: nat :: LowerAt(y, z, l) {
        var l: nat :| LowerAt(y, z, l);
        assert LowerAt(x, z, if k < l then k else l);
      } else if forall j: nat :: PartAt(y, j) == PartAt(z, j) {
        assert LowerAt(x, z, k);
      }
    } else if exists l: nat :: LowerAt(y, z, l) {
      var l: nat :| LowerAt(y, z, l);
      if forall j: nat :: PartAt(x, j) == PartAt(y, j) {
        assert LowerAt(x, z, l);
      }
    }
  }

  /** A version that is no release compares as equal to every other, so nothing follows through it. */
  lemma TransitiveThroughReleasesOnly(b: string)
    ensures (forall a, c :: Compared(a, b) <= 0 && Compared(b, c) <= 0 ==> Compared(a, c) <= 0) <==> IsRelease(b)
  {
    if IsRelease(b) {
      forall a, c | Compared(a, b) <= 0 && Compared(b, c) <= 0 ensures Compared(a, c) <= 0 {
        ComparisonIsAPreorder(a, b, c);
      }
    } else {
      hide PartsOf, PartAt;
      SmallNumber('2');
      SmallNumber('1');
      assert Compared("2", b) == 0 == Compared(b, "1") && Compared("2", "1") == 1;
    }
  }

  lemma SmallNumber(digit: char)
    requires IsDigit(digit)
    ensures PartsOf([digit]) == [[digit]] && PartAt([[digit]], 0) == DigitValue(digit)
  {
    var s := [digit];
    TrimCleanIsIdentity(s, IsSpace);
    assert |ToLower(s)| == 1;
    SplitFree(s, IsChar('.'));
    CutNothing(s);
    assert s[..0] == "";
    assert DigitsValue(s) == DigitValue(digit);
    assert Atoi(s) == Some(DigitValue(digit));
    assert forall part :: part in [s] ==> IsPart(part);
  }

  /** Without its trailing zero parts. */
  function Shortened(parts: seq<string>): seq<int> {
    if parts == [] then []
    else if PartAt(parts, |parts| - 1) == 0 then Shortened(parts[..|parts| - 1])
    else seq(|parts|, i requires 0 <= i < |parts| => PartAt(parts, i))
  }

  lemma {:induction false} ShortenedParts(parts: seq<string>)
    ensures var s := Shortened(parts);
            && |s| <= |parts|
            && (s != [] ==> s[|s| - 1] != 0)
            && forall j: nat :: PartAt(parts, j) == if j < |s| then s[j] else 0
  {
    if parts != [] && PartAt(parts, |parts| - 1) == 0 {
      var front := parts[..|parts| - 1];
      ShortenedParts(front);
      forall j: nat ensures PartAt(parts, j) == PartAt(front, j) {
      }
    }
  }

  /** Two release versions are equal exactly when they differ in trailing zero parts only. */
  lemma EqualUpToZeros(a: string, b: string)
    requires IsRelease(a) && IsRelease(b)
    ensures Compared(a, b) == 0 <==> Shortened(PartsOf(a)) == Shortened(PartsOf(b))
  {
    hide PartsOf, PartAt, CompareFrom, Shortened;
    var x, y := PartsOf(a), PartsOf(b);
    var s, t := Shortened(x), Shortened(y);
    CompareMeans(x, y, 0);
    ShortenedParts(x);
    ShortenedParts(y);
    if forall j: nat :: PartAt(x, j) == PartAt(y, j) {
      var m, n := if s == [] then 0 else |s| - 1, if t == [] then 0 else |t| - 1;
      assert PartAt(x, m) == PartAt(y, m) && PartAt(x, n) == PartAt(y, n);
      assert |s| == |t|;
      forall j | 0 <= j < |s| ensures s[j] == t[j] {
        assert PartAt(x, j) == PartAt(y, j);
      }
    } else {
      var j: nat :| PartAt(x, j) != PartAt(y, j);
    }
  }

  // ---- The order of the numbers ----

  /** Release numbers as they are written: "v1.10.0" for 1, 10 and 0. */
  function Written(numbers: seq<nat>): string {
    "v" + Join(Texts(numbers), ".")
  }

  function Texts(numbers: seq<nat>): (texts: seq<string>)
    ensures |texts| == |numbers|
  {
    seq(|numbers|, i requires 0 <= i < |numbers| => Itoa(numbers[i]))
  }

  /** A number that is not there counts as zero. */
  function NumberAt(numbers: seq<nat>, i: nat): nat {
    if i < |numbers| then numbers[i] else 0
  }

  /** Where two releases first differ, the first one has the smaller number. */
  predicate Older(a: seq<nat>, b: seq<nat>, k: nat) {
    NumberAt(a, k) < NumberAt(b, k) && forall j: nat | j < k :: NumberAt(a, j) == NumberAt(b, j)
  }

  predicate Readable(numbers: seq<nat>) {
    numbers != [] && forall n :: n in numbers ==> n <= MAX_INT
  }

  lemma WrittenParts(numbers: seq<nat>)
    requires Readable(numbers)
    ensures PartsOf(Written(numbers)) == Texts(numbers)
    ensures forall i: nat :: PartAt(Texts(numbers), i) == NumberAt(numbers, i)
  {
    hide PartsOf, Itoa, Atoi;
    var texts := Texts(numbers);
    forall k | 0 <= k < |texts| ensures texts[k] != "" && All(texts[k], IsDigit) && Atoi(texts[k]) == Some(numbers[k]) && FreeOf(texts[k], IsChar('.')) {
      assert numbers[k] in numbers;
      AtoiOfItoa(numbers[k]);
      assert forall i :: 0 <= i < |texts[k]| ==> IsDigit(texts[k][i]);
    }
    SplitJoin(texts, '.', IsChar('.'));
    NormalReads(texts, Join(texts, "."));
  }

  /** For all release numbers: the comparison of two releases as written is -1 when the first is older, 1
      when the second is, and 0 when all numbers are the same. */
  lemma ComparesNumbers(a: seq<nat>, b: seq<nat>)
    requires Readable(a) && Readable(b)
    ensures var order := Compared(Written(a), Written(b));
            && (order == -1 <==> exists k: nat :: Older(a, b, k))
            && (order == 1 <==> exists k: nat :: Older(b, a, k))
            && (order == 0 <==> forall j: nat :: NumberAt(a, j) == NumberAt(b, j))
  {
    hide PartsOf, PartAt, CompareFrom, Written;
    WrittenParts(a);
    WrittenParts(b);
    CompareMeans(Texts(a), Texts(b), 0);
    forall k: nat ensures LowerAt(Texts(a), Texts(b), k) <==> Older(a, b, k) {
    }
    forall k: nat ensures LowerAt(Texts(b), Texts(a), k) <==> Older(b, a, k) {
    }
  }

  // ---- Which texts are releases ----

  predicate IsSuffix(suffix: string) {
    suffix == "" || suffix[0] == '+' || suffix[0] == '-'
  }

  /** Numbers, joined by dots, with or without a "v" before and with or without a suffix after them. */
  ghost predicate Spells(value: string, parts: seq<string>) {
    && parts != [] && (forall k :: 0 <= k < |parts| ==> parts[k] != "" && All(parts[k], IsDigit) && DigitsValue(parts[k]) <= MAX_INT)
    && exists prefix, suffix :: prefix in ["", "v"] && IsSuffix(suffix) && TrimSpace(value) == prefix + Join(parts, ".") + suffix
  }

  lemma CutAtSuffix(core: string, suffix: string)
    requires '+' !in core && '-' !in core && IsSuffix(suffix)
    ensures CutSuffix(core + suffix) == core
  {
    var value := core + suffix;
    var i, j := FirstIndex(value, '+'), FirstIndex(value, '-');
    assert forall k :: 0 <= k < |core| ==> value[k] == core[k] && core[k] in core;
    assert value[|core|..] == suffix && value[..|core|] == core;
  }

  lemma DigitPartReads(part: string)
    requires part != "" && All(part, IsDigit)
    ensures Atoi(part).Some? <==> DigitsValue(part) <= MAX_INT
  {
    assert IsDigit(part[0]);
  }

  lemma SpelledIsRead(value: string, parts: seq<string>)
    requires Spells(value, parts)
    ensures PartsOf(value) == parts
  {
    var prefix, suffix :| prefix in ["", "v"] && IsSuffix(suffix) && TrimSpace(value) == prefix + Join(parts, ".") + suffix;
    var joined := Join(parts, ".");
    hide Atoi, Join, CutSuffix, TrimSpace, DigitsValue;
    JoinedIsClean(parts);
    NoSignsIn(parts);
    forall k | 0 <= k < |parts| ensures FreeOf(parts[k], IsChar('.')) && IsPart(parts[k]) {
      assert forall i :: 0 <= i < |parts[k]| ==> IsDigit(parts[k][i]);
      DigitPartReads(parts[k]);
    }
    SplitJoin(parts, '.', IsChar('.'));
    assert '+' !in prefix && '-' !in prefix;
    CutAtSuffix(prefix + joined, suffix);
    WithoutV(prefix, joined);
    KeywordsStartOtherwise(TrimSpace(value), prefix + joined, suffix);
  }

  lemma NoSignsIn(parts: seq<string>)
    requires forall k :: 0 <= k < |parts| ==> All(parts[k], IsDigit)
    ensures '+' !in Join(parts, ".") && '-' !in Join(parts, ".")
  {
    hide Join;
    if '+' in Join(parts, ".") { JoinDigits(parts, '+'); }
    if '-' in Join(parts, ".") { JoinDigits(parts, '-'); }
  }

  lemma WithoutV(prefix: string, joined: string)
    requires prefix in ["", "v"] && joined != "" && IsDigit(joined[0])
    ensures TrimPrefixV(prefix + joined) == joined
    ensures prefix + joined != "" && (IsDigit((prefix + joined)[0]) || (prefix + joined)[0] == 'v')
  {
    if prefix == "" {
      assert prefix + joined == joined;
    } else {
      assert (prefix + joined)[1..] == joined;
    }
  }

  lemma KeywordsStartOtherwise(value: string, core: string, suffix: string)
    requires value == core + suffix && core != "" && (IsDigit(core[0]) || core[0] == 'v')
    ensures ToLower(value) !in ["dev", "main", "latest", "unknown"]
  {
    assert value[0] == core[0];
    assert ToLower(value)[0] == value[0];
  }

  lemma ReadIsSpelled(value: string)
    requires IsRelease(value)
    ensures Spells(value, PartsOf(value))
  {
    hide PartsOf, Atoi, TrimSpace, DigitsValue, Join, IsSuffix;
    var parts := PartsOf(value);
    PartsAreDigits(value);
    forall k | 0 <= k < |parts| ensures DigitsValue(parts[k]) <= MAX_INT {
      DigitPartReads(parts[k]);
    }
    var prefix, suffix := PartsJoined(value);
  }

  lemma PartsAreSplit(value: string)
    requires IsRelease(value)
    ensures PartsOf(value) == Split(TrimPrefixV(CutSuffix(TrimSpace(value))), '.')
  {
    hide TrimSpace, Split, CutSuffix, ToLower;
  }

  lemma CutPieces(trimmed: string)
    ensures var cut := CutSuffix(trimmed);
            |cut| <= |trimmed| && trimmed == cut + trimmed[|cut|..] && cut == (if HasPrefix(cut, "v") then "v" else "") + TrimPrefixV(cut)
  {
    hide FirstIndex;
  }

  lemma PartsJoined(value: string) returns (prefix: string, suffix: string)
    requires IsRelease(value)
    ensures prefix in ["", "v"] && IsSuffix(suffix) && TrimSpace(value) == prefix + Join(PartsOf(value), ".") + suffix
  {
    hide TrimSpace, Join, Split, PartsOf, IsSuffix, CutSuffix, TrimPrefixV;
    var trimmed := TrimSpace(value);
    var cut := CutSuffix(trimmed);
    CutPieces(trimmed);
    prefix, suffix := if HasPrefix(cut, "v") then "v" else "", trimmed[|cut|..];
    PartsAreSplit(value);
    JoinSplit(TrimPrefixV(cut), '.');
    SuffixStarts(trimmed);
  }

  lemma SuffixStarts(trimmed: string)
    ensures IsSuffix(trimmed[|CutSuffix(trimmed)|..])
  {
  }

  /** A text is a release version, of exactly these parts, when it spells them, and no other text is. */
  lemma ReleaseIff(value: string, parts: seq<string>)
    requires parts != []
    ensures PartsOf(value) == parts <==> Spells(value, parts)
  {
    if Spells(value, parts) {
      SpelledIsRead(value, parts);
    } else if PartsOf(value) == parts {
      ReadIsSpelled(value);
    }
  }
}
