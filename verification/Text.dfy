/** Strings as the controller uses them: the fragments of Go's "strings", "strconv" and string
    comparison that the parsers, printers and sort keys rest on. Strings are ASCII. */
module Text {

  datatype Option<+T> = None | Some(value: T)

  datatype Result<+T, +E> = Ok(value: T) | Err(error: E)

  // ---- Trimming ----

  predicate IsSpace(c: char) {
    c == ' ' || c == '\t' || c == '\n' || c == '\r' || c == '\U{0B}' || c == '\U{0C}'
  }

  predicate IsDot(c: char) {
    c == '.'
  }

  function TrimLeft(s: string, drop: char -> bool): string {
    if s != "" && drop(s[0]) then TrimLeft(s[1..], drop) else s
  }

  function TrimRight(s: string, drop: char -> bool): string {
    if s != "" && drop(s[|s| - 1]) then TrimRight(s[..|s| - 1], drop) else s
  }

  function Trim(s: string, drop: char -> bool): string {
    TrimRight(TrimLeft(s, drop), drop)
  }

  function TrimSpace(s: string): string {
    Trim(s, IsSpace)
  }

  /** Neither end of s would be trimmed. */
  predicate Clean(s: string, drop: char -> bool) {
    s != "" ==> !drop(s[0]) && !drop(s[|s| - 1])
  }

  predicate Trimmed(s: string) {
    Clean(s, IsSpace)
  }

  predicate Blank(s: string) {
    TrimSpace(s) == ""
  }

  predicate All(s: string, p: char -> bool) {
    forall i | 0 <= i < |s| :: p(s[i])
  }

  lemma {:induction false} TrimLeftParts(s: string, drop: char -> bool) returns (k: nat)
    ensures k <= |s| && TrimLeft(s, drop) == s[k..] && All(s[..k], drop)
    ensures TrimLeft(s, drop) != "" ==> !drop(TrimLeft(s, drop)[0])
  {
    if s != "" && drop(s[0]) {
      var n := TrimLeftParts(s[1..], drop);
      k := n + 1;
      assert s[k..] == s[1..][n..];
      assert s[..k] == [s[0]] + s[1..][..n];
      assert All([s[0]] + s[1..][..n], drop);
    } else {
      k := 0;
    }
  }

  lemma {:induction false} TrimRightParts(s: string, drop: char -> bool) returns (k: nat)
    ensures k <= |s| && TrimRight(s, drop) == s[..k] && All(s[k..], drop)
    ensures TrimRight(s, drop) != "" ==> !drop(TrimRight(s, drop)[|TrimRight(s, drop)| - 1])
  {
    if s != "" && drop(s[|s| - 1]) {
      k := TrimRightParts(s[..|s| - 1], drop);
      assert s[k..] == s[..|s| - 1][k..] + [s[|s| - 1]];
    } else {
      k := |s|;
    }
  }

  /** Trimming cuts a dropped prefix and a dropped suffix and stops at the first kept characters. */
  lemma TrimParts(s: string, drop: char -> bool) returns (i: nat, j: nat)
    ensures i <= j <= |s| && Trim(s, drop) == s[i..j]
    ensures All(s[..i], drop) && All(s[j..], drop)
    ensures Clean(Trim(s, drop), drop)
  {
    i := TrimLeftParts(s, drop);
    var k := TrimRightParts(s[i..], drop);
    j := i + k;
    assert s[i..][k..] == s[j..];
    assert s[i..][..k] == s[i..j];
  }

  lemma TrimIsClean(s: string, drop: char -> bool)
    ensures Clean(Trim(s, drop), drop)
    ensures |Trim(s, drop)| <= |s|
    ensures forall c :: c in Trim(s, drop) ==> c in s
  {
    var i, j := TrimParts(s, drop);
  }

  lemma TrimCleanIsIdentity(s: string, drop: char -> bool)
    requires Clean(s, drop)
    ensures Trim(s, drop) == s
  {
  }

  /** A string whose ends are already trimmed is exactly one that trimming leaves alone. */
  lemma CleanIffFixed(s: string, drop: char -> bool)
    ensures Clean(s, drop) <==> Trim(s, drop) == s
  {
    TrimIsClean(s, drop);
    if Clean(s, drop) { TrimCleanIsIdentity(s, drop); }
  }

  lemma BlankIsAllSpaces(s: string)
    requires Blank(s)
    ensures All(s, IsSpace)
  {
    var i, j := TrimParts(s, IsSpace);
    forall k | 0 <= k < |s| ensures IsSpace(s[k]) {
      assert if k < i then s[k] == s[..i][k] else s[k] == s[j..][k - j];
    }
  }

  lemma {:induction false} TrimLeftPadded(a: string, s: string, drop: char -> bool)
    requires All(a, drop)
    ensures TrimLeft(a + s, drop) == TrimLeft(s, drop)
  {
    if a == "" {
      assert a + s == s;
    } else {
      assert (a + s)[1..] == a[1..] + s;
      TrimLeftPadded(a[1..], s, drop);
    }
  }

  lemma {:induction false} TrimRightPadded(s: string, b: string, drop: char -> bool)
    requires All(b, drop)
    ensures TrimRight(s + b, drop) == TrimRight(s, drop)
  {
    if b == "" {
      assert s + b == s;
    } else {
      assert (s + b)[..|s + b| - 1] == s + b[..|b| - 1];
      TrimRightPadded(s, b[..|b| - 1], drop);
    }
  }

  /** Padding a trimmed string and trimming it gives it back. */
  lemma TrimPadded(a: string, s: string, b: string, drop: char -> bool)
    requires All(a, drop) && All(b, drop) && Clean(s, drop)
    ensures Trim(a + s + b, drop) == s
  {
    assert a + s + b == a + (s + b);
    TrimLeftPadded(a, s + b, drop);
    if s == "" {
      assert s + b == b + s;
      TrimLeftPadded(b, s, drop);
    } else {
      assert TrimLeft(s + b, drop) == s + b;
      TrimRightPadded(s, b, drop);
    }
  }

  // ---- Case ----

  function LowerChar(c: char): char {
    if 'A' <= c <= 'Z' then c - 'A' + 'a' else c
  }

  function ToLower(s: string): (r: string)
    ensures |r| == |s|
  {
    seq(|s|, i requires 0 <= i < |s| => LowerChar(s[i]))
  }

  predicate EqualFold(a: string, b: string) {
    ToLower(a) == ToLower(b)
  }

  predicate IsLower(s: string) {
    forall i | 0 <= i < |s| :: LowerChar(s[i]) == s[i]
  }

  lemma LowerIdempotent(s: string)
    ensures IsLower(ToLower(s))
    ensures IsLower(s) <==> ToLower(s) == s
  {
    forall i | 0 <= i < |s| ensures LowerChar(ToLower(s)[i]) == ToLower(s)[i] {
    }
    if ToLower(s) == s {
      forall i | 0 <= i < |s| ensures LowerChar(s[i]) == s[i] {
        assert ToLower(s)[i] == LowerChar(s[i]);
      }
    }
  }

  predicate HasPrefix(s: string, prefix: string) {
    prefix <= s
  }

  // ---- Split and Join ----

  function IsChar(sep: char): char -> bool {
    c => c == sep
  }

  /** Split at every character that satisfies sep. */
  function SplitFunc(s: string, sep: char -> bool): (parts: seq<string>)
    ensures |parts| >= 1
  {
    if s == "" then [""]
    else
      var rest := SplitFunc(s[1..], sep);
      if sep(s[0]) then [""] + rest else [[s[0]] + rest[0]] + rest[1..]
  }

  function Split(s: string, sep: char): (parts: seq<string>)
    ensures |parts| >= 1
  {
    SplitFunc(s, IsChar(sep))
  }

  function NonEmpty(parts: seq<string>): seq<string> {
    if parts == [] then []
    else if parts[0] == "" then NonEmpty(parts[1..])
    else [parts[0]] + NonEmpty(parts[1..])
  }

  function FieldsFunc(s: string, sep: char -> bool): seq<string> {
    NonEmpty(SplitFunc(s, sep))
  }

  function Join(parts: seq<string>, sep: string): string {
    if parts == [] then ""
    else if |parts| == 1 then parts[0]
    else parts[0] + sep + Join(parts[1..], sep)
  }

  lemma JoinThree(a: string, b: string, c: string, sep: string)
    ensures Join([a, b, c], sep) == a + sep + (b + sep + c)
  {
    assert [a, b, c][1..] == [b, c];
    assert [b, c][1..] == [c];
    assert Join([b, c], sep) == b + sep + c;
  }

  predicate FreeOf(s: string, sep: char -> bool) {
    forall i | 0 <= i < |s| :: !sep(s[i])
  }

  lemma {:induction false} SplitPartsFree(s: string, sep: char -> bool)
    ensures forall k :: 0 <= k < |SplitFunc(s, sep)| ==> FreeOf(SplitFunc(s, sep)[k], sep)
  {
    if s != "" {
      SplitPartsFree(s[1..], sep);
    }
  }

  lemma {:induction false} SplitPartsWithin(s: string, sep: char -> bool, k: nat, c: char)
    requires k < |SplitFunc(s, sep)| && c in SplitFunc(s, sep)[k]
    ensures c in s
  {
    var rest := SplitFunc(s[1..], sep);
    assert s == [s[0]] + s[1..];
    if sep(s[0]) {
      SplitPartsWithin(s[1..], sep, k - 1, c);
    } else if k > 0 || c != s[0] {
      assert c in rest[k];
      SplitPartsWithin(s[1..], sep, k, c);
    }
  }

  lemma {:induction false} SplitFree(s: string, sep: char -> bool)
    requires FreeOf(s, sep)
    ensures SplitFunc(s, sep) == [s]
  {
    if s != "" {
      SplitFree(s[1..], sep);
      assert [s[0]] + s[1..] == s;
    }
  }

  lemma {:induction false} SplitFirst(a: string, c: char, rest: string, sep: char -> bool)
    requires FreeOf(a, sep) && sep(c)
    ensures SplitFunc(a + [c] + rest, sep) == [a] + SplitFunc(rest, sep)
  {
    var s := a + [c] + rest;
    if a == "" {
      assert s[1..] == rest;
    } else {
      assert s[1..] == a[1..] + [c] + rest;
      SplitFirst(a[1..], c, rest, sep);
      assert [a[0]] + a[1..] == a;
    }
  }

  /** Joining undoes splitting. */
  lemma {:induction false} JoinSplit(s: string, c: char)
    ensures Join(Split(s, c), [c]) == s
  {
    if s != "" {
      var rest := Split(s[1..], c);
      JoinSplit(s[1..], c);
      assert s == [s[0]] + s[1..];
      if s[0] == c {
        assert ([""] + rest)[1..] == rest;
        assert "" + [c] + Join(rest, [c]) == [c] + s[1..];
      } else {
        var parts := [[s[0]] + rest[0]] + rest[1..];
        assert parts[1..] == rest[1..];
        if |rest| > 1 {
          assert Join(parts, [c]) == [s[0]] + rest[0] + [c] + Join(rest[1..], [c]);
          assert Join(rest, [c]) == rest[0] + [c] + Join(rest[1..], [c]);
          assert [s[0]] + (rest[0] + [c] + Join(rest[1..], [c])) == Join(parts, [c]);
        }
      }
    }
  }

  /** Splitting undoes joining, for parts that do not contain the separator. */
  lemma {:induction false} SplitJoin(parts: seq<string>, c: char, sep: char -> bool)
    requires |parts| >= 1 && sep(c)
    requires forall k :: 0 <= k < |parts| ==> FreeOf(parts[k], sep)
    ensures SplitFunc(Join(parts, [c]), sep) == parts
  {
    if |parts| == 1 {
      SplitFree(parts[0], sep);
    } else {
      SplitJoin(parts[1..], c, sep);
      SplitFirst(parts[0], c, Join(parts[1..], [c]), sep);
      assert Join(parts, [c]) == parts[0] + [c] + Join(parts[1..], [c]);
      assert [parts[0]] + parts[1..] == parts;
    }
  }

  lemma {:induction false} NonEmptyIdentity(parts: seq<string>)
    requires forall k :: 0 <= k < |parts| ==> parts[k] != ""
    ensures NonEmpty(parts) == parts
  {
    if parts != [] {
      NonEmptyIdentity(parts[1..]);
    }
  }

  // ---- Search ----

  /** Where a character first stands, or the end. */
  function FirstIndex(s: string, c: char): (i: nat)
    ensures i <= |s| && c !in s[..i] && (i < |s| ==> s[i] == c)
  {
    if s == "" || s[0] == c then 0
    else
      var rest := FirstIndex(s[1..], c);
      assert s[..rest + 1] == [s[0]] + s[1..][..rest];
      rest + 1
  }

  lemma FirstIndexAfter(a: string, c: char, rest: string)
    requires c !in a
    ensures var s := a + [c] + rest; FirstIndex(s, c) == |a| && s[..|a|] == a && s[|a| + 1..] == rest
  {
    var s := a + [c] + rest;
    var i := FirstIndex(s, c);
    assert s[|a|] == c && forall j :: 0 <= j < |a| ==> s[j] == a[j];
    assert forall j :: 0 <= j < i ==> s[..i][j] == s[j];
  }

  // ---- Order ----

  /** Go's string comparison: byte by byte, a proper prefix first. */
  predicate StrLess(a: string, b: string) {
    if a == "" || b == "" then b != ""
    else if a[0] != b[0] then a[0] < b[0]
    else StrLess(a[1..], b[1..])
  }

  lemma {:induction false} StrLessIrreflexive(a: string)
    ensures !StrLess(a, a)
  {
    if a != "" { StrLessIrreflexive(a[1..]); }
  }

  lemma {:induction false} StrLessTotal(a: string, b: string)
    ensures a == b || StrLess(a, b) || StrLess(b, a)
  {
    if a != "" && b != "" && a[0] == b[0] {
      StrLessTotal(a[1..], b[1..]);
      if a[1..] == b[1..] {
        assert a == [a[0]] + a[1..] == [b[0]] + b[1..] == b;
      }
    }
  }

  lemma {:induction false} StrLessTransitive(a: string, b: string, c: string)
    requires StrLess(a, b) && StrLess(b, c)
    ensures StrLess(a, c)
  {
    if a != "" && a[0] == b[0] && b[0] == c[0] {
      StrLessTransitive(a[1..], b[1..], c[1..]);
    }
  }

  lemma StrLessTotalOrder()
    ensures forall a: string :: !StrLess(a, a)
    ensures forall a: string, b: string :: StrLess(a, b) || StrLess(b, a) || a == b
    ensures forall a: string, b: string, c: string :: StrLess(a, b) && StrLess(b, c) ==> StrLess(a, c)
  {
    forall a: string ensures !StrLess(a, a) { StrLessIrreflexive(a); }
    forall a: string, b: string ensures StrLess(a, b) || StrLess(b, a) || a == b { StrLessTotal(a, b); }
    forall a: string, b: string, c: string | StrLess(a, b) && StrLess(b, c) ensures StrLess(a, c) {
      StrLessTransitive(a, b, c);
    }
  }

  // ---- Decimal numbers ----

  const MAX_INT := 0x7FFF_FFFF_FFFF_FFFF

  predicate IsDigit(c: char) {
    '0' <= c <= '9'
  }

  function DigitValue(c: char): (d: nat)
    requires IsDigit(c)
    ensures d < 10
  {
    (c - '0') as int
  }

  function Digit(d: nat): (c: char)
    requires d < 10
    ensures IsDigit(c) && DigitValue(c) == d
  {
    '0' + d as char
  }

  function Itoa(n: nat): (s: string)
    ensures s != "" && All(s, IsDigit)
  {
    if n < 10 then [Digit(n)] else Itoa(n / 10) + [Digit(n % 10)]
  }

  function DigitsValue(s: string): nat
    requires All(s, IsDigit)
  {
    if s == "" then 0 else 10 * DigitsValue(s[..|s| - 1]) + DigitValue(s[|s| - 1])
  }

  /** strconv.Atoi: an optional sign, then at least one digit, within 64 bits. */
  function Atoi(s: string): Option<int> {
    var signed := s != "" && (s[0] == '-' || s[0] == '+');
    var body := if signed then s[1..] else s;
    if body == "" || !All(body, IsDigit) then None
    else
      var value: int := if signed && s[0] == '-' then 0 - DigitsValue(body) else DigitsValue(body);
      if -MAX_INT - 1 <= value <= MAX_INT then Some(value) else None
  }

  lemma {:induction false} DigitsValueOfItoa(n: nat)
    ensures DigitsValue(Itoa(n)) == n
  {
    if n >= 10 {
      DigitsValueOfItoa(n / 10);
      assert Itoa(n)[..|Itoa(n)| - 1] == Itoa(n / 10);
    }
  }

  /** Printing a number and parsing it gives it back. */
  lemma AtoiOfItoa(n: nat)
    requires n <= MAX_INT
    ensures Atoi(Itoa(n)) == Some(n)
  {
    DigitsValueOfItoa(n);
    assert IsDigit(Itoa(n)[0]);
  }
}
