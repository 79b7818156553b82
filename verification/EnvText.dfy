/** The environment of a project, as text in the project form. */
module EnvText {
  import opened Text
  import opened Sorting
  import opened TextLines

  type Env = map<string, string>

  function KeyOf(line: string): string {
    TrimSpace(line[..FirstIndex(line, '=')])
  }

  function ValueOf(line: string): string {
    var i := FirstIndex(line, '=');
    if i < |line| then TrimSpace(line[i + 1..]) else ""
  }

  /** A line that sets a key: not blank, not a comment, and with a key. */
  predicate Sets(raw: string) {
    var line := TrimSpace(raw);
    line != "" && !HasPrefix(line, "#") && KeyOf(line) != ""
  }

  function EnvOf(lines: seq<string>): Env {
    if lines == [] then map[]
    else
      var front, raw := EnvOf(lines[..|lines| - 1]), lines[|lines| - 1];
      if Sets(raw) then front[KeyOf(TrimSpace(raw)) := ValueOf(TrimSpace(raw))] else front
  }

  function ParsedEnv(raw: string): Env {
    EnvOf(Lines(raw))
  }

  method ParseEnvText(raw: string) returns (values: Env)
    ensures values == ParsedEnv(raw)
  {
    hide TrimSpace;
    values := map[];
    var lines := Lines(raw);
    for n := 0 to |lines|
      invariant values == EnvOf(lines[..n])
    {
      assert lines[..n + 1][..n] == lines[..n];
      var line := TrimSpace(lines[n]);
      if line == "" || HasPrefix(line, "#") {
        continue;
      }
      var at := FirstIndex(line, '=');
      var key := TrimSpace(line[..at]);
      var value := "";
      if at < |line| {
        value := TrimSpace(line[at + 1..]);
      }
      if key != "" {
        values := values[key := value];
      }
    }
    assert lines[..|lines|] == lines;
  }

  function EnvLine(values: Env, key: string): string {
    key + "=" + (if key in values then values[key] else "")
  }

  function EnvLines(values: Env, keys: seq<string>): seq<string> {
    seq(|keys|, i requires 0 <= i < |keys| => EnvLine(values, keys[i]))
  }

  /** The names in order, each once. */
  ghost predicate InOrder(keys: seq<string>, names: set<string>) {
    multiset(keys) == multiset(names) && SortedBy(keys, StrLess)
  }

  /** The text is the map's entries, one a line, by key. */
  ghost predicate Prints(text: string, values: Env) {
    exists keys :: InOrder(keys, values.Keys) && text == JoinLines(EnvLines(values, keys))
  }

  lemma InOrderMembers(keys: seq<string>, names: set<string>)
    requires InOrder(keys, names)
    ensures forall key :: key in keys <==> key in names
  {
    forall key ensures key in keys <==> key in names {
      assert key in keys <==> key in multiset(keys);
      assert key in multiset(names) <==> key in names;
    }
  }

  /** A set of names, sorted, in whatever order it hands them out. */
  method SortedNames(names: set<string>) returns (keys: seq<string>)
    ensures InOrder(keys, names)
  {
    keys := [];
    var todo := names;
    while todo != {}
      invariant todo <= names
      invariant multiset(keys) + multiset(todo) == multiset(names)
      decreases todo
    {
      var key :| key in todo;
      keys := keys + [key];
      todo := todo - {key};
    }
    StrLessTotalOrder();
    TotalIsWeak(StrLess);
    SortIsSortOf(keys, StrLess);
    keys := Sort(keys, StrLess);
  }

  method PrintEnv(values: Env) returns (text: string)
    ensures Prints(text, values)
  {
    var keys := SortedNames(values.Keys);
    InOrderMembers(keys, values.Keys);
    var lines: seq<string> := [];
    for n := 0 to |keys|
      invariant lines == EnvLines(values, keys)[..n]
    {
      assert keys[n] in keys;
      lines := lines + [keys[n] + "=" + values[keys[n]]];
    }
    assert lines == EnvLines(values, keys);
    text := Join(lines, "\n");
  }

  /** The order in which the map hands out its keys does not show. */
  lemma PrintsOneText(a: string, b: string, values: Env)
    requires Prints(a, values) && Prints(b, values)
    ensures a == b
  {
    var ks :| InOrder(ks, values.Keys) && a == JoinLines(EnvLines(values, ks));
    var ls :| InOrder(ls, values.Keys) && b == JoinLines(EnvLines(values, ls));
    StrLessTotalOrder();
    SortOfUnique(ks, ls, StrLess);
  }

  // ---- What the parser accepts ----

  /** A key that a line can set, and a value it can give. */
  predicate Valid(key: string, value: string) {
    && key != "" && Trimmed(key) && '=' !in key && '\n' !in key && key[0] != '#'
    && Trimmed(value) && '\n' !in value
  }

  predicate Accepted(values: Env) {
    forall key | key in values :: Valid(key, values[key])
  }

  lemma SliceWithin(s: string, i: nat, j: nat, c: char)
    requires i <= j <= |s| && c !in s
    ensures c !in s[i..j]
  {
  }

  lemma SetsValid(raw: string)
    requires '\n' !in raw && Sets(raw)
    ensures Valid(KeyOf(TrimSpace(raw)), ValueOf(TrimSpace(raw)))
  {
    var line := TrimSpace(raw);
    TrimIsClean(raw, IsSpace);
    var at := FirstIndex(line, '=');
    SliceWithin(line, 0, at, '\n');
    TrimIsClean(line[..at], IsSpace);
    if at < |line| {
      SliceWithin(line, at + 1, |line|, '\n');
      TrimIsClean(line[at + 1..], IsSpace);
    }
    FirstSurvives(line[..at]);
  }

  /** Trimming keeps a first character that is no space. */
  lemma FirstSurvives(s: string)
    ensures TrimSpace(s) != "" && !IsSpace(s[0]) ==> TrimSpace(s)[0] == s[0]
  {
    if s != "" && !IsSpace(s[0]) {
      var k := TrimRightParts(s, IsSpace);
    }
  }

  lemma {:induction false} LinesAccepted(lines: seq<string>)
    requires forall line :: line in lines ==> '\n' !in line
    ensures Accepted(EnvOf(lines))
  {
    hide Valid, Sets, KeyOf, ValueOf;
    if lines != [] {
      var n := |lines| - 1;
      LinesAccepted(lines[..n]);
      assert '\n' !in lines[n];
      if Sets(lines[n]) { SetsValid(lines[n]); }
    }
  }

  /** Every map the parser returns: trimmed keys, not empty, without "=", that do not open a comment. */
  lemma ParserAccepts(raw: string)
    ensures Accepted(ParsedEnv(raw))
  {
    forall line | line in Lines(raw) ensures '\n' !in line { LinesHaveNoNewline(raw, line); }
    LinesAccepted(Lines(raw));
  }

  /** The last line that sets a key gives its value. */
  ghost predicate LastSetBy(lines: seq<string>, key: string, k: nat) {
    && k < |lines| && Sets(lines[k]) && KeyOf(TrimSpace(lines[k])) == key
    && forall j :: k < j < |lines| ==> !(Sets(lines[j]) && KeyOf(TrimSpace(lines[j])) == key)
  }

  lemma LastSetByFront(lines: seq<string>, key: string, k: nat)
    requires lines != [] && !(Sets(lines[|lines| - 1]) && KeyOf(TrimSpace(lines[|lines| - 1])) == key)
    ensures LastSetBy(lines[..|lines| - 1], key, k) <==> LastSetBy(lines, key, k)
  {
    hide Sets, KeyOf, TrimSpace;
    var n := |lines| - 1;
    var front := lines[..n];
    assert forall j :: 0 <= j < n ==> front[j] == lines[j];
  }

  /** A key is in the map exactly when some line sets it, and has the value of the last such line. */
  lemma {:induction false} LastLineWins(lines: seq<string>, key: string)
    ensures key in EnvOf(lines) <==> exists k: nat :: LastSetBy(lines, key, k)
    ensures forall k: nat :: LastSetBy(lines, key, k) ==> key in EnvOf(lines) && EnvOf(lines)[key] == ValueOf(TrimSpace(lines[k]))
  {
    hide Sets, KeyOf, ValueOf, TrimSpace;
    if lines != [] {
      var n := |lines| - 1;
      LastLineWins(lines[..n], key);
      if Sets(lines[n]) && KeyOf(TrimSpace(lines[n])) == key {
        assert LastSetBy(lines, key, n);
        assert forall k: nat :: LastSetBy(lines, key, k) ==> k == n;
      } else {
        forall k: nat ensures LastSetBy(lines[..n], key, k) <==> LastSetBy(lines, key, k) {
          LastSetByFront(lines, key, k);
        }
      }
    }
  }

  /** Spaces around a line, its key or its value do not count. */
  lemma SpacedLineReads(a: string, key: string, b: string, c: string, value: string, d: string)
    requires Valid(key, value) && All(a, IsSpace) && All(b, IsSpace) && All(c, IsSpace) && All(d, IsSpace)
    ensures var raw := a + key + b + "=" + c + value + d;
            Sets(raw) && KeyOf(TrimSpace(raw)) == key && ValueOf(TrimSpace(raw)) == value
  {
    hide Trim;
    var raw := a + key + b + "=" + c + value + d;
    var rest, tail := if value == "" then "" else c + value, if value == "" then c + d else d;
    var line := key + b + "=" + rest;
    assert raw == a + line + tail;
    assert line[0] == key[0];
    TrimPadded(a, line, tail, IsSpace);
    forall i | 0 <= i < |b| ensures b[i] != '=' { assert IsSpace(b[i]); }
    FirstIndexAfter(key + b, '=', rest);
    TrimPadded("", key, b, IsSpace);
    assert "" + key + b == key + b;
    TrimPadded(if value == "" then "" else c, value, "", IsSpace);
    assert (if value == "" then "" else c) + value + "" == rest;
  }

  /** A key without a value is set to the empty text. */
  lemma BareKeyReads(key: string)
    requires Valid(key, "")
    ensures Sets(key) && KeyOf(TrimSpace(key)) == key && ValueOf(TrimSpace(key)) == ""
  {
    TrimCleanIsIdentity(key, IsSpace);
    assert FirstIndex(key, '=') == |key| && key[..|key|] == key;
  }

  // ---- Printing, then parsing ----

  lemma LineReadsBack(key: string, value: string)
    requires Valid(key, value)
    ensures var line := key + "=" + value;
            && '\n' !in line && TrimSpace(line) == line && Sets(line)
            && KeyOf(line) == key && ValueOf(line) == value
  {
    var line := key + "=" + value;
    TrimCleanIsIdentity(line, IsSpace);
    TrimCleanIsIdentity(key, IsSpace);
    TrimCleanIsIdentity(value, IsSpace);
    FirstIndexAfter(key, '=', value);
    assert line[0] == key[0];
  }

  lemma {:induction false} LinesBuild(values: Env, keys: seq<string>, n: nat)
    requires Accepted(values) && n <= |keys| && forall k :: k in keys ==> k in values
    ensures EnvOf(EnvLines(values, keys)[..n]) == map key | key in values && key in keys[..n] :: values[key]
  {
    hide Valid, Sets, KeyOf, ValueOf, TrimSpace;
    if n > 0 {
      var lines := EnvLines(values, keys);
      LinesBuild(values, keys, n - 1);
      assert lines[..n][..n - 1] == lines[..n - 1];
      assert keys[n - 1] in values;
      LineReadsBack(keys[n - 1], values[keys[n - 1]]);
      assert keys[..n] == keys[..n - 1] + [keys[n - 1]];
    }
  }

  lemma PrintedLinesRead(values: Env, keys: seq<string>)
    requires Accepted(values) && keys != [] && forall k :: k in keys <==> k in values
    ensures EnvOf(Lines(JoinLines(EnvLines(values, keys)))) == values
  {
    hide Valid, EnvLine, TrimSpace, Sets, KeyOf, ValueOf, EnvOf, Join, Split;
    var lines := EnvLines(values, keys);
    forall i | 0 <= i < |lines| ensures '\n' !in lines[i] {
      assert keys[i] in keys;
      LineReadsBack(keys[i], values[keys[i]]);
      PrintedLineIs(values, keys[i]);
    }
    LinesOfJoin(lines);
    LinesBuild(values, keys, |keys|);
    assert lines[..|keys|] == lines && keys[..|keys|] == keys;
  }

  lemma AcceptedRoundTrips(text: string, values: Env)
    requires Prints(text, values) && Accepted(values)
    ensures ParsedEnv(text) == values
  {
    hide Accepted, EnvOf, EnvLine, Join, Split;
    var keys :| InOrder(keys, values.Keys) && text == JoinLines(EnvLines(values, keys));
    InOrderMembers(keys, values.Keys);
    if keys == [] {
      NothingPrinted(values);
    } else {
      PrintedLinesRead(values, keys);
    }
  }

  lemma NothingPrinted(values: Env)
    requires forall k :: k !in values
    ensures ParsedEnv(JoinLines(EnvLines(values, []))) == values
  {
    EmptyTextIsEmptyMap();
    assert values == map[];
  }

  lemma PrintedLineIs(values: Env, key: string)
    requires key in values
    ensures EnvLine(values, key) == key + "=" + values[key]
  {
  }

  lemma EmptyTextIsEmptyMap()
    ensures ParsedEnv("") == map[]
  {
    assert Lines("") == [""];
    assert EnvOf([""][..0]) == map[];
  }

  /** Printing and parsing gives a map back exactly when it is one that the parser returns. */
  lemma EnvRoundTrip(text: string, values: Env)
    requires Prints(text, values)
    ensures ParsedEnv(text) == values <==> Accepted(values)
  {
    if Accepted(values) {
      AcceptedRoundTrips(text, values);
    } else {
      ParserAccepts(text);
    }
  }
}
