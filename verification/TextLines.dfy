/** Line-based text: lists that are parsed line by line and printed one element a line. */
module TextLines {
  import opened Text
  import opened Sequences

  // ---- Reading lists line by line ----

  /** Feed the lines, numbered from 1, to a step that extends the list or fails; the first failure wins. */
  function Fold<T, E>(lines: seq<string>, step: (seq<T>, string, nat) -> Result<seq<T>, E>): Result<seq<T>, E> {
    if lines == [] then Ok([])
    else
      var front := Fold(lines[..|lines| - 1], step);
      if front.Err? then front else step(front.value, lines[|lines| - 1], |lines|)
  }

  lemma {:induction false} FoldFails<T, E>(lines: seq<string>, k: nat, step: (seq<T>, string, nat) -> Result<seq<T>, E>)
    requires k <= |lines| && Fold(lines[..k], step).Err?
    ensures Fold(lines, step) == Fold(lines[..k], step)
  {
    if k < |lines| {
      assert lines[..|lines| - 1][..k] == lines[..k];
      FoldFails(lines[..|lines| - 1], k, step);
    } else {
      assert lines[..k] == lines;
    }
  }

  lemma FoldNext<T, E>(lines: seq<string>, k: nat, step: (seq<T>, string, nat) -> Result<seq<T>, E>)
    requires k < |lines| && Fold(lines[..k], step).Ok?
    ensures Fold(lines[..k + 1], step) == step(Fold(lines[..k], step).value, lines[k], k + 1)
  {
    assert lines[..k + 1][..k] == lines[..k];
  }

  /** When line k always adds element k, the fold gives the whole list. */
  lemma {:induction false} FoldBuilds<T, E>(values: seq<T>, lines: seq<string>, step: (seq<T>, string, nat) -> Result<seq<T>, E>)
    requires |lines| == |values|
    requires forall k :: 0 <= k < |values| ==> step(values[..k], lines[k], k + 1) == Ok(values[..k + 1])
    ensures Fold(lines, step) == Ok(values)
  {
    if values == [] {
      assert lines == [];
    } else {
      var n := |values| - 1;
      forall k | 0 <= k < n ensures step(values[..n][..k], lines[..n][k], k + 1) == Ok(values[..n][..k + 1]) {
        assert values[..n][..k] == values[..k] && values[..n][..k + 1] == values[..k + 1];
      }
      FoldBuilds(values[..n], lines[..n], step);
      assert values[..n + 1] == values;
    }
  }

  /** A step adds one element at the end, adds nothing, or fails. */
  ghost predicate AddsAtMostOne<T(!new), E(!new)>(step: (seq<T>, string, nat) -> Result<seq<T>, E>) {
    forall done, line, n :: step(done, line, n).Ok? ==>
      step(done, line, n).value == done || (exists x :: step(done, line, n).value == done + [x])
  }

  /** A list as long as its text got one element from every line. */
  lemma {:induction false} FoldOneByOne<T(!new), E(!new)>(lines: seq<string>, values: seq<T>, step: (seq<T>, string, nat) -> Result<seq<T>, E>)
    requires AddsAtMostOne(step) && Fold(lines, step) == Ok(values)
    ensures |values| <= |lines|
    ensures |values| == |lines| ==>
              forall k :: 0 <= k < |lines| ==> step(values[..k], lines[k], k + 1) == Ok(values[..k + 1])
  {
    if lines != [] {
      var n := |lines| - 1;
      var front := Fold(lines[..n], step).value;
      FoldOneByOne(lines[..n], front, step);
      assert step(front, lines[n], n + 1) == Ok(values);
      if |values| == |lines| {
        var x :| values == front + [x];
        assert values[..n] == front && values[..n + 1] == values;
        forall k | 0 <= k < |lines| ensures step(values[..k], lines[k], k + 1) == Ok(values[..k + 1]) {
          if k < n {
            assert step(front[..k], lines[..n][k], k + 1) == Ok(front[..k + 1]);
            assert values[..k] == front[..k] && values[..k + 1] == front[..k + 1];
          }
        }
      }
    }
  }

  lemma FoldRejects<T(!new), E(!new)>(lines: seq<string>, values: seq<T>, k: nat,
                                       step: (seq<T>, string, nat) -> Result<seq<T>, E>)
    requires AddsAtMostOne(step) && |lines| == |values| && k < |lines|
    requires step(values[..k], lines[k], k + 1) != Ok(values[..k + 1])
    ensures Fold(lines, step) != Ok(values)
  {
    if Fold(lines, step) == Ok(values) {
      FoldOneByOne(lines, values, step);
    }
  }

  // ---- What the lines of a list say ----

  predicate NotBlank(line: string) {
    !Blank(line)
  }

  /** The values are those that the lines say, one a line, and no two of them clash. */
  predicate Tell<T(!new)>(lines: seq<string>, values: seq<T>, says: (string, nat, T) -> bool, clash: (T, T) -> bool) {
    && |values| == |lines|
    && (forall k :: 0 <= k < |values| ==> says(lines[k], k, values[k]))
    && (forall i, j :: 0 <= i < j < |values| ==> !clash(values[i], values[j]))
  }

  /** The step adds this value exactly when the line says it and it does not clash. */
  ghost predicate AddsIt<T(!new), E(!new)>(step: (seq<T>, string, nat) -> Result<seq<T>, E>, says: (string, nat, T) -> bool, clash: (T, T) -> bool,
                                           done: seq<T>, line: string, n: nat, before: seq<T>, x: T) {
    step(done, line, n) == Ok(before + [x]) <==>
    done == before && says(line, |before|, x) && forall y :: y in before ==> !clash(y, x)
  }

  /** The step passes over a blank line and over no other. */
  ghost predicate SkipsBlank<T(!new), E(!new)>(step: (seq<T>, string, nat) -> Result<seq<T>, E>, done: seq<T>, line: string, n: nat) {
    if Blank(line) then step(done, line, n) == Ok(done) else step(done, line, n) != Ok([])
  }

  /** A step passes over a blank line, and adds to the list exactly what any other line says, unless it
      clashes. */
  ghost predicate Reads<T(!new), E(!new)>(step: (seq<T>, string, nat) -> Result<seq<T>, E>, says: (string, nat, T) -> bool, clash: (T, T) -> bool) {
    && (forall done, line, n :: SkipsBlank(step, done, line, n))
    && (forall done, line, n, before, x :: !Blank(line) ==> AddsIt(step, says, clash, done, line, n, before, x))
  }

  lemma TellMore<T(!new)>(lines: seq<string>, line: string, values: seq<T>, x: T, says: (string, nat, T) -> bool, clash: (T, T) -> bool)
    ensures Tell(lines + [line], values + [x], says, clash) <==>
              Tell(lines, values, says, clash) && says(line, |values|, x) && forall y :: y in values ==> !clash(y, x)
  {
    var all, more := values + [x], lines + [line];
    assert forall k :: 0 <= k < |values| ==> all[k] == values[k];
    assert forall k :: 0 <= k < |lines| ==> more[k] == lines[k];
    if Tell(more, all, says, clash) {
      assert all[|values|] == x && more[|values|] == line;
    }
  }

  lemma StepAdds<T(!new), E(!new)>(front: seq<string>, last: string, before: seq<T>, x: T, step: (seq<T>, string, nat) -> Result<seq<T>, E>,
                                   says: (string, nat, T) -> bool, clash: (T, T) -> bool)
    requires Reads(step, says, clash) && !Blank(last)
    ensures Fold(front + [last], step) == Ok(before + [x]) <==>
              Fold(front, step) == Ok(before) && says(last, |before|, x) && forall y :: y in before ==> !clash(y, x)
  {
    hide Blank;
    assert (front + [last])[..|front|] == front;
    if Fold(front, step).Ok? {
      assert AddsIt(step, says, clash, Fold(front, step).value, last, |front| + 1, before, x);
    }
  }

  lemma BlankAdds<T(!new), E(!new)>(front: seq<string>, last: string, step: (seq<T>, string, nat) -> Result<seq<T>, E>,
                                    says: (string, nat, T) -> bool, clash: (T, T) -> bool)
    requires Reads(step, says, clash)
    ensures if Blank(last) then Fold(front + [last], step) == Fold(front, step) else Fold(front + [last], step) != Ok([])
  {
    hide Blank;
    assert (front + [last])[..|front|] == front;
    if Fold(front, step).Ok? {
      assert SkipsBlank(step, Fold(front, step).value, last, |front| + 1);
    }
  }

  /** Such a step reads a list from some lines exactly when those that are not blank tell it. */
  lemma {:induction false} FoldTells<T(!new), E(!new)>(lines: seq<string>, values: seq<T>, step: (seq<T>, string, nat) -> Result<seq<T>, E>,
                                                       says: (string, nat, T) -> bool, clash: (T, T) -> bool)
    requires Reads(step, says, clash)
    ensures Fold(lines, step) == Ok(values) <==> Tell(Filter(lines, NotBlank), values, says, clash)
  {
    if lines != [] {
      hide Blank, Reads, Fold, Tell, Filter;
      var front, last := lines[..|lines| - 1], lines[|lines| - 1];
      assert lines == front + [last];
      FilterAppend(front, [last], NotBlank);
      LastKept(last);
      var written := Filter(front, NotBlank);
      BlankAdds(front, last, step, says, clash);
      if Blank(last) {
        assert written + [] == written;
        FoldTells(front, values, step, says, clash);
      } else if values == [] {
        NothingTold(written + [last], says, clash);
      } else {
        var before, x := values[..|values| - 1], values[|values| - 1];
        assert values == before + [x];
        FoldTells(front, before, step, says, clash);
        StepAdds(front, last, before, x, step, says, clash);
        TellMore(written, last, before, x, says, clash);
      }
    }
  }

  lemma LastKept(last: string)
    ensures Filter([last], NotBlank) == if Blank(last) then [] else [last]
  {
    hide Blank;
  }

  lemma NothingTold<T(!new)>(lines: seq<string>, says: (string, nat, T) -> bool, clash: (T, T) -> bool)
    requires lines != []
    ensures !Tell(lines, [], says, clash)
  {
  }

  // ---- Printing lists one element a line ----

  function JoinLines(lines: seq<string>): string {
    Join(lines, "\n")
  }

  function Lines(text: string): seq<string> {
    Split(text, '\n')
  }

  lemma LinesOfJoin(lines: seq<string>)
    requires |lines| >= 1 && forall k :: 0 <= k < |lines| ==> '\n' !in lines[k]
    ensures Lines(JoinLines(lines)) == lines
  {
    forall k | 0 <= k < |lines| ensures FreeOf(lines[k], IsChar('\n')) {
    }
    SplitJoin(lines, '\n', IsChar('\n'));
  }

  lemma {:induction false} JoinKeepsOut(parts: seq<string>, sep: string, c: char)
    requires c !in sep && forall k :: 0 <= k < |parts| ==> c !in parts[k]
    ensures c !in Join(parts, sep)
  {
    if |parts| > 1 {
      JoinKeepsOut(parts[1..], sep, c);
    }
  }

  lemma LinesHaveNoNewline(text: string, line: string)
    requires line in Lines(text)
    ensures '\n' !in line
  {
    SplitPartsFree(text, IsChar('\n'));
    var k :| 0 <= k < |Lines(text)| && Lines(text)[k] == line;
    assert FreeOf(line, IsChar('\n'));
  }

  // ---- Lines of fields ----

  /** The fields of a line, each trimmed. */
  function Fields(line: string): (fields: seq<string>)
    ensures |fields| >= 1
  {
    Map(Split(line, '|'), TrimSpace)
  }

  lemma {:induction false} SplitPaddedLeft(a: string, s: string, sep: char -> bool)
    requires FreeOf(a, sep)
    ensures SplitFunc(a + s, sep) == [a + SplitFunc(s, sep)[0]] + SplitFunc(s, sep)[1..]
  {
    if a == "" {
      assert a + s == s;
      assert a + SplitFunc(s, sep)[0] == SplitFunc(s, sep)[0];
    } else {
      assert (a + s)[1..] == a[1..] + s;
      SplitPaddedLeft(a[1..], s, sep);
      assert [a[0]] + (a[1..] + SplitFunc(s, sep)[0]) == a + SplitFunc(s, sep)[0];
    }
  }

  /** The list with some text added to its last element. */
  function PadLast(parts: seq<string>, b: string): seq<string>
    requires parts != []
  {
    parts[..|parts| - 1] + [parts[|parts| - 1] + b]
  }

  lemma PadLastAfter(first: string, rest: seq<string>, b: string)
    requires rest != []
    ensures PadLast([first] + rest, b) == [first] + PadLast(rest, b)
  {
  }

  lemma PadLastLonger(c: char, rest: seq<string>, b: string)
    requires rest != []
    ensures PadLast([[c] + rest[0]] + rest[1..], b) == [[c] + PadLast(rest, b)[0]] + PadLast(rest, b)[1..]
  {
    if |rest| == 1 {
      assert [c] + (rest[0] + b) == ([c] + rest[0]) + b;
    }
  }

  lemma {:induction false} SplitPaddedRight(s: string, b: string, sep: char -> bool)
    requires FreeOf(b, sep)
    ensures SplitFunc(s + b, sep) == PadLast(SplitFunc(s, sep), b)
  {
    hide PadLast;
    if s == "" {
      assert s + b == b;
      SplitFree(b, sep);
      PadLastOfNothing(b);
    } else {
      assert (s + b)[1..] == s[1..] + b;
      SplitPaddedRight(s[1..], b, sep);
      PadLastAfter("", SplitFunc(s[1..], sep), b);
      PadLastLonger(s[0], SplitFunc(s[1..], sep), b);
    }
  }

  lemma PadLastOfNothing(b: string)
    ensures PadLast([""], b) == [b]
  {
    assert "" + b == b;
  }

  lemma TrimSpacePadded(a: string, s: string, b: string)
    requires All(a, IsSpace) && All(b, IsSpace)
    ensures TrimSpace(a + s + b) == TrimSpace(s)
  {
    var i, j := TrimParts(s, IsSpace);
    var core := s[i..j];
    assert a + s + b == (a + s[..i]) + core + (s[j..] + b);
    TrimPadded(a + s[..i], core, s[j..] + b, IsSpace);
  }

  lemma SpacesAreNoBar(s: string)
    requires All(s, IsSpace)
    ensures FreeOf(s, IsChar('|'))
  {
    forall k | 0 <= k < |s| ensures !IsChar('|')(s[k]) { assert IsSpace(s[k]); }
  }

  lemma FieldsPaddedLeft(a: string, s: string)
    requires All(a, IsSpace)
    ensures Fields(a + s) == Fields(s)
  {
    SpacesAreNoBar(a);
    SplitPaddedLeft(a, s, IsChar('|'));
    var first := Split(s, '|')[0];
    TrimSpacePadded(a, first, "");
    assert a + first + "" == a + first;
  }

  lemma FieldsPaddedRight(s: string, b: string)
    requires All(b, IsSpace)
    ensures Fields(s + b) == Fields(s)
  {
    SpacesAreNoBar(b);
    SplitPaddedRight(s, b, IsChar('|'));
    var parts := Split(s, '|');
    var last := parts[|parts| - 1];
    TrimSpacePadded("", last, b);
    assert "" + last + b == last + b;
    assert Split(s + b, '|')[..|parts| - 1] == parts[..|parts| - 1];
  }

  /** Trimming a line does not change its fields. */
  lemma FieldsOfTrimmed(line: string)
    ensures Fields(TrimSpace(line)) == Fields(line)
  {
    var i, j := TrimParts(line, IsSpace);
    assert line == line[..i] + (line[i..j] + line[j..]);
    FieldsPaddedLeft(line[..i], line[i..j] + line[j..]);
    FieldsPaddedRight(line[i..j], line[j..]);
  }

  lemma FieldsFirst(a: string, rest: string)
    requires '|' !in a
    ensures Fields(a + "|" + rest) == [TrimSpace(a)] + Fields(rest)
  {
    SplitFirst(a, '|', rest, IsChar('|'));
  }

  /** The fields of a printed line are the printed parts, trimmed. */
  lemma {:induction false} FieldsOfJoin(parts: seq<string>)
    requires |parts| >= 1 && forall k :: 0 <= k < |parts| ==> '|' !in parts[k]
    ensures Fields(Join(parts, " | ")) == Map(parts, TrimSpace)
  {
    if |parts| == 1 {
      SplitFree(parts[0], IsChar('|'));
    } else {
      var rest := Join(parts[1..], " | ");
      assert Join(parts, " | ") == (parts[0] + " ") + "|" + (" " + rest);
      FieldsFirst(parts[0] + " ", " " + rest);
      FieldsPaddedLeft(" ", rest);
      FieldsOfJoin(parts[1..]);
      TrimSpacePadded("", parts[0], " ");
      assert "" + parts[0] + " " == parts[0] + " ";
      assert Map(parts, TrimSpace) == [TrimSpace(parts[0])] + Map(parts[1..], TrimSpace);
    }
  }

  /** A field holds no separator, and only characters of its line. */
  lemma FieldsAreClean(line: string)
    ensures forall k :: 0 <= k < |Fields(line)| ==> Trimmed(Fields(line)[k]) && '|' !in Fields(line)[k]
    ensures '\n' !in line ==> forall k :: 0 <= k < |Fields(line)| ==> '\n' !in Fields(line)[k]
  {
    var parts := Split(line, '|');
    SplitPartsFree(line, IsChar('|'));
    forall k | 0 <= k < |parts|
      ensures Trimmed(TrimSpace(parts[k])) && '|' !in TrimSpace(parts[k])
      ensures '\n' !in line ==> '\n' !in TrimSpace(parts[k])
    {
      TrimIsClean(parts[k], IsSpace);
      assert FreeOf(parts[k], IsChar('|'));
      if '\n' in TrimSpace(parts[k]) { SplitPartsWithin(line, IsChar('|'), k, '\n'); }
    }
  }
}
