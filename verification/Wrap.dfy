/** Greedy line breaking (pkg/notice/wrap.go). Words come as the fields of the text: they are not
    empty. Lengths are in bytes. */
module Wrap {

  ghost predicate Words(words: seq<string>) { forall k :: 0 <= k < |words| ==> words[k] != "" }

  /** Words with one space between neighbours. */
  function Joined(words: seq<string>): string {
    if words == [] then ""
    else if |words| == 1 then words[0]
    else Joined(words[..|words| - 1]) + " " + words[|words| - 1]
  }

  function Flat(groups: seq<seq<string>>): seq<string> {
    if groups == [] then [] else Flat(groups[..|groups| - 1]) + groups[|groups| - 1]
  }

  /** The groups of words that the greedy loop puts on the finished lines, and on the current one. */
  datatype Layout = Layout(done: seq<seq<string>>, line: seq<string>)

  /** One round of the loop. */
  function Place(layout: Layout, w: string, width: int): Layout {
    if |Joined(layout.line)| + |w| + 1 > width then Layout(layout.done + [layout.line], [w])
    else Layout(layout.done, layout.line + [w])
  }

  function Greedy(words: seq<string>, width: int): Layout {
    if words == [] then Layout([], [])
    else Place(Greedy(words[..|words| - 1], width), words[|words| - 1], width)
  }

  /** All the groups: the last line is kept only when it is not empty. */
  function Groups(words: seq<string>, width: int): seq<seq<string>> {
    var layout := Greedy(words, width);
    if layout.line == [] then layout.done else layout.done + [layout.line]
  }

  function Lines(groups: seq<seq<string>>): (lines: seq<string>)
    ensures |lines| == |groups|
  {
    seq(|groups|, k requires 0 <= k < |groups| => Joined(groups[k]))
  }

  lemma JoinedEmpty(words: seq<string>)
    requires Words(words)
    ensures Joined(words) == "" <==> words == []
  {
  }

  lemma {:induction false} LineOfWords(words: seq<string>, width: int)
    requires Words(words)
    ensures Words(Greedy(words, width).line)
    ensures words != [] ==> Greedy(words, width).line != []
  {
    if words != [] { LineOfWords(words[..|words| - 1], width); }
  }

  /** A round of the loop on strings does what a round on groups does. */
  lemma PlaceOnStrings(layout: Layout, w: string, width: int)
    requires Words(layout.line)
    ensures var line, next := Joined(layout.line), Place(layout, w, width);
            if |line| + |w| + 1 > width
            then Lines(next.done) == Lines(layout.done) + [line] && Joined(next.line) == w
            else Lines(next.done) == Lines(layout.done) && Joined(next.line) == if line == "" then w else line + " " + w
  {
    JoinedEmpty(layout.line);
    assert (layout.line + [w])[..|layout.line|] == layout.line;
  }

  lemma LinesAppend(groups: seq<seq<string>>, group: seq<string>)
    ensures Lines(groups + [group]) == Lines(groups) + [Joined(group)]
  {
  }

  /** The loop, on strings. */
  method WrapText(words: seq<string>, width: int) returns (lines: seq<string>)
    requires Words(words)
    ensures lines == Lines(Groups(words, width))
  {
    hide Place, Joined, Lines;
    lines := [];
    var line := "";
    var i := 0;
    StartOnStrings();
    while i < |words|
      invariant 0 <= i <= |words|
      invariant lines == Lines(Greedy(words[..i], width).done)
      invariant line == Joined(Greedy(words[..i], width).line)
    {
      assert words[..i + 1][..i] == words[..i];
      LineOfWords(words[..i], width);
      PlaceOnStrings(Greedy(words[..i], width), words[i], width);
      if |line| + |words[i]| + 1 > width {
        lines := lines + [line];
        line := words[i];
      } else {
        if line == "" {
          line := words[i];
        } else {
          line := line + " " + words[i];
        }
      }
      i := i + 1;
    }
    assert words[..i] == words;
    LineOfWords(words, width);
    JoinedEmpty(Greedy(words, width).line);
    LinesAppend(Greedy(words, width).done, Greedy(words, width).line);
    if line != "" {
      lines := lines + [line];
    }
  }

  lemma StartOnStrings()
    ensures Lines([]) == [] && Joined([]) == ""
  {
  }

  /** The lines hold exactly the words of the text, in order. */
  lemma WordsAreKept(words: seq<string>, width: int)
    ensures Flat(Groups(words, width)) == words
  {
    FlatOfGreedy(words, width);
    FlatAppend(Greedy(words, width).done, Greedy(words, width).line);
  }

  lemma FlatAppend(groups: seq<seq<string>>, g: seq<string>)
    ensures Flat(groups + [g]) == Flat(groups) + g
  {
    assert (groups + [g])[..|groups|] == groups;
  }

  lemma {:induction false} FlatOfGreedy(words: seq<string>, width: int)
    ensures Flat(Greedy(words, width).done) + Greedy(words, width).line == words
  {
    hide Place;
    if words != [] {
      var m := |words| - 1;
      FlatOfGreedy(words[..m], width);
      FlatAfterPlace(Greedy(words[..m], width), words[m], width);
      assert words == words[..m] + [words[m]];
    }
  }

  lemma FlatAfterPlace(layout: Layout, w: string, width: int)
    ensures Flat(Place(layout, w, width).done) + Place(layout, w, width).line
            == Flat(layout.done) + layout.line + [w]
  {
    hide Flat, Joined;
    FlatAppend(layout.done, layout.line);
    assert Flat(layout.done) + (layout.line + [w]) == Flat(layout.done) + layout.line + [w];
  }

  /** A line longer than the width holds a single word. */
  lemma OverlongLineIsOneWord(words: seq<string>, width: int, k: nat)
    requires Words(words) && k < |Groups(words, width)| && |Joined(Groups(words, width)[k])| > width
    ensures |Groups(words, width)[k]| <= 1
  {
    GreedyLinesFit(words, width);
  }

  ghost predicate FitsOrShort(group: seq<string>, width: int) {
    |group| <= 1 || |Joined(group)| <= width
  }

  lemma {:induction false} GreedyLinesFit(words: seq<string>, width: int)
    requires Words(words)
    ensures forall k :: 0 <= k < |Greedy(words, width).done| ==> FitsOrShort(Greedy(words, width).done[k], width)
    ensures FitsOrShort(Greedy(words, width).line, width)
  {
    if words != [] {
      var before := Greedy(words[..|words| - 1], width);
      GreedyLinesFit(words[..|words| - 1], width);
      assert (before.line + [words[|words| - 1]])[..|before.line|] == before.line;
    }
  }

  // ---------- optimality ----------

  /** A split of words into lines that all fit. */
  ghost predicate Fitting(split: seq<seq<string>>, width: int) {
    forall k :: 0 <= k < |split| ==> |Joined(split[k])| <= width
  }

  /** The loop starts with an empty line, which a first word of full width or more pushes out. */
  function ExtraLine(words: seq<string>, width: int): nat {
    if words != [] && |words[0]| >= width then 1 else 0
  }

  /** Lines used so far, not counting the extra one. */
  function Used(words: seq<string>, width: int): int {
    |Greedy(words, width).done| + 1 - ExtraLine(words, width)
  }

  /** The loop has used fewer lines than the split, or as many and no more of the last one. */
  ghost predicate NoWorse(words: seq<string>, width: int, count: nat, last: int) {
    Used(words, width) < count || (Used(words, width) == count && |Joined(Greedy(words, width).line)| <= last)
  }

  lemma JoinedAppend(words: seq<string>, w: string)
    ensures |Joined(words + [w])| == if words == [] then |w| else |Joined(words)| + 1 + |w|
  {
    assert (words + [w])[..|words|] == words;
  }

  lemma FirstWord(w: string, width: int)
    requires w != "" && |w| <= width
    ensures Used([w], width) == 1 && Greedy([w], width).line == [w]
  {
    assert [w][..0] == [] && Greedy([], width) == Layout([], []);
    assert Greedy([w], width) == Place(Layout([], []), w, width);
    assert |Joined([])| == 0;
  }

  /** One more word, appended to the split's last line or put on a new one. */
  lemma OneMoreWord(words: seq<string>, w: string, width: int, count: nat, last: int, appended: bool)
    requires words != [] && Words(words) && |w| <= width && NoWorse(words, width, count, last)
    requires 0 <= last && (appended ==> last + 1 + |w| <= width)
    ensures NoWorse(words + [w], width, if appended then count else count + 1, if appended then last + 1 + |w| else |w|)
  {
    var layout := Greedy(words, width);
    assert (words + [w])[..|words|] == words && (words + [w])[0] == words[0];
    assert Greedy(words + [w], width) == Place(layout, w, width);
    assert Joined([w]) == w;
    LineOfWords(words, width);
    JoinedAppend(Greedy(words, width).line, w);
  }

  lemma WordsPrefix(words: seq<string>, w: string)
    requires Words(words + [w])
    ensures Words(words) && w != ""
  {
    assert (words + [w])[|words|] == w;
    forall k | 0 <= k < |words| ensures words[k] != "" { assert (words + [w])[k] == words[k]; }
  }

  lemma FittingLast(split: seq<seq<string>>, h: seq<string>, w: string, width: int)
    requires Fitting(split + [h + [w]], width)
    ensures Fitting(split, width) && |w| <= width
    ensures h != [] ==> |Joined(h)| + 1 + |w| <= width && Fitting(split + [h], width)
  {
    JoinedAppend(h, w);
    var all := split + [h + [w]];
    assert all[|split|] == h + [w];
    forall k | 0 <= k < |split| ensures |Joined(split[k])| <= width { assert all[k] == split[k]; }
  }

  lemma {:induction false} GreedyIsNoWorse(split: seq<seq<string>>, width: int)
    requires split != [] && Fitting(split, width) && Words(Flat(split)) && Flat(split) != []
    ensures NoWorse(Flat(split), width, |split|, |Joined(split[|split| - 1])|)
    decreases |split|, |split[|split| - 1]|
  {
    var m := |split| - 1;
    var rest, g := split[..m], split[m];
    assert split == rest + [g];
    if g == [] {
      assert Flat(split) == Flat(rest);
      GreedyIsNoWorse(rest, width);
    } else {
      var h, w := g[..|g| - 1], g[|g| - 1];
      assert g == h + [w];
      FittingLast(rest, h, w, width);
      JoinedAppend(h, w);
      var before := Flat(rest) + h;
      assert Flat(split) == before + [w];
      WordsPrefix(before, w);
      if before == [] {
        assert Flat(split) == [w];
        FirstWord(w, width);
      } else if h == [] {
        assert before == Flat(rest);
        GreedyIsNoWorse(rest, width);
        OneMoreWord(before, w, width, m, |Joined(rest[m - 1])|, false);
      } else {
        FlatAppend(rest, h);
        GreedyIsNoWorse(rest + [h], width);
        OneMoreWord(before, w, width, |split|, |Joined(h)|, true);
      }
    }
  }

  /** No split of the words into fitting lines has fewer lines, apart from the one extra line. */
  lemma NoSplitIsShorter(words: seq<string>, width: int, split: seq<seq<string>>)
    requires Words(words) && Flat(split) == words && Fitting(split, width)
    ensures |Groups(words, width)| <= |split| + ExtraLine(words, width)
  {
    if words != [] {
      assert split != [];
      GreedyIsNoWorse(split, width);
    }
  }

  /** The groups of the loop, without the empty first one that it may emit. */
  function Useful(words: seq<string>, width: int): seq<seq<string>> {
    var groups := Groups(words, width);
    if ExtraLine(words, width) == 1 && groups != [] then groups[1..] else groups
  }

  lemma {:induction false} FirstGroup(words: seq<string>, width: int)
    requires Words(words) && words != []
    ensures var layout := Greedy(words, width);
            if |words[0]| >= width then layout.done != [] && layout.done[0] == []
            else (layout.done + [layout.line])[0] != []
  {
    var m := |words| - 1;
    if m == 0 {
      FirstWordPlaced(words[0], width);
      assert words == [words[0]];
    } else {
      FirstGroup(words[..m], width);
    }
  }

  lemma FirstWordPlaced(w: string, width: int)
    ensures Greedy([w], width) == if |w| >= width then Layout([[]], [w]) else Layout([], [w])
  {
    assert [w][..0] == [] && Greedy([], width) == Layout([], []);
    assert |Joined([])| == 0;
  }

  lemma {:induction false} FlatWithoutFirst(groups: seq<seq<string>>)
    requires groups != [] && groups[0] == []
    ensures Flat(groups[1..]) == Flat(groups)
  {
    var m := |groups| - 1;
    if m == 0 {
      assert groups == [[]] && groups[..0] == [];
    } else {
      FlatWithoutFirst(groups[..m]);
      assert groups[1..][..m - 1] == groups[..m][1..];
    }
  }

  /** The greedy lines are optimal up to that extra line: without it they are a fitting split when
      every word fits, and no split of the same words into fitting lines has fewer. So the number
      of lines is the least possible if and only if the first word is shorter than the width. */
  lemma GreedyIsOptimal(words: seq<string>, width: int)
    requires Words(words) && forall k :: 0 <= k < |words| ==> |words[k]| <= width
    ensures var best := Useful(words, width);
            && Flat(best) == words && Fitting(best, width)
            && (forall split :: Flat(split) == words && Fitting(split, width) ==> |best| <= |split|)
            && (|Groups(words, width)| == |best| <==> words == [] || |words[0]| < width)
  {
    var groups, best := Groups(words, width), Useful(words, width);
    WordsAreKept(words, width);
    if words != [] {
      LineOfWords(words, width);
      FirstGroup(words, width);
      if ExtraLine(words, width) == 1 { FlatWithoutFirst(groups); }
    }
    GroupsFit(words, width);
    forall split | Flat(split) == words && Fitting(split, width) ensures |best| <= |split| {
      NoSplitIsShorter(words, width, split);
    }
  }

  lemma GroupsFit(words: seq<string>, width: int)
    requires Words(words) && forall k :: 0 <= k < |words| ==> |words[k]| <= width
    ensures words != [] ==> Fitting(Groups(words, width), width)
  {
    if words != [] {
      GreedyLinesFit(words, width);
      OneWordGroups(words, width);
    }
  }

  lemma {:induction false} OneWordGroups(words: seq<string>, width: int)
    requires Words(words) && forall k :: 0 <= k < |words| ==> |words[k]| <= width
    ensures var layout := Greedy(words, width);
            && (forall k :: 0 <= k < |layout.done| && |layout.done[k]| == 1 ==> |Joined(layout.done[k])| <= width)
            && (|layout.line| == 1 ==> |Joined(layout.line)| <= width)
  {
    if words != [] {
      OneWordGroups(words[..|words| - 1], width);
    }
  }

  // ---------- the text ----------

  predicate IsSpace(ch: char) { ch in "\t\n\r \U{000B}\U{000C}" }

  predicate SpaceFree(w: string) { forall k :: 0 <= k < |w| ==> !IsSpace(w[k]) }

  /** The fields of a text: what lies between its stretches of white space. `current` has been read
      of the next field. */
  function FieldsFrom(current: string, text: string): seq<string>
    decreases |text|
  {
    if text == "" then (if current == "" then [] else [current])
    else if IsSpace(text[0]) then (if current == "" then [] else [current]) + FieldsFrom("", text[1..])
    else FieldsFrom(current + [text[0]], text[1..])
  }

  function Fields(text: string): seq<string> { FieldsFrom("", text) }

  ghost predicate ProperWords(words: seq<string>) {
    forall k :: 0 <= k < |words| ==> words[k] != "" && SpaceFree(words[k])
  }

  lemma {:induction false} FieldsAreProper(current: string, text: string)
    requires SpaceFree(current)
    ensures ProperWords(FieldsFrom(current, text))
    decreases |text|
  {
    if text != "" {
      if IsSpace(text[0]) {
        FieldsAreProper("", text[1..]);
      } else {
        FieldsAreProper(current + [text[0]], text[1..]);
      }
    }
  }

  lemma {:induction false} FieldOfWord(current: string, w: string)
    requires SpaceFree(w)
    ensures FieldsFrom(current, w) == if current + w == "" then [] else [current + w]
    decreases |w|
  {
    if w == "" {
      assert current + w == current;
    } else {
      FieldOfWord(current + [w[0]], w[1..]);
      assert current + [w[0]] + w[1..] == current + w;
    }
  }

  lemma {:induction false} FieldsAcrossSpace(current: string, a: string, b: string)
    ensures FieldsFrom(current, a + " " + b) == FieldsFrom(current, a) + Fields(b)
    decreases |a|
  {
    var text := a + " " + b;
    if a == "" {
      assert text[0] == ' ' && text[1..] == b;
    } else {
      assert text[0] == a[0] && text[1..] == a[1..] + " " + b;
      if IsSpace(a[0]) {
        FieldsAcrossSpace("", a[1..], b);
      } else {
        FieldsAcrossSpace(current + [a[0]], a[1..], b);
      }
    }
  }

  /** The words on a line can be read off it. */
  lemma {:induction false} FieldsOfJoined(words: seq<string>)
    requires ProperWords(words)
    ensures Fields(Joined(words)) == words
  {
    if words != [] {
      var m := |words| - 1;
      FieldOfWord("", words[m]);
      assert "" + words[m] == words[m];
      if m > 0 {
        FieldsOfJoined(words[..m]);
        FieldsAcrossSpace("", Joined(words[..m]), words[m]);
        assert words == words[..m] + [words[m]];
      } else {
        assert words == [words[0]];
      }
    }
  }

  function FieldsOfLines(lines: seq<string>): seq<string> {
    if lines == [] then [] else FieldsOfLines(lines[..|lines| - 1]) + Fields(lines[|lines| - 1])
  }

  lemma {:induction false} FieldsOfGroups(groups: seq<seq<string>>)
    requires ProperWords(Flat(groups))
    ensures FieldsOfLines(Lines(groups)) == Flat(groups)
  {
    hide Fields, Joined;
    if groups != [] {
      var m := |groups| - 1;
      var before, last := Flat(groups[..m]), groups[m];
      assert Flat(groups) == before + last;
      forall k | 0 <= k < |before| ensures before[k] != "" && SpaceFree(before[k]) {
        assert Flat(groups)[k] == before[k];
      }
      forall k | 0 <= k < |last| ensures last[k] != "" && SpaceFree(last[k]) {
        assert Flat(groups)[|before| + k] == last[k];
      }
      FieldsOfGroups(groups[..m]);
      FieldsOfJoined(last);
      assert Lines(groups)[..m] == Lines(groups[..m]);
    }
  }

  /** Wrapping a text changes nothing but its white space: the words on the lines, read off line by
      line, are the words of the text. */
  lemma WrappingKeepsTheText(text: string, width: int)
    ensures Words(Fields(text))
    ensures FieldsOfLines(Lines(Groups(Fields(text), width))) == Fields(text)
  {
    hide FieldsFrom, Groups, Flat, Lines;
    FieldsAreProper("", text);
    WordsAreKept(Fields(text), width);
    FieldsOfGroups(Groups(Fields(text), width));
  }
}
