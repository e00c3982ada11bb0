/** The command tokenizer of exec requests (internal/k8s/shell.go): spaces separate arguments, single
    quotes protect spaces, and what follows `sh -c` is one argument. */
module SplitArgs {
  import opened Limiter

  /** The tokenizer's variables. */
  datatype Scan = Scan(args: seq<string>, current: string, inQuotes: bool)

  const START: Scan := Scan([], "", false)

  function ScanChar(s: Scan, ch: char): Scan {
    if ch == '\'' then s.(inQuotes := !s.inQuotes)
    else if ch == ' ' && !s.inQuotes then
      if s.current == "" then s else Scan(s.args + [s.current], "", false)
    else s.(current := s.current + [ch])
  }

  function ScanAll(s: Scan, input: string): Scan
    decreases |input|
  {
    if input == "" then s else ScanAll(ScanChar(s, input[0]), input[1..])
  }

  /** The last argument ends with the input, even inside quotes. */
  function Finish(s: Scan): seq<string> {
    if s.current == "" then s.args else s.args + [s.current]
  }

  function Tokenize(input: string): seq<string> { Finish(ScanAll(START, input)) }

  function Join(args: seq<string>): string {
    if args == [] then "" else if |args| == 1 then args[0] else args[0] + " " + Join(args[1..])
  }

  predicate IsShC(args: seq<string>, i: int) {
    0 <= i && i + 2 < |args| && args[i] == "sh" && args[i + 1] == "-c"
  }

  /** The first `sh -c` that something follows, or |args| if there is none. */
  function FirstShC(args: seq<string>, from: nat): (i: nat)
    requires from <= |args|
    ensures from <= i <= |args|
    ensures i < |args| ==> IsShC(args, i)
    ensures forall j :: from <= j < i ==> !IsShC(args, j)
    decreases |args| - from
  {
    if from == |args| || IsShC(args, from) then from else FirstShC(args, from + 1)
  }

  function JoinShC(args: seq<string>): seq<string> {
    var i := FirstShC(args, 0);
    if i == |args| then args else args[..i + 2] + [Join(args[i + 2..])]
  }

  function Split(input: string): seq<string> { JoinShC(Tokenize(input)) }

  lemma {:induction false} ScanConcat(s: Scan, a: string, b: string)
    ensures ScanAll(s, a + b) == ScanAll(ScanAll(s, a), b)
    decreases |a|
  {
    if a == "" {
      assert a + b == b;
    } else {
      assert (a + b)[1..] == a[1..] + b;
      ScanConcat(ScanChar(s, a[0]), a[1..], b);
    }
  }

  method SplitCommand(input: string) returns (args: seq<string>)
    ensures args == Split(input)
  {
    args := [];
    var current, inQuotes := "", false;
    var i := 0;
    while i < |input|
      invariant 0 <= i <= |input|
      invariant ScanAll(START, input[..i]) == Scan(args, current, inQuotes)
    {
      var ch := input[i];
      assert input[..i + 1] == input[..i] + [ch];
      ScanConcat(START, input[..i], [ch]);
      assert [ch][1..] == "" && ScanAll(Scan(args, current, inQuotes), [ch]) == ScanChar(Scan(args, current, inQuotes), ch);
      if ch == '\'' {
        inQuotes := !inQuotes;
      } else if ch == ' ' {
        if inQuotes {
          current := current + [ch];
        } else if |current| > 0 {
          args := args + [current];
          current := "";
        }
      } else {
        current := current + [ch];
      }
      i := i + 1;
    }
    assert input[..i] == input;
    if |current| > 0 {
      args := args + [current];
    }
    i := 0;
    while i < |args| - 1
      invariant 0 <= i <= |args|
      invariant args == Tokenize(input)
      invariant forall j :: 0 <= j < i ==> !IsShC(args, j)
    {
      if args[i] == "sh" && args[i + 1] == "-c" && i + 2 < |args| {
        assert IsShC(args, i);
        assert FirstShC(args, 0) == i;
        args := args[..i + 2] + [Join(args[i + 2..])];
        return;
      }
      i := i + 1;
    }
    assert FirstShC(args, 0) == |args|;
  }

  function Concat(parts: seq<seq<string>>): seq<string> {
    if parts == [] then [] else Concat(parts[..|parts| - 1]) + parts[|parts| - 1]
  }

  function SplitEach(commands: seq<string>): (r: seq<seq<string>>)
    ensures |r| == |commands|
  {
    seq(|commands|, k requires 0 <= k < |commands| => Split(commands[k]))
  }

  /** The command of an exec request: the arguments of all its strings, one after another. */
  method BuildCommand(commands: seq<string>) returns (command: seq<string>)
    ensures command == Concat(SplitEach(commands))
  {
    command := [];
    var k := 0;
    while k < |commands|
      invariant 0 <= k <= |commands|
      invariant command == Concat(SplitEach(commands[..k]))
    {
      var args := SplitCommand(commands[k]);
      assert SplitEach(commands[..k + 1])[..k] == SplitEach(commands[..k]);
      command := command + args;
      k := k + 1;
    }
    assert commands[..k] == commands;
  }

  // ---------- what tokens are ----------

  predicate QuoteFree(s: string) { '\'' !in s }

  ghost predicate Expressible(args: seq<string>) {
    forall k :: 0 <= k < |args| ==> args[k] != "" && QuoteFree(args[k])
  }

  /** The input without its quotes and its unquoted spaces. */
  function Kept(input: string, inQuotes: bool): string {
    if input == "" then ""
    else if input[0] == '\'' then Kept(input[1..], !inQuotes)
    else if input[0] == ' ' && !inQuotes then Kept(input[1..], inQuotes)
    else [input[0]] + Kept(input[1..], inQuotes)
  }

  function Glue(args: seq<string>): string {
    if args == [] then "" else Glue(args[..|args| - 1]) + args[|args| - 1]
  }

  lemma GlueAppend(args: seq<string>, a: string)
    ensures Glue(args + [a]) == Glue(args) + a
  {
    assert (args + [a])[..|args|] == args;
  }

  /** What one character leaves in the kept text. */
  function KeptChar(inQuotes: bool, ch: char): string {
    if ch == '\'' || (ch == ' ' && !inQuotes) then "" else [ch]
  }

  lemma CharKeeps(s: Scan, ch: char)
    requires Expressible(s.args) && QuoteFree(s.current)
    ensures var t := ScanChar(s, ch);
            && Expressible(t.args) && QuoteFree(t.current)
            && Glue(t.args) + t.current == Glue(s.args) + s.current + KeptChar(s.inQuotes, ch)
  {
    hide Glue;
    var text := Glue(s.args) + s.current;
    assert text + "" == text;
    GlueAppend(s.args, s.current);
    assert Glue(s.args) + (s.current + [ch]) == text + [ch];
  }

  lemma KeptNext(input: string, s: Scan)
    requires input != ""
    ensures Kept(input, s.inQuotes) == KeptChar(s.inQuotes, input[0]) + Kept(input[1..], ScanChar(s, input[0]).inQuotes)
  {
  }

  lemma {:induction false} ScanKeeps(s: Scan, input: string)
    requires Expressible(s.args) && QuoteFree(s.current)
    ensures var t := ScanAll(s, input);
            && Expressible(t.args) && QuoteFree(t.current)
            && Glue(t.args) + t.current == Glue(s.args) + s.current + Kept(input, s.inQuotes)
    decreases |input|
  {
    hide Glue, Expressible, QuoteFree, ScanChar, KeptChar;
    if input != "" {
      var t := ScanChar(s, input[0]);
      CharKeeps(s, input[0]);
      ScanKeeps(t, input[1..]);
      KeptNext(input, s);
    }
  }

  lemma FinishKeeps(s: Scan)
    requires Expressible(s.args) && QuoteFree(s.current)
    ensures Expressible(Finish(s)) && Glue(Finish(s)) == Glue(s.args) + s.current
  {
    hide Glue;
    GlueAppend(s.args, s.current);
    assert Glue(s.args) + "" == Glue(s.args);
  }

  /** For any input no token is empty or holds a quote, and the tokens together are the input minus
      its quotes and its unquoted spaces. */
  lemma TokensKeepTheText(input: string)
    ensures Expressible(Tokenize(input)) && Glue(Tokenize(input)) == Kept(input, false)
  {
    hide ScanAll, Kept;
    ScanKeeps(START, input);
    var t := ScanAll(START, input);
    FinishKeeps(t);
    assert Glue([]) == "";
    assert "" + "" + Kept(input, false) == Kept(input, false);
  }

  lemma JoinIsNotEmpty(args: seq<string>)
    requires args != [] && args[0] != ""
    ensures Join(args) != ""
  {
  }

  /** No argument is empty after the `sh -c` pass either. */
  lemma SplitHasNoEmpty(input: string)
    ensures forall k :: 0 <= k < |Split(input)| ==> Split(input)[k] != ""
  {
    TokensKeepTheText(input);
    var args := Tokenize(input);
    var i := FirstShC(args, 0);
    if i < |args| { JoinIsNotEmpty(args[i + 2..]); }
  }

  /** The `sh -c` pass is idempotent. */
  lemma JoinShCIsIdempotent(args: seq<string>)
    ensures JoinShC(JoinShC(args)) == JoinShC(args)
  {
    var i := FirstShC(args, 0);
    if i < |args| {
      var joined := JoinShC(args);
      assert forall j :: 0 <= j < i ==> !IsShC(joined, j) by {
        forall j | 0 <= j < i ensures !IsShC(joined, j) { assert !IsShC(args, j); }
      }
      assert IsShC(joined, i);
      assert FirstShC(joined, 0) == i;
      assert joined[i + 2..] == [Join(args[i + 2..])];
    }
  }

  // ---------- quoting ----------

  /** A stretch of an argument, quoted or not. */
  datatype Piece = Piece(quoted: bool, text: string) {
    predicate Valid() { QuoteFree(text) && (!quoted ==> ' ' !in text) }
    function Written(): string { if quoted then "'" + text + "'" else text }
  }

  function Written(pieces: seq<Piece>): string {
    if pieces == [] then "" else pieces[0].Written() + Written(pieces[1..])
  }

  function Meaning(pieces: seq<Piece>): string {
    if pieces == [] then "" else pieces[0].text + Meaning(pieces[1..])
  }

  /** An argument as written, and the number of spaces after it. */
  datatype Word = Word(pieces: seq<Piece>, spaces: nat)

  ghost predicate ValidWords(words: seq<Word>) {
    forall k :: 0 <= k < |words| ==>
      && (forall j :: 0 <= j < |words[k].pieces| ==> words[k].pieces[j].Valid())
      && Meaning(words[k].pieces) != ""
      && (k < |words| - 1 ==> words[k].spaces > 0)
  }

  function Spaces(n: nat): string { seq(n, _ => ' ') }

  function CommandLine(words: seq<Word>): string {
    if words == [] then "" else Written(words[0].pieces) + Spaces(words[0].spaces) + CommandLine(words[1..])
  }

  function Meanings(words: seq<Word>): (m: seq<string>)
    ensures |m| == |words|
  {
    seq(|words|, k requires 0 <= k < |words| => Meaning(words[k].pieces))
  }

  lemma {:induction false} ScanText(s: Scan, text: string)
    requires QuoteFree(text) && (!s.inQuotes ==> ' ' !in text)
    ensures ScanAll(s, text) == s.(current := s.current + text)
    decreases |text|
  {
    if text != "" {
      ScanText(ScanChar(s, text[0]), text[1..]);
      assert s.current + [text[0]] + text[1..] == s.current + text;
    } else {
      assert s.current + text == s.current;
    }
  }

  lemma ScanPiece(s: Scan, piece: Piece)
    requires !s.inQuotes && piece.Valid()
    ensures ScanAll(s, piece.Written()) == s.(current := s.current + piece.text)
  {
    if piece.quoted {
      var inside := s.(inQuotes := true);
      ScanConcat(s, "'", piece.text + "'");
      assert "'" + (piece.text + "'") == piece.Written();
      assert "'"[1..] == "" && ScanAll(s, "'") == inside;
      ScanConcat(inside, piece.text, "'");
      ScanText(inside, piece.text);
      var read := inside.(current := s.current + piece.text);
      assert ScanAll(read, "'") == ScanChar(read, '\'');
    } else {
      ScanText(s, piece.text);
    }
  }

  lemma {:induction false} ScanPieces(s: Scan, pieces: seq<Piece>)
    requires !s.inQuotes && forall j :: 0 <= j < |pieces| ==> pieces[j].Valid()
    ensures ScanAll(s, Written(pieces)) == s.(current := s.current + Meaning(pieces))
    decreases |pieces|
  {
    hide ScanChar, Piece.Written;
    if pieces == [] {
      assert s.current + "" == s.current;
    } else {
      var first, rest := pieces[0], pieces[1..];
      var read := s.(current := s.current + first.text);
      ScanConcat(s, first.Written(), Written(rest));
      ScanPiece(s, first);
      ScanPieces(read, rest);
      assert s.current + first.text + Meaning(rest) == s.current + (first.text + Meaning(rest));
    }
  }

  lemma {:induction false} ScanSpaces(s: Scan, n: nat)
    requires !s.inQuotes
    ensures ScanAll(s, Spaces(n)) == if n == 0 then s else Scan(Finish(s), "", false)
    decreases n
  {
    if n > 0 {
      assert Spaces(n)[0] == ' ' && Spaces(n)[1..] == Spaces(n - 1);
      ScanSpaces(ScanChar(s, ' '), n - 1);
    }
  }

  lemma {:induction false} ScanLine(args: seq<string>, words: seq<Word>)
    requires ValidWords(words)
    ensures Finish(ScanAll(Scan(args, "", false), CommandLine(words))) == args + Meanings(words)
    decreases |words|
  {
    hide ScanChar, Written, Meaning, Spaces;
    var s := Scan(args, "", false);
    if words == [] {
      assert args + [] == args;
    } else {
      var w, rest := words[0], words[1..];
      var word := Meaning(w.pieces);
      var read := Scan(args, word, false);
      ScanConcat(s, Written(w.pieces) + Spaces(w.spaces), CommandLine(rest));
      ScanConcat(s, Written(w.pieces), Spaces(w.spaces));
      ScanPieces(s, w.pieces);
      assert "" + word == word;
      ScanSpaces(read, w.spaces);
      assert Meanings(words) == [word] + Meanings(rest);
      if w.spaces == 0 {
        assert rest == [];
      } else {
        ScanLine(args + [word], rest);
        assert args + [word] + Meanings(rest) == args + ([word] + Meanings(rest));
      }
    }
  }

  /** Tokenizing inverts every way of writing arguments: however each argument is cut into quoted
      and unquoted stretches, and whatever the spacing, the tokens are the arguments. */
  lemma TokenizeInvertsQuoting(lead: nat, words: seq<Word>)
    requires ValidWords(words)
    ensures Tokenize(Spaces(lead) + CommandLine(words)) == Meanings(words)
  {
    ScanConcat(START, Spaces(lead), CommandLine(words));
    ScanSpaces(START, lead);
    ScanLine([], words);
    assert [] + Meanings(words) == Meanings(words);
  }

  /** Each argument in single quotes, with one space between neighbours. */
  function Quoted(args: seq<string>): string {
    if args == [] then "" else if |args| == 1 then "'" + args[0] + "'" else "'" + args[0] + "' " + Quoted(args[1..])
  }

  function QuotedWords(args: seq<string>): (words: seq<Word>)
    ensures |words| == |args|
  {
    seq(|args|, k requires 0 <= k < |args| => Word([Piece(true, args[k])], if k < |args| - 1 then 1 else 0))
  }

  lemma {:induction false} QuotedIsCommandLine(args: seq<string>)
    requires Expressible(args)
    ensures CommandLine(QuotedWords(args)) == Quoted(args)
    ensures ValidWords(QuotedWords(args)) && Meanings(QuotedWords(args)) == args
  {
    var words := QuotedWords(args);
    forall k | 0 <= k < |args| ensures Meaning(words[k].pieces) == args[k] {
      assert words[k].pieces[1..] == [] && args[k] + "" == args[k];
    }
    if args != [] {
      var own := "'" + args[0] + "'";
      assert words[0].pieces[1..] == [] && own + "" == own;
      assert Written(words[0].pieces) == own;
      assert Spaces(1) == " " && Spaces(0) == "";
      if |args| == 1 {
        assert words[1..] == [];
        assert own + "" + "" == own;
      } else {
        QuotedIsCommandLine(args[1..]);
        assert words[1..] == QuotedWords(args[1..]);
        assert own + " " == "'" + args[0] + "' ";
      }
    }
  }

  /** Quoting each argument, joining with spaces and splitting gives the arguments back, except that
      what follows the first `sh -c` comes back as one. */
  lemma SplitInvertsQuoted(args: seq<string>)
    requires Expressible(args)
    ensures Split(Quoted(args)) == JoinShC(args)
  {
    QuotedIsCommandLine(args);
    TokenizeInvertsQuoting(0, QuotedWords(args));
    assert Spaces(0) + Quoted(args) == Quoted(args);
  }

  /** An argument list is the tokens of some command line if and only if no argument is empty and
      none holds a quote. */
  lemma ExpressibleIff(args: seq<string>)
    ensures Expressible(args) <==> exists input :: Tokenize(input) == args
  {
    if Expressible(args) {
      QuotedIsCommandLine(args);
      TokenizeInvertsQuoting(0, QuotedWords(args));
      assert Spaces(0) + Quoted(args) == Quoted(args);
      assert Tokenize(Quoted(args)) == args;
    }
    if input :| Tokenize(input) == args {
      TokensKeepTheText(input);
    }
  }

  // ---------- joining ----------

  /** One space separates what is joined. */
  lemma {:induction false} JoinAppend(a: seq<string>, b: seq<string>)
    requires a != [] && b != []
    ensures Join(a + b) == Join(a) + " " + Join(b)
  {
    if |a| == 1 {
      assert (a + b)[1..] == b;
    } else {
      JoinAppend(a[1..], b);
      assert (a + b)[1..] == a[1..] + b;
      assert a[0] + " " + (Join(a[1..]) + " " + Join(b)) == a[0] + " " + Join(a[1..]) + " " + Join(b);
    }
  }

  /** Arguments that need no quotes. */
  ghost predicate Plain(args: seq<string>) {
    forall k :: 0 <= k < |args| ==> args[k] != "" && QuoteFree(args[k]) && ' ' !in args[k]
  }

  function PlainWords(args: seq<string>): (words: seq<Word>)
    ensures |words| == |args|
  {
    seq(|args|, k requires 0 <= k < |args| => Word([Piece(false, args[k])], if k < |args| - 1 then 1 else 0))
  }

  lemma {:induction false} JoinIsCommandLine(args: seq<string>)
    requires Plain(args)
    ensures CommandLine(PlainWords(args)) == Join(args)
    ensures ValidWords(PlainWords(args)) && Meanings(PlainWords(args)) == args
  {
    var words := PlainWords(args);
    forall k | 0 <= k < |args| ensures Meaning(words[k].pieces) == args[k] {
      assert words[k].pieces[1..] == [] && args[k] + "" == args[k];
    }
    if args != [] {
      JoinFirst(args[0]);
      assert Spaces(1) == " " && Spaces(0) == "";
      if |args| == 1 {
        assert words[1..] == [];
        assert args[0] + "" + "" == args[0];
      } else {
        JoinIsCommandLine(args[1..]);
        assert words[1..] == PlainWords(args[1..]);
      }
    }
  }

  lemma JoinFirst(arg: string)
    ensures Written([Piece(false, arg)]) == arg
  {
    assert [Piece(false, arg)][1..] == [] && arg + "" == arg;
  }

  /** Joining plain arguments loses nothing: tokenizing gives them back. */
  lemma TokenizeInvertsJoin(args: seq<string>)
    requires Plain(args)
    ensures Tokenize(Join(args)) == args
  {
    JoinIsCommandLine(args);
    TokenizeInvertsQuoting(0, PlainWords(args));
    assert Spaces(0) + Join(args) == Join(args);
  }

  /** No `sh -c` that something follows begins before position `n`. */
  ghost predicate NoShCBefore(args: seq<string>, n: int) {
    forall i, k :: 0 <= i < n && k == i + 1 < |args| - 1 && args[i] == "sh" ==> args[k] != "-c"
  }

  /** A quoted command line without `sh -c` is split into the arguments as they were. */
  lemma OtherCommandsStay(args: seq<string>)
    requires Expressible(args) && NoShCBefore(args, |args|)
    ensures Split(Quoted(args)) == args
  {
    SplitInvertsQuoted(args);
  }

  /** Of the first `sh -c` of a quoted command line all that follows becomes a single argument, the
      arguments separated by one space each: for plain arguments the shell finds them as they were. */
  lemma ShCTailIsOneArgument(pre: seq<string>, tail: seq<string>)
    requires Expressible(pre) && Expressible(tail) && tail != []
    requires NoShCBefore(pre + ["sh", "-c"] + tail, |pre|)
    ensures Split(Quoted(pre + ["sh", "-c"] + tail)) == pre + ["sh", "-c"] + [Join(tail)]
    ensures Plain(tail) ==> Tokenize(Split(Quoted(pre + ["sh", "-c"] + tail))[|pre| + 2]) == tail
  {
    var args := pre + ["sh", "-c"] + tail;
    SplitInvertsQuoted(args);
    assert IsShC(args, |pre|);
    assert FirstShC(args, 0) == |pre|;
    assert args[..|pre| + 2] == pre + ["sh", "-c"] && args[|pre| + 2..] == tail;
    if Plain(tail) { TokenizeInvertsJoin(tail); }
  }

  // ---------- the strings of a request ----------

  lemma OneMoreString(commands: seq<string>, command: string)
    ensures Concat(SplitEach(commands + [command])) == Concat(SplitEach(commands)) + Split(command)
  {
    var parts := SplitEach(commands);
    assert SplitEach(commands + [command]) == parts + [Split(command)];
    assert (parts + [Split(command)])[..|parts|] == parts;
  }

  /** One string gives its own arguments. */
  lemma OneString(command: string)
    ensures Concat(SplitEach([command])) == Split(command)
  {
    OneMoreString([], command);
    assert [] + [command] == [command] && Concat(SplitEach([])) == [] && [] + Split(command) == Split(command);
  }

  /** The command of several strings is that of the first ones, then that of the others. */
  lemma {:induction false} CommandsAddUp(a: seq<string>, b: seq<string>)
    ensures Concat(SplitEach(a + b)) == Concat(SplitEach(a)) + Concat(SplitEach(b))
  {
    hide Split, Concat, SplitEach;
    if b == [] {
      assert a + b == a;
      assert Concat(SplitEach([])) == [] by { NoString(); }
    } else {
      var before, last := b[..|b| - 1], b[|b| - 1];
      CommandsAddUp(a, before);
      OneMoreString(a + before, last);
      OneMoreString(before, last);
      assert a + b == a + before + [last] && b == before + [last];
    }
  }

  lemma NoString()
    ensures Concat(SplitEach([])) == []
  {
  }
}
