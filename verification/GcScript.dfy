/** The removal part of the cleanup script: between semicolons stand exactly the commands meant. */
module GcScript {
  import opened Text
  import opened ImageNames
  import opened DockerGc
  import opened GcSafety
  import opened ShellWords

  const IMAGE_RM: string := " docker image rm "

  function EchoCommand(r: string): string {
    " echo '@@rmi " + r + "'"
  }

  function RemoveCommand(r: string): string {
    IMAGE_RM + "'" + r + "' 2>&1 | tail -n 2"
  }

  function Commands(refs: seq<string>): seq<string> {
    if refs == [] then [] else [EchoCommand(refs[0]), RemoveCommand(refs[0])] + Commands(refs[1..])
  }

  function Joined(commands: seq<string>): string {
    if commands == [] then [] else [';'] + commands[0] + Joined(commands[1..])
  }

  /** The references the script goes through, candidate by candidate, unsafe ones skipped. */
  function SafeRefsOf(candidates: seq<Candidate>): seq<string> {
    if candidates == [] then [] else OnlySafe(candidates[0].refs) + SafeRefsOf(candidates[1..])
  }

  function OnlySafe(refs: seq<string>): seq<string> {
    if refs == [] then [] else (if IsSafeRef(refs[0]) then [refs[0]] else []) + OnlySafe(refs[1..])
  }

  /** The two commands of one reference, each after its semicolon. */
  function Pair(r: string): string {
    [';'] + EchoCommand(r) + ([';'] + RemoveCommand(r))
  }

  lemma JoinedCons(refs: seq<string>)
    requires refs != []
    ensures Joined(Commands(refs)) == Pair(refs[0]) + Joined(Commands(refs[1..]))
  {
  }

  lemma {:induction false} JoinedAppend(a: seq<string>, b: seq<string>)
    ensures Joined(Commands(a + b)) == Joined(Commands(a)) + Joined(Commands(b))
  {
    if a == [] {
      assert a + b == b && [] + Joined(Commands(b)) == Joined(Commands(b));
    } else {
      assert (a + b)[0] == a[0] && (a + b)[1..] == a[1..] + b;
      JoinedAppend(a[1..], b);
      JoinedCons(a);
      JoinedCons(a + b);
    }
  }

  lemma OneSafe(r: string)
    ensures Joined(Commands(OnlySafe([r]))) ==
            if IsSafeRef(r) then Pair(r) else []
  {
    assert OnlySafe([r]) == if IsSafeRef(r) then [r] else [];
    if IsSafeRef(r) {
      JoinedCons([r]);
      assert Joined(Commands([])) == [];
    }
  }

  lemma {:induction false} OnlySafeAppend(a: seq<string>, b: seq<string>)
    ensures OnlySafe(a + b) == OnlySafe(a) + OnlySafe(b)
  {
    if a == [] {
      assert a + b == b;
    } else {
      assert (a + b)[1..] == a[1..] + b;
      OnlySafeAppend(a[1..], b);
    }
  }

  /** The inner loop of `cleanup_command`: one candidate's references. */
  method RemovalOf(refs: seq<string>) returns (cmd: string)
    ensures cmd == Joined(Commands(OnlySafe(refs)))
  {
    cmd := [];
    for i := 0 to |refs|
      invariant cmd == Joined(Commands(OnlySafe(refs[..i])))
    {
      var r := refs[i];
      assert refs[..i + 1] == refs[..i] + [r];
      OnlySafeAppend(refs[..i], [r]);
      JoinedAppend(OnlySafe(refs[..i]), OnlySafe([r]));
      OneSafe(r);
      if IsSafeRef(r) {
        cmd := cmd + Pair(r);
      } else {
        assert cmd + [] == cmd;
      }
    }
    assert refs[..|refs|] == refs;
  }

  /** The outer loop, over the plan. */
  method RemovalScript(plan: Plan) returns (cmd: string)
    ensures cmd == Joined(Commands(SafeRefsOf(plan.remove)))
  {
    cmd := [];
    var left := plan.remove;
    while left != []
      invariant cmd + Joined(Commands(SafeRefsOf(left))) == Joined(Commands(SafeRefsOf(plan.remove)))
      decreases |left|
    {
      JoinedAppend(OnlySafe(left[0].refs), SafeRefsOf(left[1..]));
      var one := RemovalOf(left[0].refs);
      ghost var rest := Joined(Commands(SafeRefsOf(left[1..])));
      assert cmd + (one + rest) == (cmd + one) + rest;
      cmd := cmd + one;
      left := left[1..];
    }
    assert cmd + [] == cmd;
  }

  /** The text cut at every semicolon. */
  function SplitAtSemicolons(s: string, begun: string): seq<string>
    decreases |s|
  {
    if s == [] then [begun]
    else if s[0] == ';' then [begun] + SplitAtSemicolons(s[1..], [])
    else SplitAtSemicolons(s[1..], begun + [s[0]])
  }

  lemma {:induction false} SkipWord(w: string, begun: string, rest: string)
    requires ';' !in w
    ensures SplitAtSemicolons(w + rest, begun) == SplitAtSemicolons(rest, begun + w)
  {
    if w == [] {
      assert w + rest == rest && begun + w == begun;
    } else {
      assert (w + rest)[1..] == w[1..] + rest && begun + [w[0]] + w[1..] == begun + w;
      SkipWord(w[1..], begun + [w[0]], rest);
    }
  }

  lemma {:induction false} SplitJoined(commands: seq<string>, begun: string)
    requires forall c :: c in commands ==> ';' !in c
    ensures SplitAtSemicolons(Joined(commands), begun) == [begun] + commands
  {
    if commands == [] {
      assert [begun] + commands == [begun];
    } else {
      var c, rest := commands[0], Joined(commands[1..]);
      assert ([';'] + c + rest)[1..] == c + rest;
      SkipWord(c, [], rest);
      assert [] + c == c;
      SplitJoined(commands[1..], c);
      assert [begun] + ([c] + commands[1..]) == [begun] + commands;
    }
  }

  lemma NoSemicolon(r: string)
    requires IsSafeRef(r)
    ensures ';' !in EchoCommand(r) && ';' !in RemoveCommand(r)
  {
  }

  lemma {:induction false} CommandsPlain(refs: seq<string>)
    requires forall r :: r in refs ==> IsSafeRef(r)
    ensures forall c :: c in Commands(refs) ==> ';' !in c
    ensures forall c :: c in Commands(refs) && IMAGE_RM <= c ==> exists r :: r in refs && c == RemoveCommand(r)
    ensures forall r :: r in refs ==> RemoveCommand(r) in Commands(refs)
  {
    if refs != [] {
      CommandsPlain(refs[1..]);
      assert refs[0] in refs;
      NoSemicolon(refs[0]);
      assert EchoCommand(refs[0])[1] == 'e' && IMAGE_RM[1] == 'd';
    }
  }

  lemma {:induction false} OnlySafeMembers(refs: seq<string>, r: string)
    ensures r in OnlySafe(refs) <==> r in refs && IsSafeRef(r)
  {
    if refs != [] {
      OnlySafeMembers(refs[1..], r);
    }
  }

  lemma {:induction false} SafeRefsMembers(candidates: seq<Candidate>, r: string)
    ensures r in SafeRefsOf(candidates) <==> IsSafeRef(r) && exists c :: c in candidates && r in c.refs
  {
    if candidates != [] {
      OnlySafeMembers(candidates[0].refs, r);
      SafeRefsMembers(candidates[1..], r);
    }
  }

  /**
   Cut at its semicolons, the script for a selection holds an `image rm` of `r` exactly when `r` is a
   reference of a removed image.
   */
  lemma ScriptRemovesThePlan(images: seq<Image>, containers: seq<Container>, s: Settings, r: string)
    ensures
      var plan := Selection(images, containers, s);
      " docker image rm '" + r + "' 2>&1 | tail -n 2" in SplitAtSemicolons(Joined(Commands(SafeRefsOf(plan.remove))), []) <==>
        exists c :: c in plan.remove && r in c.refs
  {
    var plan := Selection(images, containers, s);
    var refs := SafeRefsOf(plan.remove);
    assert " docker image rm '" + r + "' 2>&1 | tail -n 2" == RemoveCommand(r) by {
      assert " docker image rm '" == IMAGE_RM + "'";
    }
    forall x | x in refs
      ensures IsSafeRef(x)
    {
      SafeRefsMembers(plan.remove, x);
    }
    CommandsPlain(refs);
    SplitJoined(Commands(refs), []);
    SafeRefsMembers(plan.remove, r);
    if RemoveCommand(r) in Commands(refs) {
      assert IMAGE_RM <= RemoveCommand(r);
      var x :| x in refs && RemoveCommand(r) == RemoveCommand(x);
      SameReference(r, x);
    }
    forall c | c in plan.remove && r in c.refs
      ensures IsSafeRef(r)
    {
      var _ := RemovedIsUnused(images, containers, s, c);
    }
  }

  lemma SameReference(r: string, x: string)
    requires RemoveCommand(r) == RemoveCommand(x)
    ensures r == x
  {
    var head, tail := IMAGE_RM + "'", "' 2>&1 | tail -n 2";
    assert RemoveCommand(r) == head + r + tail && RemoveCommand(x) == head + x + tail;
    assert |r| == |x|;
    assert r == RemoveCommand(r)[|head|..|head| + |r|];
    assert x == RemoveCommand(x)[|head|..|head| + |x|];
  }

  // ------------------------------------------------------------------------ what a shell reads

  /** The operators and words of one reference's two commands, but for the last word. */
  function PairTokens(r: string): seq<Token> {
    [Operator(';'), Word("echo"), Word("@@rmi " + r), Operator(';')]
    + ([Word("docker"), Word("image"), Word("rm"), Word(r)]
       + ([Word("2"), Operator('>'), Operator('&'), Word("1")] + [Operator('|'), Word("tail"), Word("-n")]))
  }

  function ScriptTokens(refs: seq<string>): seq<Token> {
    if refs == [] then [] else PairTokens(refs[0]) + ([Word("2")] + ScriptTokens(refs[1..]))
  }

  lemma {:induction false} EscapePlain(s: string)
    requires '\'' !in s
    ensures Escape(s) == s
  {
    if s != [] {
      EscapePlain(s[1..]);
    }
  }

  lemma QuotedWord(s: string, rest: string)
    requires '\'' !in s
    ensures Lex("'" + (s + ("'" + rest)), None) == Lex(rest, Some(s))
  {
    EscapePlain(s);
    QuoteReadsBack(s, None, rest);
    assert ShellQuote(s) + rest == "'" + (s + ("'" + rest)) && [] + s == s;
  }

  lemma WordThenBlank(w: string, rest: string)
    requires w != [] && forall i :: 0 <= i < |w| ==> PlainChar(w[i])
    ensures Lex(w + (" " + rest), None) == Prepend([Word(w)], Lex(rest, None))
  {
    PlainReadsBack(w, None, " " + rest);
    assert [] + w == w;
    BlankReads(Some(w), rest);
  }

  lemma BlankReads(word: Option<string>, rest: string)
    ensures Lex(" " + rest, word) == Prepend(Flush(word), Lex(rest, None))
  {
    assert (" " + rest)[1..] == rest;
  }

  lemma OperatorReads(c: char, word: Option<string>, rest: string)
    requires IsOperator(c)
    ensures Lex([c] + rest, word) == Prepend(Flush(word) + [Operator(c)], Lex(rest, None))
  {
    assert ([c] + rest)[1..] == rest;
  }

  lemma LeadingBlank(rest: string)
    ensures Lex(" " + rest, None) == Lex(rest, None)
  {
    BlankReads(None, rest);
    PrependNone(Lex(rest, None));
  }

  lemma PrependNone(t: Option<seq<Token>>)
    ensures Prepend([], t) == t
  {
    if t.Some? {
      assert [] + t.value == t.value;
    }
  }

  lemma RedirectReads(rest: string)
    ensures Lex("2" + (['>'] + (['&'] + ("1" + (" " + rest)))), None) ==
            Prepend([Word("2"), Operator('>'), Operator('&'), Word("1")], Lex(rest, None))
  {
    var one := "1" + (" " + rest);
    PlainReadsBack("2", None, ['>'] + (['&'] + one));
    assert [] + "2" == "2";
    OperatorReads('>', Some("2"), ['&'] + one);
    OperatorReads('&', None, one);
    WordThenBlank("1", rest);
    PrependTwice([Operator('&')], [Word("1")], Lex(rest, None));
    PrependTwice([Word("2"), Operator('>')], [Operator('&'), Word("1")], Lex(rest, None));
    assert Flush(Some("2")) + [Operator('>')] == [Word("2"), Operator('>')];
    assert Flush(None) + [Operator('&')] == [Operator('&')];
    assert [Operator('&')] + [Word("1")] == [Operator('&'), Word("1")];
    assert [Word("2"), Operator('>')] + [Operator('&'), Word("1")] == [Word("2"), Operator('>'), Operator('&'), Word("1")];
  }

  lemma TailReads(rest: string)
    ensures Lex(['|'] + (" " + ("tail" + (" " + ("-n" + (" " + ("2" + rest)))))), None) ==
            Prepend([Operator('|'), Word("tail"), Word("-n")], Lex(rest, Some("2")))
  {
    var n := "-n" + (" " + ("2" + rest));
    OperatorReads('|', None, " " + ("tail" + (" " + n)));
    LeadingBlank("tail" + (" " + n));
    WordThenBlank("tail", n);
    WordThenBlank("-n", "2" + rest);
    PlainReadsBack("2", None, rest);
    assert [] + "2" == "2";
    PrependTwice([Word("tail")], [Word("-n")], Lex(rest, Some("2")));
    PrependTwice([Operator('|')], [Word("tail"), Word("-n")], Lex(rest, Some("2")));
    assert Flush(None) + [Operator('|')] == [Operator('|')];
    assert [Word("tail")] + [Word("-n")] == [Word("tail"), Word("-n")];
    assert [Operator('|')] + [Word("tail"), Word("-n")] == [Operator('|'), Word("tail"), Word("-n")];
  }

  lemma RemoveWords(rest: string)
    ensures Lex(IMAGE_RM + rest, None) == Prepend([Word("docker"), Word("image"), Word("rm")], Lex(rest, None))
  {
    var rm := "rm" + (" " + rest);
    var image := "image" + (" " + rm);
    assert IMAGE_RM == " docker image rm " == " docker " + ("image " + "rm ");
    assert IMAGE_RM + rest == " " + ("docker" + (" " + image));
    LeadingBlank("docker" + (" " + image));
    WordThenBlank("docker", image);
    WordThenBlank("image", rm);
    WordThenBlank("rm", rest);
    PrependTwice([Word("image")], [Word("rm")], Lex(rest, None));
    PrependTwice([Word("docker")], [Word("image"), Word("rm")], Lex(rest, None));
    assert [Word("image")] + [Word("rm")] == [Word("image"), Word("rm")];
    assert [Word("docker")] + [Word("image"), Word("rm")] == [Word("docker"), Word("image"), Word("rm")];
  }

  lemma RedirectText(rest: string)
    ensures "2>&1 " + rest == "2" + (['>'] + (['&'] + ("1" + (" " + rest))))
  {
    assert "2>&1 " == "2" + (['>'] + (['&'] + ("1" + " ")));
  }

  lemma TailText(rest: string)
    ensures "| tail -n 2" + rest == ['|'] + (" " + ("tail" + (" " + ("-n" + (" " + ("2" + rest))))))
  {
    var two, n := "2" + rest, " " + ("-n" + (" " + ("2" + rest)));
    assert " -n 2" + rest == n;
    assert "tail -n 2" == "tail" + " -n 2";
    assert "tail -n 2" + rest == "tail" + n;
    assert "| tail -n 2" == "| " + "tail -n 2";
    assert "| tail -n 2" + rest == "| " + ("tail -n 2" + rest);
  }

  lemma PipeReads(rest: string)
    ensures Lex("2>&1 | tail -n 2" + rest, None) ==
            Prepend([Word("2"), Operator('>'), Operator('&'), Word("1")] + [Operator('|'), Word("tail"), Word("-n")], Lex(rest, Some("2")))
  {
    var tail := "| tail -n 2" + rest;
    assert "2>&1 | tail -n 2" == "2>&1 " + "| tail -n 2";
    assert "2>&1 | tail -n 2" + rest == "2>&1 " + tail;
    RedirectText(tail);
    RedirectReads(tail);
    TailText(rest);
    TailReads(rest);
    PrependTwice([Word("2"), Operator('>'), Operator('&'), Word("1")], [Operator('|'), Word("tail"), Word("-n")], Lex(rest, Some("2")));
  }

  /** The removal is `docker image rm` of that one word, its output through `tail`. */
  lemma RemoveReads(r: string, rest: string)
    requires '\'' !in r
    ensures Lex(RemoveCommand(r) + rest, None) ==
            Prepend([Word("docker"), Word("image"), Word("rm"), Word(r)]
                    + ([Word("2"), Operator('>'), Operator('&'), Word("1")] + [Operator('|'), Word("tail"), Word("-n")]), Lex(rest, Some("2")))
  {
    var pipe := "2>&1 | tail -n 2" + rest;
    var quoted := "'" + (r + ("'" + (" " + pipe)));
    assert "' 2>&1 | tail -n 2" == "'" + (" " + "2>&1 | tail -n 2");
    assert RemoveCommand(r) + rest == IMAGE_RM + quoted;
    RemoveWords(quoted);
    QuotedWord(r, " " + pipe);
    BlankReads(Some(r), pipe);
    PipeReads(rest);
    var a, b, c := [Word("docker"), Word("image"), Word("rm")], [Word(r)],
                   [Word("2"), Operator('>'), Operator('&'), Word("1")] + [Operator('|'), Word("tail"), Word("-n")];
    PrependTwice(b, c, Lex(rest, Some("2")));
    PrependTwice(a, b + c, Lex(rest, Some("2")));
    assert a + (b + c) == [Word("docker"), Word("image"), Word("rm"), Word(r)] + c;
  }

  lemma EchoReads(r: string, rest: string)
    requires '\'' !in r
    ensures Lex(EchoCommand(r) + ([';'] + rest), None) == Prepend([Word("echo"), Word("@@rmi " + r), Operator(';')], Lex(rest, None))
  {
    var mark := "@@rmi " + r;
    assert '\'' !in mark;
    var end := [';'] + rest;
    var quoted := "'" + (mark + ("'" + end));
    assert " echo '@@rmi " == " " + ("echo" + (" " + ("'" + "@@rmi ")));
    assert EchoCommand(r) + end == " " + ("echo" + (" " + quoted));
    LeadingBlank("echo" + (" " + quoted));
    WordThenBlank("echo", quoted);
    QuotedWord(mark, end);
    OperatorReads(';', Some(mark), rest);
    PrependTwice([Word("echo")], [Word(mark), Operator(';')], Lex(rest, None));
    assert Flush(Some(mark)) + [Operator(';')] == [Word(mark), Operator(';')];
    assert [Word("echo")] + [Word(mark), Operator(';')] == [Word("echo"), Word(mark), Operator(';')];
  }

  lemma PairReads(r: string, rest: string, word: Option<string>)
    requires '\'' !in r
    ensures Lex(Pair(r) + rest, word) == Prepend(Flush(word) + PairTokens(r), Lex(rest, Some("2")))
  {
    var remove := RemoveCommand(r) + rest;
    var echo := EchoCommand(r) + ([';'] + remove);
    assert Pair(r) + rest == [';'] + echo;
    OperatorReads(';', word, echo);
    EchoReads(r, remove);
    RemoveReads(r, rest);
    var a, b := [Word("echo"), Word("@@rmi " + r), Operator(';')],
                [Word("docker"), Word("image"), Word("rm"), Word(r)]
                + ([Word("2"), Operator('>'), Operator('&'), Word("1")] + [Operator('|'), Word("tail"), Word("-n")]);
    PrependTwice(a, b, Lex(rest, Some("2")));
    PrependTwice(Flush(word) + [Operator(';')], a + b, Lex(rest, Some("2")));
    assert Flush(word) + [Operator(';')] + (a + b) == Flush(word) + PairTokens(r);
  }

  lemma PrependThen(a: seq<Token>, b: seq<Token>, c: seq<Token>)
    ensures Prepend(a + b, Some(c)) == Some(a + (b + c))
  {
    assert a + b + c == a + (b + c);
  }

  lemma NoQuote(r: string)
    requires IsSafeRef(r)
    ensures '\'' !in r
  {
  }

  /** A shell reads the whole script as, for each reference, its echo and the removal of that one word. */
  lemma {:induction false} ScriptReads(refs: seq<string>, word: Option<string>)
    requires forall r :: r in refs ==> IsSafeRef(r)
    ensures Lex(Joined(Commands(refs)), word) == Some(Flush(word) + ScriptTokens(refs))
  {
    if refs == [] {
      assert Joined(Commands(refs)) == [] && Flush(word) + [] == Flush(word);
    } else {
      var r, rest := refs[0], Joined(Commands(refs[1..]));
      assert r in refs;
      NoQuote(r);
      JoinedCons(refs);
      PairReads(r, rest, word);
      ScriptReads(refs[1..], Some("2"));
      PrependThen(Flush(word), PairTokens(r), [Word("2")] + ScriptTokens(refs[1..]));
    }
  }
}
