/**
 Shell quoting, against how a POSIX shell reads the text back: quote removal and word splitting of
 sections 2.2.1, 2.2.2 and 2.3, and the suffix and prefix removal of section 2.6.2 of the Shell
 Command Language of POSIX.1-2017.
 */
module ShellWords {
  import opened Text

  datatype Token = Word(text: string) | Operator(c: char)

  predicate IsBlankChar(c: char) {
    c == ' ' || c == '\t'
  }

  predicate IsOperator(c: char) {
    c == ';' || c == '|' || c == '&' || c == '<' || c == '>' || c == '(' || c == ')' || c == '\n'
  }

  /** Unquoted, these would start an expansion, a comment or another quoting; the reader refuses them. */
  predicate IsSpecial(c: char) {
    c == '"' || c == '$' || c == '`' || c == '*' || c == '?' || c == '[' || c == '#' || c == '~'
  }

  /** The characters with a meaning of their own outside quotes, listed. */
  lemma MeaningsListed(c: char)
    ensures IsOperator(c) <==> c in ";|&<>()\n"
    ensures IsSpecial(c) <==> c in "\"$`*?[#~"
  {
  }

  function Flush(word: Option<string>): seq<Token> {
    match word
    case Some(w) => [Word(w)]
    case None => []
  }

  function TextOf(word: Option<string>): string {
    match word
    case Some(w) => w
    case None => []
  }

  function Prepend(head: seq<Token>, tail: Option<seq<Token>>): Option<seq<Token>> {
    match tail
    case Some(t) => Some(head + t)
    case None => None
  }

  /** Reads unquoted text; `word` is the word begun, if any. */
  function Lex(s: string, word: Option<string>): Option<seq<Token>>
    decreases |s|
  {
    if s == [] then Some(Flush(word))
    else if s[0] == '\'' then Quoted(s[1..], TextOf(word))
    else if s[0] == '\\' then
      if |s| == 1 then None
      else if s[1] == '\n' then Lex(s[2..], word)
      else Lex(s[2..], Some(TextOf(word) + [s[1]]))
    else if IsBlankChar(s[0]) then Prepend(Flush(word), Lex(s[1..], None))
    else if IsOperator(s[0]) then Prepend(Flush(word) + [Operator(s[0])], Lex(s[1..], None))
    else if IsSpecial(s[0]) then None
    else Lex(s[1..], Some(TextOf(word) + [s[0]]))
  }

  /** Reads single-quoted text up to the closing quote: every other character is itself. */
  function Quoted(s: string, word: string): Option<seq<Token>>
    decreases |s|
  {
    if s == [] then None
    else if s[0] == '\'' then Lex(s[1..], Some(word))
    else Quoted(s[1..], word + [s[0]])
  }

  /** Each `'` becomes `'\''`. */
  function Escape(s: string): string {
    if s == [] then []
    else (if s[0] == '\'' then ['\'', '\\', '\'', '\''] else [s[0]]) + Escape(s[1..])
  }

  function ShellQuote(s: string): string {
    ['\''] + Escape(s) + ['\'']
  }

  /** Inside quotes, `'\''` adds one quote to the word and stays inside quotes. */
  lemma EscapedQuote(tail: string, word: string)
    ensures Quoted(['\'', '\\', '\'', '\''] + tail, word) == Quoted(tail, word + ['\''])
  {
    assert (['\'', '\\', '\'', '\''] + tail)[1..] == ['\\', '\'', '\''] + tail;
    assert (['\\', '\'', '\''] + tail)[2..] == ['\''] + tail;
    assert (['\''] + tail)[1..] == tail;
    assert Lex(['\''] + tail, Some(word + ['\''])) == Quoted(tail, word + ['\'']);
  }

  lemma {:induction false} QuotedReadsBack(s: string, word: string, rest: string)
    ensures Quoted(Escape(s) + ['\''] + rest, word) == Lex(rest, Some(word + s))
  {
    if s == [] {
      assert Escape(s) + ['\''] + rest == ['\''] + rest;
      assert (['\''] + rest)[1..] == rest && word + s == word;
    } else {
      var tail := Escape(s[1..]) + ['\''] + rest;
      assert word + [s[0]] + s[1..] == word + s;
      QuotedReadsBack(s[1..], word + [s[0]], rest);
      if s[0] == '\'' {
        assert Escape(s) + ['\''] + rest == ['\'', '\\', '\'', '\''] + tail;
        EscapedQuote(tail, word);
      } else {
        assert Escape(s) + ['\''] + rest == [s[0]] + tail;
        assert ([s[0]] + tail)[1..] == tail;
      }
    }
  }

  /** A quoted string is read back as itself, whatever it contains and whatever follows. */
  lemma QuoteReadsBack(s: string, word: Option<string>, rest: string)
    ensures Lex(ShellQuote(s) + rest, word) == Lex(rest, Some(TextOf(word) + s))
  {
    var text := ShellQuote(s) + rest;
    assert text[1..] == Escape(s) + ['\''] + rest;
    QuotedReadsBack(s, TextOf(word), rest);
  }

  /** The words of a `for … in` list, separated by single spaces. */
  function JoinQuoted(items: seq<string>): string {
    if items == [] then []
    else if |items| == 1 then ShellQuote(items[0])
    else ShellQuote(items[0]) + [' '] + JoinQuoted(items[1..])
  }

  function Words(items: seq<string>): seq<Token> {
    seq(|items|, i requires 0 <= i < |items| => Word(items[i]))
  }

  lemma WordsCons(items: seq<string>)
    requires items != []
    ensures Words(items) == [Word(items[0])] + Words(items[1..])
  {
  }

  /** One quoted item and a space are read as one word. */
  lemma ItemReadsBack(item: string, more: string)
    ensures Lex(ShellQuote(item) + ([' '] + more), None) == Prepend([Word(item)], Lex(more, None))
  {
    QuoteReadsBack(item, None, [' '] + more);
    assert ([' '] + more)[1..] == more && [] + item == item;
  }

  lemma LastReadsBack(item: string, rest: string)
    ensures Lex(ShellQuote(item) + ([';'] + rest), None) == Prepend([Word(item), Operator(';')], Lex(rest, None))
  {
    QuoteReadsBack(item, None, [';'] + rest);
    assert ([';'] + rest)[1..] == rest && [] + item == item;
    assert Flush(Some(item)) + [Operator(';')] == [Word(item), Operator(';')];
  }

  lemma FirstReadsBack(items: seq<string>, end: string, tokens: seq<Token>, tail: Option<seq<Token>>)
    requires |items| > 1 && Lex(JoinQuoted(items[1..]) + end, None) == Prepend(tokens, tail)
    ensures Lex(JoinQuoted(items) + end, None) == Prepend([Word(items[0])] + tokens, tail)
  {
    var more := JoinQuoted(items[1..]) + end;
    assert JoinQuoted(items) + end == ShellQuote(items[0]) + ([' '] + more);
    ItemReadsBack(items[0], more);
    PrependTwice([Word(items[0])], tokens, tail);
  }

  /** The list is read back as exactly its items, up to the `;` that ends it. */
  lemma {:induction false} ListReadsBack(items: seq<string>, rest: string)
    ensures Lex(JoinQuoted(items) + ([';'] + rest), None) == Prepend(Words(items) + [Operator(';')], Lex(rest, None))
  {
    var end := [';'] + rest;
    assert end[1..] == rest;
    if items == [] {
      assert JoinQuoted(items) + end == end;
      assert Words(items) + [Operator(';')] == [Operator(';')];
    } else if |items| == 1 {
      LastReadsBack(items[0], rest);
      assert Words(items) + [Operator(';')] == [Word(items[0]), Operator(';')];
    } else {
      ListReadsBack(items[1..], rest);
      FirstReadsBack(items, end, Words(items[1..]) + [Operator(';')], Lex(rest, None));
      WordsCons(items);
      assert Words(items) + [Operator(';')] == [Word(items[0])] + (Words(items[1..]) + [Operator(';')]);
    }
  }

  lemma PrependTwice(a: seq<Token>, b: seq<Token>, t: Option<seq<Token>>)
    ensures Prepend(a, Prepend(b, t)) == Prepend(a + b, t)
  {
    if t.Some? {
      assert a + (b + t.value) == a + b + t.value;
    }
  }

  // ------------------------------------------------------------------ one spec: `path|branch`

  /** `safe_branch`; every accepted character is one byte, so lengths in bytes and characters agree. */
  function SafeBranch(raw: string): (r: Option<string>)
    ensures r.Some? ==> forall i :: 0 <= i < |r.value| ==> BranchChar(r.value[i])
  {
    var b := Trim(raw);
    if Acceptable(b) then Some(b) else None
  }

  predicate Acceptable(b: string) {
    b != [] && |b| <= 200 && b[0] != '-' && b[0] != '/' && b[|b| - 1] != '/'
    && !HasDoubleDot(b) && !EndsWith(b, ".lock") && forall i :: 0 <= i < |b| ==> BranchChar(b[i])
  }

  predicate BranchChar(c: char) {
    IsAlnum(c) || c == '-' || c == '_' || c == '.' || c == '/'
  }

  predicate HasDoubleDot(s: string) {
    exists i :: 0 <= i < |s| - 1 && s[i] == '.' && s[i + 1] == '.'
  }

  predicate EndsWith(s: string, suffix: string) {
    |suffix| <= |s| && s[|s| - |suffix|..] == suffix
  }

  /** What may be a branch: neither too long nor empty, plain characters, and none of the forms that git or a path would misread. */
  ghost predicate BranchOk(b: string) {
    && 1 <= |b| <= 200
    && (forall i :: 0 <= i < |b| ==> IsAlnum(b[i]) || b[i] in "-_./")
    && b[0] !in "-/" && b[|b| - 1] != '/'
    && !Contains(b, "..") && !Ends(b, ".lock")
  }

  ghost predicate Contains(b: string, part: string) {
    exists x, y :: b == x + part + y
  }

  ghost predicate Ends(b: string, part: string) {
    exists x :: b == x + part
  }

  lemma DoubleDotWithin(b: string)
    ensures HasDoubleDot(b) <==> Contains(b, "..")
  {
    if i :| 0 <= i < |b| - 1 && b[i] == '.' && b[i + 1] == '.' {
      assert b == b[..i] + ".." + b[i + 2..];
    }
    if x, y :| b == x + ".." + y {
      assert b[|x|] == '.' && b[|x| + 1] == '.';
    }
  }

  lemma SuffixAtEnd(b: string, suffix: string)
    ensures EndsWith(b, suffix) <==> Ends(b, suffix)
  {
    if EndsWith(b, suffix) {
      assert b == b[..|b| - |suffix|] + suffix;
    }
    if x :| b == x + suffix {
      assert b[|b| - |suffix|..] == suffix;
    }
  }

  /** With whatever spaces around it, a branch is accepted, as it is, exactly when it may be one. */
  lemma SafeBranchIff(left: string, b: string, right: string)
    requires AllSpaces(left) && AllSpaces(right) && Bare(b)
    ensures SafeBranch(left + b + right) == if BranchOk(b) then Some(b) else None
  {
    TrimIs(left, b, right);
    AcceptableIff(b);
  }

  lemma AcceptableIff(b: string)
    ensures Acceptable(b) <==> BranchOk(b)
  {
    DoubleDotWithin(b);
    SuffixAtEnd(b, ".lock");
    AllCharsListed(b);
    if b != [] {
      EndsListed(b[0]);
    }
  }

  lemma AllCharsListed(b: string)
    ensures (forall i :: 0 <= i < |b| ==> BranchChar(b[i])) <==> (forall i :: 0 <= i < |b| ==> IsAlnum(b[i]) || b[i] in "-_./")
  {
    forall i | 0 <= i < |b|
      ensures BranchChar(b[i]) <==> IsAlnum(b[i]) || b[i] in "-_./"
    {
      BranchCharListed(b[i]);
    }
  }

  lemma EndsListed(c: char)
    ensures c !in "-/" <==> c != '-' && c != '/'
  {
  }

  lemma BranchCharListed(c: char)
    ensures BranchChar(c) <==> IsAlnum(c) || c in "-_./"
  {
  }

  function BranchOrEmpty(raw: string): string {
    match SafeBranch(raw)
    case Some(b) => b
    case None => []
  }

  function Spec(path: string, branch: string): string {
    path + ['|'] + BranchOrEmpty(branch)
  }

  /** A suffix matches the pattern `|*`; a prefix matches `*|`. */
  predicate BarSuffix(s: string, i: nat) {
    i < |s| && s[i] == '|'
  }

  /** `${s%|*}`: without the smallest suffix that matches. */
  function DropSuffix(s: string, i: nat): string
    requires i <= |s|
    decreases i
  {
    if i == 0 then s
    else if BarSuffix(s, i - 1) then s[..i - 1]
    else DropSuffix(s, i - 1)
  }

  /** `${s##*|}`: without the largest prefix that matches. */
  function DropPrefix(s: string, i: nat): string
    requires i <= |s|
    decreases i
  {
    if i == 0 then s
    else if BarSuffix(s, i - 1) then s[i..]
    else DropPrefix(s, i - 1)
  }

  function SpecPath(s: string): string {
    DropSuffix(s, |s|)
  }

  function SpecBranch(s: string): string {
    DropPrefix(s, |s|)
  }

  lemma {:induction false} SplitAtLastBar(head: string, tail: string, i: nat)
    requires |head| < i <= |head| + 1 + |tail|
    requires forall k :: 0 <= k < |tail| ==> tail[k] != '|'
    ensures DropSuffix(head + ['|'] + tail, i) == head
    ensures DropPrefix(head + ['|'] + tail, i) == tail
    decreases i
  {
    var s := head + ['|'] + tail;
    if i > |head| + 1 {
      assert s[i - 1] == tail[i - 2 - |head|];
      SplitAtLastBar(head, tail, i - 1);
    } else {
      assert s[..|head|] == head && s[|head| + 1..] == tail;
    }
  }

  /** A spec is split back into its path and its sanitised branch, even when the path contains bars. */
  lemma SpecSplitsBack(path: string, branch: string)
    ensures SpecPath(Spec(path, branch)) == path
    ensures SpecBranch(Spec(path, branch)) == (match SafeBranch(branch) case Some(b) => b case None => "")
  {
    SplitAtLastBar(path, BranchOrEmpty(branch), |Spec(path, branch)|);
  }

  function Specs(projects: seq<(string, string)>): seq<string> {
    seq(|projects|, i requires 0 <= i < |projects| => Spec(projects[i].0, projects[i].1))
  }

  /** What the start script writes after `for spec in`: an empty list becomes one empty word. */
  function SpecList(specs: seq<string>): string {
    if specs == [] then ShellQuote([]) else JoinQuoted(specs)
  }

  /**
   The `for spec in …; do` line of the start script: the shell sees one word per project, and each
   word splits back into that project's path and its sanitised branch. Without projects it sees one
   empty path, which the loop body skips.
   */
  lemma StartScriptReadsBack(projects: seq<(string, string)>, rest: string)
    ensures
      var seen := if projects == [] then [[]] else Specs(projects);
      Lex(SpecList(Specs(projects)) + ([';'] + rest), None) == Prepend(Words(seen) + [Operator(';')], Lex(rest, None))
    ensures forall i :: 0 <= i < |projects| ==>
              && SpecPath(Specs(projects)[i]) == projects[i].0
              && SpecBranch(Specs(projects)[i]) == (match SafeBranch(projects[i].1) case Some(b) => b case None => "")
    ensures SpecPath([]) == []
  {
    if projects == [] {
      ListReadsBack([[]], rest);
    } else {
      ListReadsBack(Specs(projects), rest);
    }
    forall i | 0 <= i < |projects|
      ensures SpecPath(Specs(projects)[i]) == projects[i].0
      ensures SpecBranch(Specs(projects)[i]) == BranchOrEmpty(projects[i].1)
    {
      SpecSplitsBack(projects[i].0, projects[i].1);
    }
  }

  /** A word of plain characters is read as itself. */
  lemma {:induction false} PlainReadsBack(w: string, word: Option<string>, rest: string)
    requires w != [] && forall i :: 0 <= i < |w| ==> PlainChar(w[i])
    ensures Lex(w + rest, word) == Lex(rest, Some(TextOf(word) + w))
  {
    assert (w + rest)[1..] == w[1..] + rest;
    if |w| == 1 {
      assert w[1..] + rest == rest && w == [w[0]];
    } else {
      PlainReadsBack(w[1..], Some(TextOf(word) + [w[0]]), rest);
      assert TextOf(word) + [w[0]] + w[1..] == TextOf(word) + w;
    }
  }

  predicate PlainChar(c: char) {
    c != '\'' && c != '\\' && !IsBlankChar(c) && !IsOperator(c) && !IsSpecial(c)
  }

  /** What survives sanitising is left alone by it: a branch read back and sanitised again is the same. */
  lemma SafeBranchStable(raw: string)
    ensures SafeBranch(raw).Some? ==> SafeBranch(SafeBranch(raw).value) == SafeBranch(raw)
  {
  }
}
