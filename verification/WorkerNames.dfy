/** Names of the machines a node serves: a slug per repository, made distinct by a numeric suffix. */
module WorkerNames {
  import opened Text

  const MAX_SLUG := 48

  // ------------------------------------------------------------------------------------ slugs

  /** What the scan appends for `s`: alphanumerics in lower case, one dash for each run of anything else. */
  function Scan(s: string, started: bool, dash: bool): string {
    if s == [] then []
    else if IsAlnum(s[0]) then [LowerChar(s[0])] + Scan(s[1..], true, false)
    else if started && !dash then ['-'] + Scan(s[1..], true, true)
    else Scan(s[1..], started, dash)
  }

  function TrimDashes(s: string): (r: string)
    ensures r <= s
    ensures r != [] ==> r[|r| - 1] != '-'
  {
    if s != [] && s[|s| - 1] == '-' then TrimDashes(s[..|s| - 1]) else s
  }

  function Take(s: string, n: nat): string {
    if |s| <= n then s else s[..n]
  }

  /** What the scan keeps, before the cut at 48 characters. */
  function Uncut(raw: string): string {
    TrimDashes(Scan(Trim(raw), false, false))
  }

  function Slug(raw: string): string {
    Take(Uncut(raw), MAX_SLUG)
  }

  lemma {:induction false} ScanAppend(s: string, c: char, started: bool, dash: bool)
    ensures Scan(s + [c], started, dash) ==
            var out := Scan(s, started, dash);
            var begun := started || out != [];
            var dashed := if out == [] then dash else out[|out| - 1] == '-';
            out + if IsAlnum(c) then [LowerChar(c)] else if begun && !dashed then ['-'] else []
  {
    if s == [] {
      assert s + [c] == [c];
    } else {
      assert (s + [c])[0] == s[0] && (s + [c])[1..] == s[1..] + [c];
      if IsAlnum(s[0]) {
        ScanAppend(s[1..], c, true, false);
      } else if started && !dash {
        ScanAppend(s[1..], c, true, true);
      } else {
        ScanAppend(s[1..], c, started, dash);
      }
    }
  }

  /** The loop of `slug_name`. */
  method SlugName(raw: string) returns (r: string)
    ensures r == Slug(raw)
  {
    var s := Trim(raw);
    var out: string := [];
    var dash := false;
    for i := 0 to |s|
      invariant out == Scan(s[..i], false, false)
      invariant dash <==> out != [] && out[|out| - 1] == '-'
    {
      assert s[..i + 1] == s[..i] + [s[i]];
      ScanAppend(s[..i], s[i], false, false);
      if IsAlnum(s[i]) {
        out := out + [LowerChar(s[i])];
        dash := false;
      } else if out != [] && !dash {
        out := out + ['-'];
        dash := true;
      }
    }
    assert s[..|s|] == s;
    r := Take(TrimDashes(out), MAX_SLUG);
  }

  /** Lower-case letters, digits and single inner dashes. */
  predicate SlugShape(s: string) {
    && (forall i :: 0 <= i < |s| ==> IsLowerOrDigit(s[i]) || s[i] == '-')
    && (s != [] ==> s[0] != '-')
    && (forall i :: 0 <= i < |s| - 1 ==> !(s[i] == '-' && s[i + 1] == '-'))
  }

  lemma {:induction false} ScanShape(s: string, started: bool, dash: bool)
    ensures forall i :: 0 <= i < |Scan(s, started, dash)| ==> IsLowerOrDigit(Scan(s, started, dash)[i]) || Scan(s, started, dash)[i] == '-'
    ensures Scan(s, started, dash) != [] && (!started || dash) ==> Scan(s, started, dash)[0] != '-'
    ensures forall i :: 0 <= i < |Scan(s, started, dash)| - 1 ==>
              !(Scan(s, started, dash)[i] == '-' && Scan(s, started, dash)[i + 1] == '-')
  {
    if s != [] {
      if IsAlnum(s[0]) {
        ScanShape(s[1..], true, false);
      } else if started && !dash {
        ScanShape(s[1..], true, true);
      } else {
        ScanShape(s[1..], started, dash);
      }
    }
  }

  /** Every slug is made of lower-case letters, digits and single inner dashes, 48 characters at most. */
  lemma SlugIsShaped(raw: string)
    ensures SlugShape(Slug(raw)) && |Slug(raw)| <= 48
  {
    ScanShape(Trim(raw), false, false);
  }

  lemma {:induction false} ScanFixed(s: string, started: bool, dash: bool)
    requires forall i :: 0 <= i < |s| ==> IsLowerOrDigit(s[i]) || s[i] == '-'
    requires forall i :: 0 <= i < |s| - 1 ==> !(s[i] == '-' && s[i + 1] == '-')
    requires s != [] && s[0] == '-' ==> started && !dash
    ensures Scan(s, started, dash) == s
  {
    if s != [] {
      if IsAlnum(s[0]) {
        ScanFixed(s[1..], true, false);
      } else {
        assert |s| > 1 ==> s[0] == '-' && s[1] != '-';
        ScanFixed(s[1..], true, true);
      }
      assert [s[0]] + s[1..] == s;
    }
  }

  // ------------------------------------------------------------- a slug is the words between dashes

  function Ended(word: string): seq<string> {
    if word == [] then [] else [word]
  }

  /** The words of a text in lower case: letters and digits that stand together; `word` is the one begun. */
  function Words(s: string, word: string): seq<string> {
    if s == [] then Ended(word)
    else if IsAlnum(s[0]) then Words(s[1..], word + [LowerChar(s[0])])
    else Ended(word) + Words(s[1..], [])
  }

  function Dashed(words: seq<string>): string {
    if words == [] then [] else if |words| == 1 then words[0] else words[0] + "-" + Dashed(words[1..])
  }

  lemma {:induction false} DashedEmpty(s: string, word: string)
    ensures Dashed(Words(s, word)) == [] <==> Words(s, word) == []
    ensures Words(s, word) != [] ==> Words(s, word)[0] != []
  {
    if s != [] {
      DashedEmpty(s[1..], word + [LowerChar(s[0])]);
      DashedEmpty(s[1..], []);
    }
  }

  lemma TrimLast(s: string, c: char)
    ensures TrimDashes(s + [c]) == if c == '-' then TrimDashes(s) else s + [c]
  {
    assert (s + [c])[..|s|] == s;
  }

  lemma TrimNothing(s: string)
    requires s != [] && s[|s| - 1] != '-'
    ensures TrimDashes(s) == s
  {
  }

  lemma {:induction false} TrimAfterDash(word: string, s: string)
    requires word != [] && word[|word| - 1] != '-'
    ensures TrimDashes(word + "-" + s) == if TrimDashes(s) == [] then word else word + "-" + TrimDashes(s)
  {
    if s == [] {
      TrimNothing(word);
      TrimLast(word, '-');
      assert word + "-" + s == word + ['-'];
    } else {
      var front, c := s[..|s| - 1], s[|s| - 1];
      assert s == front + [c] && word + "-" + s == (word + "-" + front) + [c];
      TrimLast(front, c);
      TrimLast(word + "-" + front, c);
      if c == '-' {
        TrimAfterDash(word, front);
      }
    }
  }

  lemma DashedCons(word: string, words: seq<string>)
    ensures Dashed([word] + words) == if words == [] then word else word + "-" + Dashed(words)
  {
    assert ([word] + words)[1..] == words;
  }

  lemma WordEnds(word: string, rest: string, words: seq<string>)
    requires word != [] && word[|word| - 1] != '-'
    requires TrimDashes(rest) == Dashed(words) && (Dashed(words) == [] <==> words == [])
    ensures TrimDashes(word + (['-'] + rest)) == Dashed([word] + words)
  {
    assert word + (['-'] + rest) == word + "-" + rest;
    TrimAfterDash(word, rest);
    DashedCons(word, words);
  }

  /** What follows `word` in the scan, trimmed, are the words of the rest. */
  predicate ScansTo(s: string, word: string, started: bool, dash: bool) {
    TrimDashes(word + Scan(s, started, dash)) == Dashed(Words(s, word))
  }

  lemma LetterScans(s: string, word: string, started: bool, dash: bool)
    requires s != [] && IsAlnum(s[0]) && ScansTo(s[1..], word + [LowerChar(s[0])], true, false)
    ensures ScansTo(s, word, started, dash)
  {
    var c, rest := LowerChar(s[0]), Scan(s[1..], true, false);
    assert word + ([c] + rest) == word + [c] + rest;
  }

  lemma GapScans(s: string, started: bool, dash: bool)
    requires s != [] && !IsAlnum(s[0]) && (!started || dash) && ScansTo(s[1..], [], started, dash)
    ensures ScansTo(s, [], started, dash)
  {
    assert Ended([]) + Words(s[1..], []) == Words(s[1..], []);
  }

  lemma WordScans(s: string, word: string)
    requires s != [] && !IsAlnum(s[0]) && word != [] && word[|word| - 1] != '-' && ScansTo(s[1..], [], true, true)
    ensures ScansTo(s, word, true, false)
  {
    var rest := Scan(s[1..], true, true);
    assert [] + rest == rest;
    DashedEmpty(s[1..], []);
    WordEnds(word, rest, Words(s[1..], []));
  }

  lemma {:induction false} ScanIsWords(s: string, word: string, started: bool, dash: bool)
    requires word == [] ==> !started || dash
    requires word != [] ==> started && !dash && word[|word| - 1] != '-'
    ensures ScansTo(s, word, started, dash)
    decreases |s|
  {
    if s == [] {
      assert word + [] == word;
      if word != [] {
        TrimNothing(word);
      }
    } else if IsAlnum(s[0]) {
      ScanIsWords(s[1..], word + [LowerChar(s[0])], true, false);
      LetterScans(s, word, started, dash);
    } else if word == [] {
      ScanIsWords(s[1..], [], started, dash);
      GapScans(s, started, dash);
    } else {
      ScanIsWords(s[1..], [], true, true);
      WordScans(s, word);
    }
  }

  lemma {:induction false} WordsTrimEnd(s: string, word: string)
    ensures Words(TrimEnd(s), word) == Words(s, word)
  {
    if s != [] && IsSpace(s[|s| - 1]) {
      WordsTrimEnd(s[..|s| - 1], word);
      WordsSpace(s[..|s| - 1], s[|s| - 1], word);
      assert s == s[..|s| - 1] + [s[|s| - 1]];
    }
  }

  lemma {:induction false} WordsSpace(s: string, c: char, word: string)
    requires IsSpace(c)
    ensures Words(s + [c], word) == Words(s, word)
  {
    if s == [] {
      assert s + [c] == [c] && [c][1..] == [];
      assert Ended(word) + Words([], []) == Ended(word);
    } else {
      assert (s + [c])[0] == s[0] && (s + [c])[1..] == s[1..] + [c];
      WordsSpace(s[1..], c, word + [LowerChar(s[0])]);
      WordsSpace(s[1..], c, []);
    }
  }

  lemma {:induction false} WordsTrimStart(s: string)
    ensures Words(TrimStart(s), []) == Words(s, [])
  {
    if s != [] && IsSpace(s[0]) {
      WordsTrimStart(s[1..]);
    }
  }

  /** A slug is the text's words with a dash between them, cut at 48 characters. */
  lemma SlugIsDashedWords(raw: string)
    ensures
      var text := Dashed(Words(raw, []));
      Slug(raw) == if |text| <= 48 then text else text[..48]
  {
    var s := Trim(raw);
    ScanIsWords(s, [], false, false);
    assert [] + Scan(s, false, false) == Scan(s, false, false);
    WordsTrimEnd(TrimStart(raw), []);
    WordsTrimStart(raw);
  }

  lemma ShapedTrims(s: string)
    requires SlugShape(s) && (s != [] ==> s[|s| - 1] != '-')
    ensures Trim(s) == s && Uncut(s) == s
  {
    if s != [] {
      assert !IsSpace(s[0]) && !IsSpace(s[|s| - 1]);
      TrimStartFixed(s);
    }
    ScanFixed(s, false, false);
  }

  /** Slugging a slug again changes it exactly when the cut falls right after a dash. */
  lemma SlugStable(raw: string)
    ensures Slug(Slug(raw)) == Slug(raw) <==> !(|Uncut(raw)| > 48 && Uncut(raw)[47] == '-')
  {
    var s := Slug(raw);
    SlugIsShaped(raw);
    if s == [] || s[|s| - 1] != '-' {
      ShapedTrims(s);
    } else {
      SlugIsShaped(s);
      TrimStartFixed(s);
      assert !IsSpace('-') && Trim(s) == s;
      ScanFixed(s, false, false);
    }
  }

  /** For example 47 letters, a dash and another letter: the slug ends in the dash, its own slug does not. */
  lemma SlugUnstable(letters: string)
    requires |letters| == 47 && forall i :: 0 <= i < |letters| ==> 'a' <= letters[i] <= 'z'
    ensures Slug(letters + "-b") == letters + "-" && Slug(letters + "-") == letters
  {
    var raw, s := letters + "-b", letters + "-";
    ShapedTrims(raw);
    assert raw[..MAX_SLUG] == s;
    TrimStartFixed(s);
    assert !IsSpace('-') && Trim(s) == s;
    ScanFixed(s, false, false);
    assert s[..|s| - 1] == letters && TrimDashes(letters) == letters;
  }

  // ------------------------------------------------------------------------------------ names

  function Numbered(name: string, n: nat): string {
    name + "-" + Decimal(n)
  }

  /** The name, a dash, and digits that stand for the number. */
  lemma NumberedReads(name: string, n: nat)
    ensures
      var c, k := Numbered(name, n), |name|;
      |c| > k + 1 && c[..k] == name && c[k] == '-' && Number(c[k + 1..]) == n && (c[k + 1] == '0' <==> n == 0)
  {
    DecimalReadsBack(n);
    assert Numbered(name, n)[|name| + 1..] == Decimal(n);
  }

  /** The name a label asks for, before it is made distinct. */
  function Wanted(base: string, repo: string): (r: string)
    ensures r != []
  {
    var slug := Slug(if base == [] then repo else base + "-" + repo);
    if slug == [] then "repo" else slug
  }

  /** `c` is `name` if that is free, else the first free of `name-2`, `name-3`, …, within `|seen|` tries. */
  predicate FirstFree(seen: seq<string>, name: string, c: string) {
    && c !in seen
    && (c == name
        || (name in seen && exists n :: 2 <= n <= |seen| + 1 && c == Numbered(name, n)
                                        && forall m :: 2 <= m < n ==> Numbered(name, m) in seen))
  }

  lemma NumberedDistinct(name: string, m: nat, n: nat)
    requires m != n
    ensures Numbered(name, m) != Numbered(name, n) && Numbered(name, n) != name
  {
    if Numbered(name, m) == Numbered(name, n) {
      assert Numbered(name, m)[|name| + 1..] == Decimal(m);
      assert Numbered(name, n)[|name| + 1..] == Decimal(n);
      DecimalInjective(m, n);
    }
  }

  lemma {:induction false} AtMostLength(names: set<string>, seen: seq<string>)
    requires forall x :: x in names ==> x in seen
    ensures |names| <= |seen|
  {
    if seen == [] {
      assert names == {};
    } else {
      var rest := names - {seen[0]};
      assert forall x :: x in rest ==> x in seen[1..];
      AtMostLength(rest, seen[1..]);
      assert names <= rest + {seen[0]};
    }
  }

  /** The search ends: each failed try is another member of `seen`, and there are at most `|seen|` of those. */
  method FreeName(seen: seq<string>, name: string) returns (c: string)
    ensures FirstFree(seen, name, c)
  {
    c := name;
    var n := 2;
    ghost var tried: set<string> := {};
    while c in seen
      invariant n >= 2 && |tried| == n - 2
      invariant c == if n == 2 then name else Numbered(name, n - 1)
      invariant forall x :: x in tried ==> x in seen
      invariant forall x :: x in tried <==> (n > 2 && x == name) || exists m :: 2 <= m < n - 1 && x == Numbered(name, m)
      invariant n > 2 ==> name in seen
      invariant n - 2 <= |seen|
      decreases |seen| + 2 - n
    {
      if c in tried {
        if n > 2 {
          NumberedDistinct(name, 0, n - 1);
          var m :| 2 <= m < n - 1 && c == Numbered(name, m);
          NumberedDistinct(name, m, n - 1);
        }
        assert false;
      }
      tried := tried + {c};
      AtMostLength(tried, seen);
      c := Numbered(name, n);
      n := n + 1;
    }
    if n > 2 {
      assert forall m :: 2 <= m < n - 1 ==> Numbered(name, m) in tried;
    }
  }

  /** The names given so far: nonempty, pairwise distinct, each the first free one at its turn. */
  predicate NamesOk(base: string, labels: seq<string>, names: seq<string>) {
    && |names| <= |labels|
    && (forall i :: 0 <= i < |names| ==> names[i] != [])
    && (forall i, j :: 0 <= i < j < |names| ==> names[i] != names[j])
    && (forall i :: 0 <= i < |names| ==> FirstFree(names[..i], Wanted(base, labels[i]), names[i]))
  }

  lemma NamesAppend(base: string, labels: seq<string>, names: seq<string>, c: string)
    requires NamesOk(base, labels, names) && |names| < |labels|
    requires FirstFree(names, Wanted(base, labels[|names|]), c) && c != []
    ensures NamesOk(base, labels, names + [c])
  {
    var next := names + [c];
    forall i | 0 <= i < |next|
      ensures FirstFree(next[..i], Wanted(base, labels[i]), next[i])
    {
      assert next[..i] == names[..i];
      assert names[..|names|] == names;
    }
  }

  /** One name per label, each the first free one in order. */
  method RepoWorkerNamesFrom(rawBase: string, labels: seq<string>) returns (names: seq<string>)
    ensures |names| == |labels|
    ensures NamesOk(Slug(rawBase), labels, names)
  {
    var base := SlugName(rawBase);
    names := [];
    for k := 0 to |labels|
      invariant |names| == k
      invariant NamesOk(base, labels, names)
    {
      var name := SlugName(if base == [] then labels[k] else base + "-" + labels[k]);
      if name == [] {
        name := "repo";
      }
      var candidate := FreeName(names, name);
      assert candidate != [];
      NamesAppend(base, labels, names, candidate);
      names := names + [candidate];
    }
  }
}
