/** Splitting a line on blanks, on values: what the in-place tokenizer of
    init/command.c is measured against. */
module Text {

  predicate Blank(c: char) {
    c == ' ' || c == '\t'
  }

  /** How many blanks `s` starts with. */
  function BlankRun(s: string): (k: nat)
    ensures k <= |s|
    ensures k < |s| ==> !Blank(s[k])
  {
    if s == [] || !Blank(s[0]) then 0 else 1 + BlankRun(s[1..])
  }

  lemma {:induction false} BlankRunBlank(s: string)
    ensures AllBlank(s[..BlankRun(s)])
  {
    if BlankRun(s) > 0 {
      BlankRunBlank(s[1..]);
      assert s[..BlankRun(s)] == [s[0]] + s[1..][..BlankRun(s[1..])];
    }
  }

  /** How many non-blanks `s` starts with. */
  function WordRun(s: string): (k: nat)
    ensures k <= |s|
    ensures k < |s| ==> Blank(s[k])
    ensures k > 0 <==> s != [] && !Blank(s[0])
  {
    if s == [] || Blank(s[0]) then 0 else 1 + WordRun(s[1..])
  }

  lemma {:induction false} WordRunSolid(s: string)
    ensures forall i :: 0 <= i < WordRun(s) ==> !Blank(s[i])
  {
    if WordRun(s) > 0 {
      WordRunSolid(s[1..]);
      assert forall i :: 0 < i < WordRun(s) ==> s[i] == s[1..][i - 1];
    }
  }

  /** The words of a line: its maximal runs of non-blanks, in order. */
  function Split(s: string): seq<string>
    decreases |s|, 1
  {
    SplitFromWord(s[BlankRun(s)..])
  }

  function SplitFromWord(t: string): seq<string>
    requires t == [] || !Blank(t[0])
    decreases |t|, 0
  {
    if t == [] then [] else [t[..WordRun(t)]] + Split(t[WordRun(t)..])
  }

  /** The text after the first word and the one blank that ends it. */
  function AfterWord(s: string): (r: string)
    ensures |r| <= |s| && (s != [] ==> |r| < |s|)
  {
    var t := s[BlankRun(s)..];
    var k := WordRun(t);
    if k == |t| then [] else t[k + 1..]
  }

  /** The words of a text whose first word starts at once, empty or not. */
  function Words(s: string): (ws: seq<string>)
    ensures |ws| >= 1
  {
    [s[..WordRun(s)]] + Split(s[WordRun(s)..])
  }

  // ---- Split is the only way to take a line apart ---------------------------

  function Join(gaps: seq<string>, words: seq<string>): string
    requires |gaps| == |words| + 1
  {
    if words == [] then gaps[0] else gaps[0] + words[0] + Join(gaps[1..], words[1..])
  }

  predicate AllBlank(s: string) {
    forall i :: 0 <= i < |s| ==> Blank(s[i])
  }

  predicate NoBlank(s: string) {
    s != [] && forall i :: 0 <= i < |s| ==> !Blank(s[i])
  }

  /** Non-empty blank-free words, separated by gaps of blanks of which only the
      first and the last may be empty. */
  predicate Alternate(gaps: seq<string>, words: seq<string>) {
    && |gaps| == |words| + 1
    && (forall i :: 0 <= i < |gaps| ==> AllBlank(gaps[i]) && (0 < i < |words| ==> gaps[i] != []))
    && (forall i :: 0 <= i < |words| ==> NoBlank(words[i]))
  }

  lemma RunsOfConcat(gap: string, word: string, rest: string)
    requires AllBlank(gap) && NoBlank(word) && (rest != [] ==> Blank(rest[0]))
    ensures BlankRun(gap + word + rest) == |gap|
    ensures WordRun(word + rest) == |word|
  {
    var s := gap + word + rest;
    assert forall i :: 0 <= i < |gap| ==> s[i] == gap[i];
    assert s[|gap|] == word[0];
    BlankRunIs(s, |gap|);
    assert forall i :: 0 <= i < |word| ==> (word + rest)[i] == word[i];
    WordRunIs(word + rest, |word|);
  }

  lemma BlankRunIs(s: string, k: nat)
    requires k <= |s| && (forall i :: 0 <= i < k ==> Blank(s[i])) && (k < |s| ==> !Blank(s[k]))
    ensures BlankRun(s) == k
  {
    if k > 0 {
      BlankRunIs(s[1..], k - 1);
    }
  }

  lemma WordRunIs(s: string, k: nat)
    requires k <= |s| && (forall i :: 0 <= i < k ==> !Blank(s[i])) && (k < |s| ==> Blank(s[k]))
    ensures WordRun(s) == k
  {
    if k > 0 {
      WordRunIs(s[1..], k - 1);
    }
  }

  lemma SplitOfConcat(gap: string, word: string, rest: string)
    requires AllBlank(gap) && NoBlank(word) && (rest != [] ==> Blank(rest[0]))
    ensures Split(gap + word + rest) == [word] + Split(rest)
  {
    var s := gap + word + rest;
    RunsOfConcat(gap, word, rest);
    assert s[|gap|..] == word + rest;
    assert (word + rest)[..|word|] == word;
    assert (word + rest)[|word|..] == rest;
  }

  lemma AlternateTail(gaps: seq<string>, words: seq<string>)
    requires Alternate(gaps, words) && words != []
    ensures Alternate(gaps[1..], words[1..]) && AllBlank(gaps[0]) && NoBlank(words[0])
    ensures |words| > 1 ==> gaps[1..][0] != []
  {
    assert forall i :: 0 <= i < |gaps| - 1 ==> gaps[1..][i] == gaps[i + 1];
  }

  lemma AlternateCons(gap: string, word: string, gaps: seq<string>, words: seq<string>)
    requires Alternate(gaps, words) && AllBlank(gap) && NoBlank(word)
    requires words != [] ==> gaps[0] != []
    ensures Alternate([gap] + gaps, [word] + words)
  {
  }

  /** A line without spaces and tabs is one word, or none. */
  lemma SplitWord(a: string)
    requires ' ' !in a && '\t' !in a
    ensures Split(a) == if a == "" then [] else [a]
  {
    SplitNothing();
    if a != "" {
      SplitOfConcat("", a, "");
      assert "" + a + "" == a;
    }
  }

  /** A line is cut at each space and at each tab: with SplitWord this determines
      the words of every line. */
  lemma SplitAt(a: string, c: char, b: string)
    requires ' ' !in a && '\t' !in a && (c == ' ' || c == '\t')
    ensures Split(a + [c] + b) == (if a == "" then [] else [a]) + Split(b)
  {
    hide Split;
    SplitDropsOne([c] + b);
    assert ([c] + b)[1..] == b;
    if a == "" {
      assert a + [c] + b == [c] + b;
    } else {
      SplitOfConcat("", a, [c] + b);
      assert "" + a + ([c] + b) == a + [c] + b;
    }
  }

  /** Any way to write a line as words and gaps gives exactly its Split. */
  lemma {:induction false} SplitIsUnique(gaps: seq<string>, words: seq<string>)
    requires Alternate(gaps, words)
    ensures Split(Join(gaps, words)) == words
  {
    if words == [] {
      BlankRunIs(gaps[0], |gaps[0]|);
    } else {
      hide Alternate, Split;
      AlternateTail(gaps, words);
      RestStartsBlank(gaps[1..], words[1..]);
      SplitIsUnique(gaps[1..], words[1..]);
      SplitOfConcat(gaps[0], words[0], Join(gaps[1..], words[1..]));
    }
  }

  lemma RestStartsBlank(gaps: seq<string>, words: seq<string>)
    requires Alternate(gaps, words) && (words != [] ==> gaps[0] != [])
    ensures Join(gaps, words) != [] ==> Blank(Join(gaps, words)[0])
  {
  }

  lemma JoinCons(gap: string, word: string, gaps: seq<string>, words: seq<string>)
    requires |gaps| == |words| + 1
    ensures Join([gap] + gaps, [word] + words) == gap + word + Join(gaps, words)
  {
    assert ([gap] + gaps)[1..] == gaps && ([word] + words)[1..] == words;
  }

  lemma SplitUnfold(s: string)
    requires BlankRun(s) < |s|
    ensures var b := BlankRun(s); var t := s[b..]; var k := WordRun(t);
      && Split(s) == [t[..k]] + Split(t[k..]) && s == s[..b] + t[..k] + t[k..]
      && AllBlank(s[..b]) && NoBlank(t[..k])
      && (t[k..] != [] ==> BlankRun(t[k..]) > 0)
      && |t[k..]| < |s|
  {
    hide BlankRun, WordRun;
    var t := s[BlankRun(s)..];
    BlankRunBlank(s);
    WordRunSolid(t);
    if WordRun(t) < |t| {
      BlankRunPositive(t[WordRun(t)..]);
    }
  }

  /** Every line can be taken apart so: with its Split, the gaps reproduce it. */
  lemma {:induction false} SplitReproduces(s: string) returns (gaps: seq<string>)
    ensures Alternate(gaps, Split(s)) && Join(gaps, Split(s)) == s
    ensures BlankRun(s) > 0 ==> gaps[0] != []
    decreases |s|
  {
    if BlankRun(s) == |s| {
      BlankRunBlank(s);
      assert s[..|s|] == s;
      gaps := [s];
    } else {
      hide Alternate, Join, Split, WordRun;
      SplitUnfold(s);
      var b := BlankRun(s);
      var t := s[b..];
      var word, rest := t[..WordRun(t)], t[WordRun(t)..];
      var more := SplitReproduces(rest);
      AlternateSize(more, Split(rest));
      JoinCons(s[..b], word, more, Split(rest));
      SplitNothing();
      AlternateCons(s[..b], word, more, Split(rest));
      gaps := [s[..b]] + more;
    }
  }

  lemma AlternateSize(gaps: seq<string>, words: seq<string>)
    requires Alternate(gaps, words)
    ensures |gaps| == |words| + 1
  {
  }

  lemma BlankRunPositive(s: string)
    requires s != [] && Blank(s[0])
    ensures BlankRun(s) > 0
  {
  }

  // ---- How Split and its variants relate ------------------------------------

  lemma {:induction false} BlankRunDrop(s: string, k: nat)
    requires k <= BlankRun(s)
    ensures BlankRun(s[k..]) == BlankRun(s) - k
  {
    if k == 0 {
      assert s[0..] == s;
    } else {
      BlankRunDrop(s[1..], k - 1);
      assert s[1..][k - 1..] == s[k..];
    }
  }

  lemma SplitDropsBlanks(s: string, k: nat)
    requires k <= BlankRun(s)
    ensures Split(s[k..]) == Split(s)
  {
    hide BlankRun, WordRun, SplitFromWord;
    BlankRunDrop(s, k);
    assert s[k..][BlankRun(s) - k..] == s[BlankRun(s)..];
  }

  lemma SplitAfterWord(s: string)
    requires BlankRun(s) < |s|
    ensures var t := s[BlankRun(s)..];
      Split(s) == [t[..WordRun(t)]] + Split(AfterWord(s))
  {
    hide BlankRun, WordRun, Split;
    SplitUnfold(s);
    var t := s[BlankRun(s)..];
    var k := WordRun(t);
    if k < |t| {
      BlankRunPositive(t[k..]);
      SplitDropsBlanks(t[k..], 1);
      assert t[k..][1..] == t[k + 1..];
    } else {
      assert t[k..] == [];
    }
  }

  /** Started on a word, Words is Split; started on a blank or at the end, it
      has one empty word more, in front. */
  lemma WordsOrSplit(s: string)
    ensures Words(s) == if s == [] || Blank(s[0]) then [""] + Split(s) else Split(s)
  {
    assert s[0..] == s;
    if s != [] && !Blank(s[0]) {
      BlankRunIs(s, 0);
    }
  }

  lemma SplitDropsOne(s: string)
    requires s != [] && Blank(s[0])
    ensures Split(s) == Split(s[1..])
  {
    BlankRunPositive(s);
    SplitDropsBlanks(s, 1);
  }

  lemma WordsUnfold(s: string)
    ensures var k := WordRun(s);
      Words(s) == [s[..k]] + (if k == |s| then [] else Split(s[k + 1..]))
  {
    hide BlankRun, Split;
    var k := WordRun(s);
    if k == |s| {
      assert s[k..] == [];
      SplitNothing();
    } else {
      SplitDropsOne(s[k..]);
      assert s[k..][1..] == s[k + 1..];
    }
  }

  lemma SplitNothing()
    ensures Split([]) == []
  {
  }

  /** Where the word after the one at the start of `s` begins, or the end. */
  function NextStart(s: string): (d: nat)
    ensures WordRun(s) <= d <= |s|
    ensures WordRun(s) < |s| ==> WordRun(s) < d
    ensures d < |s| ==> !Blank(s[d])
  {
    var k := WordRun(s);
    if k == |s| then |s| else k + 1 + BlankRun(s[k + 1..])
  }

  lemma GapIsBlank(s: string)
    ensures forall i :: WordRun(s) <= i < NextStart(s) ==> Blank(s[i])
  {
    hide WordRun, BlankRun;
    var k := WordRun(s);
    if k < |s| {
      var r := s[k + 1..];
      BlankRunBlank(r);
      assert forall i :: k < i < NextStart(s) ==> s[i] == r[..BlankRun(r)][i - k - 1];
    }
  }

  lemma WordsNext(s: string)
    ensures Words(s) == [s[..WordRun(s)]] +
      (if NextStart(s) == |s| then [] else Words(s[NextStart(s)..]))
  {
    hide WordRun, BlankRun, Split, Words, NextStart;
    WordsUnfold(s);
    NextStartOrEnd(s);
    var k, d := WordRun(s), NextStart(s);
    if k < |s| {
      var r := s[k + 1..];
      SplitRest(r);
      if BlankRun(r) < |r| {
        assert Split(r) == Words(s[d..]);
      }
    }
  }

  lemma NextStartOrEnd(s: string)
    ensures var k := WordRun(s);
      if k == |s| then NextStart(s) == |s|
      else var r := s[k + 1..];
        NextStart(s) == k + 1 + BlankRun(r) && s[NextStart(s)..] == r[BlankRun(r)..]
  {
    hide WordRun, BlankRun;
  }

  lemma SplitRest(r: string)
    ensures Split(r) == if BlankRun(r) == |r| then [] else Words(r[BlankRun(r)..])
  {
    hide WordRun, BlankRun;
  }
}
