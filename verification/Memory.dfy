/** NUL-terminated strings inside one block of memory, and what cutting a text
    at the ends of its words leaves there. */
module Memory {
  import opened Text

  /** The text `t`, which may hold terminators of its own, lies at `p` and is
      followed by a terminator. */
  ghost predicate Lies(m: seq<char>, p: nat, t: string) {
    p + |t| < |m| && m[p..p + |t|] == t && m[p + |t|] == '\0'
  }

  /** The C string `s` lies at `p`. */
  ghost predicate Holds(m: seq<char>, p: nat, s: string) {
    Lies(m, p, s) && '\0' !in s
  }

  ghost predicate Terminated(m: seq<char>, p: nat) {
    exists s: string :: Holds(m, p, s)
  }

  ghost function CString(m: seq<char>, p: nat): (s: string)
    requires Terminated(m, p)
    ensures Holds(m, p, s)
  {
    var s: string :| Holds(m, p, s); s
  }

  lemma {:induction false} HoldsUnique(m: seq<char>, p: nat, s: string, t: string)
    requires Holds(m, p, s) && Holds(m, p, t)
    ensures s == t
    decreases |s|
  {
    assert s != [] ==> m[p..p + |s|][0] == m[p] && s[0] in s;
    assert t != [] ==> m[p..p + |t|][0] == m[p] && t[0] in t;
    if s != [] && t != [] {
      LiesRest(m, p, s, 1);
      LiesRest(m, p, t, 1);
      HoldsUnique(m, p + 1, s[1..], t[1..]);
    }
  }

  lemma CStringIs(m: seq<char>, p: nat, s: string)
    requires Holds(m, p, s)
    ensures Terminated(m, p) && CString(m, p) == s
  {
    HoldsUnique(m, p, s, CString(m, p));
  }

  /** What stands at each place of a string, its end included. */
  lemma TextAt(m: seq<char>, p: nat, s: string, k: nat)
    requires Holds(m, p, s) && k <= |s|
    ensures p + k < |m|
    ensures m[p + k] == if k < |s| then s[k] else '\0'
    ensures m[p + k] == '\0' <==> k == |s|
  {
    assert k < |s| ==> m[p..p + |s|][k] == m[p + k] && s[k] in s;
  }

  lemma LiesRest(m: seq<char>, p: nat, t: string, k: nat)
    requires Lies(m, p, t) && k <= |t|
    ensures Lies(m, p + k, t[k..])
  {
    assert m[p + k..p + |t|] == m[p..p + |t|][k..];
  }

  /** A text of which only the front is looked at. */
  lemma LiesFront(m: seq<char>, p: nat, t: string, k: nat)
    requires Lies(m, p, t) && (k < |t| ==> t[k] == '\0') && k <= |t|
    ensures Lies(m, p, t[..k])
  {
    assert m[p..p + k] == m[p..p + |t|][..k];
    assert k < |t| ==> m[p..p + |t|][k] == m[p + k];
  }

  /** A store outside a text and its terminator leaves it as it was. */
  lemma LiesElsewhere(m: seq<char>, p: nat, t: string, q: nat, c: char)
    requires Lies(m, p, t) && q < |m| && (q < p || q > p + |t|)
    ensures Lies(m[q := c], p, t)
  {
    assert m[q := c][p..p + |t|] == m[p..p + |t|];
  }

  lemma LiesCut(m: seq<char>, p: nat, t: string, k: nat)
    requires Lies(m, p, t) && k < |t|
    ensures Lies(m[p + k := '\0'], p, t[..k])
    ensures Lies(m[p + k := '\0'], p + k + 1, t[k + 1..])
  {
    var m' := m[p + k := '\0'];
    assert m'[p..p + k] == m[p..p + |t|][..k];
    LiesRest(m, p, t, k + 1);
    LiesElsewhere(m, p + k + 1, t[k + 1..], p + k, '\0');
  }

  /** Where the arguments of a text at `p` start: the first at once, each later
      one at the next non-blank, `n` of them at most. */
  function Starts(s: string, p: nat, n: nat): (ps: seq<nat>)
    decreases n
  {
    if n == 0 then []
    else [p] + (if NextStart(s) == |s| then [] else Starts(s[NextStart(s)..], p + NextStart(s), n - 1))
  }

  lemma StartsUnfold(s: string, p: nat, n: nat)
    requires n > 0
    ensures Starts(s, p, n) == [p] +
      (if NextStart(s) == |s| then [] else Starts(s[NextStart(s)..], p + NextStart(s), n - 1))
    ensures NextStart(s) < |s| && n > 1 ==> |Starts(s, p, n)| > 1 && Starts(s, p, n)[1] == p + NextStart(s)
  {
    hide WordRun, NextStart;
  }

  /** The text after its first `n` arguments were ended in place. */
  function Marked(s: string, n: nat): (t: string)
    ensures |t| == |s|
    decreases n
  {
    var k, d := WordRun(s), NextStart(s);
    if n == 0 || k == |s| then s
    else s[..k] + ['\0'] + s[k + 1..d] + Marked(s[d..], n - 1)
  }

  /** Ending arguments in place overwrites nothing but blanks. */
  lemma {:induction false} MarkedOnlyBlanks(s: string, n: nat, i: nat)
    requires i < |s|
    ensures Marked(s, n)[i] == s[i] || (Blank(s[i]) && Marked(s, n)[i] == '\0')
    decreases n
  {
    hide WordRun, NextStart;
    var k, d := WordRun(s), NextStart(s);
    if n > 0 && k < |s| && i >= d {
      MarkedOnlyBlanks(s[d..], n - 1, i - d);
    }
  }

  /** The number of arguments is the number of words, up to the limit. */
  lemma {:induction false} StartsCount(s: string, p: nat, n: nat)
    ensures |Starts(s, p, n)| == if |Words(s)| < n then |Words(s)| else n
    decreases n
  {
    hide Words, WordRun, NextStart, Starts;
    if n == 0 {
      StartsNothing(s, p);
    } else {
      StartsUnfold(s, p, n);
      WordsNext(s);
      var d := NextStart(s);
      if d < |s| {
        StartsCount(s[d..], p + d, n - 1);
      }
      WordsNonempty(s);
    }
  }

  lemma WordsNonempty(s: string)
    ensures |Words(s)| >= 1
  {
  }

  lemma MarkedParts(s: string, n: nat)
    requires n > 0
    ensures var k, d, t := WordRun(s), NextStart(s), Marked(s, n);
      && t[..k] == s[..k] && (k < |s| ==> t[k] == '\0')
      && t[d..] == Marked(s[d..], n - 1)
  {
    hide WordRun, NextStart;
    var k, d := WordRun(s), NextStart(s);
    if k == |s| {
      assert s[d..] == [];
      MarkedNothing(n - 1);
    }
  }

  lemma MarkedNothing(n: nat)
    ensures Marked([], n) == []
  {
  }

  /** Each argument, read back from the cut text, is its word. */
  lemma {:induction false} StartsHoldWords(m: seq<char>, s: string, p: nat, n: nat, j: nat)
    requires '\0' !in s && Lies(m, p, Marked(s, n))
    requires j < |Starts(s, p, n)|
    ensures j < |Words(s)| && Holds(m, Starts(s, p, n)[j], Words(s)[j])
    decreases n
  {
    hide Words, WordRun, NextStart, Marked, Lies, Starts;
    StartsCount(s, p, n);
    StartsNothing(s, p);
    StartsUnfold(s, p, if n > 0 then n else 1);
    WordsNext(s);
    MarkedParts(s, n);
    var k, d := WordRun(s), NextStart(s);
    if j == 0 {
      LiesFront(m, p, Marked(s, n), k);
    } else {
      LiesRest(m, p, Marked(s, n), d);
      StartsHoldWords(m, s[d..], p + d, n - 1, j - 1);
    }
  }

  /** Some argument's range holds the offset `x` of the text at `p`. */
  ghost predicate Covered(s: string, p: nat, n: nat, x: nat) {
    exists j :: 0 <= j < |Starts(s, p, n)| && InArgument(s, p, n, x, j)
  }

  ghost predicate InArgument(s: string, p: nat, n: nat, x: nat, j: nat) {
    && j < |Starts(s, p, n)| && j < |Words(s)|
    && Starts(s, p, n)[j] <= p + x < Starts(s, p, n)[j] + |Words(s)[j]|
  }

  /** With no word left over, the argument ranges cover every non-blank. */
  lemma {:induction false} StartsCoverWords(s: string, p: nat, n: nat, x: nat)
    requires |Words(s)| <= n && x < |s| && !Blank(s[x])
    ensures Covered(s, p, n, x)
    decreases n
  {
    hide Words, WordRun, NextStart, Starts;
    StartsCount(s, p, n);
    WordsNext(s);
    WordsNonempty(s);
    GapIsBlank(s);
    StartsUnfold(s, p, n);
    var k, d := WordRun(s), NextStart(s);
    if x < k {
      assert InArgument(s, p, n, x, 0);
    } else {
      StartsCoverWords(s[d..], p + d, n - 1, x - d);
      var j :| 0 <= j < |Starts(s[d..], p + d, n - 1)| && InArgument(s[d..], p + d, n - 1, x - d, j);
      assert InArgument(s, p, n, x, j + 1);
    }
  }

  /** Argument ranges lie inside the text, in order, and do not even touch. */
  lemma {:induction false} StartsAreApart(s: string, p: nat, n: nat, j: nat)
    requires j < |Starts(s, p, n)|
    ensures j < |Words(s)|
    ensures p <= Starts(s, p, n)[j] && Starts(s, p, n)[j] + |Words(s)[j]| <= p + |s|
    ensures j + 1 < |Starts(s, p, n)| ==> Starts(s, p, n)[j] + |Words(s)[j]| < Starts(s, p, n)[j + 1]
    decreases n
  {
    hide Words, WordRun, NextStart, Starts;
    StartsCount(s, p, n);
    StartsNothing(s, p);
    StartsUnfold(s, p, if n > 0 then n else 1);
    WordsNext(s);
    var d := NextStart(s);
    if j > 0 {
      StartsAreApart(s[d..], p + d, n - 1, j - 1);
    }
  }

  lemma StartsNothing(s: string, p: nat)
    ensures Starts(s, p, 0) == []
  {
  }

  /** A text up to its first NUL. */
  function UpToNul(s: string): (t: string)
    ensures |t| <= |s| && '\0' !in t
  {
    if s == [] || s[0] == '\0' then [] else [s[0]] + UpToNul(s[1..])
  }

  /** Putting a NUL at `n` makes a C string of what lies before it. */
  lemma {:induction false} NulMakesString(m: seq<char>, p: nat, n: nat)
    requires p <= n < |m| && m[n] == '\0'
    ensures Holds(m, p, UpToNul(m[p..n]))
    decreases n - p
  {
    if p < n && m[p] != '\0' {
      NulMakesString(m, p + 1, n);
      var t := UpToNul(m[p + 1..n]);
      assert m[p..n][1..] == m[p + 1..n];
      assert m[p..p + 1 + |t|] == [m[p]] + m[p + 1..p + 1 + |t|];
    }
  }
}
