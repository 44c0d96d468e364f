/** The JavaScript string primitives the pages rely on, over `string`
    (a sequence of Unicode scalar values): whitespace, `trim`, the
    `replace(/\s+/g, ' ')` collapse, `split(' ')` and `includes`, together
    with the word structure of a string that the collapse-trim-split
    pipeline is proved to recover. `Join` and `EndsWith` are proof helpers
    for stating those results; no page calls them. */
module Text {

  import opened Wrappers

  /** JavaScript truthiness of a nullable string: present and non-empty. */
  predicate Truthy(s: Option<string>) {
    s.Some? && s.value != []
  }

  /** The characters JavaScript's `\s` matches, which is also the set that
      `String.prototype.trim` strips: the WhiteSpace and LineTerminator code
      points of ECMA-262. */
  predicate IsSpace(c: char) {
    c in Whitespace
  }

  const Whitespace: set<char> := {
    ' ', '\t', '\n', '\r', '\U{000B}', '\U{000C}', '\U{00A0}', '\U{1680}',
    '\U{2000}', '\U{2001}', '\U{2002}', '\U{2003}', '\U{2004}', '\U{2005}',
    '\U{2006}', '\U{2007}', '\U{2008}', '\U{2009}', '\U{200A}',
    '\U{2028}', '\U{2029}', '\U{202F}', '\U{205F}', '\U{3000}', '\U{FEFF}'
  }

  /** Every character is whitespace (true of the empty string). */
  predicate IsBlank(s: string) {
    forall i :: 0 <= i < |s| ==> IsSpace(s[i])
  }

  /** A word: at least one character and no whitespace. */
  predicate IsWord(w: string) {
    |w| > 0 && forall i :: 0 <= i < |w| ==> !IsSpace(w[i])
  }

  predicate AllWords(ws: seq<string>) {
    forall i :: 0 <= i < |ws| ==> IsWord(ws[i])
  }

  /** The length of the whitespace run that starts `s`. */
  function LeadingSpaces(s: string): (n: nat)
    ensures n <= |s|
    ensures forall i :: 0 <= i < n ==> IsSpace(s[i])
    ensures n == |s| || !IsSpace(s[n])
  {
    if |s| > 0 && IsSpace(s[0]) then 1 + LeadingSpaces(s[1..]) else 0
  }

  /** The length of the whitespace run that ends `s`. */
  function TrailingSpaces(s: string): (n: nat)
    ensures n <= |s|
    ensures forall i :: |s| - n <= i < |s| ==> IsSpace(s[i])
    ensures n == |s| || !IsSpace(s[|s| - n - 1])
  {
    if |s| > 0 && IsSpace(s[|s| - 1]) then 1 + TrailingSpaces(s[..|s| - 1]) else 0
  }

  /** The length of the whitespace-free run that starts `s`. */
  function WordLength(s: string): (n: nat)
    ensures n <= |s|
    ensures forall i :: 0 <= i < n ==> !IsSpace(s[i])
    ensures n == |s| || IsSpace(s[n])
  {
    if |s| == 0 || IsSpace(s[0]) then 0 else 1 + WordLength(s[1..])
  }

  // The three run lengths are the only numbers with their defining properties.

  lemma LeadingSpacesUnique(s: string, n: nat)
    requires n <= |s|
    requires forall i :: 0 <= i < n ==> IsSpace(s[i])
    requires n == |s| || !IsSpace(s[n])
    ensures LeadingSpaces(s) == n
  {
  }

  lemma TrailingSpacesUnique(s: string, n: nat)
    requires n <= |s|
    requires forall i :: |s| - n <= i < |s| ==> IsSpace(s[i])
    requires n == |s| || !IsSpace(s[|s| - n - 1])
    ensures TrailingSpaces(s) == n
  {
  }

  lemma WordLengthUnique(s: string, n: nat)
    requires n <= |s|
    requires forall i :: 0 <= i < n ==> !IsSpace(s[i])
    requires n == |s| || IsSpace(s[n])
    ensures WordLength(s) == n
  {
  }

  /** Leading whitespace removed. */
  function TrimStart(s: string): string {
    s[LeadingSpaces(s)..]
  }

  /** Trailing whitespace removed. */
  function TrimEnd(s: string): string {
    s[..|s| - TrailingSpaces(s)]
  }

  /** `s.trim()`: empty exactly for blank strings, and otherwise neither
      starting nor ending with whitespace. */
  function Trim(s: string): (r: string)
    ensures r == [] <==> IsBlank(s)
    ensures r == [] || (!IsSpace(r[0]) && !IsSpace(r[|r| - 1]))
  {
    var t := TrimStart(s);
    assert t == [] <==> IsBlank(s) by {
      if !IsBlank(s) {
        var i :| 0 <= i < |s| && !IsSpace(s[i]);
        assert LeadingSpaces(s) <= i;
      }
    }
    assert t != [] ==> TrailingSpaces(t) < |t|;
    TrimEnd(t)
  }

  /** The maximal whitespace-free runs of `s`, in order: the reference
      meaning of "the words of a string". */
  function Words(s: string): (ws: seq<string>)
    ensures AllWords(ws)
    decreases |s|
  {
    var t := TrimStart(s);
    if t == [] then []
    else
      var n := WordLength(t);
      [t[..n]] + Words(t[n..])
  }

  /** `s.replace(/\s+/g, ' ')`: every maximal run of whitespace becomes a
      single space. */
  function Collapse(s: string): (r: string)
    ensures |r| <= |s|
    decreases |s|
  {
    if |s| == 0 then []
    else if IsSpace(s[0]) then " " + Collapse(TrimStart(s))
    else [s[0]] + Collapse(s[1..])
  }

  /** The pieces glued together with single spaces: the inverse of `Split`. */
  function Join(ws: seq<string>): string
  {
    if |ws| == 0 then []
    else if |ws| == 1 then ws[0]
    else ws[0] + " " + Join(ws[1..])
  }

  /** `s.split(' ')`: the pieces between single spaces, empty pieces kept. */
  function Split(s: string): (parts: seq<string>)
    ensures |parts| >= 1
    ensures forall i :: 0 <= i < |parts| ==> ' ' !in parts[i]
  {
    if |s| == 0 then [[]]
    else
      var rest := Split(s[1..]);
      if s[0] == ' ' then [[]] + rest else [[s[0]] + rest[0]] + rest[1..]
  }

  /** `t` occurs in `s` starting at index `i`. */
  predicate OccursAt(s: string, t: string, i: int) {
    0 <= i && i + |t| <= |s| && s[i..i + |t|] == t
  }

  /** `t` is a suffix of `s`. */
  predicate EndsWith(s: string, t: string) {
    |t| <= |s| && s[|s| - |t|..] == t
  }

  /** `s.includes(t)`. */
  function Contains(s: string, t: string): (b: bool)
    ensures b <==> exists i :: OccursAt(s, t, i)
    decreases |s|
  {
    if |s| < |t| then false
    else if s[..|t|] == t then
      assert OccursAt(s, t, 0);
      true
    else
      var b := Contains(s[1..], t);
      assert b ==> exists i :: OccursAt(s, t, i) by {
        if b {
          var i :| OccursAt(s[1..], t, i);
          assert s[1..][i..i + |t|] == s[i + 1..i + 1 + |t|];
          assert OccursAt(s, t, i + 1);
        }
      }
      assert (exists i :: OccursAt(s, t, i)) ==> b by {
        if exists i :: OccursAt(s, t, i) {
          var i :| OccursAt(s, t, i);
          assert i != 0;
          assert s[1..][i - 1..i - 1 + |t|] == s[i..i + |t|];
          assert OccursAt(s[1..], t, i - 1);
        }
      }
      b
  }

  // ---------------------------------------------------------------------
  // Split and Join are inverse to each other.

  /** Joining the pieces of a split gives the string back. */
  lemma {:induction false} JoinSplit(s: string)
    ensures Join(Split(s)) == s
    decreases |s|
  {
    if |s| > 0 {
      var rest := Split(s[1..]);
      JoinSplit(s[1..]);
      if s[0] == ' ' {
        assert Split(s) == [[]] + rest;
        assert Join(Split(s)) == [] + " " + Join(rest);
        assert s == [s[0]] + s[1..];
      } else {
        var p := [[s[0]] + rest[0]] + rest[1..];
        assert Split(s) == p;
        if |rest| == 1 {
          assert Join(p) == [s[0]] + rest[0];
          assert Join(rest) == rest[0];
        } else {
          assert p[1..] == rest[1..];
          assert Join(p) == [s[0]] + rest[0] + " " + Join(rest[1..]);
          assert Join(rest) == rest[0] + " " + Join(rest[1..]);
        }
        assert s == [s[0]] + s[1..];
      }
    }
  }

  lemma {:induction false} SplitNoSpace(w: string)
    requires ' ' !in w
    ensures Split(w) == [w]
    decreases |w|
  {
    if |w| > 0 {
      SplitNoSpace(w[1..]);
      assert w == [w[0]] + w[1..];
    }
  }

  lemma {:induction false} SplitAtSpace(w: string, rest: string)
    requires ' ' !in w
    ensures Split(w + " " + rest) == [w] + Split(rest)
    decreases |w|
  {
    var s := w + " " + rest;
    if |w| == 0 {
      assert s[1..] == rest;
    } else {
      assert s[1..] == w[1..] + " " + rest;
      SplitAtSpace(w[1..], rest);
      assert w == [w[0]] + w[1..];
    }
  }

  /** Splitting a join of space-free pieces gives the pieces back. */
  lemma {:induction false} SplitJoin(ws: seq<string>)
    requires |ws| >= 1
    requires forall i :: 0 <= i < |ws| ==> ' ' !in ws[i]
    ensures Split(Join(ws)) == ws
    decreases |ws|
  {
    if |ws| == 1 {
      SplitNoSpace(ws[0]);
    } else {
      SplitJoin(ws[1..]);
      SplitAtSpace(ws[0], Join(ws[1..]));
      assert ws == [ws[0]] + ws[1..];
    }
  }

  // ---------------------------------------------------------------------
  // Whitespace around a string does not change its words.

  lemma TrimStartIdempotent(s: string)
    ensures TrimStart(TrimStart(s)) == TrimStart(s)
  {
    var t := TrimStart(s);
    assert t == [] || !IsSpace(t[0]);
  }

  lemma WordsOfTrimmed(s: string)
    ensures Words(s) == Words(TrimStart(s))
  {
    TrimStartIdempotent(s);
  }

  lemma TrimStartBlankPrefix(a: string, x: string)
    requires IsBlank(a)
    ensures TrimStart(a + x) == TrimStart(x)
  {
    var n := LeadingSpaces(x);
    LeadingSpacesUnique(a + x, |a| + n);
    assert (a + x)[|a| + n..] == x[n..];
  }

  lemma TrimEndBlankSuffix(x: string, b: string)
    requires IsBlank(b)
    ensures TrimEnd(x + b) == TrimEnd(x)
  {
    var n := TrailingSpaces(x);
    TrailingSpacesUnique(x + b, |b| + n);
    assert (x + b)[..|x + b| - (|b| + n)] == x[..|x| - n];
  }

  /** Trimming removes exactly the blank margins around a core that neither
      starts nor ends with whitespace. */
  lemma TrimAround(a: string, x: string, b: string)
    requires IsBlank(a) && IsBlank(b)
    requires x != [] && !IsSpace(x[0]) && !IsSpace(x[|x| - 1])
    ensures Trim(a + x + b) == x
  {
    assert a + x + b == a + (x + b);
    TrimStartBlankPrefix(a, x + b);
    assert TrimStart(x + b) == x + b;
    TrimEndBlankSuffix(x, b);
    assert TrimEnd(x) == x;
  }

  lemma {:induction false} WordsBlankPrefix(a: string, s: string)
    requires IsBlank(a)
    ensures Words(a + s) == Words(s)
  {
    TrimStartBlankPrefix(a, s);
  }

  lemma TrimStartBlankSuffix(s: string, b: string)
    requires IsBlank(b) && TrimStart(s) != []
    ensures TrimStart(s + b) == TrimStart(s) + b
  {
    var k := LeadingSpaces(s);
    LeadingSpacesUnique(s + b, k);
    assert (s + b)[k..] == s[k..] + b;
  }

  /** Trailing whitespace does not reach the first word of a string that
      starts with one; `n` is the length of that word. */
  lemma WordsOfWordStartThenBlank(t: string, b: string, n: nat)
    requires IsBlank(b) && 0 < n <= |t|
    requires forall i :: 0 <= i < n ==> !IsSpace(t[i])
    requires n == |t| || IsSpace(t[n])
    ensures Words(t + b) == [t[..n]] + Words(t[n..] + b)
  {
    var tb := t + b;
    assert forall i :: 0 <= i < n ==> !IsSpace(tb[i]) by {
      assert forall i :: 0 <= i < n ==> tb[i] == t[i];
    }
    assert n == |tb| || IsSpace(tb[n]) by {
      if n < |t| {
        assert tb[n] == t[n];
      } else if n < |tb| {
        assert tb[n] == b[0];
      }
    }
    WordsAtWord(tb, n);
    SliceConcat(t, b, n);
  }

  lemma SliceConcat(t: string, b: string, n: nat)
    requires n <= |t|
    ensures (t + b)[..n] == t[..n] && (t + b)[n..] == t[n..] + b
  {
  }

  /** The words of a string that starts with a word of length `n`. */
  lemma WordsAtWord(t: string, n: nat)
    requires 0 < n <= |t|
    requires forall i :: 0 <= i < n ==> !IsSpace(t[i])
    requires n == |t| || IsSpace(t[n])
    ensures Words(t) == [t[..n]] + Words(t[n..])
  {
    WordLengthUnique(t, n);
    WordsOfWordStart(t);
  }

  lemma {:induction false} WordsBlankSuffix(s: string, b: string)
    requires IsBlank(b)
    ensures Words(s + b) == Words(s)
    decreases |s|
  {
    var t := TrimStart(s);
    if t == [] {
      LeadingSpacesUnique(s + b, |s| + |b|);
    } else {
      var n := WordLength(t);
      assert Words(s + b) == Words(t + b) by {
        TrimStartBlankSuffix(s, b);
        WordsOfTrimmed(s + b);
      }
      assert Words(s) == [t[..n]] + Words(t[n..]) by {
        WordsOfWordStart(t);
        WordsOfTrimmed(s);
      }
      WordsOfWordStartThenBlank(t, b, n);
      WordsBlankSuffix(t[n..], b);
    }
  }

  // ---------------------------------------------------------------------
  // The collapse-then-trim pipeline yields the words joined by single spaces.

  /** The single space a collapse leaves before the first word. */
  function Lead(s: string): string {
    if |s| > 0 && IsSpace(s[0]) then " " else ""
  }

  /** The single space a collapse leaves after the last word. */
  function Tail(s: string): string {
    if |s| > 0 && IsSpace(s[|s| - 1]) && LeadingSpaces(s) < |s| then " " else ""
  }

  /** A whitespace-free prefix passes through the collapse unchanged. */
  lemma {:induction false} CollapsePrefix(t: string, n: nat)
    requires 0 < n <= |t|
    requires forall i :: 0 <= i < n ==> !IsSpace(t[i])
    ensures Collapse(t) == t[..n] + Collapse(t[n..])
    decreases n
  {
    assert Collapse(t) == [t[0]] + Collapse(t[1..]);
    if n == 1 {
      assert t[..1] == [t[0]];
    } else {
      var t' := t[1..];
      CollapsePrefix(t', n - 1);
      SliceAfterFirst(t, n);
      Assoc3([t[0]], t'[..n - 1], Collapse(t[n..]));
    }
  }

  lemma SliceAfterFirst(t: string, n: nat)
    requires 0 < n <= |t|
    ensures t[1..][n - 1..] == t[n..] && [t[0]] + t[1..][..n - 1] == t[..n]
  {
  }

  lemma CollapseWord(t: string)
    requires t != [] && !IsSpace(t[0])
    ensures Collapse(t) == t[..WordLength(t)] + Collapse(t[WordLength(t)..])
  {
    CollapsePrefix(t, WordLength(t));
  }

  lemma JoinEnds(ws: seq<string>)
    requires |ws| >= 1 && AllWords(ws)
    ensures Join(ws) != [] && !IsSpace(Join(ws)[0]) && !IsSpace(Join(ws)[|Join(ws)| - 1])
    decreases |ws|
  {
    assert IsWord(ws[0]);
    if |ws| > 1 {
      JoinEnds(ws[1..]);
    }
  }

  // One-step unfoldings, each proved on its own so that the inductive
  // proofs below stay small.

  lemma WordsOfWordStart(t: string)
    requires t != [] && !IsSpace(t[0])
    ensures Words(t) == [t[..WordLength(t)]] + Words(t[WordLength(t)..])
  {
    assert LeadingSpaces(t) == 0;
    assert TrimStart(t) == t;
  }

  lemma WordsOfBlank(s: string)
    requires LeadingSpaces(s) == |s|
    ensures Words(s) == []
  {
    assert TrimStart(s) == [];
  }

  lemma JoinCons(w: string, ws: seq<string>)
    requires |ws| >= 1
    ensures Join([w] + ws) == w + " " + Join(ws)
  {
    assert ([w] + ws)[1..] == ws;
  }

  lemma CollapseOfSpaceStart(s: string)
    requires s != [] && IsSpace(s[0])
    ensures Collapse(s) == " " + Collapse(TrimStart(s))
  {
  }

  lemma TailAgrees(t: string, u: string)
    requires t != [] && !IsSpace(t[0]) && u != [] && !IsSpace(u[0])
    requires t[|t| - 1] == u[|u| - 1]
    ensures Tail(t) == Tail(u)
  {
    assert LeadingSpaces(t) == 0 && LeadingSpaces(u) == 0;
  }

  /** A single word collapses to itself. */
  lemma {:induction false} CollapseOfWord(w: string)
    requires IsWord(w)
    ensures Collapse(w) == w
    decreases |w|
  {
    assert Collapse(w) == [w[0]] + Collapse(w[1..]);
    if |w| > 1 {
      assert IsWord(w[1..]) by {
        forall i | 0 <= i < |w| - 1
          ensures !IsSpace(w[1..][i])
        {
          assert w[1..][i] == w[i + 1];
        }
      }
      CollapseOfWord(w[1..]);
    }
    assert w == [w[0]] + w[1..];
  }

  /** A string that is one word followed by nothing. */
  lemma CollapseOneWord(t: string)
    requires IsWord(t)
    ensures Collapse(t) == Join(Words(t)) + Tail(t)
  {
    CollapseOfWord(t);
    WordsOfOneWord(t);
    assert Tail(t) == [] by {
      assert !IsSpace(t[|t| - 1]);
    }
    assert Join([t]) == t;
  }

  /** A string that is one word followed by whitespace only. */
  lemma CollapseOneWordThenBlank(t: string)
    requires t != [] && !IsSpace(t[0]) && WordLength(t) < |t|
    requires TrimStart(t[WordLength(t)..]) == []
    ensures Collapse(t) == Join(Words(t)) + Tail(t)
  {
    var n := WordLength(t);
    var w := t[..n];
    var rest := t[n..];
    assert Collapse(t) == w + Collapse(rest) by { CollapseWord(t); }
    assert Collapse(rest) == " " by {
      assert IsSpace(rest[0]);
      CollapseOfSpaceStart(rest);
    }
    assert Words(t) == [w] by {
      WordsOfWordStart(t);
      WordsOfBlank(rest);
    }
    assert Tail(t) == " " by {
      assert LeadingSpaces(rest) == |rest|;
      assert t[|t| - 1] == rest[|rest| - 1];
      assert LeadingSpaces(t) == 0;
    }
    calc {
      Collapse(t);
      w + " ";
      { assert Join([w]) == w; }
      Join(Words(t)) + Tail(t);
    }
  }

  /** A word followed by whitespace collapses to the word, one space, and
      the collapse of what follows the whitespace. */
  lemma CollapseWordThenSpace(t: string)
    requires t != [] && !IsSpace(t[0]) && WordLength(t) < |t|
    ensures var n := WordLength(t);
      Collapse(t) == t[..n] + (" " + Collapse(TrimStart(t[n..])))
  {
    var n := WordLength(t);
    var rest := t[n..];
    CollapseWord(t);
    assert IsSpace(rest[0]);
    CollapseOfSpaceStart(rest);
  }

  /** The words of a word followed by a whitespace run and a rest `u`. */
  lemma WordsOfWordThenMore(t: string)
    requires t != [] && !IsSpace(t[0]) && WordLength(t) < |t|
    ensures Words(t) == [t[..WordLength(t)]] + Words(TrimStart(t[WordLength(t)..]))
  {
    WordsOfWordStart(t);
    WordsOfTrimmed(t[WordLength(t)..]);
  }

  /** Dropping a prefix and then leading whitespace, from a string that
      starts with a non-space, keeps the trailing space as long as something
      is left. */
  lemma TailOfTrimmedSuffix(t: string, m: nat)
    requires t != [] && !IsSpace(t[0]) && m < |t|
    requires TrimStart(t[m..]) != []
    ensures Tail(TrimStart(t[m..])) == Tail(t)
  {
    var rest := t[m..];
    TailOfTrimmed(rest);
    assert rest[|rest| - 1] == t[|t| - 1];
    assert LeadingSpaces(rest) < |rest|;
    assert LeadingSpaces(t) == 0;
  }

  /** The inductive step: one word, a whitespace run, then the rest `u`. */
  lemma CollapseWordThenMore(t: string)
    requires t != [] && !IsSpace(t[0]) && WordLength(t) < |t|
    requires TrimStart(t[WordLength(t)..]) != []
    requires Collapse(TrimStart(t[WordLength(t)..]))
          == Join(Words(TrimStart(t[WordLength(t)..]))) + Tail(TrimStart(t[WordLength(t)..]))
    ensures Collapse(t) == Join(Words(t)) + Tail(t)
  {
    var n := WordLength(t);
    var w := t[..n];
    var u := TrimStart(t[n..]);
    var wu := Words(u);
    CollapseWordThenSpace(t);
    WordsOfWordThenMore(t);
    TailOfTrimmedSuffix(t, n);
    assert |wu| >= 1 by {
      assert u[0] == t[n..][LeadingSpaces(t[n..])];
      WordsOfWordStart(u);
    }
    JoinCons(w, wu);
    calc {
      Collapse(t);
      w + (" " + (Join(wu) + Tail(u)));
      { Assoc4(w, " ", Join(wu), Tail(u)); }
      (w + " " + Join(wu)) + Tail(u);
      Join(Words(t)) + Tail(t);
    }
  }

  lemma Assoc3(a: string, b: string, c: string)
    ensures a + (b + c) == (a + b) + c
  {
  }

  lemma Assoc4(a: string, b: string, c: string, d: string)
    ensures a + (b + (c + d)) == ((a + b) + c) + d
  {
  }

  lemma {:induction false} CollapseFromWord(t: string)
    requires t != [] && !IsSpace(t[0])
    ensures Collapse(t) == Join(Words(t)) + Tail(t)
    decreases |t|
  {
    var n := WordLength(t);
    if n == |t| {
      assert IsWord(t);
      CollapseOneWord(t);
    } else {
      var u := TrimStart(t[n..]);
      if u == [] {
        CollapseOneWordThenBlank(t);
      } else {
        assert n > 0;
        CollapseFromWord(u);
        CollapseWordThenMore(t);
      }
    }
  }

  lemma TailOfTrimmed(s: string)
    requires TrimStart(s) != []
    ensures Tail(TrimStart(s)) == Tail(s)
  {
    var u := TrimStart(s);
    assert u[|u| - 1] == s[|s| - 1];
    assert LeadingSpaces(u) == 0;
  }

  lemma CollapseShapeSpaceStart(s: string)
    requires s != [] && IsSpace(s[0]) && TrimStart(s) != []
    ensures Collapse(s) == Lead(s) + Join(Words(s)) + Tail(s)
  {
    var u := TrimStart(s);
    var j := Join(Words(u));
    CollapseOfSpaceStart(s);
    WordsOfTrimmed(s);
    TailOfTrimmed(s);
    assert !IsSpace(u[0]);
    CollapseFromWord(u);
    calc {
      Collapse(s);
      " " + (j + Tail(u));
      { Assoc3(" ", j, Tail(u)); }
      (" " + j) + Tail(u);
      Lead(s) + Join(Words(s)) + Tail(s);
    }
  }

  /** The shape of a collapsed string: at most one space, the words joined
      by single spaces, at most one space. */
  lemma CollapseShape(s: string)
    ensures Collapse(s) == Lead(s) + Join(Words(s)) + Tail(s)
  {
    if s == [] {
    } else if !IsSpace(s[0]) {
      CollapseFromWord(s);
      assert Lead(s) == [];
      assert Lead(s) + Join(Words(s)) == Join(Words(s));
    } else if TrimStart(s) == [] {
      assert Collapse(s) == " " by { CollapseOfSpaceStart(s); }
      assert Words(s) == [] by { WordsOfBlank(s); }
      assert Tail(s) == [];
    } else {
      CollapseShapeSpaceStart(s);
    }
  }

  lemma LeadTailBlank(s: string)
    ensures IsBlank(Lead(s)) && IsBlank(Tail(s))
  {
    assert IsSpace(' ');
  }

  lemma BlankConcat(a: string, b: string)
    requires IsBlank(a) && IsBlank(b)
    ensures IsBlank(a + b)
  {
  }

  /** `s.replace(/\s+/g, ' ').trim()` is the words of `s` joined by single spaces. */
  lemma NormalizeIsJoinedWords(s: string)
    ensures Trim(Collapse(s)) == Join(Words(s))
  {
    var ws := Words(s);
    var j := Join(ws);
    CollapseShape(s);
    LeadTailBlank(s);
    if ws == [] {
      assert j == [];
      assert Collapse(s) == Lead(s) + Tail(s);
      BlankConcat(Lead(s), Tail(s));
    } else {
      JoinEnds(ws);
      TrimAround(Lead(s), j, Tail(s));
    }
  }

  /** Splitting the normalised string on a space gives back exactly its
      words; a string without words gives the single empty piece. */
  lemma SplitOfNormalized(s: string)
    ensures Split(Trim(Collapse(s))) == if Words(s) == [] then [[]] else Words(s)
  {
    var ws := Words(s);
    NormalizeIsJoinedWords(s);
    if ws == [] {
      assert Join(ws) == [];
    } else {
      forall i | 0 <= i < |ws|
        ensures ' ' !in ws[i]
      {
        assert IsWord(ws[i]);
        assert IsSpace(' ');
      }
      SplitJoin(ws);
    }
  }

  lemma WordsOfOneWord(w: string)
    requires IsWord(w)
    ensures Words(w) == [w]
  {
    WordLengthUnique(w, |w|);
    WordsOfWordStart(w);
    assert w[..|w|] == w && w[|w|..] == [];
    WordsOfBlank([]);
  }

  lemma WordsOfWordSpace(w: string, j: string)
    requires IsWord(w)
    ensures Words(w + " " + j) == [w] + Words(j)
  {
    var s := w + " " + j;
    assert s[..|w|] == w && s[|w|..] == " " + j;
    assert WordLength(s) == |w| by {
      assert s[|w|] == ' ' && IsSpace(' ');
      WordLengthUnique(s, |w|);
    }
    assert Words(s) == [w] + Words(" " + j) by {
      WordsOfWordStart(s);
    }
    assert Words(" " + j) == Words(j) by {
      assert IsBlank(" ");
      WordsBlankPrefix(" ", j);
    }
  }

  /** The words of a join of words are those words. */
  lemma {:induction false} WordsOfJoin(ws: seq<string>)
    requires AllWords(ws)
    ensures Words(Join(ws)) == ws
    decreases |ws|
  {
    if |ws| == 0 {
      WordsOfBlank([]);
    } else if |ws| == 1 {
      WordsOfOneWord(ws[0]);
    } else {
      var rest := ws[1..];
      assert AllWords(rest) by {
        forall i | 0 <= i < |rest|
          ensures IsWord(rest[i])
        {
          assert rest[i] == ws[i + 1];
        }
      }
      assert Join(ws) == ws[0] + " " + Join(rest);
      WordsOfJoin(rest);
      assert Words(Join(ws)) == [ws[0]] + rest by {
        assert IsWord(ws[0]);
        WordsOfWordSpace(ws[0], Join(rest));
      }
      assert ws == [ws[0]] + rest;
    }
  }

  /** Collapsing whitespace runs does not change the words. */
  lemma CollapseKeepsWords(s: string)
    ensures Words(Collapse(s)) == Words(s)
  {
    CollapseShape(s);
    var j := Join(Words(s));
    LeadTailBlank(s);
    Assoc3(Lead(s), j, Tail(s));
    WordsBlankPrefix(Lead(s), j + Tail(s));
    WordsBlankSuffix(j, Tail(s));
    WordsOfJoin(Words(s));
  }
}
