/** Wildcard patterns (src/shared.c), without sets. */
module Glob {

  const NUL := '\0'

  /** A string up to its terminator. */
  predicate IsText(s: string) { forall i :: 0 <= i < |s| ==> s[i] != NUL }

  /** The character read at an index, the terminator at the end. */
  function At(s: string, i: nat): char
    requires i <= |s|
  {
    if i < |s| then s[i] else NUL
  }

  /** No set is begun, and the pattern does not end in the escape of nothing. */
  predicate Plain(p: string)
  {
    if p == [] then true
    else if p[0] == '[' then false
    else if p[0] == '\\' then |p| > 1 && Plain(p[2..])
    else Plain(p[1..])
  }

  /** What a pattern means: `*` stands for any text, `?` for any one character, an escaped character and
      every other one for itself. */
  ghost predicate Matches(p: string, t: string)
    decreases |p|
  {
    if p == [] then t == []
    else if p[0] == '*' then exists k :: 0 <= k <= |t| && Matches(p[1..], t[k..])
    else if p[0] == '?' then t != [] && Matches(p[1..], t[1..])
    else if p[0] == '\\' && |p| > 1 then t != [] && t[0] == p[1] && Matches(p[2..], t[1..])
    else t != [] && t[0] == p[0] && Matches(p[1..], t[1..])
  }

  /** Some suffix of the text matches: what a pattern behind a `*` has to do. */
  ghost predicate SomeSuffix(p: string, t: string)
  {
    exists k :: 0 <= k <= |t| && Matches(p, t[k..])
  }

  lemma StarIsSuffix(p: string, t: string)
    requires p != [] && p[0] == '*'
    ensures Matches(p, t) <==> SomeSuffix(p[1..], t)
  {
  }

  /** A second `*` changes nothing. */
  lemma StarStar(p: string, t: string)
    requires p != [] && p[0] == '*'
    ensures SomeSuffix(p, t) <==> SomeSuffix(p[1..], t)
  {
    if SomeSuffix(p, t) {
      var k :| 0 <= k <= |t| && Matches(p, t[k..]);
      var j :| 0 <= j <= |t[k..]| && Matches(p[1..], t[k..][j..]);
      assert t[k..][j..] == t[k + j..];
    }
    if SomeSuffix(p[1..], t) {
      assert t[0..] == t;
      assert Matches(p, t[0..]);
    }
  }

  /** A `?` behind a `*` takes one character, it does not matter which. */
  lemma StarAny(p: string, t: string)
    requires p != [] && p[0] == '?'
    ensures SomeSuffix(p, t) <==> t != [] && SomeSuffix(p[1..], t[1..])
  {
    if SomeSuffix(p, t) {
      var k :| 0 <= k <= |t| && Matches(p, t[k..]);
      assert t[k..][1..] == t[1..][k..];
    }
    if t != [] && SomeSuffix(p[1..], t[1..]) {
      var k :| 0 <= k <= |t[1..]| && Matches(p[1..], t[1..][k..]);
      assert t[k..][1..] == t[1..][k..];
      assert Matches(p, t[k..]);
    }
  }

  /** The character a pattern that starts with no wildcard needs first. */
  function First(p: string): char
    requires Plain(p) && p != []
  {
    if p[0] == '\\' then p[1] else p[0]
  }

  lemma NeedsFirst(p: string, t: string)
    requires Plain(p) && p != [] && p[0] !in {'*', '?'} && Matches(p, t)
    ensures t != [] && t[0] == First(p)
  {
  }

  /** The rest of a text has a matching suffix if it is itself one, or its own rest has. */
  lemma SuffixStep(p: string, t: string)
    ensures SomeSuffix(p, t) <==> Matches(p, t) || (t != [] && SomeSuffix(p, t[1..]))
  {
    assert t[0..] == t;
    if SomeSuffix(p, t) {
      var k :| 0 <= k <= |t| && Matches(p, t[k..]);
      if k > 0 {
        assert t[k..] == t[1..][k - 1..];
      }
    }
    if t != [] && SomeSuffix(p, t[1..]) {
      var k :| 0 <= k <= |t[1..]| && Matches(p, t[1..][k..]);
      assert t[k + 1..] == t[1..][k..];
    }
  }

  method GlobMatchStar(pattern: string, text: string) returns (r: bool)
    requires Plain(pattern) && IsText(pattern) && IsText(text)
    ensures r <==> SomeSuffix(pattern, text)
    decreases |pattern|, 1
  {
    hide Matches, SomeSuffix;
    var p, t := 1, 0;
    var c := At(pattern, 0);
    assert pattern[0..] == pattern && text[0..] == text;
    while c == '?' || c == '*'
      invariant 1 <= p <= |pattern| + 1 && t <= |text| && c == At(pattern, p - 1)
      invariant Plain(pattern[p - 1..])
      invariant SomeSuffix(pattern, text) <==> SomeSuffix(pattern[p - 1..], text[t..])
      decreases |pattern| + 1 - p
    {
      assert pattern[p - 1..][1..] == pattern[p..];
      if c == '?' {
        StarAny(pattern[p - 1..], text[t..]);
        if At(text, t) == NUL {
          return false;
        }
        assert text[t..][1..] == text[t + 1..];
        t := t + 1;
      } else {
        StarStar(pattern[p - 1..], text[t..]);
      }
      c := At(pattern, p);
      p := p + 1;
    }
    if c == NUL {
      EmptyPattern(text[t..]);
      return true;
    }
    ghost var rest := pattern[p - 1..];
    var c1 := if c == '\\' then At(pattern, p) else c;
    while true
      invariant t <= |text| && (SomeSuffix(pattern, text) <==> SomeSuffix(rest, text[t..]))
      decreases |text| - t
    {
      SuffixStep(rest, text[t..]);
      if At(text, t) == c1 {
        var found := GlobMatch(pattern[p - 1..], text[t..]);
        if found {
          return true;
        }
      } else if Matches(rest, text[t..]) {
        NeedsFirst(rest, text[t..]);
      }
      if At(text, t) == NUL {
        return false;
      }
      assert text[t..][1..] == text[t + 1..];
      t := t + 1;
    }
  }

  lemma EmptyPattern(t: string)
    ensures SomeSuffix([], t)
  {
    assert Matches([], t[|t|..]);
  }

  method GlobMatch(pattern: string, text: string) returns (r: bool)
    requires Plain(pattern) && IsText(pattern) && IsText(text)
    ensures r <==> Matches(pattern, text)
    decreases |pattern|, 0
  {
    hide SomeSuffix;
    var p, t := 1, 0;
    var c := At(pattern, 0);
    assert pattern[0..] == pattern && text[0..] == text;
    while c != NUL
      invariant 1 <= p <= |pattern| + 1 && t <= |text| && c == At(pattern, p - 1) && Plain(pattern[p - 1..])
      invariant Matches(pattern, text) <==> Matches(pattern[p - 1..], text[t..])
      decreases |pattern| + 1 - p
    {
      assert pattern[p - 1..][1..] == pattern[p..];
      assert t < |text| ==> text[t..][1..] == text[t + 1..];
      match c {
        case '?' =>
          if At(text, t) == NUL {
            return false;
          }
          t := t + 1;
        case '\\' =>
          assert pattern[p - 1..][2..] == pattern[p + 1..];
          if At(pattern, p) != At(text, t) {
            return false;
          }
          p, t := p + 1, t + 1;
        case '*' =>
          StarIsSuffix(pattern[p - 1..], text[t..]);
          r := GlobMatchStar(pattern[p..], text[t..]);
          return;
        case _ =>
          if c != At(text, t) {
            return false;
          }
          t := t + 1;
      }
      c := At(pattern, p);
      p := p + 1;
    }
    return At(text, t) == NUL;
  }

  ghost predicate SplitsAt(p: string, q: string, t: string, k: nat)
  {
    k <= |t| && Matches(p, t[..k]) && Matches(q, t[k..])
  }

  /** The text falls into a part for one pattern and a part for the other. */
  ghost predicate Splits(p: string, q: string, t: string) { exists k: nat :: SplitsAt(p, q, t, k) }

  lemma StarAt(p: string, t: string, k: nat)
    requires p != [] && p[0] == '*' && k <= |t| && Matches(p[1..], t[k..])
    ensures Matches(p, t)
  {
  }

  /** One pattern after another matches one text after another, and nothing else. */
  lemma {:induction false} JoinedPatterns(p: string, q: string, t: string)
    requires Plain(p)
    ensures Matches(p + q, t) <==> Splits(p, q, t)
    decreases |p|
  {
    if p == [] {
      NothingFirst(q, t);
      assert p + q == q;
    } else if p[0] == '*' {
      JoinedBehindStar(p, q, t);
    } else {
      JoinedBehindOne(p, q, t, if p[0] == '\\' then 2 else 1);
    }
  }

  lemma NothingFirst(q: string, t: string)
    ensures Splits([], q, t) <==> Matches(q, t)
  {
    assert t[..0] == [] && t[0..] == t;
    assert Matches(q, t) ==> SplitsAt([], q, t, 0);
  }

  lemma TakesFirst(p: string, t: string, n: nat)
    requires Plain(p) && p != [] && p[0] != '*' && n == if p[0] == '\\' then 2 else 1
    ensures n <= |p| && Plain(p[n..])
    ensures Matches(p, t) <==> t != [] && (p[0] == '?' || t[0] == p[n - 1]) && Matches(p[n..], t[1..])
  {
  }

  lemma FirstOff(p: string, q: string, t: string, n: nat, k: nat)
    requires Plain(p) && p != [] && p[0] != '*' && t != [] && n == if p[0] == '\\' then 2 else 1
    ensures n <= |p| && !SplitsAt(p, q, t, 0)
    ensures SplitsAt(p, q, t, k + 1) <==> (p[0] == '?' || t[0] == p[n - 1]) && SplitsAt(p[n..], q, t[1..], k)
  {
    TakesFirst(p, t[..0], n);
    if k + 1 <= |t| {
      TakesFirst(p, t[..k + 1], n);
      hide Matches, Plain;
      assert t[..k + 1][1..] == t[1..][..k] && t[1..][k..] == t[k + 1..];
    }
  }

  lemma {:induction false} JoinedBehindOne(p: string, q: string, t: string, n: nat)
    requires Plain(p) && p != [] && p[0] != '*' && n == if p[0] == '\\' then 2 else 1
    ensures Matches(p + q, t) <==> Splits(p, q, t)
    decreases |p|, 0
  {
    TakesFirst(p, t, n);
    TakesFirstOf(p, q, t, n);
    hide Matches, Plain, SplitsAt;
    assert (p + q)[n..] == p[n..] + q;
    if t == [] {
      NoneOff(p, q, n);
    } else {
      JoinedPatterns(p[n..], q, t[1..]);
      if Splits(p, q, t) {
        var k: nat :| SplitsAt(p, q, t, k);
        FirstOff(p, q, t, n, if k > 0 then k - 1 else 0);
        assert SplitsAt(p[n..], q, t[1..], k - 1);
      }
      if (p[0] == '?' || t[0] == p[n - 1]) && Splits(p[n..], q, t[1..]) {
        var k: nat :| SplitsAt(p[n..], q, t[1..], k);
        FirstOff(p, q, t, n, k);
        assert SplitsAt(p, q, t, k + 1);
      }
    }
  }

  lemma TakesFirstOf(p: string, q: string, t: string, n: nat)
    requires Plain(p) && p != [] && p[0] != '*' && n == if p[0] == '\\' then 2 else 1
    ensures n <= |p|
    ensures Matches(p + q, t) <==> t != [] && (p[0] == '?' || t[0] == p[n - 1]) && Matches((p + q)[n..], t[1..])
  {
  }

  lemma NoneOff(p: string, q: string, n: nat)
    requires Plain(p) && p != [] && p[0] != '*' && n == if p[0] == '\\' then 2 else 1
    ensures !Splits(p, q, [])
  {
    TakesFirst(p, [], n);
  }

  lemma {:induction false} JoinedBehindStar(p: string, q: string, t: string)
    requires Plain(p) && p != [] && p[0] == '*'
    ensures Matches(p + q, t) <==> Splits(p, q, t)
    decreases |p|, 0
  {
    assert (p + q)[1..] == p[1..] + q;
    if Matches(p + q, t) {
      var j :| 0 <= j <= |t| && Matches(p[1..] + q, t[j..]);
      JoinedPatterns(p[1..], q, t[j..]);
      var k: nat :| SplitsAt(p[1..], q, t[j..], k);
      assert t[j..][..k] == t[..j + k][j..] && t[j..][k..] == t[j + k..];
      StarAt(p, t[..j + k], j);
      assert SplitsAt(p, q, t, j + k);
    }
    if Splits(p, q, t) {
      var m: nat :| SplitsAt(p, q, t, m);
      var j :| 0 <= j <= |t[..m]| && Matches(p[1..], t[..m][j..]);
      assert t[..m][j..] == t[j..][..m - j] && t[j..][m - j..] == t[m..];
      assert SplitsAt(p[1..], q, t[j..], m - j);
      JoinedPatterns(p[1..], q, t[j..]);
      StarAt(p + q, t, j);
    }
  }

  /** The patterns that others are joined of: nothing, any text, any one character, and a character for itself,
      escaped or, if it is none of the special ones, not. */
  lemma OneElement(c: char, t: string)
    ensures Matches([], t) <==> t == []
    ensures Matches(['*'], t)
    ensures Matches(['?'], t) <==> |t| == 1
    ensures Matches(['\\', c], t) <==> t == [c]
    ensures c !in {'*', '?', '\\', '['} ==> (Matches([c], t) <==> t == [c])
  {
    assert t[|t|..] == [];
    StarAt(['*'], t, |t|);
    TakesOne(['?'], t, 1);
    TakesOne(['\\', c], t, 2);
    if c !in {'*', '?', '\\', '['} { TakesOne([c], t, 1); }
  }

  lemma TakesOne(p: string, t: string, n: nat)
    requires Plain(p) && p != [] && p[0] != '*' && n == (if p[0] == '\\' then 2 else 1) == |p|
    ensures Matches(p, t) <==> |t| == 1 && (p[0] == '?' || t[0] == p[n - 1])
  {
    TakesFirst(p, t, n);
    assert p[n..] == [] && (t != [] ==> (t[1..] == [] <==> |t| == 1));
  }

  /** Every character escaped. */
  function Escaped(s: string): string
  {
    if s == [] then [] else ['\\', s[0]] + Escaped(s[1..])
  }

  /** A text with every character escaped is a pattern for that text and no other. */
  lemma {:induction false} EscapedIsLiteral(s: string, t: string)
    ensures Plain(Escaped(s)) && (Matches(Escaped(s), t) <==> s == t)
  {
    if s != [] {
      assert Escaped(s)[2..] == Escaped(s[1..]);
      EscapedIsLiteral(s[1..], if t != [] then t[1..] else t);
    }
  }
}
