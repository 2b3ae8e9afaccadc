/** Info strings (src/shared.c): keys and values, each behind a backslash, in one bounded string. */
module UserInfo {

  const MAX_USER_INFO_KEY := 64
  const MAX_USER_INFO_VALUE := 64
  const MAX_USER_INFO_STRING := 512

  datatype Pair = Pair(key: string, value: string)

  predicate Clean(w: string) { '\\' !in w }

  function EncodePair(p: Pair): string { ['\\'] + p.key + ['\\'] + p.value }

  /** The string that stands for a list of pairs. */
  function Encode(pairs: seq<Pair>): string
  {
    if pairs == [] then [] else EncodePair(pairs[0]) + Encode(pairs[1..])
  }

  predicate Has(pairs: seq<Pair>, key: string) { exists i :: 0 <= i < |pairs| && pairs[i].key == key }

  /** A list that stands for a finite map: no key twice, no backslash in a key or value. */
  predicate IsMap(pairs: seq<Pair>)
  {
    && (forall i {:trigger pairs[i]} :: 0 <= i < |pairs| ==> Clean(pairs[i].key) && Clean(pairs[i].value))
    && forall i, j {:trigger pairs[i], pairs[j]} :: 0 <= i < j < |pairs| ==> pairs[i].key != pairs[j].key
  }

  /** A key without a pair has the empty value. */
  function Lookup(pairs: seq<Pair>, key: string): string
  {
    if pairs == [] then "" else if pairs[0].key == key then pairs[0].value else Lookup(pairs[1..], key)
  }

  function Without(pairs: seq<Pair>, key: string): seq<Pair>
  {
    if pairs == [] then [] else if pairs[0].key == key then pairs[1..] else [pairs[0]] + Without(pairs[1..], key)
  }

  // ----- the string operations

  /** The length of what stands before the next backslash, or the end. */
  function Span(s: string): (n: nat)
    ensures n <= |s| && Clean(s[..n]) && (n < |s| ==> s[n] == '\\')
  {
    if s == [] || s[0] == '\\' then 0
    else
      assert s[..Span(s[1..]) + 1] == [s[0]] + s[1..][..Span(s[1..])];
      1 + Span(s[1..])
  }

  /** The search from a key on. */
  function GetFrom(s: string, key: string): string
  {
    var k := Span(s);
    if k == |s| then ""
    else
      var rest := s[k + 1..];
      var v := Span(rest);
      if s[..k] == key then rest[..v] else if v == |rest| then "" else GetFrom(rest[v + 1..], key)
  }

  /** One backslash skipped, if there is one. */
  function Past(s: string): (n: nat)
    ensures n <= |s| && n <= 1
  {
    if s != [] && s[0] == '\\' then 1 else 0
  }

  function Get(s: string, key: string): string { GetFrom(s[Past(s)..], key) }

  /** Where the first key of a string begins and ends, and where its value ends; there may be no value. */
  datatype Cut = Cut(key: nat, keyEnd: nat, valueEnd: nat)

  function FirstCut(s: string): (c: Cut)
    ensures c.key <= c.keyEnd <= c.valueEnd <= |s| && (c.keyEnd < |s| ==> c.keyEnd < c.valueEnd)
  {
    var i := Past(s);
    var k := i + Span(s[i..]);
    Cut(i, k, if k == |s| then |s| else k + 1 + Span(s[k + 1..]))
  }

  function DeleteFrom(s: string, key: string): string
  {
    var c := FirstCut(s);
    if c.keyEnd == |s| then s
    else if s[c.key..c.keyEnd] == key then s[c.valueEnd..]
    else if c.valueEnd == |s| then s
    else s[..c.valueEnd] + DeleteFrom(s[c.valueEnd..], key)
  }

  function Delete(s: string, key: string): string { if '\\' in key then s else DeleteFrom(s, key) }

  predicate Legal(key: string, value: string)
  {
    && '\\' !in key && '\\' !in value && ';' !in key && '"' !in key && '"' !in value
    && |key| < MAX_USER_INFO_KEY && |value| < MAX_USER_INFO_VALUE
  }

  /** Control characters are left out, and the high bit is. */
  function Printable(s: string): string
  {
    if s == [] then []
    else
      var c := s[0] as int % 128;
      (if 32 <= c < 127 then [c as char] else []) + Printable(s[1..])
  }

  /** The old pair is gone before the room for the new one is measured. */
  function Set(s: string, key: string, value: string): string
  {
    if !Legal(key, value) then s
    else
      var s := Delete(s, key);
      var newi := EncodePair(Pair(key, value));
      if value == "" || |newi| + |s| > MAX_USER_INFO_STRING then s else s + Printable(newi)
  }

  // ----- on strings that stand for maps

  lemma {:induction false} SpanFinds(w: string, tail: string)
    requires Clean(w) && (tail != [] ==> tail[0] == '\\')
    ensures Span(w + tail) == |w|
  {
    if w != [] {
      assert (w + tail)[1..] == w[1..] + tail;
      SpanFinds(w[1..], tail);
    }
  }

  /** Cutting the first pair off a string. */
  lemma PairStands(s: string, key: string, value: string, tail: string)
    requires s == ['\\'] + key + ['\\'] + value + tail && Clean(key) && Clean(value) && (tail != [] ==> tail[0] == '\\')
    ensures var k := 1 + |key|; var v := k + 1 + |value|;
      && v <= |s| && s[0] == '\\' && s[k] == '\\' && s[1..k] == key && s[k + 1..v] == value && s[v..] == tail
      && s[..v] == ['\\'] + key + ['\\'] + value && Span(s[1..]) == |key| && Span(s[k + 1..]) == |value|
  {
    assert s[1..] == key + (['\\'] + value + tail);
    SpanFinds(key, ['\\'] + value + tail);
    assert s[2 + |key|..] == value + tail;
    SpanFinds(value, tail);
  }

  lemma EncodeStarts(pairs: seq<Pair>)
    ensures pairs == [] <==> Encode(pairs) == []
    ensures pairs != [] ==> Encode(pairs)[0] == '\\'
  {
  }

  lemma {:induction false} GetParts(t: string, k: nat, rest: string, v: nat, key: string)
    requires Span(t) == k < |t| && rest == t[k + 1..] && Span(rest) == v
    ensures GetFrom(t, key) ==
      if t[..k] == key then rest[..v] else if v == |rest| then "" else GetFrom(rest[v + 1..], key)
  {
    hide Span;
  }

  lemma {:induction false} GetStep(s: string, k: string, v: string, tail: string, key: string)
    requires s == ['\\'] + k + ['\\'] + v + tail && Clean(k) && Clean(v) && (tail != [] ==> tail[0] == '\\')
    ensures GetFrom(s[1..], key) == if k == key then v else if tail == [] then "" else GetFrom(tail[1..], key)
  {
    PairStands(s, k, v, tail);
    hide Clean, Span, GetFrom;
    var t, n := s[1..], |k|;
    var rest := t[n + 1..];
    assert t[..n] == k && t[n] == '\\' && rest == s[n + 2..] == v + tail;
    assert rest[..|v|] == v && rest[|v|..] == tail;
    GetParts(t, n, rest, |v|, key);
    if tail != [] { assert rest[|v| + 1..] == tail[1..]; }
  }

  lemma {:induction false} GetFinds(pairs: seq<Pair>, key: string)
    requires IsMap(pairs) && pairs != []
    ensures Encode(pairs) != [] && GetFrom(Encode(pairs)[1..], key) == Lookup(pairs, key)
  {
    var s, p, tail := Encode(pairs), pairs[0], Encode(pairs[1..]);
    EncodeStarts(pairs[1..]);
    GetStep(s, p.key, p.value, tail, key);
    hide Encode, Clean, GetFrom;
    if p.key != key && |pairs| > 1 {
      GetFinds(pairs[1..], key);
    }
  }

  lemma GetIsLookup(pairs: seq<Pair>, key: string)
    requires IsMap(pairs)
    ensures Get(Encode(pairs), key) == Lookup(pairs, key)
  {
    EncodeStarts(pairs);
    if pairs != [] { GetFinds(pairs, key); }
  }

  lemma DeleteStep(s: string, k: string, v: string, tail: string, key: string)
    requires s == ['\\'] + k + ['\\'] + v + tail && Clean(k) && Clean(v) && (tail != [] ==> tail[0] == '\\')
    ensures DeleteFrom(s, key) ==
      if k == key then tail else if tail == [] then s else ['\\'] + k + ['\\'] + v + DeleteFrom(tail, key)
  {
    PairStands(s, k, v, tail);
    assert FirstCut(s) == Cut(1, 1 + |k|, 2 + |k| + |v|);
    hide Clean, Span, FirstCut;
  }

  lemma DeleteFirst(pairs: seq<Pair>, key: string)
    requires pairs != [] && Clean(pairs[0].key) && Clean(pairs[0].value)
    ensures DeleteFrom(Encode(pairs), key) ==
      if pairs[0].key == key then Encode(pairs[1..])
      else if Encode(pairs[1..]) == [] then Encode(pairs)
      else EncodePair(pairs[0]) + DeleteFrom(Encode(pairs[1..]), key)
  {
    EncodeStarts(pairs[1..]);
    assert Encode(pairs) == EncodePair(pairs[0]) + Encode(pairs[1..]);
    hide Clean, Encode, DeleteFrom;
    DeleteStep(Encode(pairs), pairs[0].key, pairs[0].value, Encode(pairs[1..]), key);
  }

  lemma WithoutFirst(pairs: seq<Pair>, key: string)
    requires pairs != []
    ensures Encode(Without(pairs, key)) ==
      if pairs[0].key == key then Encode(pairs[1..]) else EncodePair(pairs[0]) + Encode(Without(pairs[1..], key))
    ensures Encode(pairs) == EncodePair(pairs[0]) + Encode(pairs[1..])
    ensures Encode(pairs[1..]) == [] ==> Encode(Without(pairs[1..], key)) == []
  {
    if pairs[0].key != key { EncodeFirst(pairs[0], Without(pairs[1..], key)); }
    EncodeStarts(pairs[1..]);
  }

  lemma {:induction false} DeleteFinds(pairs: seq<Pair>, key: string)
    requires IsMap(pairs)
    ensures DeleteFrom(Encode(pairs), key) == Encode(Without(pairs, key))
  {
    if pairs != [] {
      assert Clean(pairs[0].key) && Clean(pairs[0].value);
      DeleteFinds(pairs[1..], key);
      hide Clean, IsMap, Encode, DeleteFrom, Without, EncodePair;
      DeleteFirst(pairs, key);
      WithoutFirst(pairs, key);
    } else {
      EncodeStarts(pairs);
    }
  }

  lemma EncodeFirst(p: Pair, rest: seq<Pair>)
    ensures Encode([p] + rest) == ['\\'] + p.key + ['\\'] + p.value + Encode(rest)
  {
    assert ([p] + rest)[1..] == rest;
  }

  lemma {:induction false} EncodeLast(pairs: seq<Pair>, p: Pair)
    ensures Encode(pairs + [p]) == Encode(pairs) + (['\\'] + p.key + ['\\'] + p.value)
  {
    if pairs != [] {
      EncodeLast(pairs[1..], p);
      assert (pairs + [p])[1..] == pairs[1..] + [p];
    } else {
      assert [] + [p] == [p];
    }
  }

  lemma {:induction false} WithoutMeans(pairs: seq<Pair>, key: string, other: string)
    requires IsMap(pairs)
    ensures IsMap(Without(pairs, key)) && !Has(Without(pairs, key), key)
    ensures forall p :: p in Without(pairs, key) ==> p in pairs
    ensures Lookup(Without(pairs, key), other) == if other == key then "" else Lookup(pairs, other)
  {
    if pairs != [] {
      WithoutMeans(pairs[1..], key, other);
      var rest := Without(pairs[1..], key);
      if pairs[0].key == key {
        assert forall i :: 0 <= i < |pairs| - 1 ==> pairs[1..][i] == pairs[i + 1];
        NotHas(pairs[1..], key);
      } else {
        forall i | 0 <= i < |rest|
          ensures rest[i].key != pairs[0].key && Clean(rest[i].key) && Clean(rest[i].value)
        {
          assert rest[i] in rest && rest[i] in pairs[1..];
        }
        assert ([pairs[0]] + rest)[1..] == rest;
      }
    }
  }

  lemma {:induction false} NotHas(pairs: seq<Pair>, key: string)
    requires !Has(pairs, key)
    ensures Lookup(pairs, key) == ""
  {
    if pairs != [] {
      assert pairs[0].key != key;
      assert forall i :: 0 <= i < |pairs| - 1 ==> pairs[1..][i] == pairs[i + 1];
      NotHas(pairs[1..], key);
    }
  }

  lemma {:induction false} LookupLast(pairs: seq<Pair>, p: Pair, key: string)
    ensures Lookup(pairs + [p], key) == if Has(pairs, key) || key != p.key then Lookup(pairs, key) else p.value
  {
    if pairs != [] {
      LookupLast(pairs[1..], p, key);
      assert (pairs + [p])[1..] == pairs[1..] + [p];
      assert Has(pairs, key) <==> pairs[0].key == key || Has(pairs[1..], key) by { HasStep(pairs, key); }
    } else {
      assert [] + [p] == [p];
    }
  }

  lemma HasStep(pairs: seq<Pair>, key: string)
    requires pairs != []
    ensures Has(pairs, key) <==> pairs[0].key == key || Has(pairs[1..], key)
  {
    if i :| 0 <= i < |pairs[1..]| && pairs[1..][i].key == key { assert pairs[i + 1].key == key; }
    if i :| 0 <= i < |pairs| && pairs[i].key == key {
      if i > 0 { assert pairs[1..][i - 1].key == key; }
    }
  }

  predicate AllPrintable(s: string) { forall i :: 0 <= i < |s| ==> 32 <= s[i] as int < 127 }

  lemma {:induction false} PrintableKeeps(s: string)
    requires AllPrintable(s)
    ensures Printable(s) == s
  {
    if s != [] { PrintableKeeps(s[1..]); }
  }

  /** A character loses its high bit; what is then not printable is dropped. */
  lemma PrintableOne(c: char)
    ensures var low := if c as int % 256 >= 128 then c as int % 256 - 128 else c as int % 256;
      Printable([c]) == if 32 <= low <= 126 then [low as char] else []
  {
    assert c as int % 128 == (if c as int % 256 >= 128 then c as int % 256 - 128 else c as int % 256);
    assert [c][1..] == [];
  }

  /** Text is filtered character by character, and what is left is printable. */
  lemma {:induction false} PrintableJoins(s: string, t: string)
    ensures Printable(s + t) == Printable(s) + Printable(t) && AllPrintable(Printable(s))
  {
    if s != [] {
      assert (s + t)[1..] == s[1..] + t;
      PrintableJoins(s[1..], t);
      PrintableFirst(s);
      PrintableFirst(s + t);
      hide Printable;
    } else {
      assert s + t == t;
    }
  }

  lemma PrintableFirst(s: string)
    requires s != []
    ensures Printable(s) == Printable([s[0]]) + Printable(s[1..]) && AllPrintable(Printable([s[0]]))
  {
    assert [s[0]][1..] == [];
  }

  /** Setting a key of a map: the pairs that result. */
  function SetPairs(pairs: seq<Pair>, key: string, value: string): seq<Pair>
  {
    if !Legal(key, value) then pairs
    else
      var rest := Without(pairs, key);
      if value == "" || 2 + |key| + |value| + |Encode(rest)| > MAX_USER_INFO_STRING then rest
      else rest + [Pair(key, value)]
  }

  /** On strings that stand for maps, setting is updating the map; a value that does not fit, like an empty
      one, leaves the key without one. */
  lemma SetUpdates(pairs: seq<Pair>, key: string, value: string, other: string)
    requires IsMap(pairs) && AllPrintable(key) && AllPrintable(value)
    ensures Set(Encode(pairs), key, value) == Encode(SetPairs(pairs, key, value)) && IsMap(SetPairs(pairs, key, value))
    ensures var after := Get(Set(Encode(pairs), key, value), other);
      if !Legal(key, value) || other != key then after == Get(Encode(pairs), other)
      else if 2 + |key| + |value| + |Encode(Without(pairs, key))| > MAX_USER_INFO_STRING then after == ""
      else after == value
  {
    GetIsLookup(pairs, other);
    if Legal(key, value) {
      SetIsEncoded(pairs, key, value);
      SetLooksUp(pairs, key, value, other);
      GetIsLookup(SetPairs(pairs, key, value), other);
    }
  }

  lemma SetIsEncoded(pairs: seq<Pair>, key: string, value: string)
    requires IsMap(pairs) && AllPrintable(key) && AllPrintable(value) && Legal(key, value)
    ensures Set(Encode(pairs), key, value) == Encode(SetPairs(pairs, key, value))
  {
    hide DeleteFrom, Without, IsMap;
    DeleteFinds(pairs, key);
    EncodeLast(Without(pairs, key), Pair(key, value));
    PrintableKeeps(['\\'] + key + ['\\'] + value);
    hide Encode, Printable;
  }

  lemma SetLooksUp(pairs: seq<Pair>, key: string, value: string, other: string)
    requires IsMap(pairs) && Legal(key, value)
    ensures IsMap(SetPairs(pairs, key, value))
    ensures Lookup(SetPairs(pairs, key, value), other) ==
      if other != key then Lookup(pairs, other)
      else if 2 + |key| + |value| + |Encode(Without(pairs, key))| > MAX_USER_INFO_STRING then "" else value
  {
    hide Encode, Lookup, Without;
    var rest := Without(pairs, key);
    WithoutMeans(pairs, key, other);
    LookupLast(rest, Pair(key, value), other);
    MapGrows(rest, Pair(key, value));
    NotHas(rest, key);
  }

  lemma MapGrows(pairs: seq<Pair>, p: Pair)
    requires IsMap(pairs) && !Has(pairs, p.key) && Clean(p.key) && Clean(p.value)
    ensures IsMap(pairs + [p])
  {
  }

  // ----- the size of the string

  lemma {:induction false} DeleteShrinks(s: string, key: string)
    ensures |DeleteFrom(s, key)| <= |s|
  {
    hide Clean, FirstCut;
    DeleteRound(s, key);
    var c := FirstCut(s);
    if c.keyEnd != |s| && s[c.key..c.keyEnd] != key && c.valueEnd != |s| { DeleteShrinks(s[c.valueEnd..], key); }
  }

  lemma {:induction false} PrintableShrinks(s: string)
    ensures |Printable(s)| <= |s|
  {
    if s != [] { PrintableShrinks(s[1..]); }
  }

  /** A string that fits its buffer, its terminator included, still does after a pair is set, exactly unless
      the new pair fills the buffer to the last character: the measure leaves no room for the terminator. */
  lemma SetFits(s: string, key: string, value: string)
    requires |s| < MAX_USER_INFO_STRING
    ensures |Set(s, key, value)| < MAX_USER_INFO_STRING <==>
      !(Legal(key, value) && value != "" && |EncodePair(Pair(key, value))| + |Delete(s, key)| == MAX_USER_INFO_STRING
        && |Printable(EncodePair(Pair(key, value)))| == |EncodePair(Pair(key, value))|)
  {
    hide DeleteFrom, Printable;
    DeleteShrinks(s, key);
    PrintableShrinks(EncodePair(Pair(key, value)));
  }

  function Long(c: char, n: nat): (r: string)
    ensures |r| == n && forall i :: 0 <= i < n ==> r[i] == c
  {
    seq(n, _ => c)
  }

  function LongPair(c: char, n: nat): Pair { Pair(Long(c, MAX_USER_INFO_KEY - 1), Long(c, n)) }

  lemma EncodeSize(pairs: seq<Pair>, p: Pair)
    ensures |Encode(pairs + [p])| == |Encode(pairs)| + 2 + |p.key| + |p.value|
  {
    EncodeLast(pairs, p);
  }

  /** A new key joins the pairs when there is room by the program's measure. */
  lemma SetAppends(pairs: seq<Pair>, p: Pair)
    requires IsMap(pairs) && !Has(pairs, p.key) && Legal(p.key, p.value) && AllPrintable(p.key) && AllPrintable(p.value)
    requires p.value != ""
    requires 2 + |p.key| + |p.value| + |Encode(pairs)| <= MAX_USER_INFO_STRING
    ensures Set(Encode(pairs), p.key, p.value) == Encode(pairs + [p]) && IsMap(pairs + [p])
  {
    hide Encode, Printable;
    WithoutAbsent(pairs, p.key);
    SetIsEncoded(pairs, p.key, p.value);
    MapGrows(pairs, p);
  }

  lemma {:induction false} WithoutAbsent(pairs: seq<Pair>, key: string)
    requires !Has(pairs, key)
    ensures Without(pairs, key) == pairs
  {
    if pairs != [] {
      HasStep(pairs, key);
      WithoutAbsent(pairs[1..], key);
    }
  }

  lemma LongPairOk(c: char, n: nat)
    requires 'a' <= c <= 'z' && 0 < n < MAX_USER_INFO_VALUE
    ensures var p := LongPair(c, n);
      && Legal(p.key, p.value) && AllPrintable(p.key) && AllPrintable(p.value) && p.value != ""
      && |p.key| == 63 && |p.value| == n && p.key[0] == c
  {
  }

  /** Settings one after the other, each of the greatest size, for the key and the value made of one letter. */
  function SetAll(letters: string): string
  {
    if letters == [] then ""
    else
      var c := letters[|letters| - 1];
      Set(SetAll(letters[..|letters| - 1]), Long(c, 63), Long(c, 63))
  }

  function LongPairs(letters: string): (r: seq<Pair>)
  {
    if letters == [] then [] else LongPairs(letters[..|letters| - 1]) + [LongPair(letters[|letters| - 1], 63)]
  }

  ghost predicate Letters(letters: string)
  {
    && |letters| <= 4 && (forall i {:trigger letters[i]} :: 0 <= i < |letters| ==> 'a' <= letters[i] <= 'z')
    && forall i, j {:trigger letters[i], letters[j]} :: 0 <= i < j < |letters| ==> letters[i] != letters[j]
  }

  lemma {:induction false} LongPairsAre(letters: string)
    ensures |LongPairs(letters)| == |letters|
    ensures forall i :: 0 <= i < |letters| ==> LongPairs(letters)[i] == LongPair(letters[i], 63)
  {
    if letters != [] { LongPairsAre(letters[..|letters| - 1]); }
  }

  lemma {:induction false} SetAllIsEncoded(letters: string)
    requires Letters(letters)
    ensures SetAll(letters) == Encode(LongPairs(letters)) && IsMap(LongPairs(letters))
    ensures |SetAll(letters)| == 128 * |letters|
    decreases |letters|
  {
    if letters != [] {
      var n := |letters| - 1;
      var c, pairs := letters[n], LongPairs(letters[..n]);
      SetAllIsEncoded(letters[..n]);
      LongPairsAre(letters[..n]);
      LongPairOk(c, 63);
      NotAmong(pairs, letters[..n], c);
      assert LongPair(c, 63) == Pair(Long(c, 63), Long(c, 63));
      hide Set, Encode, Legal, Long, LongPair, AllPrintable, IsMap, Has;
      EncodeSize(pairs, LongPair(c, 63));
      SetAppends(pairs, LongPair(c, 63));
    }
  }

  lemma NotAmong(pairs: seq<Pair>, letters: string, c: char)
    requires |pairs| == |letters| && c !in letters
    requires forall i :: 0 <= i < |letters| ==> pairs[i] == LongPair(letters[i], 63)
    ensures !Has(pairs, LongPair(c, 63).key)
  {
    forall i | 0 <= i < |pairs|
      ensures pairs[i].key != LongPair(c, 63).key
    {
      assert pairs[i].key[0] == letters[i] && LongPair(c, 63).key[0] == c;
    }
  }

  /** Four settings, each of them legal, fill the buffer to the last character and leave no room for the
      terminator. */
  lemma FourFillTheBuffer(letters: string)
    requires Letters(letters) && |letters| == 4
    ensures SetAll(letters) == Set(SetAll(letters[..3]), Long(letters[3], 63), Long(letters[3], 63))
    ensures Legal(Long(letters[3], 63), Long(letters[3], 63))
    ensures |SetAll(letters[..3])| < MAX_USER_INFO_STRING && |SetAll(letters)| == MAX_USER_INFO_STRING
  {
    LongPairOk(letters[3], 63);
    SetAllIsEncoded(letters[..3]);
    SetAllIsEncoded(letters);
  }

  /** A map of nearly the full size. */
  function NearlyFull(): seq<Pair>
  {
    [Pair("k", "v"), LongPair('a', 63), LongPair('b', 63), LongPair('c', 63), LongPair('d', 50)]
  }

  lemma NearlyFullIsMap()
    ensures IsMap(NearlyFull())
  {
    LongPairOk('a', 63);
    LongPairOk('b', 63);
    LongPairOk('c', 63);
    LongPairOk('d', 50);
    hide LongPair, Long;
  }

  lemma NearlyFullSize()
    ensures |Encode(NearlyFull())| == 503 && |Encode(NearlyFull()[1..])| == 499
  {
    var a, b, c, d := LongPair('a', 63), LongPair('b', 63), LongPair('c', 63), LongPair('d', 50);
    var rest := [a, b, c, d];
    assert |Encode([])| == 0 && NearlyFull() == [Pair("k", "v")] + rest && NearlyFull()[1..] == rest;
    hide Encode, LongPair, NearlyFull;
    assert [] + [a] == [a] && [a] + [b] == [a, b] && [a, b] + [c] == [a, b, c] && [a, b, c] + [d] == rest;
    LongPairOk('a', 63);
    LongPairOk('b', 63);
    LongPairOk('c', 63);
    LongPairOk('d', 50);
    EncodeSize([], a);
    EncodeSize([a], b);
    EncodeSize([a, b], c);
    EncodeSize([a, b, c], d);
    EncodeFirst(Pair("k", "v"), rest);
  }

  /** A longer value for a key can take the key away: here the pair it had is gone and there is no room for the
      new one. */
  lemma LongerValueLosesKey()
    ensures var s := Encode(NearlyFull());
      && |s| < MAX_USER_INFO_STRING && Legal("k", Long('w', 63))
      && Get(s, "k") == "v" && Get(Set(s, "k", Long('w', 63)), "k") == ""
  {
    NearlyFullIsMap();
    NearlyFullSize();
    assert Without(NearlyFull(), "k") == NearlyFull()[1..] && Lookup(NearlyFull(), "k") == "v";
    assert AllPrintable("k") && AllPrintable(Long('w', 63));
    hide Encode, NearlyFull, Without, Lookup, IsMap, Set, Get, AllPrintable;
    GetIsLookup(NearlyFull(), "k");
    SetUpdates(NearlyFull(), "k", Long('w', 63), "k");
  }

  // ----- in place

  lemma SpanStep(s: string, i: nat)
    requires i <= |s|
    ensures i == |s| || s[i] == '\\' ==> Span(s[i..]) == 0
    ensures i < |s| && s[i] != '\\' ==> Span(s[i..]) == 1 + Span(s[i + 1..])
  {
    if i < |s| { assert s[i..][1..] == s[i + 1..]; }
  }

  /** Copies out what stands before the next backslash. */
  method ReadWord(s: string) returns (w: string, n: nat)
    ensures n == Span(s) && w == s[..n]
  {
    w, n := "", 0;
    assert s[0..] == s;
    while n < |s| && s[n] != '\\'
      invariant 0 <= n <= |s| && w == s[..n] && n + Span(s[n..]) == Span(s)
    {
      SpanStep(s, n);
      w := w + [s[n]];
      n := n + 1;
    }
    SpanStep(s, n);
  }

  method GetUserInfo(s: string, key: string) returns (value: string)
    ensures value == Get(s, key)
  {
    hide Clean, Span;
    var rest := s[Past(s)..];
    while true
      invariant Get(s, key) == GetFrom(rest, key)
      decreases |rest|
    {
      var pkey, k := ReadWord(rest);
      if k == |rest| {
        return "";
      }
      var behind := rest[k + 1..];
      var v;
      value, v := ReadWord(behind);
      if key == pkey {
        return;
      }
      if v == |behind| {
        return "";
      }
      rest := behind[v + 1..];
    }
  }

  /** Reads past the first key and its value, if it has one. */
  method ReadPair(s: string) returns (key: string, c: Cut)
    ensures c == FirstCut(s) && key == s[c.key..c.keyEnd]
  {
    hide Clean, Span;
    var i := Past(s);
    var n;
    key, n := ReadWord(s[i..]);
    var k := i + n;
    assert s[i..][..n] == s[i..k];
    if k == |s| {
      return key, Cut(i, k, k);
    }
    var value, m := ReadWord(s[k + 1..]);
    return key, Cut(i, k, k + 1 + m);
  }

  lemma DeleteRound(s: string, key: string)
    ensures var c := FirstCut(s);
      DeleteFrom(s, key) ==
        if c.keyEnd == |s| then s
        else if s[c.key..c.keyEnd] == key then s[c.valueEnd..]
        else if c.valueEnd == |s| then s
        else s[..c.valueEnd] + DeleteFrom(s[c.valueEnd..], key)
  {
  }

  class InfoString {
    var text: string

    method DeleteUserInfo(key: string)
      modifies this
      ensures text == Delete(old(text), key)
    {
      hide Clean, Span, FirstCut, DeleteFrom;
      if '\\' in key {
        return;
      }
      var start, rest := 0, text;
      while true
        invariant start <= |text| && text == old(text) && rest == text[start..]
        invariant text[..start] + DeleteFrom(rest, key) == DeleteFrom(text, key)
        decreases |rest|
      {
        assert text[..start] + rest == text;
        DeleteRound(rest, key);
        var pkey, c := ReadPair(rest);
        if c.keyEnd == |rest| {
          return;
        }
        if key == pkey {
          text := text[..start] + rest[c.valueEnd..];
          return;
        }
        if c.valueEnd == |rest| {
          return;
        }
        var v := c.valueEnd;
        Shift(text, start, v, DeleteFrom(rest[v..], key));
        start, rest := start + v, rest[v..];
      }
    }

    method SetUserInfo(key: string, value: string)
      modifies this
      ensures text == Set(old(text), key, value)
    {
      hide Delete, Printable;
      if '\\' in key || '\\' in value {
        return;
      }
      if ';' in key {
        return;
      }
      if '"' in key || '"' in value {
        return;
      }
      if |key| > MAX_USER_INFO_KEY - 1 || |value| > MAX_USER_INFO_VALUE - 1 {
        return;
      }
      DeleteUserInfo(key);
      if value == "" {
        return;
      }
      var newi := ['\\'] + key + ['\\'] + value;
      if |newi| + |text| > MAX_USER_INFO_STRING {
        return;
      }
      ghost var rest := text;
      var v := 0;
      assert newi[0..] == newi;
      while v < |newi|
        invariant 0 <= v <= |newi| && text + Printable(newi[v..]) == rest + Printable(newi)
      {
        PrintableStep(newi, v);
        var c := newi[v] as int % 128;
        v := v + 1;
        if 32 <= c < 127 {
          text := text + [c as char];
        }
      }
      PrintableNone();
      assert newi[v..] == [];
    }
  }

  lemma Shift(s: string, start: nat, v: nat, tail: string)
    requires start + v <= |s|
    ensures s[..start] + (s[start..][..v] + tail) == s[..start + v] + tail
    ensures s[start..][v..] == s[start + v..]
  {
  }

  lemma PrintableNone()
    ensures Printable([]) == []
  {
  }

  lemma PrintableStep(s: string, i: nat)
    requires i < |s|
    ensures var c := s[i] as int % 128;
      Printable(s[i..]) == (if 32 <= c < 127 then [c as char] else []) + Printable(s[i + 1..])
  {
    assert s[i..][1..] == s[i + 1..];
  }
}
