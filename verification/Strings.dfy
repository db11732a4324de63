/** XString's count, split and replaceAll: three loops over the same leftmost, non-overlapping occurrences. */
module Strings {

  import opened Wrappers

  predicate OccursAt(s: string, pattern: string, i: int) {
    0 <= i <= |s| - |pattern| && s[i..i + |pattern|] == pattern
  }

  /** std::wstring::find: the leftmost occurrence at or after a position. */
  function Find(s: string, pattern: string, from: nat): (r: Option<nat>)
    ensures r.Some? ==> from <= r.value <= |s| - |pattern|
    decreases |s| - from
  {
    if from + |pattern| > |s| then None
    else if OccursAt(s, pattern, from) then Some(from)
    else Find(s, pattern, from + 1)
  }

  lemma {:induction false} FindIsLeftmost(s: string, pattern: string, from: nat)
    ensures var r := Find(s, pattern, from);
      && (r.Some? ==> OccursAt(s, pattern, r.value) && forall i :: from <= i < r.value ==> !OccursAt(s, pattern, i))
      && (r.None? ==> forall i :: from <= i ==> !OccursAt(s, pattern, i))
    decreases |s| - from
  {
    if from + |pattern| <= |s| && !OccursAt(s, pattern, from) {
      FindIsLeftmost(s, pattern, from + 1);
    }
  }

  predicate Contains(s: string, pattern: string) {
    Find(s, pattern, 0).Some?
  }

  // ----- The cutting of a string, as a definition on its own

  /** Every piece is followed by the separator. */
  function Joined(pieces: seq<string>, sep: string): string {
    if pieces == [] then "" else pieces[0] + sep + Joined(pieces[1..], sep)
  }

  /** The pieces and the tail make up the string; each piece ends at the leftmost occurrence of the
      separator in what is left, and the tail has none. */
  predicate IsCutting(s: string, sep: string, pieces: seq<string>, tail: string) {
    if pieces == [] then s == tail && !Contains(s, sep)
    else
      && Find(s, sep, 0) == Some(|pieces[0]|)
      && s[..|pieces[0]|] == pieces[0]
      && IsCutting(s[|pieces[0]| + |sep|..], sep, pieces[1..], tail)
  }

  function Pieces(s: string, sep: string): seq<string>
    requires sep != ""
    decreases |s|
  {
    var k := Find(s, sep, 0);
    if k.None? then [] else [s[..k.value]] + Pieces(s[k.value + |sep|..], sep)
  }

  function Tail(s: string, sep: string): string
    requires sep != ""
    decreases |s|
  {
    var k := Find(s, sep, 0);
    if k.None? then s else Tail(s[k.value + |sep|..], sep)
  }

  lemma {:induction false} PiecesAreCutting(s: string, sep: string)
    requires sep != ""
    ensures IsCutting(s, sep, Pieces(s, sep), Tail(s, sep))
    decreases |s|
  {
    var k := Find(s, sep, 0);
    if k.Some? {
      var rest := s[k.value + |sep|..];
      hide Find, OccursAt;
      PiecesAreCutting(rest, sep);
      assert Pieces(s, sep) == [s[..k.value]] + Pieces(rest, sep);
      assert Pieces(s, sep)[1..] == Pieces(rest, sep);
    }
  }

  /** There is only one cutting of a string. */
  lemma {:induction false} CuttingIsUnique(s: string, sep: string, pieces: seq<string>, tail: string)
    requires sep != "" && IsCutting(s, sep, pieces, tail)
    ensures pieces == Pieces(s, sep) && tail == Tail(s, sep)
    decreases |s|
  {
    if pieces != [] {
      CuttingIsUnique(s[|pieces[0]| + |sep|..], sep, pieces[1..], tail);
      assert pieces == [pieces[0]] + pieces[1..];
    }
  }

  lemma {:induction false} Reassociate(a: string, b: string, c: string)
    ensures a + (b + c) == (a + b) + c
  {
  }

  lemma {:induction false} CuttingJoins(s: string, sep: string, pieces: seq<string>, tail: string)
    requires IsCutting(s, sep, pieces, tail)
    ensures s == Joined(pieces, sep) + tail && !Contains(tail, sep)
    decreases |pieces|
  {
    hide Find, OccursAt, Contains;
    if pieces != [] {
      var k := |pieces[0]|;
      FirstPiece(s, sep, k);
      var rest := s[k + |sep|..];
      CuttingJoins(rest, sep, pieces[1..], tail);
      assert s == pieces[0] + sep + rest;
      assert Joined(pieces, sep) == pieces[0] + sep + Joined(pieces[1..], sep);
      hide IsCutting, Joined;
      Reassociate(pieces[0] + sep, Joined(pieces[1..], sep), tail);
    }
  }

  lemma {:induction false} CuttingIsTight(s: string, sep: string, pieces: seq<string>, tail: string, i: nat)
    requires sep != "" && IsCutting(s, sep, pieces, tail) && i < |pieces|
    ensures !Contains(pieces[i], sep)
    decreases |pieces|
  {
    hide Find, OccursAt, Contains;
    FirstPiece(s, sep, |pieces[0]|);
    if i > 0 {
      CuttingIsTight(s[|pieces[0]| + |sep|..], sep, pieces[1..], tail, i - 1);
    }
  }

  /** A cutting loses nothing, and neither the pieces nor the tail contain the separator. */
  lemma {:induction false} CuttingReconstructs(s: string, sep: string, pieces: seq<string>, tail: string)
    requires IsCutting(s, sep, pieces, tail)
    ensures s == Joined(pieces, sep) + tail && !Contains(tail, sep)
    ensures sep != "" ==> forall i :: 0 <= i < |pieces| ==> !Contains(pieces[i], sep)
  {
    CuttingJoins(s, sep, pieces, tail);
    hide Contains, IsCutting, Joined;
    if sep != "" {
      forall i | 0 <= i < |pieces| ensures !Contains(pieces[i], sep) {
        CuttingIsTight(s, sep, pieces, tail, i);
      }
    }
  }

  /** The part before the leftmost occurrence does not contain the separator. */
  lemma {:induction false} FirstPiece(s: string, sep: string, k: nat)
    requires Find(s, sep, 0) == Some(k)
    ensures k + |sep| <= |s| && s == s[..k] + sep + s[k + |sep|..]
    ensures sep != "" ==> !Contains(s[..k], sep)
  {
    hide Find;
    FindIsLeftmost(s, sep, 0);
    assert s[k..k + |sep|] == sep;
    assert s == s[..k] + s[k..k + |sep|] + s[k + |sep|..];
    FindIsLeftmost(s[..k], sep, 0);
    if sep != "" {
      forall i | 0 <= i <= k - |sep|
        ensures !OccursAt(s[..k], sep, i)
      {
        assert !OccursAt(s, sep, i);
        assert s[..k][i..i + |sep|] == s[i..i + |sep|];
      }
    }
  }

  // ----- find in a suffix

  lemma {:induction false} FindInSuffix(s: string, pattern: string, from: nat, at: nat)
    requires from <= at <= |s|
    ensures var r, r' := Find(s, pattern, at), Find(s[from..], pattern, at - from);
      r.Some? == r'.Some? && (r.Some? ==> r.value == from + r'.value)
    decreases |s| - at
  {
    if at + |pattern| <= |s| {
      assert s[from..][at - from..at - from + |pattern|] == s[at..at + |pattern|];
      if !OccursAt(s, pattern, at) && at < |s| {
        FindInSuffix(s, pattern, from, at + 1);
      }
    }
  }

  lemma {:induction false} PiecesUnfold(s: string, sep: string)
    requires sep != ""
    ensures var k := Find(s, sep, 0);
      Pieces(s, sep) == if k.None? then [] else [s[..k.value]] + Pieces(s[k.value + |sep|..], sep)
  {
    hide Find;
  }

  /** The pieces of a suffix, cut at the first place where a search from its start finds the separator. */
  lemma {:induction false} PiecesOfSuffix(s: string, sep: string, from: nat)
    requires sep != "" && from <= |s|
    ensures var k := Find(s, sep, from);
      Pieces(s[from..], sep) == if k.None? then [] else [s[from..k.value]] + Pieces(s[k.value + |sep|..], sep)
  {
    hide Find, Pieces;
    FindInSuffix(s, sep, from, from);
    PiecesUnfold(s[from..], sep);
    var k := Find(s, sep, from);
    if k.Some? {
      var first, rest := s[from..][..k.value - from], s[from..][k.value - from + |sep|..];
      assert first == s[from..k.value];
      assert rest == s[k.value + |sep|..];
    }
  }

  // ----- The loops

  method Count(s: string, find: string) returns (n: nat)
    ensures n == if find == "" then 0 else |Pieces(s, find)|
  {
    hide Find, OccursAt, Pieces;
    n := 0;
    if find == "" {
      return;
    }
    var idx := 0;
    assert s[0..] == s;
    while true
      invariant idx <= |s| && n + |Pieces(s[idx..], find)| == |Pieces(s, find)|
      decreases |s| - idx
    {
      var at := Find(s, find, idx);
      PiecesOfSuffix(s, find, idx);
      if at.Some? {
        n := n + 1;
        idx := at.value + |find|;
      } else {
        break;
      }
    }
  }

  /** No pieces at all when the loop would not end: see EmptySeparatorStays. */
  method Split(s: string, sep: string) returns (pieces: Option<seq<string>>)
    ensures pieces == if sep == "" then None else Some(Pieces(s, sep))
  {
    hide Find, OccursAt, Pieces;
    var list := [];
    var st := Find(s, sep, 0);
    var current := 0;
    assert s[0..] == s;
    if sep == "" {
      EmptySeparatorStays(s, 0);
    }
    while st.Some?
      invariant current <= |s| && st == Find(s, sep, current) && (sep == "" ==> st.Some?)
      invariant sep != "" ==> list + Pieces(s[current..], sep) == Pieces(s, sep)
      decreases |s| - current
    {
      if sep == "" {
        return None; // the search stays where it is
      }
      PiecesOfSuffix(s, sep, current);
      list := list + [s[current..st.value]];
      current := st.value + |sep|;
      st := Find(s, sep, current);
    }
    PiecesOfSuffix(s, sep, current);
    assert list + [] == list;
    pieces := Some(list);
  }

  /** The documented result of replaceAll: the pieces with the replacement in place of the pattern. */
  function Replaced(s: string, xa: string, xb: string): string {
    if xa == "" then s else Joined(Pieces(s, xa), xb) + Tail(s, xa)
  }

  lemma {:induction false} ReplaceFirst(s: string, xa: string, xb: string)
    requires xa != ""
    ensures var k := Find(s, xa, 0);
      Replaced(s, xa, xb) == if k.None? then s else s[..k.value] + xb + Replaced(s[k.value + |xa|..], xa, xb)
  {
    hide Find;
    PiecesUnfold(s, xa);
    var k := Find(s, xa, 0);
    if k.Some? {
      var rest := s[k.value + |xa|..];
      assert ([s[..k.value]] + Pieces(rest, xa))[1..] == Pieces(rest, xa);
    }
  }

  /** A search that starts after a finished part sees only the rest. */
  lemma {:induction false} FindAfter(done: string, rest: string, pattern: string)
    ensures var r, r' := Find(done + rest, pattern, |done|), Find(rest, pattern, 0);
      r.Some? == r'.Some? && (r.Some? ==> r.value == |done| + r'.value)
  {
    FindInSuffix(done + rest, pattern, |done|, |done|);
    assert (done + rest)[|done|..] == rest;
  }

  /** Replaces in the very string it searches: the part before the search position is finished, and what
      was inserted lies in it. */
  method ReplaceAll(s: string, xa: string, xb: string) returns (tmp: string)
    ensures tmp == Replaced(s, xa, xb)
  {
    hide Find, Replaced;
    if xa == "" {
      ReplacedByEmpty(s, xb);
      return s;
    }
    tmp := s;
    ghost var done, rest := "", s;
    var idx := Find(tmp, xa, 0);
    while idx.Some?
      invariant tmp == done + rest && idx == Find(tmp, xa, |done|)
      invariant done + Replaced(rest, xa, xb) == Replaced(s, xa, xb)
      decreases |rest|
    {
      FindAfter(done, rest, xa);
      ReplaceFirst(rest, xa, xb);
      ghost var k := Find(rest, xa, 0).value;
      ghost var first, last := rest[..k], rest[k + |xa|..];
      assert tmp[..idx.value] == done + first && tmp[idx.value + |xa|..] == last;
      assert done + (first + xb + Replaced(last, xa, xb)) == (done + first + xb) + Replaced(last, xa, xb);
      done, rest := done + first + xb, last;
      tmp := tmp[..idx.value] + xb + tmp[idx.value + |xa|..];
      idx := Find(tmp, xa, idx.value + |xb|);
    }
    FindAfter(done, rest, xa);
    ReplaceFirst(rest, xa, xb);
  }

  lemma {:induction false} ReplacedByEmpty(s: string, xb: string)
    ensures Replaced(s, "", xb) == s
  {
  }

  // ----- What the three have to do with each other

  function Times(n: nat, d: int): int {
    n * d
  }

  lemma {:induction false} TimesStep(n: nat, d: int)
    requires n > 0
    ensures Times(n, d) == Times(n - 1, d) + d
  {
  }

  lemma {:induction false} JoinedLength(pieces: seq<string>, xa: string, xb: string)
    ensures |Joined(pieces, xb)| - |Joined(pieces, xa)| == Times(|pieces|, |xb| - |xa|)
  {
    if pieces != [] {
      JoinedLength(pieces[1..], xa, xb);
      hide Times;
      TimesStep(|pieces|, |xb| - |xa|);
    }
  }

  lemma {:induction false} SplitReconstructs(s: string, sep: string)
    requires sep != ""
    ensures s == Joined(Pieces(s, sep), sep) + Tail(s, sep)
    ensures !Contains(Tail(s, sep), sep)
    ensures forall i :: 0 <= i < |Pieces(s, sep)| ==> !Contains(Pieces(s, sep)[i], sep)
  {
    PiecesAreCutting(s, sep);
    CuttingReconstructs(s, sep, Pieces(s, sep), Tail(s, sep));
  }

  lemma {:induction false} ReplacedLength(s: string, xa: string, xb: string)
    requires xa != ""
    ensures |Replaced(s, xa, xb)| == |s| + |Pieces(s, xa)| * (|xb| - |xa|)
    ensures Replaced(s, xa, xa) == s
  {
    SplitReconstructs(s, xa);
    JoinedLength(Pieces(s, xa), xa, xb);
  }

  /** The pattern's occurrences at the given places do not overlap. */
  predicate Disjoint(s: string, pattern: string, places: seq<nat>) {
    && (forall i :: 0 <= i < |places| ==> OccursAt(s, pattern, places[i]))
    && (forall i :: 0 < i < |places| ==> places[i - 1] + |pattern| <= places[i])
  }

  /** Taking leftmost occurrences is optimal: no choice of disjoint occurrences has more members. */
  lemma {:induction false} CountIsMaximal(s: string, pattern: string, places: seq<nat>)
    requires pattern != "" && Disjoint(s, pattern, places)
    ensures |places| <= |Pieces(s, pattern)|
    decreases |s|
  {
    if places != [] {
      var k := AfterFirst(s, pattern, places);
      var shifted := ShiftPlaces(s, pattern, places, k);
      hide Find, OccursAt, Disjoint;
      CountIsMaximal(s[k..], pattern, shifted);
      PiecesUnfold(s, pattern);
    }
  }

  /** The leftmost occurrence ends no later than the first of the places. */
  lemma {:induction false} AfterFirst(s: string, pattern: string, places: seq<nat>) returns (k: nat)
    requires places != [] && Disjoint(s, pattern, places)
    ensures Find(s, pattern, 0).Some? && k == Find(s, pattern, 0).value + |pattern| <= |s| && k <= places[0] + |pattern|
  {
    hide Find;
    FindIsLeftmost(s, pattern, 0);
    assert OccursAt(s, pattern, places[0]);
    k := Find(s, pattern, 0).value + |pattern|;
  }

  lemma {:induction false} ShiftPlaces(s: string, pattern: string, places: seq<nat>, k: nat) returns (shifted: seq<nat>)
    requires places != [] && Disjoint(s, pattern, places) && k <= |s| && k <= places[0] + |pattern|
    ensures |shifted| == |places| - 1 && Disjoint(s[k..], pattern, shifted)
  {
    PlacesIncrease(s, pattern, places, |places| - 1);
    shifted := seq(|places| - 1, i requires 0 <= i < |places| - 1 =>
      (if places[i + 1] >= k then places[i + 1] - k else 0) as nat);
    hide OccursAt, Disjoint;
    ShiftedDisjoint(s, pattern, places, k, shifted);
  }

  lemma {:induction false} ShiftedDisjoint(s: string, pattern: string, places: seq<nat>, k: nat, shifted: seq<nat>)
    requires Disjoint(s, pattern, places) && |places| == |shifted| + 1 && k <= |s|
    requires forall i :: 0 < i < |places| ==> places[i] >= k && shifted[i - 1] == places[i] - k
    ensures Disjoint(s[k..], pattern, shifted)
  {
    forall i | 0 <= i < |shifted|
      ensures OccursAt(s[k..], pattern, shifted[i])
    {
      assert OccursAt(s, pattern, places[i + 1]);
      var at := places[i + 1];
      assert s[k..][at - k..at - k + |pattern|] == s[at..at + |pattern|];
    }
    forall i | 0 < i < |shifted|
      ensures shifted[i - 1] + |pattern| <= shifted[i]
    {
      assert places[i] + |pattern| <= places[i + 1];
    }
  }

  lemma {:induction false} PlacesIncrease(s: string, pattern: string, places: seq<nat>, n: nat)
    requires Disjoint(s, pattern, places) && n < |places|
    ensures forall i :: 0 < i <= n ==> places[0] + |pattern| <= places[i]
  {
    if n > 0 {
      assert places[n - 1] + |pattern| <= places[n];
      PlacesIncrease(s, pattern, places, n - 1);
    }
  }

  /** An empty separator is found at every position, so that split's loop would never move. */
  lemma {:induction false} EmptySeparatorStays(s: string, at: nat)
    requires at <= |s|
    ensures Find(s, "", at) == Some(at)
  {
  }
}
