/** `String.prototype.trim` and `split(/\s+/)`, written as scans over
    indices: where a run of whitespace or of other characters ends. */
module Split {
  import opened Common
  import opened Text

  // ---------------------------------------------------------------------
  // Scanning

  /** The first index at or after `k` that does not hold whitespace, or `|s|`. */
  function SkipSpaces(s: string, k: nat): (e: nat)
    requires k <= |s|
    ensures k <= e <= |s|
    ensures forall j :: k <= j < e ==> IsSpace(s[j])
    ensures e < |s| ==> !IsSpace(s[e])
    decreases |s| - k
  {
    if k < |s| && IsSpace(s[k]) then SkipSpaces(s, k + 1) else k
  }

  /** The first index at or after `k` that holds whitespace, or `|s|`. */
  function SkipWord(s: string, k: nat): (e: nat)
    requires k <= |s|
    ensures k <= e <= |s|
    ensures forall j :: k <= j < e ==> !IsSpace(s[j])
    ensures e < |s| ==> IsSpace(s[e])
    decreases |s| - k
  {
    if k < |s| && !IsSpace(s[k]) then SkipWord(s, k + 1) else k
  }

  /** The start of the run of whitespace that ends at `e` (`e` itself when
      `s[e - 1]` is not whitespace). */
  function SpacesBefore(s: string, e: nat): (b: nat)
    requires e <= |s|
    ensures b <= e
    ensures forall j :: b <= j < e ==> IsSpace(s[j])
    ensures b > 0 ==> !IsSpace(s[b - 1])
    decreases e
  {
    if e > 0 && IsSpace(s[e - 1]) then SpacesBefore(s, e - 1) else e
  }

  lemma SkipSpacesAt(s: string, k: nat, e: nat)
    requires k <= e <= |s|
    requires forall j :: k <= j < e ==> IsSpace(s[j])
    requires e < |s| ==> !IsSpace(s[e])
    ensures SkipSpaces(s, k) == e
  {
  }

  lemma SkipWordAt(s: string, k: nat, e: nat)
    requires k <= e <= |s|
    requires forall j :: k <= j < e ==> !IsSpace(s[j])
    requires e < |s| ==> IsSpace(s[e])
    ensures SkipWord(s, k) == e
  {
  }

  lemma SpacesBeforeAt(s: string, e: nat, b: nat)
    requires b <= e <= |s|
    requires forall j :: b <= j < e ==> IsSpace(s[j])
    requires b > 0 ==> !IsSpace(s[b - 1])
    ensures SpacesBefore(s, e) == b
  {
  }

  // ---------------------------------------------------------------------
  // trim

  /** `String.prototype.trimStart`. */
  function TrimStart(s: string): string {
    s[SkipSpaces(s, 0)..]
  }

  /** `String.prototype.trimEnd`. */
  function TrimEnd(s: string): string {
    s[..SpacesBefore(s, |s|)]
  }

  /** `String.prototype.trim`. */
  function Trim(s: string): string {
    TrimEnd(TrimStart(s))
  }

  /** `trimStart` cuts at `b` when only whitespace comes before it and a
      non-space (or the end) at it. */
  lemma TrimStartAt(s: string, b: nat)
    requires b <= |s| && (b < |s| ==> !IsSpace(s[b]))
    requires forall j :: 0 <= j < b ==> IsSpace(s[j])
    ensures TrimStart(s) == s[b..]
  {
    SkipSpacesAt(s, 0, b);
  }

  /** `trimEnd` cuts at `e` when only whitespace comes after it and a
      non-space (or the start) before it. */
  lemma TrimEndAt(s: string, e: nat)
    requires e <= |s| && (e > 0 ==> !IsSpace(s[e - 1]))
    requires forall j :: e <= j < |s| ==> IsSpace(s[j])
    ensures TrimEnd(s) == s[..e]
  {
    SpacesBeforeAt(s, |s|, e);
  }

  /** A string with no whitespace at either end is its own trim. */
  lemma TrimOfTrimmed(s: string)
    requires s == [] || (!IsSpace(s[0]) && !IsSpace(s[|s| - 1]))
    ensures Trim(s) == s
  {
    TrimStartAt(s, 0);
    assert s[0..] == s;
    TrimEndAt(s, |s|);
    assert s[..|s|] == s;
  }

  // ---------------------------------------------------------------------
  // split(/\s+/)

  /** The pieces of `s[k..]` between maximal runs of whitespace. */
  function SplitFrom(s: string, k: nat): (parts: seq<string>)
    requires k <= |s|
    ensures |parts| >= 1
    decreases |s| - k
  {
    var i := SkipWord(s, k);
    if i == |s| then [s[k..i]] else [s[k..i]] + SplitFrom(s, SkipSpaces(s, i))
  }

  /** `s.split(/\s+/)`: a leading (trailing) run of whitespace gives an empty
      first (last) piece, and the empty string gives the single piece `""`. */
  function SplitWs(s: string): seq<string> {
    SplitFrom(s, 0)
  }

  /** A word: non-empty and free of whitespace. */
  predicate IsWord(w: string) {
    w != [] && NoSpace(w)
  }

  predicate NonEmpty(w: string) {
    w != []
  }

  /** The words of `s`: its non-empty `split(/\s+/)` pieces. */
  function Words(s: string): seq<string> {
    Filter(SplitWs(s), NonEmpty)
  }

  /** What `split(/\s+/)` produces: at least one piece, none holding
      whitespace, and only the first and the last possibly empty. */
  predicate Pieces(ps: seq<string>) {
    && |ps| >= 1
    && (forall k :: 0 <= k < |ps| ==> NoSpace(ps[k]))
    && InnerNonEmpty(ps)
  }

  /** Only the first and the last piece may be empty. */
  predicate InnerNonEmpty(ps: seq<string>) {
    forall k :: 0 < k < |ps| - 1 ==> ps[k] != []
  }

  /** Prepending a whitespace-free piece to pieces whose first piece is
      non-empty (or which are a single piece) gives pieces. */
  lemma PiecesCons(w: string, x: seq<string>)
    requires NoSpace(w) && Pieces(x) && (|x| >= 2 ==> x[0] != [])
    ensures Pieces([w] + x)
  {
    var y := [w] + x;
    forall k | 0 < k < |y|
      ensures y[k] == x[k - 1]
    {
    }
  }

  /** A slice of a run of non-space characters holds no whitespace. */
  lemma NoSpaceSlice(s: string, k: nat, i: nat)
    requires k <= i <= |s|
    requires forall j :: k <= j < i ==> !IsSpace(s[j])
    ensures NoSpace(s[k..i])
  {
    forall j | 0 <= j < i - k
      ensures s[k..i][j] == s[k + j]
    {
    }
  }

  /** Splitting from a position gives pieces; starting at a non-space gives a
      non-empty first piece, and ending in a non-space a non-empty last one. */
  lemma {:induction false} PiecesFrom(s: string, k: nat)
    requires k <= |s|
    ensures Pieces(SplitFrom(s, k))
    ensures k < |s| && !IsSpace(s[k]) ==> SplitFrom(s, k)[0] != []
    ensures k < |s| && !IsSpace(s[|s| - 1]) ==> SplitFrom(s, k)[|SplitFrom(s, k)| - 1] != []
    decreases |s| - k
  {
    var i := SkipWord(s, k);
    NoSpaceSlice(s, k, i);
    if i < |s| {
      var m := SkipSpaces(s, i);
      PiecesFrom(s, m);
      PiecesCons(s[k..i], SplitFrom(s, m));
    }
  }

  lemma SplitIsPieces(s: string)
    ensures Pieces(SplitWs(s))
  {
    PiecesFrom(s, 0);
  }

  /** `s` from `k` on and `t` from `k'` on hold the same characters. */
  predicate SameFrom(s: string, k: nat, t: string, k': nat) {
    && k <= |s| && k' <= |t| && |s| - k == |t| - k'
    && forall j :: k <= j < |s| ==> s[j] == t[j - k + k']
  }

  lemma SameFromLater(s: string, k: nat, t: string, k': nat, m: nat)
    requires SameFrom(s, k, t, k') && k <= m <= |s|
    ensures SameFrom(s, m, t, m + k' - k)
  {
  }

  lemma SameFromSlice(s: string, k: nat, t: string, k': nat, i: nat)
    requires SameFrom(s, k, t, k') && k <= i <= |s|
    ensures s[k..i] == t[k'..i + k' - k]
  {
    forall j | 0 <= j < i - k
      ensures s[k..i][j] == t[k'..i + k' - k][j]
    {
      assert s[k + j] == t[k' + j];
    }
  }

  lemma SameFromSkip(s: string, k: nat, t: string, k': nat, i: nat)
    requires SameFrom(s, k, t, k') && k <= i <= |s|
    ensures SkipWord(t, i + k' - k) == SkipWord(s, i) + k' - k
    ensures SkipSpaces(t, i + k' - k) == SkipSpaces(s, i) + k' - k
    ensures SameFrom(s, SkipSpaces(s, i), t, SkipSpaces(s, i) + k' - k)
  {
    var d := k' - k;
    var e := SkipWord(s, i);
    forall j | i + d <= j < e + d
      ensures !IsSpace(t[j])
    {
      assert s[j - d] == t[j];
    }
    if e < |s| {
      assert s[e] == t[e + d];
    }
    SkipWordAt(t, i + d, e + d);
    var f := SkipSpaces(s, i);
    forall j | i + d <= j < f + d
      ensures IsSpace(t[j])
    {
      assert s[j - d] == t[j];
    }
    if f < |s| {
      assert s[f] == t[f + d];
    }
    SkipSpacesAt(t, i + d, f + d);
    SameFromLater(s, k, t, k', f);
  }

  /** One step of the split reads the same on `s` from `k` as on `t` from `k'`. */
  lemma ShiftStep(s: string, k: nat, t: string, k': nat)
    requires SameFrom(s, k, t, k')
    ensures SkipWord(t, k') == SkipWord(s, k) + k' - k
    ensures s[k..SkipWord(s, k)] == t[k'..SkipWord(t, k')]
    ensures SkipWord(s, k) < |s| ==>
      var m := SkipSpaces(s, SkipWord(s, k));
      SkipSpaces(t, SkipWord(t, k')) == m + k' - k && SameFrom(s, m, t, m + k' - k)
  {
    var i := SkipWord(s, k);
    SameFromSkip(s, k, t, k', k);
    SameFromSlice(s, k, t, k', i);
    if i < |s| {
      SameFromSkip(s, k, t, k', i);
    }
  }

  /** The split only looks at the text from its starting position on. */
  lemma {:induction false} SplitShift(s: string, k: nat, t: string, k': nat)
    requires SameFrom(s, k, t, k')
    ensures SplitFrom(s, k) == SplitFrom(t, k')
    decreases |s| - k
  {
    ShiftStep(s, k, t, k');
    var i := SkipWord(s, k);
    if i < |s| {
      var m := SkipSpaces(s, i);
      SplitShift(s, m, t, m + k' - k);
    }
  }

  // ---------------------------------------------------------------------
  // Split of words joined by single spaces

  lemma {:induction false} JoinStartsWithWord(ws: seq<string>)
    requires |ws| >= 1
    requires forall k :: 0 <= k < |ws| ==> IsWord(ws[k])
    ensures Join(ws, " ") != [] && !IsSpace(Join(ws, " ")[0]) && !IsSpace(Join(ws, " ")[|Join(ws, " ")| - 1])
  {
    if |ws| > 1 {
      JoinStartsWithWord(ws[1..]);
    }
  }

  /** At the start of a last word the split takes the rest of the text. */
  lemma LastWordStep(s: string, k: nat, w: string)
    requires IsWord(w) && SameFrom(s, k, w, 0)
    ensures SkipWord(s, k) == |s| && s[k..|s|] == w
  {
    forall j | k <= j < |s|
      ensures !IsSpace(s[j])
    {
      assert s[j] == w[j - k];
    }
    SkipWordAt(s, k, |s|);
    SameFromSlice(s, k, w, 0, |s|);
    assert w[0..|w|] == w;
  }

  /** At the start of a word followed by a space and more words, the split
      takes that word and continues after the space. */
  lemma WordStep(s: string, k: nat, ws: seq<string>)
    requires |ws| >= 2 && forall j :: 0 <= j < |ws| ==> IsWord(ws[j])
    requires SameFrom(s, k, Join(ws, " "), 0)
    ensures var i := k + |ws[0]|;
      && SkipWord(s, k) == i < |s| && s[k..i] == ws[0]
      && SkipSpaces(s, i) == i + 1 && SameFrom(s, i + 1, Join(ws[1..], " "), 0)
  {
    var w, joined, rest := ws[0], Join(ws, " "), Join(ws[1..], " ");
    var i := k + |w|;
    assert joined == w + " " + rest;
    forall j | k <= j < i
      ensures !IsSpace(s[j])
    {
      assert s[j] == joined[j - k] == w[j - k];
    }
    assert s[i] == joined[|w|] == ' ';
    SkipWordAt(s, k, i);
    SameFromSlice(s, k, joined, 0, i);
    assert joined[0..|w|] == w;
    JoinStartsWithWord(ws[1..]);
    assert s[i + 1] == joined[|w| + 1] == rest[0];
    SkipSpacesAt(s, i, i + 1);
    forall j | i + 1 <= j < |s|
      ensures s[j] == rest[j - (i + 1)]
    {
      assert s[j] == joined[j - k];
    }
  }

  /** Splitting at a position where words joined by single spaces start gives the words. */
  lemma {:induction false} SplitFromJoin(s: string, k: nat, ws: seq<string>)
    requires |ws| >= 1
    requires forall j :: 0 <= j < |ws| ==> IsWord(ws[j])
    requires SameFrom(s, k, Join(ws, " "), 0)
    ensures SplitFrom(s, k) == ws
    decreases |ws|
  {
    if |ws| == 1 {
      LastWordStep(s, k, ws[0]);
    } else {
      WordStep(s, k, ws);
      SplitFromJoin(s, k + |ws[0]| + 1, ws[1..]);
    }
  }

  /** Splitting words joined by single spaces gives the words back. */
  lemma SplitJoin(ws: seq<string>)
    requires |ws| >= 1
    requires forall k :: 0 <= k < |ws| ==> IsWord(ws[k])
    ensures SplitWs(Join(ws, " ")) == ws
  {
    SplitFromJoin(Join(ws, " "), 0, ws);
  }

  /** The words of words joined by single spaces are those words. */
  lemma WordsOfJoin(ws: seq<string>)
    requires forall k :: 0 <= k < |ws| ==> IsWord(ws[k])
    ensures Words(Join(ws, " ")) == ws
  {
    if ws == [] {
      assert SplitWs("") == [""];
      FilterOne("");
    } else {
      SplitJoin(ws);
      FilterAll(ws, NonEmpty);
    }
  }

  /** Every word is non-empty and free of whitespace. */
  lemma WordsAreWords(s: string)
    ensures forall i :: 0 <= i < |Words(s)| ==> IsWord(Words(s)[i])
  {
    SplitIsPieces(s);
    var ps, ws := SplitWs(s), Words(s);
    forall i | 0 <= i < |ws|
      ensures IsWord(ws[i])
    {
      assert ws[i] in ws;
      var k :| 0 <= k < |ps| && ps[k] == ws[i];
    }
  }

  lemma FilterOne(x: string)
    ensures Filter([x], NonEmpty) == if x == [] then [] else [x]
  {
    assert [x][1..] == [];
  }

  // ---------------------------------------------------------------------
  // Trimming pieces joined by single spaces

  function DropFirstEmpty(ps: seq<string>): seq<string> {
    if |ps| >= 2 && ps[0] == [] then ps[1..] else ps
  }

  function DropLastEmpty(ps: seq<string>): seq<string> {
    if |ps| >= 2 && ps[|ps| - 1] == [] then ps[..|ps| - 1] else ps
  }

  /** Leading whitespace of pieces joined by spaces comes from an empty first piece. */
  lemma TrimStartJoin(ps: seq<string>)
    requires Pieces(ps)
    ensures Pieces(DropFirstEmpty(ps))
    ensures TrimStart(Join(ps, " ")) == Join(DropFirstEmpty(ps), " ")
  {
    var s := Join(ps, " ");
    if |ps| >= 2 && ps[0] == [] {
      var x := Join(ps[1..], " ");
      assert s == " " + x;
      if ps[1] != [] {
        JoinFirst(ps[1..], " ");
      }
      TrimStartAt(s, 1);
      assert s[1..] == x;
    } else {
      if ps[0] != [] {
        JoinFirst(ps, " ");
      }
      TrimStartAt(s, 0);
      assert s[0..] == s;
    }
  }

  /** Trailing whitespace of pieces joined by spaces comes from an empty last piece. */
  lemma TrimEndJoin(ps: seq<string>)
    requires Pieces(ps)
    ensures TrimEnd(Join(ps, " ")) == Join(DropLastEmpty(ps), " ")
  {
    var n := |ps|;
    var s := Join(ps, " ");
    if n >= 2 && ps[n - 1] == [] {
      var init := ps[..n - 1];
      JoinSnoc(init, [], " ");
      assert init + [[]] == ps;
      var x := Join(init, " ");
      assert s == x + " ";
      if ps[n - 2] != [] {
        JoinLast(init, " ");
      }
      TrimEndAt(s, |x|);
      assert s[..|x|] == x;
    } else {
      if ps[n - 1] != [] {
        JoinLast(ps, " ");
      }
      TrimEndAt(s, |s|);
      assert s[..|s|] == s;
    }
  }

  lemma FilterThree(a: string, mid: seq<string>, b: string)
    requires [] !in mid
    ensures Filter([a] + mid + [b], NonEmpty) ==
      (if a == [] then [] else [a]) + mid + (if b == [] then [] else [b])
  {
    FilterAppend([a] + mid, [b], NonEmpty);
    FilterAppend([a], mid, NonEmpty);
    FilterAll(mid, NonEmpty);
    FilterOne(a);
    FilterOne(b);
  }

  /** Pieces without an empty first or an empty last one. */
  function KeptPieces(ps: seq<string>): seq<string>
    requires |ps| >= 2
  {
    (if ps[0] == [] then [] else [ps[0]]) + ps[1..|ps| - 1] + (if ps[|ps| - 1] == [] then [] else [ps[|ps| - 1]])
  }

  /** Of pieces, only the first and the last can be dropped by the filter. */
  lemma FilterPieces(ps: seq<string>)
    requires |ps| >= 2 && InnerNonEmpty(ps)
    ensures Filter(ps, NonEmpty) == KeptPieces(ps)
  {
    var n := |ps|;
    ThreeParts(ps);
    FilterThree(ps[0], ps[1..n - 1], ps[n - 1]);
  }

  /** A sequence of two or more is its first element, its inner part and its last. */
  lemma ThreeParts(ps: seq<string>)
    requires |ps| >= 2
    ensures ps == [ps[0]] + ps[1..|ps| - 1] + [ps[|ps| - 1]]
    ensures InnerNonEmpty(ps) ==> [] !in ps[1..|ps| - 1]
  {
  }

  lemma DropBoth(a: string, mid: seq<string>, b: string)
    requires !(a == [] && mid == [] && b == [])
    ensures DropLastEmpty(DropFirstEmpty([a] + mid + [b])) ==
      (if a == [] then [] else [a]) + mid + (if b == [] then [] else [b])
  {
    var ps := [a] + mid + [b];
    var d1 := (if a == [] then [] else [a]) + mid + [b];
    assert DropFirstEmpty(ps) == d1 by {
      if a == [] {
        assert ps[1..] == d1;
      }
    }
    if b == [] {
      assert d1[..|d1| - 1] == (if a == [] then [] else [a]) + mid;
    }
  }

  lemma DropKept(ps: seq<string>)
    requires |ps| >= 2
    requires !(|ps| == 2 && ps[0] == [] && ps[1] == [])
    ensures DropLastEmpty(DropFirstEmpty(ps)) == KeptPieces(ps)
  {
    ThreeParts(ps);
    DropBoth(ps[0], ps[1..|ps| - 1], ps[|ps| - 1]);
  }

  /** Dropping an empty first and an empty last piece is the filter, unless
      every piece is empty. */
  lemma DroppedPieces(ps: seq<string>)
    requires Pieces(ps)
    requires !(|ps| <= 2 && ps[0] == [] && ps[|ps| - 1] == [])
    ensures DropLastEmpty(DropFirstEmpty(ps)) == Filter(ps, NonEmpty)
  {
    if |ps| == 1 {
      FilterOne(ps[0]);
      assert ps == [ps[0]];
    } else {
      DropKept(ps);
      FilterPieces(ps);
    }
  }

  lemma JoinDroppedPieces(ps: seq<string>)
    requires Pieces(ps)
    ensures Join(DropLastEmpty(DropFirstEmpty(ps)), " ") == Join(Filter(ps, NonEmpty), " ")
  {
    var n := |ps|;
    if !(n <= 2 && ps[0] == [] && ps[n - 1] == []) {
      DroppedPieces(ps);
    } else if n == 1 {
      FilterOne(ps[0]);
      assert ps == [ps[0]];
    } else {
      FilterPieces(ps);
      assert ps[1..n - 1] == [];
    }
  }

  /** Trimming pieces joined by spaces is joining just their non-empty ones. */
  lemma TrimJoinPieces(ps: seq<string>)
    requires Pieces(ps)
    ensures Trim(Join(ps, " ")) == Join(Filter(ps, NonEmpty), " ")
  {
    TrimStartJoin(ps);
    TrimEndJoin(DropFirstEmpty(ps));
    JoinDroppedPieces(ps);
  }

  // ---------------------------------------------------------------------
  // Split of trimmed text

  /** At the very end the split gives the single piece `""`. */
  lemma SplitAtEnd(s: string)
    ensures SplitFrom(s, |s|) == [""]
  {
    assert s[|s|..|s|] == [];
  }

  /** All-whitespace text splits into one empty piece, or two when it is not empty. */
  lemma AllSpaceSplit(s: string)
    requires forall j :: 0 <= j < |s| ==> IsSpace(s[j])
    ensures SplitWs(s) == if s == [] then [""] else ["", ""]
  {
    if s != [] {
      SkipWordAt(s, 0, 0);
      SkipSpacesAt(s, 0, |s|);
      SplitAtEnd(s);
      assert s[0..0] == [];
    } else {
      SplitAtEnd(s);
    }
  }

  /** All-whitespace text has no words. */
  lemma AllSpaceWords(s: string)
    requires forall j :: 0 <= j < |s| ==> IsSpace(s[j])
    ensures Words(s) == []
  {
    AllSpaceSplit(s);
    FilterOne("");
    if s != [] {
      assert ["", ""] == [""] + [""];
      FilterAppend([""], [""], NonEmpty);
    }
  }

  /** Text `u` that ends in a non-space, followed by whitespace `v`, splits
      like `u`, plus one empty piece when `v` is not empty. */
  lemma PadStep(u: string, v: string, k: nat)
    requires k < |u| && !IsSpace(u[|u| - 1])
    requires forall j :: 0 <= j < |v| ==> IsSpace(v[j])
    ensures var i := SkipWord(u, k);
      && SkipWord(u + v, k) == i && (u + v)[k..i] == u[k..i]
      && (i < |u| ==> SkipSpaces(u + v, i) == SkipSpaces(u, i) < |u|)
      && (i == |u| && v != [] ==> SkipSpaces(u + v, i) == |u + v|)
  {
    var s := u + v;
    var i := SkipWord(u, k);
    if i < |u| {
      SkipWordAt(s, k, i);
      var m := SkipSpaces(u, i);
      assert m < |u|;
      SkipSpacesAt(s, i, m);
    } else {
      SkipWordAt(s, k, i);
      if v != [] {
        SkipSpacesAt(s, i, |s|);
      }
    }
    assert s[k..i] == u[k..i];
  }

  lemma {:induction false} SplitPad(u: string, v: string, k: nat)
    requires k < |u| && !IsSpace(u[|u| - 1])
    requires forall j :: 0 <= j < |v| ==> IsSpace(v[j])
    ensures SplitFrom(u + v, k) == SplitFrom(u, k) + (if v == [] then [] else [""])
    decreases |u| - k
  {
    PadStep(u, v, k);
    var i := SkipWord(u, k);
    if i < |u| {
      SplitPad(u, v, SkipSpaces(u, i));
    } else if v == [] {
      assert u + v == u;
    } else {
      SplitAtEnd(u + v);
    }
  }

  /** With a non-space somewhere, `trim` cuts the text between its first and
      its last non-space. */
  lemma TrimIsSlice(s: string)
    requires SkipSpaces(s, 0) < |s|
    ensures var b, e := SkipSpaces(s, 0), SpacesBefore(s, |s|);
      b < e && Trim(s) == s[b..e]
  {
    var b, e := SkipSpaces(s, 0), SpacesBefore(s, |s|);
    assert !IsSpace(s[b]);
    var r := s[b..];
    SpacesBeforeAt(r, |r|, e - b);
    assert r[..e - b] == s[b..e];
  }

  /** Text that starts and ends with a non-space splits into non-empty pieces only. */
  lemma TrimmedPieces(u: string)
    requires u != [] && !IsSpace(u[0]) && !IsSpace(u[|u| - 1])
    ensures forall j :: 0 <= j < |SplitWs(u)| ==> NonEmpty(SplitWs(u)[j])
  {
    PiecesFrom(u, 0);
  }

  /** Leading whitespace gives the split an empty first piece. */
  lemma LeadSplit(s: string)
    requires SkipSpaces(s, 0) < |s|
    ensures SplitWs(s) == (if SkipSpaces(s, 0) > 0 then [""] else []) + SplitFrom(s, SkipSpaces(s, 0))
  {
    if SkipSpaces(s, 0) > 0 {
      SkipWordAt(s, 0, 0);
      assert s[0..0] == [];
    } else {
      assert s[0..] == s;
    }
  }

  /** Text with a non-space splits into the pieces of its trim, after an
      empty piece for leading and before one for trailing whitespace. */
  lemma SplitAroundTrim(s: string)
    requires SkipSpaces(s, 0) < |s|
    ensures SplitWs(s) ==
      (if SkipSpaces(s, 0) > 0 then [""] else []) + SplitWs(Trim(s)) +
      (if SpacesBefore(s, |s|) < |s| then [""] else [])
  {
    var b, e := SkipSpaces(s, 0), SpacesBefore(s, |s|);
    TrimIsSlice(s);
    var u, v := s[b..e], s[e..];
    SuffixParts(s, b, e);
    LeadSplit(s);
    SplitShift(s, b, u + v, 0);
    SplitPad(u, v, 0);
    var lead: seq<string> := if b > 0 then [""] else [];
    var trail: seq<string> := if e < |s| then [""] else [];
    AppendAssoc(lead, SplitWs(u), trail);
  }

  /** The suffix from `b` is its part up to `e`, then the rest; with `e` the
      end of the last non-space, the rest is whitespace. */
  lemma SuffixParts(s: string, b: nat, e: nat)
    requires b <= e == SpacesBefore(s, |s|)
    ensures SameFrom(s, b, s[b..e] + s[e..], 0)
    ensures forall j :: 0 <= j < |s[e..]| ==> IsSpace(s[e..][j])
    ensures e > b ==> !IsSpace(s[b..e][|s[b..e]| - 1])
  {
  }

  lemma AppendAssoc(a: seq<string>, b: seq<string>, c: seq<string>)
    ensures a + (b + c) == a + b + c
  {
  }

  /** Filtering keeps a middle part of non-empty pieces and drops empty pieces around it. */
  lemma FilterFramed(lead: seq<string>, x: seq<string>, trail: seq<string>)
    requires lead == [] || lead == [""]
    requires trail == [] || trail == [""]
    requires forall j :: 0 <= j < |x| ==> NonEmpty(x[j])
    ensures Filter(lead + x + trail, NonEmpty) == x
  {
    FilterAppend(lead + x, trail, NonEmpty);
    FilterAppend(lead, x, NonEmpty);
    FilterAll(x, NonEmpty);
    FilterOne("");
  }

  /** Splitting trimmed text gives exactly the words of the text, or the
      single piece `""` when it has none. */
  lemma SplitTrimIsWords(s: string)
    ensures SplitWs(Trim(s)) == if Words(s) == [] then [""] else Words(s)
  {
    var b := SkipSpaces(s, 0);
    if b == |s| {
      AllSpaceWords(s);
      assert Trim(s) == [];
      SplitAtEnd([]);
    } else {
      TrimIsSlice(s);
      var u := Trim(s);
      TrimmedPieces(u);
      SplitAroundTrim(s);
      FilterFramed(if b > 0 then [""] else [], SplitWs(u),
                   if SpacesBefore(s, |s|) < |s| then [""] else []);
    }
  }
}
