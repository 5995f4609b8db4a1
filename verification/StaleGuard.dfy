/**
 * The stale-base guard of ADR-0023 (conformance/stale-guard-reference.py): segment digests of a
 * body, the revision an update was made from, and the verdict. SHA-256, cut to 8 bytes, is a
 * parameter; the share threshold is an exact fraction.
 */
module StaleGuard {
  import opened Sets
  import opened Wrappers
  import opened Octets

  const MIN_LEN := 12

  /** `>`, `;`, `}` and line feed end a piece. */
  predicate IsSplit(b: Byte) { b == 0x3E || b == 0x3B || b == 0x7D || b == 0x0A }

  /** Space, tab, line feed, carriage return and form feed. */
  predicate IsTrim(b: Byte) { b == 0x20 || b == 0x09 || b == 0x0A || b == 0x0D || b == 0x0C }

  // ---------------------------------------------------------------- pieces

  function Pieces(data: Bytes): seq<Bytes>
    decreases |data|
  {
    if data == [] then []
    else Prepend(data[0], Pieces(data[1..]))
  }

  /** One byte in front: a piece of its own, or the start of the first one. */
  function Prepend(x: Byte, rest: seq<Bytes>): seq<Bytes> {
    if IsSplit(x) || rest == [] then [[x]] + rest else [[x] + rest[0]] + rest[1..]
  }

  lemma {:induction false} PrependAppend(x: Byte, ps: seq<Bytes>, qs: seq<Bytes>)
    requires IsSplit(x) || ps != []
    ensures Prepend(x, ps + qs) == Prepend(x, ps) + qs
  {
    if ps != [] { assert (ps + qs)[1..] == ps[1..] + qs; }
  }

  predicate EndsInSplit(data: Bytes) { data != [] && IsSplit(data[|data| - 1]) }

  /** A non-empty piece with a split byte nowhere but possibly at its end. */
  ghost predicate IsPiece(p: Bytes) { p != [] && forall i :: 0 <= i < |p| - 1 ==> !IsSplit(p[i]) }

  /** Pieces in order, each but the last ended by a split byte. */
  ghost predicate ArePieces(ps: seq<Bytes>) {
    && (forall i :: 0 <= i < |ps| ==> IsPiece(ps[i]))
    && (forall i :: 0 <= i < |ps| - 1 ==> EndsInSplit(ps[i]))
  }

  /** Segmentation loses nothing and cuts exactly after the split bytes. */
  lemma {:induction false} PiecesTile(data: Bytes)
    ensures Concat(Pieces(data)) == data && ArePieces(Pieces(data))
    ensures data == [] <==> Pieces(data) == []
    decreases |data|
  {
    if data != [] {
      PiecesTile(data[1..]);
      var x, rest, all := data[0], Pieces(data[1..]), Pieces(data);
      assert data == [x] + data[1..];
      if IsSplit(x) || rest == [] {
        assert all[1..] == rest;
      } else {
        assert all[1..] == rest[1..];
        assert IsPiece(rest[0]) && IsPiece([x] + rest[0]);
        assert [x] + (rest[0] + Concat(rest[1..])) == ([x] + rest[0]) + Concat(rest[1..]);
      }
    }
  }

  lemma {:induction false} OnePiece(p: Bytes)
    requires IsPiece(p)
    ensures Pieces(p) == [p]
    decreases |p|
  {
    if |p| == 1 {
      assert p[1..] == [] && Pieces(p[1..]) == [];
      assert [p[0]] == p;
    } else {
      OnePiece(p[1..]);
      assert p == [p[0]] + p[1..];
    }
  }

  /** After a split byte, segmentation starts afresh. */
  lemma {:induction false} PiecesAppend(a: Bytes, b: Bytes)
    requires a == [] || EndsInSplit(a)
    ensures Pieces(a + b) == Pieces(a) + Pieces(b)
    decreases |a|
  {
    if a == [] {
      assert a + b == b;
    } else {
      assert (a + b)[1..] == a[1..] + b;
      PiecesAppend(a[1..], b);
      PiecesTile(a[1..]);
      PrependAppend(a[0], Pieces(a[1..]), Pieces(b));
    }
  }

  lemma {:induction false} FirstPiece(data: Bytes, k: nat)
    requires k < |data| && IsSplit(data[k]) && forall i :: 0 <= i < k ==> !IsSplit(data[i])
    ensures Pieces(data) == [data[..k + 1]] + Pieces(data[k + 1..])
  {
    OnePiece(data[..k + 1]);
    assert data == data[..k + 1] + data[k + 1..];
    PiecesAppend(data[..k + 1], data[k + 1..]);
  }

  lemma {:induction false} CutPiece(out: seq<Bytes>, data: Bytes, start: nat, i: nat)
    requires start <= i < |data| && IsSplit(data[i]) && forall k :: start <= k < i ==> !IsSplit(data[k])
    ensures out + Pieces(data[start..]) == (out + [data[start..i + 1]]) + Pieces(data[i + 1..])
  {
    var rest := data[start..];
    FirstPiece(rest, i - start);
    assert rest[..i - start + 1] == data[start..i + 1] && rest[i - start + 1..] == data[i + 1..];
  }

  /** `_pieces`: one left-to-right scan. */
  method SplitPieces(data: Bytes) returns (out: seq<Bytes>)
    ensures out == Pieces(data)
  {
    out := [];
    var start := 0;
    for i := 0 to |data|
      invariant start <= i && forall k :: start <= k < i ==> !IsSplit(data[k])
      invariant out + Pieces(data[start..]) == Pieces(data)
    {
      if IsSplit(data[i]) {
        CutPiece(out, data, start, i);
        out := out + [data[start..i + 1]];
        start := i + 1;
      }
    }
    if start < |data| {
      OnePiece(data[start..]);
      out := out + [data[start..]];
    }
  }

  // ---------------------------------------------------------------- trimming

  function TrimStart(p: Bytes): Bytes
    decreases |p|
  {
    if p != [] && IsTrim(p[0]) then TrimStart(p[1..]) else p
  }

  function TrimEnd(p: Bytes): Bytes
    decreases |p|
  {
    if p != [] && IsTrim(p[|p| - 1]) then TrimEnd(p[..|p| - 1]) else p
  }

  function Trimmed(p: Bytes): Bytes { TrimEnd(TrimStart(p)) }

  ghost predicate AllTrim(w: Bytes) { forall i :: 0 <= i < |w| ==> IsTrim(w[i]) }

  /** What trimming takes away is trim bytes at both ends, and all there are of them. */
  lemma {:induction false} TrimmedMeaning(p: Bytes) returns (w1: Bytes, w2: Bytes)
    ensures p == w1 + Trimmed(p) + w2 && AllTrim(w1) && AllTrim(w2)
    ensures Trimmed(p) != [] ==> !IsTrim(Trimmed(p)[0]) && !IsTrim(Trimmed(p)[|Trimmed(p)| - 1])
  {
    w1 := TrimStartMeaning(p);
    w2 := TrimEndMeaning(TrimStart(p));
  }

  lemma {:induction false} TrimStartMeaning(p: Bytes) returns (w: Bytes)
    ensures p == w + TrimStart(p) && AllTrim(w) && (TrimStart(p) != [] ==> !IsTrim(TrimStart(p)[0]))
    decreases |p|
  {
    if p != [] && IsTrim(p[0]) {
      var rest := TrimStartMeaning(p[1..]);
      w := [p[0]] + rest;
      assert p == [p[0]] + p[1..];
    } else {
      w := [];
    }
  }

  lemma {:induction false} TrimEndMeaning(p: Bytes) returns (w: Bytes)
    ensures p == TrimEnd(p) + w && AllTrim(w)
    ensures TrimEnd(p) != [] ==> !IsTrim(TrimEnd(p)[|TrimEnd(p)| - 1]) && TrimEnd(p)[0] == p[0]
    decreases |p|
  {
    if p != [] && IsTrim(p[|p| - 1]) {
      var rest := TrimEndMeaning(p[..|p| - 1]);
      w := rest + [p[|p| - 1]];
      assert p == p[..|p| - 1] + [p[|p| - 1]];
    } else {
      w := [];
    }
  }

  /** `_trim`: two scans from the ends. */
  method Trim(p: Bytes) returns (t: Bytes)
    ensures t == Trimmed(p)
  {
    var i, j := 0, |p|;
    while i < j && IsTrim(p[i])
      invariant i <= j == |p| && TrimStart(p[i..]) == TrimStart(p)
    {
      assert p[i..][1..] == p[i + 1..];
      i := i + 1;
    }
    assert p[i..j] == p[i..] == TrimStart(p);
    while j > i && IsTrim(p[j - 1])
      invariant i <= j <= |p| && TrimEnd(p[i..j]) == Trimmed(p)
    {
      assert p[i..j][..j - i - 1] == p[i..j - 1];
      j := j - 1;
    }
    t := p[i..j];
  }

  // ---------------------------------------------------------------- digests

  /** The trimmed pieces that are long enough to count. */
  function Segments(pieces: seq<Bytes>): set<Bytes>
    decreases |pieces|
  {
    if pieces == [] then {}
    else (if |Trimmed(pieces[0])| >= MIN_LEN then {Trimmed(pieces[0])} else {}) + Segments(pieces[1..])
  }

  /** A file of a bundle, or (without a path) a single-file body. */
  datatype File = File(path: Option<Bytes>, data: Bytes)

  function Prefix(path: Option<Bytes>): Bytes {
    if path.None? then [] else path.value + [0]
  }

  function FileDigests(f: File, hash: Bytes -> Bytes): set<Bytes> {
    set t | t in Segments(Pieces(f.data)) :: hash(Prefix(f.path) + t)
  }

  function DigestSet(files: seq<File>, hash: Bytes -> Bytes): set<Bytes>
    decreases |files|
  {
    if files == [] then {} else FileDigests(files[0], hash) + DigestSet(files[1..], hash)
  }

  lemma {:induction false} SegmentsAppend(a: seq<Bytes>, b: seq<Bytes>)
    ensures Segments(a + b) == Segments(a) + Segments(b)
    decreases |a|
  {
    if a == [] {
      assert a + b == b;
    } else {
      assert (a + b)[1..] == a[1..] + b;
      SegmentsAppend(a[1..], b);
    }
  }

  lemma {:induction false} OneSegment(p: Bytes)
    ensures Segments([p]) == if |Trimmed(p)| >= MIN_LEN then {Trimmed(p)} else {}
  {
    var one: seq<Bytes> := [p];
    assert one[1..] == [];
  }

  lemma {:induction false} DigestSetAppend(a: seq<File>, f: File, hash: Bytes -> Bytes)
    ensures DigestSet(a + [f], hash) == DigestSet(a, hash) + FileDigests(f, hash)
    decreases |a|
  {
    if a == [] {
      assert [f][1..] == [];
      assert a + [f] == [f];
    } else {
      assert (a + [f])[1..] == a[1..] + [f];
      DigestSetAppend(a[1..], f, hash);
    }
  }

  /** `digests`: files, then pieces, collected into one set. */
  method Digests(files: seq<File>, hash: Bytes -> Bytes) returns (out: set<Bytes>)
    ensures out == DigestSet(files, hash)
  {
    out := {};
    for i := 0 to |files|
      invariant out == DigestSet(files[..i], hash)
    {
      var f := files[i];
      ghost var before := out;
      var pieces := SplitPieces(f.data);
      for k := 0 to |pieces|
        invariant out == before + set t | t in Segments(pieces[..k]) :: hash(Prefix(f.path) + t)
      {
        var t := Trim(pieces[k]);
        assert pieces[..k + 1] == pieces[..k] + [pieces[k]];
        SegmentsAppend(pieces[..k], [pieces[k]]);
        OneSegment(pieces[k]);
        if |t| >= MIN_LEN { out := out + {hash(Prefix(f.path) + t)}; }
      }
      assert pieces[..|pieces|] == pieces;
      assert files[..i + 1] == files[..i] + [f];
      DigestSetAppend(files[..i], f, hash);
    }
    assert files[..|files|] == files;
  }

  // ---------------------------------------------------------------- re-indenting

  lemma {:induction false} LeadingTrim(w: Bytes, b: Bytes)
    requires AllTrim(w)
    ensures Segments(Pieces(w + b)) == Segments(Pieces(b))
    decreases |w|
  {
    if w == [] {
      assert w + b == b;
    } else {
      LeadingTrim(w[1..], b);
      var x, rest := w[0], w[1..] + b;
      assert (w + b)[1..] == rest;
      var ps := Pieces(rest);
      var all := Pieces(w + b);
      var one: Bytes := [x];
      assert one[1..] == [] && TrimStart(one) == [];
      if IsSplit(x) || ps == [] {
        assert all[1..] == ps;
      } else {
        var p := [x] + ps[0];
        assert p[1..] == ps[0];
        assert Trimmed(p) == Trimmed(ps[0]);
        assert all[1..] == ps[1..];
      }
    }
  }

  /** `pads[i]` inserted before the i-th piece. */
  function Indented(pieces: seq<Bytes>, pads: seq<Bytes>): Bytes
    requires |pieces| == |pads|
    decreases |pieces|
  {
    if pieces == [] then [] else pads[0] + (pieces[0] + Indented(pieces[1..], pads[1..]))
  }

  lemma {:induction false} IndentedPieces(pieces: seq<Bytes>, pads: seq<Bytes>, tail: Bytes)
    requires |pieces| == |pads| && ArePieces(pieces)
    requires forall i :: 0 <= i < |pads| ==> AllTrim(pads[i])
    requires AllTrim(tail) && (pieces == [] || EndsInSplit(pieces[|pieces| - 1]) || tail == [])
    ensures Segments(Pieces(Indented(pieces, pads) + tail)) == Segments(pieces)
    decreases |pieces|
  {
    if pieces == [] {
      assert Indented(pieces, pads) + tail == tail + [];
      LeadingTrim(tail, []);
    } else {
      var p, ps, rest := pieces[0], pieces[1..], Indented(pieces[1..], pads[1..]) + tail;
      assert Indented(pieces, pads) + tail == pads[0] + (p + rest);
      LeadingTrim(pads[0], p + rest);
      OnePiece(p);
      IndentedPieces(ps, pads[1..], tail);
      assert Pieces(p + rest) == [p] + Pieces(rest) by {
        if EndsInSplit(p) { PiecesAppend(p, rest); } else { assert rest == [] && p + rest == p; }
      }
      SegmentsAppend([p], Pieces(rest));
      SegmentsAppend([p], ps);
      assert [p] + ps == pieces;
    }
  }

  /** Trim bytes to insert before each piece, and after the last one if it is ended. */
  ghost predicate IsPadding(data: Bytes, pads: seq<Bytes>, tail: Bytes) {
    && |pads| == |Pieces(data)| && (forall i :: 0 <= i < |pads| ==> AllTrim(pads[i]))
    && AllTrim(tail) && (data == [] || EndsInSplit(data) || tail == [])
  }

  /** `g` is `f` with any trim bytes inserted at its start and after any of its split bytes. */
  ghost predicate Reindents(g: File, f: File) {
    g.path == f.path &&
    exists pads: seq<Bytes>, tail: Bytes ::
      IsPadding(f.data, pads, tail) && g.data == Indented(Pieces(f.data), pads) + tail
  }

  lemma {:induction false} ReindentKeepsFileDigests(g: File, f: File, hash: Bytes -> Bytes)
    requires Reindents(g, f)
    ensures FileDigests(g, hash) == FileDigests(f, hash)
  {
    var pads: seq<Bytes>, tail: Bytes :|
      IsPadding(f.data, pads, tail) && g.data == Indented(Pieces(f.data), pads) + tail;
    PiecesTile(f.data);
    if f.data != [] { LastOfConcat(Pieces(f.data)); }
    IndentedPieces(Pieces(f.data), pads, tail);
  }

  /** Re-indenting any files of a body leaves its digest set, and so every verdict, unchanged. */
  lemma {:induction false} ReindentKeepsDigests(gs: seq<File>, fs: seq<File>, hash: Bytes -> Bytes)
    requires |gs| == |fs| && forall i :: 0 <= i < |fs| ==> Reindents(gs[i], fs[i])
    ensures DigestSet(gs, hash) == DigestSet(fs, hash)
    decreases |fs|
  {
    if fs != [] {
      ReindentKeepsFileDigests(gs[0], fs[0], hash);
      ReindentKeepsDigests(gs[1..], fs[1..], hash);
    }
  }

  lemma {:induction false} LastOfConcat(ps: seq<Bytes>)
    requires ps != [] && forall i :: 0 <= i < |ps| ==> ps[i] != []
    ensures Concat(ps) != []
    ensures var last := ps[|ps| - 1]; Concat(ps)[|Concat(ps)| - 1] == last[|last| - 1]
    decreases |ps|
  {
    if |ps| == 1 {
      assert ps[1..] == [];
      assert Concat(ps) == ps[0];
    } else {
      LastOfConcat(ps[1..]);
    }
  }

  // ---------------------------------------------------------------- the base revision

  type Digest = Bytes

  /** Jaccard similarity of the new body's digests with a candidate's. */
  function Similarity(n: set<Digest>, s: set<Digest>): real
    requires n != {}
  {
    UnionIsLarger(n, s);
    |n * s| as real / |n + s| as real
  }

  lemma {:induction false} UnionIsLarger(n: set<Digest>, s: set<Digest>)
    ensures |n + s| >= |n|
    ensures |n * s| <= |n + s|
    ensures n != {} ==> |n + s| > 0
  {
    assert n <= n + s && n * s <= n + s;
    SubsetSize(n, n + s);
    SubsetSize(n * s, n + s);
  }

  /** Comparing fractions by cross-multiplication. */
  lemma {:induction false} CrossMultiply(i1: nat, u1: nat, i2: nat, u2: nat)
    requires u1 > 0 && u2 > 0
    ensures i1 * u2 >= i2 * u1 <==> i1 as real / u1 as real >= i2 as real / u2 as real
  {
    var x, y := i1 as real / u1 as real, i2 as real / u2 as real;
    var (a, b, c, d) := (i1 as real, u1 as real, i2 as real, u2 as real);
    assert x * b == a && y * d == c;
    assert (i1 * u2) as real == a * d && (i2 * u1) as real == c * b;
    assert a * d == x * (b * d) && c * b == y * (b * d);
    assert b * d > 0.0;
    if x >= y { assert x * (b * d) >= y * (b * d); }
    if x < y { assert x * (b * d) < y * (b * d); }
  }

  /** The base: most similar to the new body, and the highest revision among equals. */
  ghost predicate IsBase(n: set<Digest>, cands: map<int, set<Digest>>, base: int)
    requires n != {}
  {
    && base in cands
    && (forall r :: r in cands ==> Similarity(n, cands[r]) <= Similarity(n, cands[base]))
    && (forall r :: r in cands && Similarity(n, cands[r]) == Similarity(n, cands[base]) ==> r <= base)
  }

  lemma {:induction false} BaseIsUnique(n: set<Digest>, cands: map<int, set<Digest>>, a: int, b: int)
    requires n != {} && IsBase(n, cands, a) && IsBase(n, cands, b)
    ensures a == b
  {
    assert Similarity(n, cands[a]) == Similarity(n, cands[b]);
  }

  /** `best` would be the base if only the first revisions of `keys` existed. */
  ghost predicate Leads(n: set<Digest>, cands: map<int, set<Digest>>, keys: seq<int>, best: int)
    requires n != {} && best in cands && forall k :: 0 <= k < |keys| ==> keys[k] in cands
  {
    forall k :: 0 <= k < |keys| ==>
      Similarity(n, cands[keys[k]]) < Similarity(n, cands[best]) ||
      (Similarity(n, cands[keys[k]]) == Similarity(n, cands[best]) && keys[k] <= best)
  }

  lemma {:induction false} NextLeader(n: set<Digest>, cands: map<int, set<Digest>>, keys: seq<int>, best: int, rev: int)
    requires n != {} && best in cands && forall k :: 0 <= k < |keys| ==> keys[k] in cands
    requires Leads(n, cands, keys, best) && rev in cands && best < rev
    ensures
      var (i, u, bestI, bestU) := (|n * cands[rev]|, |n + cands[rev]|, |n * cands[best]|, |n + cands[best]|);
      Leads(n, cands, keys + [rev], if i * bestU >= bestI * u then rev else best)
  {
    UnionIsLarger(n, cands[rev]);
    UnionIsLarger(n, cands[best]);
    CrossMultiply(|n * cands[rev]|, |n + cands[rev]|, |n * cands[best]|, |n + cands[best]|);
  }

  ghost predicate Ascending(keys: seq<int>) {
    forall i, j :: 0 <= i < j < |keys| ==> keys[i] < keys[j]
  }

  /** The single ascending pass of `evaluate`; a later revision wins a tie. */
  method FindBase(n: set<Digest>, cands: map<int, set<Digest>>) returns (best: int)
    requires n != {} && cands.Keys != {}
    ensures IsBase(n, cands, best)
  {
    var keys := Sorted(cands.Keys);
    best := keys[0];
    var bestI, bestU := |n * cands[best]|, |n + cands[best]|;
    for k := 1 to |keys|
      invariant best in keys[..k] && Leads(n, cands, keys[..k], best)
      invariant bestI == |n * cands[best]| && bestU == |n + cands[best]|
    {
      var rev := keys[k];
      var i, u := |n * cands[rev]|, |n + cands[rev]|;
      assert keys[..k + 1] == keys[..k] + [rev];
      NextLeader(n, cands, keys[..k], best, rev);
      if i * bestU >= bestI * u {
        best, bestI, bestU := rev, i, u;
      }
    }
    forall r | r in cands ensures r in keys[..|keys|] { assert r in cands.Keys; }
  }

  method Sorted(s: set<int>) returns (keys: seq<int>)
    ensures Ascending(keys) && forall x :: x in s <==> x in keys
    ensures s != {} ==> keys != []
  {
    keys := [];
    var todo := s;
    while todo != {}
      invariant todo <= s && Ascending(keys)
      invariant forall x :: x in s <==> x in todo || x in keys
      invariant forall i, t :: 0 <= i < |keys| && t in todo ==> keys[i] < t
      decreases |todo|
    {
      var m := Least(todo);
      keys, todo := keys + [m], todo - {m};
    }
    HasElement(s);
  }

  lemma {:induction false} HasElement(s: set<int>)
    ensures s != {} ==> exists x :: x in s
  {
    assert (forall x :: x !in s) ==> s == {};
  }

  method Least(s: set<int>) returns (m: int)
    requires s != {}
    ensures m in s && forall x :: x in s ==> m <= x
  {
    var rest := s;
    HasElement(rest);
    m :| m in rest;
    rest := rest - {m};
    while rest != {}
      invariant rest <= s && m in s && forall x :: x in s ==> x in rest || m <= x
      decreases |rest|
    {
      HasElement(rest);
      var x :| x in rest;
      if x < m { m := x; }
      rest := rest - {x};
    }
  }

  // ---------------------------------------------------------------- the verdict

  datatype Verdict = Verdict(stale: bool, base: int, newer: nat, lost: nat)

  /** `minShare` as a fraction. */
  datatype Threshold = Threshold(minSegments: nat, shareNum: nat, shareDen: nat)

  const DEFAULT_THRESHOLD := Threshold(20, 1, 10)

  function Candidates(c: set<Digest>, current: int, history: map<int, set<Digest>>): map<int, set<Digest>> {
    map r | r in history.Keys + {current} :: if r in history then history[r] else c
  }

  /** What the verdict on digests `n` over `c` must be. */
  ghost predicate IsVerdict(n: set<Digest>, c: set<Digest>, current: int, history: map<int, set<Digest>>, t: Threshold, v: Verdict) {
    var cands := Candidates(c, current, history);
    if n == {} || c == {} then v == Verdict(false, current, 0, 0)
    else
      && IsBase(n, cands, v.base)
      && (v.base == current ==> !v.stale && v.newer == 0 && v.lost == 0)
      && (v.base != current ==>
            && v.newer == |c - cands[v.base]| && v.lost == |c - cands[v.base] - n|
            && (v.stale <==> v.lost >= t.minSegments && v.lost * t.shareDen >= t.shareNum * v.newer))
  }

  function HistoryDigests(history: map<int, seq<File>>, hash: Bytes -> Bytes): map<int, set<Digest>> {
    map r | r in history :: DigestSet(history[r], hash)
  }

  /** The digest sets of all candidate revisions. */
  method CollectCandidates(c: set<Digest>, current: int, history: map<int, seq<File>>, hash: Bytes -> Bytes)
    returns (cands: map<int, set<Digest>>)
    ensures cands == Candidates(c, current, HistoryDigests(history, hash))
  {
    cands := map[current := c];
    var todo := history.Keys;
    while todo != {}
      invariant todo <= history.Keys
      invariant forall r :: r in cands <==> r == current || (r in history && r !in todo)
      invariant forall r :: r in cands ==>
        cands[r] == if r in history && r !in todo then DigestSet(history[r], hash) else c
      decreases |todo|
    {
      HasElement(todo);
      var rev :| rev in todo;
      var d := Digests(history[rev], hash);
      cands, todo := cands[rev := d], todo - {rev};
    }
  }

  method Evaluate(newFiles: seq<File>, currentFiles: seq<File>, current: int, history: map<int, seq<File>>, t: Threshold, hash: Bytes -> Bytes)
    returns (v: Verdict)
    ensures IsVerdict(DigestSet(newFiles, hash), DigestSet(currentFiles, hash), current,
                      HistoryDigests(history, hash), t, v)
  {
    var n := Digests(newFiles, hash);
    var c := Digests(currentFiles, hash);
    if n == {} || c == {} { return Verdict(false, current, 0, 0); }
    var cands := CollectCandidates(c, current, history, hash);
    assert current in cands.Keys;
    var best := FindBase(n, cands);
    if best == current { return Verdict(false, best, 0, 0); }
    var newer := c - cands[best];
    var lost := newer - n;
    v := Verdict(|lost| >= t.minSegments && |lost| * t.shareDen >= t.shareNum * |newer|, best, |newer|, |lost|);
  }

  /** An update that keeps every digest of the current revision loses nothing. It is stale all the same
      exactly when the floor is 0 and an older revision is its base, with no share to reach: the share is
      0 or the current revision has nothing that the base has not. */
  lemma {:induction false} KeepingEverythingIsStaleExactlyWhen(n: set<Digest>, c: set<Digest>, current: int, history: map<int, set<Digest>>, t: Threshold, v: Verdict)
    requires IsVerdict(n, c, current, history, t, v) && c <= n
    ensures v.lost == 0
    ensures
      var cands := Candidates(c, current, history);
      v.stale <==> c != {} && t.minSegments == 0 &&
                   exists b :: b != current && IsBase(n, cands, b) && (t.shareNum == 0 || c <= cands[b])
  {
    if c != {} {
      var cands := Candidates(c, current, history);
      OnlyBase(n, cands, v.base);
      if v.base != current { StaleOverBase(n, c, cands[v.base], t, v); }
    }
  }

  lemma {:induction false} OnlyBase(n: set<Digest>, cands: map<int, set<Digest>>, base: int)
    requires n != {} && IsBase(n, cands, base)
    ensures forall b :: IsBase(n, cands, b) ==> b == base
  {
    forall b | IsBase(n, cands, b) ensures b == base { BaseIsUnique(n, cands, b, base); }
  }

  lemma {:induction false} StaleOverBase(n: set<Digest>, c: set<Digest>, base: set<Digest>, t: Threshold, v: Verdict)
    requires c <= n && v.newer == |c - base| && v.lost == |c - base - n|
    requires v.stale <==> v.lost >= t.minSegments && v.lost * t.shareDen >= t.shareNum * v.newer
    ensures v.lost == 0 && (v.stale <==> t.minSegments == 0 && (t.shareNum == 0 || c <= base))
  {
    assert c - base - n == {};
    NothingNewer(c, base);
    ProductIsZero(t.shareNum, v.newer);
  }

  lemma {:induction false} ProductIsZero(a: nat, b: nat)
    ensures a * b <= 0 <==> a == 0 || b == 0
  {
  }

  lemma {:induction false} NothingNewer(c: set<Digest>, base: set<Digest>)
    ensures |c - base| == 0 <==> c <= base
  {
    if |c - base| == 0 {
      assert c - base == {};
      assert forall d :: d in c ==> d !in c - base;
    } else {
      assert c - base != {};
    }
  }

  /** With a floor above 0, as by default, such an update is never stale. */
  lemma {:induction false} KeepingEverythingIsNotStale(n: set<Digest>, c: set<Digest>, current: int, history: map<int, set<Digest>>, t: Threshold, v: Verdict)
    requires IsVerdict(n, c, current, history, t, v) && c <= n && (t == DEFAULT_THRESHOLD || t.minSegments > 0)
    ensures !v.stale
  {
    KeepingEverythingIsStaleExactlyWhen(n, c, current, history, t, v);
  }

  /** With a floor of 0 it can be: the older revision is the update itself, the current one a part of it. */
  lemma {:induction false} StaleWithNothingLostExample(x: Digest, y: Digest, n: set<Digest>, c: set<Digest>)
    requires x != y && n == {x, y} && c == {x}
    ensures c <= n && IsVerdict(n, c, 2, map[1 := n], Threshold(0, 1, 10), Verdict(true, 1, 0, 0))
  {
    var cands := Candidates(c, 2, map[1 := n]);
    SelfSimilarity(n, c);
    assert n * c == {x} && n + c == n && |n| == 2;
    assert Similarity(n, c) == 0.5;
    assert cands[1] == n && cands[2] == c;
    assert c - n == {} && c - n - n == {};
  }

  lemma {:induction false} SelfSimilarity(n: set<Digest>, s: set<Digest>)
    requires n != {}
    ensures Similarity(n, n) == 1.0 && Similarity(n, s) <= 1.0
  {
    assert n * n == n && n + n == n;
    UnionIsLarger(n, s);
  }

  /** An update identical to the current revision is based on it. */
  lemma {:induction false} IdenticalIsBasedOnCurrent(n: set<Digest>, current: int, history: map<int, set<Digest>>, t: Threshold, v: Verdict)
    requires IsVerdict(n, n, current, history, t, v) && forall r :: r in history ==> r < current
    ensures v.base == current && !v.stale
  {
    if n != {} {
      var cands := Candidates(n, current, history);
      SelfSimilarity(n, cands[v.base]);
      assert current in cands && cands[current] == n;
    }
  }

  /** A stale verdict names an older retained revision, and at least `minSegments` digests are in
      the current revision but in neither the base nor the new body. */
  lemma {:induction false} StaleMeansLostWork(n: set<Digest>, c: set<Digest>, current: int, history: map<int, set<Digest>>, t: Threshold, v: Verdict)
    requires IsVerdict(n, c, current, history, t, v) && v.stale
    requires forall r :: r in history ==> r < current
    ensures v.base in history && v.base < current
    ensures |set d | d in c && d !in history[v.base] && d !in n| >= t.minSegments
  {
    var lost := set d | d in c && d !in history[v.base] && d !in n;
    assert lost == c - history[v.base] - n;
  }

  // ---------------------------------------------------------------- what is digested

  /** A piece ends after `>`, `;`, `}` and a line feed; trimmed are space, tab, line feed, carriage return and
      form feed. */
  lemma {:induction false} ByteClasses(b: Byte)
    ensures IsSplit(b) <==> b == '>' as int || b == ';' as int || b == '}' as int || b == '\n' as int
    ensures IsTrim(b) <==> b == ' ' as int || b == '\t' as int || b == '\n' as int || b == '\r' as int || b == 12
  {
  }

  lemma {:induction false} SegmentsMeaning(pieces: seq<Bytes>, t: Bytes)
    ensures t in Segments(pieces) <==> |t| >= 12 && exists k :: 0 <= k < |pieces| && Trimmed(pieces[k]) == t
    decreases |pieces|
  {
    if pieces != [] {
      SegmentsMeaning(pieces[1..], t);
      if k :| 0 <= k < |pieces[1..]| && Trimmed(pieces[1..][k]) == t { assert pieces[k + 1] == pieces[1..][k]; }
      if k :| 0 <= k < |pieces| && Trimmed(pieces[k]) == t { assert k > 0 ==> pieces[1..][k - 1] == pieces[k]; }
    }
  }

  /** The digests of a body are those of its pieces, trimmed, of 12 bytes or more, each behind the path of its
      file and a NUL, or alone when the body is a single file. */
  lemma {:induction false} DigestsMeaning(files: seq<File>, hash: Bytes -> Bytes, d: Digest)
    ensures d in DigestSet(files, hash) <==>
            exists i, t :: 0 <= i < |files| && IsSegment(files[i], t) &&
              d == hash(if files[i].path.Some? then files[i].path.value + [0] + t else t)
    decreases |files|
  {
    if files != [] {
      DigestsMeaning(files[1..], hash, d);
      FileDigestsMeaning(files[0], hash, d);
      var rest := files[1..];
      if i, t :| 0 <= i < |rest| && IsSegment(rest[i], t) &&
                 d == hash(if rest[i].path.Some? then rest[i].path.value + [0] + t else t) {
        assert files[i + 1] == rest[i];
      }
      if i, t :| 0 <= i < |files| && IsSegment(files[i], t) &&
                 d == hash(if files[i].path.Some? then files[i].path.value + [0] + t else t) {
        assert i > 0 ==> rest[i - 1] == files[i];
      }
    }
  }

  /** A trimmed piece of the file that is long enough to count. */
  ghost predicate IsSegment(f: File, t: Bytes) {
    |t| >= 12 && exists k :: 0 <= k < |Pieces(f.data)| && Trimmed(Pieces(f.data)[k]) == t
  }

  lemma {:induction false} FileDigestsMeaning(f: File, hash: Bytes -> Bytes, d: Digest)
    ensures d in FileDigests(f, hash) <==>
            exists t :: IsSegment(f, t) && d == hash(if f.path.Some? then f.path.value + [0] + t else t)
  {
    forall t ensures t in Segments(Pieces(f.data)) <==> IsSegment(f, t) { SegmentsMeaning(Pieces(f.data), t); }
    forall t ensures Prefix(f.path) + t == if f.path.Some? then f.path.value + [0] + t else t { }
  }

  lemma {:induction false} PathEndsFirst(p: Bytes, t: Bytes, q: Bytes, u: Bytes)
    requires 0 !in q && p + [0] + t == q + [0] + u
    ensures |q| <= |p|
  {
    var y := q + [0] + u;
    assert y == p + [0] + t && y[|p|] == 0;
    assert forall i :: 0 <= i < |q| ==> y[i] == q[i];
  }

  /** The path keeps files apart: what two files of a bundle hash, their paths being free of NUL, is the same
      only if the path and the segment are. */
  lemma {:induction false} PathsSeparate(p: Bytes, q: Bytes, t: Bytes, u: Bytes)
    requires 0 !in p && 0 !in q
    ensures Prefix(Some(p)) + t == Prefix(Some(q)) + u <==> p == q && t == u
  {
    var x, y := p + [0] + t, q + [0] + u;
    if x == y {
      PathEndsFirst(p, t, q, u);
      PathEndsFirst(q, u, p, t);
      assert p == x[..|p|] && q == y[..|q|];
      assert t == x[|p| + 1..] && u == y[|q| + 1..];
    }
  }

  // ---------------------------------------------------------------- what is decided

  /** The digests of a revision as the guard knows them. */
  function DigestsOf(c: set<Digest>, history: map<int, set<Digest>>, rev: int): set<Digest> {
    if rev in history then history[rev] else c
  }

  /** The base is current or retained, and no retained revision nor the current one shares a larger part with
      the update, counting what both have against what either has; of equals it is the highest. */
  lemma {:induction false} BaseBeatsEveryRevision(n: set<Digest>, c: set<Digest>, current: int, history: map<int, set<Digest>>, t: Threshold, v: Verdict, r: int)
    requires IsVerdict(n, c, current, history, t, v) && n != {} && c != {} && (r in history || r == current)
    ensures v.base in history || v.base == current
    ensures
      var b, s := DigestsOf(c, history, v.base), DigestsOf(c, history, r);
      |n * b| * |n + s| >= |n * s| * |n + b| && (|n * b| * |n + s| == |n * s| * |n + b| ==> r <= v.base)
  {
    var cands := Candidates(c, current, history);
    var b, s := DigestsOf(c, history, v.base), DigestsOf(c, history, r);
    assert r in cands && cands[r] == s && cands[v.base] == b;
    UnionIsLarger(n, b);
    UnionIsLarger(n, s);
    CrossMultiply(|n * b|, |n + b|, |n * s|, |n + s|);
    CrossMultiply(|n * s|, |n + s|, |n * b|, |n + b|);
  }

  /** With the default thresholds an update is stale exactly when it is based on another revision than the
      current one and loses at least 20 digests and a tenth of what came since. */
  lemma {:induction false} DefaultVerdict(n: set<Digest>, c: set<Digest>, current: int, history: map<int, set<Digest>>, v: Verdict)
    requires IsVerdict(n, c, current, history, DEFAULT_THRESHOLD, v)
    ensures
      var newer := c - DigestsOf(c, history, v.base);
      var lost := newer - n;
      v.stale <==> n != {} && c != {} && v.base != current && |lost| >= 20 && 10 * |lost| >= |newer|
    ensures n == {} || c == {} ==> v.base == current
    ensures v.base != current ==>
      v.newer == |c - DigestsOf(c, history, v.base)| && v.lost == |c - DigestsOf(c, history, v.base) - n|
    ensures v.base == current ==> v.newer == 0 && v.lost == 0
  {
    var cands := Candidates(c, current, history);
    if n != {} && c != {} { assert v.base in cands && cands[v.base] == DigestsOf(c, history, v.base); }
  }
}
