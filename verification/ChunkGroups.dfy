/**
 * What `splitLongText` and `chunks` (assets/shell/11-reader-host.js) return, said without their loops: where a
 * text is cut, and which sentences share a chunk.
 */
module ChunkGroups {
  import opened Narration
  import opened Chunker

  // ---------------------------------------------------------------- where a text is cut

  /** Every stretch ends where the text from its start on has to be cut. */
  ghost predicate AreCuts(heads: seq<Text>, limit: nat) {
    forall i :: 0 <= i < |heads| ==> IsCut(Join(heads[i..]), limit, |heads[i]|)
  }

  lemma {:induction false} HeadsAreCuts(chars: Text, limit: nat, heads: seq<Text>)
    requires limit >= 1 && heads == Heads(chars, limit)
    ensures AreCuts(heads, limit)
    decreases |chars|
  {
    HeadsTile(chars, limit, heads);
    if chars != [] {
      var end := Cut(chars, limit);
      CutMeaning(chars, limit);
      HeadsAreCuts(chars[end..], limit, heads[1..]);
      assert heads[0..] == heads;
      forall i | 0 < i < |heads| ensures IsCut(Join(heads[i..]), limit, |heads[i]|) {
        assert heads[i..] == heads[1..][i - 1..];
      }
    }
  }

  /** `parts` are the stretches that are not blank, trimmed, in order. */
  ghost predicate AreTrimmed(parts: seq<Text>, heads: seq<Text>)
    decreases |heads|
  {
    if heads == [] then parts == []
    else
      var h, k := |heads| - 1, |parts| - 1;
      if IsBlank(heads[h]) then AreTrimmed(parts, heads[..h])
      else k >= 0 && parts[k] == Trim(heads[h]) && AreTrimmed(parts[..k], heads[..h])
  }

  lemma {:induction false} PartsAppend(heads: seq<Text>, head: Text)
    ensures PartsOf(heads + [head]) == PartsOf(heads) + AsPart(Trim(head))
    decreases |heads|
  {
    var all := heads + [head];
    if heads == [] {
      assert all[1..] == [];
    } else {
      assert all[1..] == heads[1..] + [head];
      PartsAppend(heads[1..], head);
      assert AsPart(Trim(heads[0])) + (PartsOf(heads[1..]) + AsPart(Trim(head))) == PartsOf(heads) + AsPart(Trim(head));
    }
  }

  lemma {:induction false} BlankExactlyWhen(s: Text)
    ensures IsBlank(s) <==> Trim(s) == []
  {
    var before, after := TrimMeaning(s);
    if Trim(s) == [] {
      assert s == before + after;
    } else {
      assert s[|before|] == Trim(s)[0];
    }
  }

  lemma {:induction false} OneMoreTrimmed(parts: seq<Text>, heads: seq<Text>, head: Text)
    requires AreTrimmed(parts, heads)
    ensures AreTrimmed(parts + AsPart(Trim(head)), heads + [head])
  {
    BlankExactlyWhen(head);
    assert (heads + [head])[..|heads|] == heads;
    if IsBlank(head) {
      assert parts + AsPart(Trim(head)) == parts;
    } else {
      assert (parts + [Trim(head)])[..|parts|] == parts;
    }
  }

  lemma {:induction false} PartsAreTrimmed(heads: seq<Text>)
    ensures AreTrimmed(PartsOf(heads), heads)
    decreases |heads|
  {
    if heads != [] {
      var last := |heads| - 1;
      PartsAreTrimmed(heads[..last]);
      PartsAppend(heads[..last], heads[last]);
      OneMoreTrimmed(PartsOf(heads[..last]), heads[..last], heads[last]);
      assert heads[..last] + [heads[last]] == heads;
    }
  }

  /** `splitLongText` returns the stretches of the text, cut as late as the limit allows and behind white space
      where there is any in the second half, trimmed and without the blank ones. */
  lemma {:induction false} SplitMeaning(chars: Text, limit: nat) returns (heads: seq<Text>)
    requires limit >= 1
    ensures Join(heads) == chars && AreCuts(heads, limit) && AreTrimmed(SplitLong(chars, limit), heads)
  {
    heads := Heads(chars, limit);
    HeadsTile(chars, limit, heads);
    HeadsAreCuts(chars, limit, heads);
    PartsAreTrimmed(heads);
  }

  // ---------------------------------------------------------------- which sentences share a chunk

  /** A sentence, or a part of one that is too long; such a part starts a chunk. */
  datatype Piece = Piece(text: Text, starts: bool)

  function PartPieces(parts: seq<Text>): seq<Piece>
    decreases |parts|
  {
    if parts == [] then [] else PartPieces(parts[..|parts| - 1]) + [Piece(parts[|parts| - 1], true)]
  }

  /** What there is to say in a segment: nothing, its sentence, or the parts of that. */
  function PiecesOf(segment: Text, limit: nat): seq<Piece>
    requires limit >= 1
  {
    var sentence := Trim(segment);
    if sentence == [] then [] else if |sentence| <= limit then [Piece(sentence, false)] else PartPieces(SplitLong(sentence, limit))
  }

  function AllPieces(segments: seq<Text>, limit: nat): seq<Piece>
    requires limit >= 1
    decreases |segments|
  {
    if segments == [] then []
    else AllPieces(segments[..|segments| - 1], limit) + PiecesOf(segments[|segments| - 1], limit)
  }

  type Group = seq<Piece>

  function Texts(g: Group): (r: seq<Text>)
    ensures |r| == |g| && forall i :: 0 <= i < |g| ==> r[i] == g[i].text
  {
    seq(|g|, i requires 0 <= i < |g| => g[i].text)
  }

  /** What is sent for a group: its texts with a space between each two. */
  function Said(g: Group): Text { Line(Texts(g)) }

  function Flat(groups: seq<Group>): seq<Piece>
    decreases |groups|
  {
    if groups == [] then [] else Flat(groups[..|groups| - 1]) + groups[|groups| - 1]
  }

  /** A group is what may be sent together. */
  ghost predicate IsGroup(g: Group, limit: nat) {
    g != [] && |Said(g)| <= limit && forall j :: 0 < j < |g| ==> !g[j].starts
  }

  /** A group ends only where the next piece has to start one, or does not fit any more. */
  ghost predicate MustEnd(g: Group, next: Piece, limit: nat) { next.starts || |Said(g)| + 1 + |next.text| > limit }

  ghost predicate Greedy(groups: seq<Group>, limit: nat) {
    && (forall i :: 0 <= i < |groups| ==> IsGroup(groups[i], limit))
    && (forall i :: 0 < i < |groups| ==> groups[i] != [] && MustEnd(groups[i - 1], groups[i][0], limit))
  }

  lemma {:induction false} LineAppend(words: seq<Text>, w: Text)
    ensures Line(words + [w]) == if words == [] then w else Line(words) + [SPACE] + w
    decreases |words|
  {
    var all := words + [w];
    if |words| > 0 {
      assert all[1..] == words[1..] + [w];
      LineAppend(words[1..], w);
      if |words| > 1 {
        var a, b, c, d := words[0], Line(words[1..]), [SPACE], w;
        assert a + c + (b + c + d) == (a + c + b) + c + d;
      }
    }
  }

  lemma {:induction false} SaidAppend(g: Group, p: Piece)
    ensures Said(g + [p]) == if g == [] then p.text else Said(g) + [SPACE] + p.text
  {
    assert Texts(g + [p]) == Texts(g) + [p.text];
    LineAppend(Texts(g), p.text);
  }

  /** How the loop takes one piece. */
  function AddPiece(f: Filling, p: Piece, limit: nat): Filling {
    if f.pending != [] && (p.starts || |f.pending| + 1 + |p.text| > limit) then Filling(f.result + [f.pending], p.text)
    else f.(pending := Behind(f.pending, p.text))
  }

  function AddPieces(f: Filling, ps: seq<Piece>, limit: nat): Filling
    decreases |ps|
  {
    if ps == [] then f else AddPiece(AddPieces(f, ps[..|ps| - 1], limit), ps[|ps| - 1], limit)
  }

  lemma {:induction false} NextPart(f: Filling, parts: seq<Text>, limit: nat)
    requires |parts| >= 2 && parts[|parts| - 2] != []
    ensures AddPiece(WithParts(Flush(f), parts[..|parts| - 1]), Piece(parts[|parts| - 1], true), limit) == WithParts(Flush(f), parts)
  {
    var last := |parts| - 1;
    var fewer := parts[..last];
    assert fewer[..last - 1] + [parts[last - 1]] == fewer;
    assert Close(f) + fewer[..last - 1] + [parts[last - 1]] == Close(f) + fewer;
  }

  lemma {:induction false} AddParts(f: Filling, parts: seq<Text>, limit: nat)
    requires parts != [] && AreChunks(parts, limit)
    ensures AddPieces(f, PartPieces(parts), limit) == WithParts(Flush(f), parts)
    decreases |parts|
  {
    var last := |parts| - 1;
    var before, p := PartPieces(parts[..last]), Piece(parts[last], true);
    var pieces := PartPieces(parts);
    assert pieces[..|pieces| - 1] == before && pieces[|pieces| - 1] == p;
    assert AddPieces(f, pieces, limit) == AddPiece(AddPieces(f, before, limit), p, limit);
    if last == 0 {
      assert before == [] && AddPieces(f, before, limit) == f;
      assert Close(f) + parts[..0] == Close(f);
    } else {
      AddParts(f, parts[..last], limit);
      assert IsChunk(parts[last - 1], limit);
      NextPart(f, parts, limit);
    }
  }

  lemma {:induction false} AddSentencePieces(f: Filling, segment: Text, limit: nat)
    requires limit >= 1
    ensures AddSentence(f, segment, limit) == AddPieces(f, PiecesOf(segment, limit), limit)
  {
    var sentence := Trim(segment);
    TrimEmptyIffNoInk(segment);
    TrimKeepsInk(segment);
    if sentence != [] {
      if |sentence| <= limit {
        var one := [Piece(sentence, false)];
        assert one[..0] == [];
      } else {
        SplitLongNotEmpty(sentence, limit);
        SplitLongKeepsInk(sentence, limit);
        AddParts(f, SplitLong(sentence, limit), limit);
      }
    }
  }

  lemma {:induction false} AddPiecesConcat(f: Filling, a: seq<Piece>, b: seq<Piece>, limit: nat)
    ensures AddPieces(f, a + b, limit) == AddPieces(AddPieces(f, a, limit), b, limit)
    decreases |b|
  {
    if b == [] {
      assert a + b == a;
    } else {
      var last := |b| - 1;
      assert (a + b)[..|a + b| - 1] == a + b[..last];
      AddPiecesConcat(f, a, b[..last], limit);
    }
  }

  lemma {:induction false} FillIsPieces(segments: seq<Text>, limit: nat)
    requires limit >= 1
    ensures Fill(segments, limit) == AddPieces(Filling([], []), AllPieces(segments, limit), limit)
    decreases |segments|
  {
    if segments != [] {
      var last := |segments| - 1;
      FillIsPieces(segments[..last], limit);
      AddSentencePieces(Fill(segments[..last], limit), segments[last], limit);
      AddPiecesConcat(Filling([], []), AllPieces(segments[..last], limit), PiecesOf(segments[last], limit), limit);
    }
  }

  /** The finished chunks and the pending one say these groups, of which the pending one is the last. */
  ghost predicate Says(f: Filling, groups: seq<Group>, ps: seq<Piece>, limit: nat) {
    && Flat(groups) == ps && Greedy(groups, limit)
    && |Close(f)| == |groups| && (forall i :: 0 <= i < |groups| ==> Close(f)[i] == Said(groups[i]))
    && (groups != [] ==> f.pending != [])
  }

  ghost predicate Fit(ps: seq<Piece>, limit: nat) { forall i :: 0 <= i < |ps| ==> 0 < |ps[i].text| <= limit }

  lemma {:induction false} OneMoreGroup(groups: seq<Group>, p: Piece, limit: nat)
    requires Greedy(groups, limit) && 0 < |p.text| <= limit
    requires groups != [] ==> MustEnd(groups[|groups| - 1], p, limit)
    ensures Greedy(groups + [[p]], limit) && Flat(groups + [[p]]) == Flat(groups) + [p] && Said([p]) == p.text
  {
    SaidAppend([], p);
    assert [] + [p] == [p];
    var all := groups + [[p]];
    assert all[..|groups|] == groups;
  }

  lemma {:induction false} LongerGroup(groups: seq<Group>, p: Piece, limit: nat)
    requires Greedy(groups, limit) && groups != [] && !MustEnd(groups[|groups| - 1], p, limit)
    ensures
      var last := |groups| - 1;
      var all := groups[..last] + [groups[last] + [p]];
      && Greedy(all, limit) && Flat(all) == Flat(groups) + [p]
      && Said(all[last]) == Said(groups[last]) + [SPACE] + p.text
  {
    var last := |groups| - 1;
    var g := groups[last];
    SaidAppend(g, p);
    var all := groups[..last] + [g + [p]];
    assert all[..last] == groups[..last];
    assert Flat(groups[..last]) + (g + [p]) == Flat(groups[..last]) + g + [p];
    forall i | 0 < i < |all| ensures all[i] != [] && MustEnd(all[i - 1], all[i][0], limit) {
      assert groups[i][0] == all[i][0] && groups[i - 1] == all[i - 1];
    }
  }

  lemma {:induction false} AddPieceSays(f: Filling, groups: seq<Group>, ps: seq<Piece>, p: Piece, limit: nat) returns (all: seq<Group>)
    requires Says(f, groups, ps, limit) && 0 < |p.text| <= limit
    ensures Says(AddPiece(f, p, limit), all, ps + [p], limit)
  {
    if f.pending == [] || p.starts || |f.pending| + 1 + |p.text| > limit {
      assert groups != [] ==> Close(f)[|groups| - 1] == f.pending == Said(groups[|groups| - 1]);
      OneMoreGroup(groups, p, limit);
      all := groups + [[p]];
      assert Close(AddPiece(f, p, limit)) == Close(f) + [p.text];
    } else {
      var last := |groups| - 1;
      assert Close(f)[last] == f.pending == Said(groups[last]);
      LongerGroup(groups, p, limit);
      all := groups[..last] + [groups[last] + [p]];
      assert Close(AddPiece(f, p, limit)) == Close(f)[..last] + [Behind(f.pending, p.text)];
    }
  }

  lemma {:induction false} AddPiecesSays(ps: seq<Piece>, limit: nat) returns (groups: seq<Group>)
    requires Fit(ps, limit)
    ensures Says(AddPieces(Filling([], []), ps, limit), groups, ps, limit)
    decreases |ps|
  {
    if ps == [] {
      groups := [];
    } else {
      var last := |ps| - 1;
      var before := AddPiecesSays(ps[..last], limit);
      groups := AddPieceSays(AddPieces(Filling([], []), ps[..last], limit), before, ps[..last], ps[last], limit);
      assert ps[..last] + [ps[last]] == ps;
    }
  }

  lemma {:induction false} PartPiecesFit(parts: seq<Text>, limit: nat)
    requires AreChunks(parts, limit)
    ensures Fit(PartPieces(parts), limit)
    decreases |parts|
  {
    if parts != [] {
      PartPiecesFit(parts[..|parts| - 1], limit);
      assert IsChunk(parts[|parts| - 1], limit);
    }
  }

  lemma {:induction false} AllPiecesFit(segments: seq<Text>, limit: nat)
    requires limit >= 1
    ensures Fit(AllPieces(segments, limit), limit)
    decreases |segments|
  {
    if segments != [] {
      AllPiecesFit(segments[..|segments| - 1], limit);
      PiecesFit(segments[|segments| - 1], limit);
    }
  }

  lemma {:induction false} PiecesFit(segment: Text, limit: nat)
    requires limit >= 1
    ensures Fit(PiecesOf(segment, limit), limit)
  {
    var sentence := Trim(segment);
    SplitLongKeepsInk(sentence, limit);
    PartPiecesFit(SplitLong(sentence, limit), limit);
  }

  /** For every text and every partition into sentences: the chunks are the sentences, and the parts of those that
      are too long, in order, grouped with single spaces between them; a group ends only where the next sentence
      would not fit behind it, or a part of a long sentence starts. */
  lemma {:induction false} ChunksAreGreedy(segments: seq<Text>, limit: nat) returns (groups: seq<Group>)
    requires limit >= 1
    ensures
      var chunks := Close(Fill(segments, limit));
      && Flat(groups) == AllPieces(segments, limit) && Greedy(groups, limit)
      && |chunks| == |groups| && forall i :: 0 <= i < |chunks| ==> chunks[i] == Said(groups[i])
  {
    AllPiecesFit(segments, limit);
    FillIsPieces(segments, limit);
    groups := AddPiecesSays(AllPieces(segments, limit), limit);
  }
}
