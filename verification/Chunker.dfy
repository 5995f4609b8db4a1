/** Cutting narration text into requests (`splitLongText`, `chunks` in assets/shell/11-reader-host.js). */
module Chunker {
  import opened Narration

  function Join(parts: seq<Text>): Text
    decreases |parts|
  {
    if parts == [] then [] else Join(parts[..|parts| - 1]) + parts[|parts| - 1]
  }

  lemma {:induction false} JoinAppend(a: seq<Text>, t: Text)
    ensures Join(a + [t]) == Join(a) + t
  {
    assert (a + [t])[..|a|] == a;
  }

  lemma {:induction false} JoinConcat(a: seq<Text>, b: seq<Text>)
    ensures Join(a + b) == Join(a) + Join(b)
    decreases |b|
  {
    if b == [] {
      assert a + b == a;
    } else {
      var last := |b| - 1;
      JoinConcat(a, b[..last]);
      assert (a + b)[..|a + b| - 1] == a + b[..last];
      assert Join(a) + (Join(b[..last]) + b[last]) == Join(a) + Join(b[..last]) + b[last];
    }
  }

  /** A chunk that may be sent: not blank, trimmed, and within the limit. */
  predicate IsChunk(t: Text, limit: nat) { t != [] && IsTrimmed(t) && |t| <= limit }

  predicate AreChunks(ts: seq<Text>, limit: nat) {
    forall i :: 0 <= i < |ts| ==> IsChunk(ts[i], limit)
  }

  // ---------------------------------------------------------------- splitLongText

  /** The last position in (floor, i] that follows a white space, or `whole` if there is none. */
  function LastBreak(chars: Text, i: nat, floor: nat, whole: nat): (end: nat)
    requires i <= |chars| && floor < whole
    ensures floor < end && (end == whole || end <= i)
    decreases i
  {
    if i <= floor then whole
    else if IsSpace(chars[i - 1]) then i
    else LastBreak(chars, i - 1, floor, whole)
  }

  /** It follows the last white space between `floor` and `i`, if there is one there. */
  lemma {:induction false} LastBreakIsLast(chars: Text, i: nat, floor: nat, whole: nat)
    requires i <= |chars| && floor < whole
    ensures
      var end := LastBreak(chars, i, floor, whole);
      || (end <= i && IsSpace(chars[end - 1]) && forall k :: end <= k < i ==> !IsSpace(chars[k]))
      || (end == whole && forall k :: floor <= k < i ==> !IsSpace(chars[k]))
    decreases i
  {
    if i > floor && !IsSpace(chars[i - 1]) { LastBreakIsLast(chars, i - 1, floor, whole); }
  }

  /** Where the first part of `chars` ends. */
  function Cut(chars: Text, limit: nat): (end: nat)
    requires chars != [] && limit >= 1
    ensures 0 < end <= |chars| && end <= limit
  {
    if |chars| <= limit then |chars| else LastBreak(chars, limit, limit / 2, limit)
  }

  /** `end` is where a text has to be cut: behind all of it if it fits; else behind the last white space in the
      second half of what fits; else where the limit falls. */
  ghost predicate IsCut(chars: Text, limit: nat, end: nat) {
    if |chars| <= limit then end == |chars|
    else
      && limit / 2 < end <= limit
      && (IsSpace(chars[end - 1]) || (end == limit && forall k :: limit / 2 <= k < limit ==> !IsSpace(chars[k])))
      && forall k :: end <= k < limit ==> !IsSpace(chars[k])
  }

  lemma {:induction false} CutMeaning(chars: Text, limit: nat)
    requires chars != [] && limit >= 1
    ensures IsCut(chars, limit, Cut(chars, limit))
  {
    if |chars| > limit { LastBreakIsLast(chars, limit, limit / 2, limit); }
  }

  /** There is only one such place. */
  lemma {:induction false} CutIsUnique(chars: Text, limit: nat, end: nat, other: nat)
    requires limit >= 1 && IsCut(chars, limit, end) && IsCut(chars, limit, other)
    ensures end == other
  {
  }

  /** The stretches of text between the cuts. */
  function Heads(chars: Text, limit: nat): seq<Text>
    requires limit >= 1
    decreases |chars|
  {
    if chars == [] then []
    else
      var end := Cut(chars, limit);
      [chars[..end]] + Heads(chars[end..], limit)
  }

  /** What is kept of a stretch: nothing if it is blank. */
  function AsPart(value: Text): seq<Text> { if value != [] then [value] else [] }

  function PartsOf(heads: seq<Text>): seq<Text>
    decreases |heads|
  {
    if heads == [] then [] else AsPart(Trim(heads[0])) + PartsOf(heads[1..])
  }

  function SplitLong(chars: Text, limit: nat): seq<Text>
    requires limit >= 1
  {
    PartsOf(Heads(chars, limit))
  }

  lemma {:induction false} JoinOne(t: Text, rest: seq<Text>)
    ensures Join([t]) == t && Join([t] + rest) == t + Join(rest)
  {
    var one := [t];
    assert one[..0] == [] && Join(one[..0]) == [];
    JoinConcat(one, rest);
  }

  lemma {:induction false} InkOfPart(value: Text, rest: seq<Text>)
    ensures Ink(Join(AsPart(value) + rest)) == Ink(value) + Ink(Join(rest))
  {
    if value == [] {
      assert AsPart(value) + rest == rest;
      assert Ink(value) == [];
    } else {
      JoinOne(value, rest);
      InkAppend(value, Join(rest));
    }
  }

  /** The stretches are within the limit and tile the text. */
  lemma {:induction false} HeadsTile(chars: Text, limit: nat, heads: seq<Text>)
    requires limit >= 1 && heads == Heads(chars, limit)
    ensures Join(heads) == chars
    ensures forall i :: 0 <= i < |heads| ==> |heads[i]| <= limit
    decreases |chars|
  {
    if chars != [] {
      var end := Cut(chars, limit);
      var more := Heads(chars[end..], limit);
      HeadsTile(chars[end..], limit, more);
      JoinOne(chars[..end], more);
      assert chars == chars[..end] + chars[end..];
      assert heads == [chars[..end]] + more;
      assert forall i :: 0 < i < |heads| ==> heads[i] == more[i - 1];
    }
  }

  lemma {:induction false} PartsKeepInk(heads: seq<Text>, limit: nat)
    requires forall i :: 0 <= i < |heads| ==> |heads[i]| <= limit
    ensures AreChunks(PartsOf(heads), limit) && Ink(Join(PartsOf(heads))) == Ink(Join(heads))
    decreases |heads|
  {
    if heads != [] {
      var head, rest := heads[0], heads[1..];
      PartsKeepInk(rest, limit);
      FirstPart(head, PartsOf(rest), limit);
      assert heads == [head] + rest;
      JoinOne(head, rest);
      InkAppend(head, Join(rest));
    }
  }

  lemma {:induction false} FirstPart(head: Text, parts: seq<Text>, limit: nat)
    requires AreChunks(parts, limit) && |head| <= limit
    ensures AreChunks(AsPart(Trim(head)) + parts, limit)
    ensures Ink(Join(AsPart(Trim(head)) + parts)) == Ink(head) + Ink(Join(parts))
  {
    TrimKeepsInk(head);
    TrimIsTrimmed(head);
    InkOfPart(Trim(head), parts);
  }

  /** Every part may be sent, and no character but white space is lost, repeated or moved. */
  lemma {:induction false} SplitLongKeepsInk(chars: Text, limit: nat)
    requires limit >= 1
    ensures AreChunks(SplitLong(chars, limit), limit)
    ensures Ink(Join(SplitLong(chars, limit))) == Ink(chars)
  {
    HeadsTile(chars, limit, Heads(chars, limit));
    PartsKeepInk(Heads(chars, limit), limit);
  }

  lemma {:induction false} SplitLongNotEmpty(chars: Text, limit: nat)
    requires limit >= 1 && Ink(chars) != []
    ensures SplitLong(chars, limit) != []
  {
    SplitLongKeepsInk(chars, limit);
  }

  /** The inner loop of `splitLongText`: look back for a break in the second half of the window. */
  method FindEnd(chars: Text, limit: nat) returns (end: nat)
    requires limit >= 1 && chars != []
    ensures end == Cut(chars, limit)
  {
    end := if limit < |chars| then limit else |chars|;
    if end < |chars| {
      var i := end;
      while i > limit / 2
        invariant limit / 2 <= i <= end == limit
        invariant LastBreak(chars, limit, limit / 2, limit) == LastBreak(chars, i, limit / 2, limit)
      {
        if IsSpace(chars[i - 1]) { return i; }
        i := i - 1;
      }
    }
  }

  lemma {:induction false} HeadsStep(chars: Text, start: nat, end: nat, limit: nat)
    requires limit >= 1 && start < |chars| && end == start + Cut(chars[start..], limit)
    ensures Heads(chars[start..], limit) == [chars[start..end]] + Heads(chars[end..], limit)
  {
    assert chars[start..][..end - start] == chars[start..end];
    assert chars[start..][end - start..] == chars[end..];
  }

  lemma {:induction false} PartsStep(result: seq<Text>, head: Text, rest: seq<Text>)
    ensures
      var value := Trim(head);
      result + PartsOf([head] + rest) == (if value != [] then result + [value] else result) + PartsOf(rest)
  {
    assert ([head] + rest)[1..] == rest;
  }

  lemma {:induction false} SplitStep(result: seq<Text>, chars: Text, start: nat, end: nat, limit: nat)
    requires limit >= 1 && start < |chars| && end == start + Cut(chars[start..], limit)
    ensures
      var value := Trim(chars[start..end]);
      result + SplitLong(chars[start..], limit) ==
      (if value != [] then result + [value] else result) + SplitLong(chars[end..], limit)
  {
    HeadsStep(chars, start, end, limit);
    PartsStep(result, chars[start..end], Heads(chars[end..], limit));
  }

  /** `splitLongText`. */
  method SplitLongText(chars: Text, limit: nat) returns (result: seq<Text>)
    requires limit >= 1
    ensures result == SplitLong(chars, limit)
  {
    result := [];
    var start := 0;
    while start < |chars|
      invariant start <= |chars|
      invariant result + SplitLong(chars[start..], limit) == SplitLong(chars, limit)
    {
      var length := FindEnd(chars[start..], limit);
      var end := start + length;
      SplitStep(result, chars, start, end, limit);
      var value := Trim(chars[start..end]);
      if value != [] { result := result + [value]; }
      start := end;
    }
  }

  // ---------------------------------------------------------------- chunks

  /** Finished chunks and the one being filled. */
  datatype Filling = Filling(result: seq<Text>, pending: Text)

  function AddSentence(f: Filling, segment: Text, limit: nat): Filling
    requires limit >= 1
  {
    var sentence := Trim(segment);
    if sentence == [] then f
    else
      var g := if f.pending != [] && |f.pending + [SPACE] + sentence| > limit
               then Filling(f.result + [f.pending], []) else f;
      if |sentence| > limit then WithParts(g, SplitLong(sentence, limit))
      else g.(pending := Behind(g.pending, sentence))
  }

  /** The parts of a long sentence; the last one may still grow. */
  function WithParts(f: Filling, parts: seq<Text>): Filling {
    if parts == [] then f.(pending := [])
    else Filling(f.result + parts[..|parts| - 1], parts[|parts| - 1])
  }

  function Fill(segments: seq<Text>, limit: nat): Filling
    requires limit >= 1
    decreases |segments|
  {
    if segments == [] then Filling([], [])
    else AddSentence(Fill(segments[..|segments| - 1], limit), segments[|segments| - 1], limit)
  }

  function Close(f: Filling): seq<Text> {
    if f.pending != [] then f.result + [f.pending] else f.result
  }

  ghost predicate IsFilling(f: Filling, limit: nat) {
    AreChunks(f.result, limit) && (f.pending == [] || IsChunk(f.pending, limit))
  }

  predicate IsAt(t: Text, c: Text, k: int) { 0 <= k <= |c| - |t| && c[k..k + |t|] == t }

  ghost predicate Occurs(t: Text, c: Text) { exists k :: IsAt(t, c, k) }

  ghost predicate OccursIn(t: Text, cs: seq<Text>) {
    exists i :: 0 <= i < |cs| && Occurs(t, cs[i])
  }

  lemma {:induction false} OccursExtends(t: Text, c: Text, d: Text)
    requires Occurs(t, c)
    ensures Occurs(t, c + d)
  {
    var k :| IsAt(t, c, k);
    assert IsAt(t, c + d, k);
  }

  lemma {:induction false} OccursAtEnd(t: Text, c: Text)
    ensures Occurs(t, c + t)
  {
    assert IsAt(t, c + t, |c|);
  }

  lemma {:induction false} InkOfClosed(f: Filling)
    ensures Ink(Join(Close(f))) == Ink(Join(f.result)) + Ink(f.pending)
  {
    if f.pending != [] {
      JoinAppend(f.result, f.pending);
      InkAppend(Join(f.result), f.pending);
    }
  }

  /** Moving the pending chunk to the result changes nothing that counts. */
  function Flush(f: Filling): Filling { Filling(Close(f), []) }

  /** Adding a long sentence to a flushed filling. */
  lemma {:induction false} AddLong(f: Filling, sentence: Text, limit: nat, parts: seq<Text>)
    requires limit >= 1 && IsFilling(f, limit) && f.pending == [] && Ink(sentence) != []
    requires parts == SplitLong(sentence, limit)
    ensures
      var g := WithParts(f, parts);
      IsFilling(g, limit) && Close(g) == f.result + parts &&
      Ink(Join(Close(g))) == Ink(Join(Close(f))) + Ink(sentence)
  {
    SplitLongNotEmpty(sentence, limit);
    SplitLongKeepsInk(sentence, limit);
    AddParts(f, parts, limit);
  }

  lemma {:induction false} AddParts(f: Filling, parts: seq<Text>, limit: nat)
    requires IsFilling(f, limit) && f.pending == [] && parts != [] && AreChunks(parts, limit)
    ensures
      var g := WithParts(f, parts);
      IsFilling(g, limit) && Close(g) == f.result + parts &&
      Ink(Join(Close(g))) == Ink(Join(f.result)) + Ink(Join(parts))
  {
    var last := |parts| - 1;
    assert (f.result + parts[..last]) + [parts[last]] == f.result + parts;
    JoinConcat(f.result, parts);
    InkAppend(Join(f.result), Join(parts));
  }

  lemma {:induction false} SpacedInk(a: Text, b: Text)
    ensures Ink(a + [SPACE] + b) == Ink(a) + Ink(b)
  {
    var space: Text := [SPACE];
    assert space[1..] == [];
    assert Ink(space) == [];
    InkAppend(a, space);
    InkAppend(a + space, b);
  }

  function Behind(pending: Text, sentence: Text): Text {
    if pending != [] then pending + [SPACE] + sentence else sentence
  }

  lemma {:induction false} BehindKeeps(pending: Text, sentence: Text, limit: nat)
    requires pending == [] || IsChunk(pending, limit)
    requires IsChunk(sentence, limit) && |Behind(pending, sentence)| <= limit
    ensures IsChunk(Behind(pending, sentence), limit)
    ensures Ink(Behind(pending, sentence)) == Ink(pending) + Ink(sentence)
    ensures Occurs(sentence, Behind(pending, sentence))
  {
    if pending == [] {
      assert IsAt(sentence, sentence, 0);
    } else {
      SpacedInk(pending, sentence);
      OccursAtEnd(sentence, pending + [SPACE]);
    }
  }

  /** Adding a short sentence behind the pending chunk, which it fits. */
  lemma {:induction false} AddShort(f: Filling, sentence: Text, limit: nat)
    requires IsFilling(f, limit) && IsChunk(sentence, limit) && |Behind(f.pending, sentence)| <= limit
    ensures
      var g := f.(pending := Behind(f.pending, sentence));
      IsFilling(g, limit) && Occurs(sentence, g.pending) &&
      Ink(Join(Close(g))) == Ink(Join(Close(f))) + Ink(sentence)
  {
    var g := f.(pending := Behind(f.pending, sentence));
    BehindKeeps(f.pending, sentence, limit);
    InkOfPending(f, g, Ink(sentence));
  }

  lemma {:induction false} InkOfPending(f: Filling, g: Filling, more: Text)
    requires f.result == g.result && Ink(g.pending) == Ink(f.pending) + more
    ensures Ink(Join(Close(g))) == Ink(Join(Close(f))) + more
  {
    InkOfClosed(f);
    InkOfClosed(g);
    Associate(Ink(Join(f.result)), Ink(f.pending), more);
  }

  lemma {:induction false} Associate(a: Text, b: Text, c: Text)
    ensures a + (b + c) == (a + b) + c
  {
  }

  /** What the loop of `chunks` keeps: sendable chunks, the ink of the sentences read, and every
      sentence that fits a chunk whole inside one. */
  ghost predicate Filled(f: Filling, segments: seq<Text>, limit: nat) {
    && IsFilling(f, limit)
    && Ink(Join(Close(f))) == Ink(Join(segments))
    && forall i :: 0 <= i < |segments| && IsChunk(Trim(segments[i]), limit) ==> OccursIn(Trim(segments[i]), Close(f))
  }

  /** A sentence that joins the pending chunk hides none of the earlier ones. */
  lemma {:induction false} ShortKeepsOccurrences(f: Filling, t: Text, sentence: Text)
    requires OccursIn(t, Close(f)) && sentence != []
    ensures OccursIn(t, Close(f.(pending := Behind(f.pending, sentence))))
  {
    var g := f.(pending := Behind(f.pending, sentence));
    var i :| 0 <= i < |Close(f)| && Occurs(t, Close(f)[i]);
    if i < |f.result| {
      assert Close(g)[i] == Close(f)[i];
    } else {
      OccursExtends(t, f.pending, [SPACE] + sentence);
      assert f.pending + ([SPACE] + sentence) == g.pending;
      assert Close(g)[i] == g.pending;
    }
  }

  lemma {:induction false} MoreChunksKeepOccurrences(t: Text, cs: seq<Text>, ds: seq<Text>)
    requires OccursIn(t, cs)
    ensures OccursIn(t, cs + ds)
  {
    var i :| 0 <= i < |cs| && Occurs(t, cs[i]);
    assert (cs + ds)[i] == cs[i];
  }

  lemma {:induction false} LongFills(g: Filling, segments: seq<Text>, segment: Text, limit: nat)
    requires limit >= 1 && Filled(g, segments, limit) && g.pending == [] && |Trim(segment)| > limit
    ensures Filled(WithParts(g, SplitLong(Trim(segment), limit)), segments + [segment], limit)
  {
    var all, sentence := segments + [segment], Trim(segment);
    SegmentInk(segments, segment);
    TrimEmptyIffNoInk(segment);
    TrimKeepsInk(segment);
    var parts := SplitLong(sentence, limit);
    AddLong(g, sentence, limit, parts);
    forall i | 0 <= i < |all| && IsChunk(Trim(all[i]), limit) ensures OccursIn(Trim(all[i]), g.result + parts) {
      MoreChunksKeepOccurrences(Trim(segments[i]), Close(g), parts);
    }
  }

  lemma {:induction false} ShortFills(g: Filling, segments: seq<Text>, segment: Text, limit: nat)
    requires Filled(g, segments, limit) && IsChunk(Trim(segment), limit) && |Behind(g.pending, Trim(segment))| <= limit
    ensures Filled(g.(pending := Behind(g.pending, Trim(segment))), segments + [segment], limit)
  {
    var all, sentence := segments + [segment], Trim(segment);
    var h := g.(pending := Behind(g.pending, sentence));
    SegmentInk(segments, segment);
    TrimKeepsInk(segment);
    AddShort(g, sentence, limit);
    assert Close(h)[|Close(h)| - 1] == h.pending;
    forall i | 0 <= i < |all| && IsChunk(Trim(all[i]), limit) ensures OccursIn(Trim(all[i]), Close(h)) {
      if i < |segments| { ShortKeepsOccurrences(g, Trim(segments[i]), sentence); }
    }
  }

  lemma {:induction false} SegmentInk(segments: seq<Text>, segment: Text)
    ensures Ink(Join(segments + [segment])) == Ink(Join(segments)) + Ink(segment)
  {
    JoinAppend(segments, segment);
    InkAppend(Join(segments), segment);
  }

  lemma {:induction false} FlushFills(f: Filling, segments: seq<Text>, limit: nat)
    requires Filled(f, segments, limit)
    ensures Filled(Flush(f), segments, limit)
  {
    assert Close(Flush(f)) == Close(f);
  }

  lemma {:induction false} BlankFills(f: Filling, segments: seq<Text>, segment: Text, limit: nat)
    requires Filled(f, segments, limit) && Trim(segment) == []
    ensures Filled(f, segments + [segment], limit)
  {
    SegmentInk(segments, segment);
    TrimEmptyIffNoInk(segment);
  }

  lemma {:induction false} AddSentenceFills(f: Filling, segments: seq<Text>, segment: Text, limit: nat, t: Filling)
    requires limit >= 1 && Filled(f, segments, limit) && t == AddSentence(f, segment, limit)
    ensures Filled(t, segments + [segment], limit)
  {
    var sentence := Trim(segment);
    TrimIsTrimmed(segment);
    if sentence == [] {
      BlankFills(f, segments, segment, limit);
    } else {
      var full := f.pending != [] && |f.pending + [SPACE] + sentence| > limit;
      var g := if full then Flush(f) else f;
      FlushFills(f, segments, limit);
      if |sentence| > limit {
        LongFills(g, segments, segment, limit);
      } else {
        ShortFills(g, segments, segment, limit);
      }
    }
  }

  lemma {:induction false} FillFills(segments: seq<Text>, limit: nat, t: Filling)
    requires limit >= 1 && t == Fill(segments, limit)
    ensures Filled(t, segments, limit)
    decreases |segments|
  {
    if segments == [] {
      assert Join(segments) == [];
    } else {
      var last := |segments| - 1;
      var f := Fill(segments[..last], limit);
      FillFills(segments[..last], limit, f);
      AddSentenceFills(f, segments[..last], segments[last], limit, t);
      assert segments[..last] + [segments[last]] == segments;
    }
  }

  /** For every text and every partition of it into sentences: each chunk can be sent, no character
      but white space is lost, repeated or moved, and a sentence that fits is never broken up. */
  lemma {:induction false} ChunksKeepText(text: Text, segments: seq<Text>, limit: nat)
    requires limit >= 1 && Join(segments) == text
    ensures
      var chunks := Close(Fill(segments, limit));
      && AreChunks(chunks, limit)
      && Ink(Join(chunks)) == Ink(text)
      && forall i :: 0 <= i < |segments| && IsChunk(Trim(segments[i]), limit) ==> OccursIn(Trim(segments[i]), chunks)
  {
    FillFills(segments, limit, Fill(segments, limit));
  }

  /** The loop of `chunks` over the sentences. */
  method ChunksBySentence(segments: seq<Text>, limit: nat) returns (result: seq<Text>)
    requires limit >= 1
    ensures result == Close(Fill(segments, limit))
  {
    result := [];
    var pending: Text := [];
    for k := 0 to |segments|
      invariant Fill(segments[..k], limit) == Filling(result, pending)
    {
      assert segments[..k + 1][..k] == segments[..k];
      var sentence := Trim(segments[k]);
      if sentence == [] { continue; }
      if pending != [] && |pending + [SPACE] + sentence| > limit {
        result, pending := result + [pending], [];
      }
      if |sentence| > limit {
        var parts := SplitLongText(sentence, limit);
        if parts == [] {
          pending := [];
        } else {
          result, pending := result + parts[..|parts| - 1], parts[|parts| - 1];
        }
      } else {
        pending := Behind(pending, sentence);
      }
    }
    assert segments[..|segments|] == segments;
    if pending != [] { result := result + [pending]; }
  }

  /** `chunks`: by sentences where the voice and the browser allow it, else by length alone. The
      sentences are what `Intl.Segmenter` returns for the text. */
  method Chunks(text: Text, segments: seq<Text>, moss: bool, bySentence: bool) returns (result: seq<Text>)
    requires Join(segments) == text
    ensures AreChunks(result, if moss then 300 else 600)
    ensures Ink(Join(result)) == Ink(text)
    ensures result == if bySentence then Close(Fill(segments, if moss then 300 else 600))
                      else SplitLong(text, if moss then 300 else 600)
  {
    var limit := if moss then 300 else 600;
    if !bySentence {
      SplitLongKeepsInk(text, limit);
      result := SplitLongText(text, limit);
      return;
    }
    FillFills(segments, limit, Fill(segments, limit));
    result := ChunksBySentence(segments, limit);
  }
}
