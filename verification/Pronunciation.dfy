/**
 * Pronunciation hints (`pronunciationPlan`, `pronunciationRange` in assets/shell/11-reader-host.js):
 * the spoken text with a map of its ranges back to the source text.
 */
module Pronunciation {
  import opened Wrappers
  import opened Narration

  const MAX_HINTS := 128
  const MAX_SPAN := 200

  /** One element of the hint array; `Malformed` stands for anything that fails the type checks. */
  datatype Hint = Malformed | Hint(start: int, end: int, text: Text)

  datatype Segment = Segment(start: nat, end: nat, sourceStart: nat, sourceEnd: nat, replacement: bool)

  datatype Plan = Plan(text: Text, segments: seq<Segment>)

  /** `replace(/\s+/g, ' ')`. */
  function Collapse(s: Text): Text
    decreases |s|
  {
    if s == [] then []
    else if IsSpace(s[0]) then
      TrimStartKeepsInk(s[1..]);
      [SPACE] + Collapse(TrimStart(s[1..]))
    else [s[0]] + Collapse(s[1..])
  }

  function Spoken(hint: Text): Text { Trim(Collapse(hint)) }

  predicate HintOk(h: Hint, cursor: int, length: nat) {
    && h.Hint?
    && cursor <= h.start < h.end <= length && h.end - h.start <= MAX_SPAN
    && Trim(h.text) != [] && |h.text| <= MAX_SPAN
    && forall i :: 0 <= i < |h.text| ==> h.text[i] >= 0x20
  }

  /** The hints are well formed, in order and disjoint, from source position `cursor` on. */
  predicate AllOk(hints: seq<Hint>, cursor: int, length: nat)
    decreases |hints|
  {
    hints == [] || (HintOk(hints[0], cursor, length) && AllOk(hints[1..], hints[0].end, length))
  }

  function Usable(hints: seq<Hint>, length: nat): seq<Hint> {
    if |hints| > MAX_HINTS || !AllOk(hints, 0, length) then [] else hints
  }

  // ---------------------------------------------------------------- the plan

  function Add(plan: Plan, value: Text, start: nat, end: nat, replacement: bool): Plan {
    if value == [] then plan
    else Plan(plan.text + value,
              plan.segments + [Segment(|plan.text|, |plan.text| + |value|, start, end, replacement)])
  }

  /** The plan once the source has been consumed up to `cursor` and `hints` are left. */
  function Extend(text: Text, plan: Plan, hints: seq<Hint>, cursor: nat): Plan
    requires cursor <= |text| && AllOk(hints, cursor, |text|)
    decreases |hints|
  {
    if hints == [] then Add(plan, text[cursor..], cursor, |text|, false)
    else
      var h := hints[0];
      Extend(text, WithHint(text, plan, h, cursor), hints[1..], h.end)
  }

  /** The text before a hint, then its replacement. */
  function WithHint(text: Text, plan: Plan, h: Hint, cursor: nat): Plan
    requires HintOk(h, cursor, |text|)
  {
    Add(Add(plan, text[cursor..h.start], cursor, h.start, false), Spoken(h.text), h.start, h.end, true)
  }

  function Planned(text: Text, hints: seq<Hint>): Plan {
    Extend(text, Plan([], []), Usable(hints, |text|), 0)
  }

  /** The `every` call of the source: one scan with a moving cursor. */
  method Validate(hints: seq<Hint>, length: nat) returns (valid: bool)
    ensures valid == AllOk(hints, 0, length)
  {
    var cursor := 0;
    for i := 0 to |hints|
      invariant AllOk(hints, 0, length) == AllOk(hints[i..], cursor, length)
    {
      if !HintOk(hints[i], cursor, length) { return false; }
      assert hints[i..][1..] == hints[i + 1..];
      cursor := hints[i].end;
    }
    return true;
  }

  /** `pronunciationPlan`. */
  method PronunciationPlan(text: Text, given: seq<Hint>) returns (plan: Plan)
    ensures plan == Planned(text, given)
  {
    var hints := if |given| > MAX_HINTS then [] else given;
    var valid := Validate(hints, |text|);
    if !valid { hints := []; }
    var cursor := 0;
    plan := Plan([], []);
    for i := 0 to |hints|
      invariant 0 <= cursor <= |text| && AllOk(hints[i..], cursor, |text|)
      invariant Extend(text, plan, hints[i..], cursor) == Planned(text, given)
    {
      var h := hints[i];
      assert hints[i..][0] == h && hints[i..][1..] == hints[i + 1..];
      plan := Add(plan, text[cursor..h.start], cursor, h.start, false);
      plan := Add(plan, Spoken(h.text), h.start, h.end, true);
      cursor := h.end;
    }
    plan := Add(plan, text[cursor..], cursor, |text|, false);
  }

  // ---------------------------------------------------------------- tiling

  /** Segment `s` speaks its source slice verbatim, or replaces it. */
  ghost predicate Faithful(plan: Plan, s: Segment, text: Text) {
    && s.start < s.end <= |plan.text| && s.sourceStart < s.sourceEnd <= |text|
    && (!s.replacement ==> plan.text[s.start..s.end] == text[s.sourceStart..s.sourceEnd])
  }

  /** The segments tile the spoken text and, in the same order, the source text up to `upTo`. */
  ghost predicate Tiles(plan: Plan, text: Text, upTo: nat) {
    var ss := plan.segments;
    && (forall k :: 0 <= k < |ss| ==> Faithful(plan, ss[k], text))
    && (forall k :: 0 <= k < |ss| - 1 ==> ss[k].end == ss[k + 1].start && ss[k].sourceEnd == ss[k + 1].sourceStart)
    && (ss == [] ==> plan.text == [] && upTo == 0)
    && (ss != [] ==> ss[0].start == 0 && ss[0].sourceStart == 0)
    && (ss != [] ==> ss[|ss| - 1].end == |plan.text| && ss[|ss| - 1].sourceEnd == upTo)
  }

  lemma {:induction false} StaysFaithful(plan: Plan, s: Segment, text: Text, value: Text, next: Plan)
    requires Faithful(plan, s, text) && next.text == plan.text + value
    ensures Faithful(next, s, text)
  {
    assert next.text[s.start..s.end] == plan.text[s.start..s.end];
  }

  lemma {:induction false} AddTiles(plan: Plan, text: Text, value: Text, start: nat, end: nat, replacement: bool)
    requires Tiles(plan, text, start) && start <= end <= |text|
    requires value == [] <==> start == end
    requires !replacement ==> value == text[start..end]
    ensures Tiles(Add(plan, value, start, end, replacement), text, end)
  {
    var next := Add(plan, value, start, end, replacement);
    if value != [] {
      forall k | 0 <= k < |plan.segments| ensures Faithful(next, next.segments[k], text) {
        StaysFaithful(plan, plan.segments[k], text, value, next);
      }
      var s := next.segments[|plan.segments|];
      assert s.start == |plan.text| && s.end == |plan.text + value|;
      assert (plan.text + value)[|plan.text|..|plan.text + value|] == value;
    }
  }

  lemma {:induction false} InkBehind(c: Ch, rest: Text)
    ensures Ink([c] + rest) == (if IsSpace(c) then [] else [c]) + Ink(rest)
  {
    assert ([c] + rest)[1..] == rest;
  }

  lemma {:induction false} CollapseKeepsInk(s: Text)
    ensures Ink(Collapse(s)) == Ink(s)
    decreases |s|
  {
    if s != [] {
      if IsSpace(s[0]) {
        TrimStartKeepsInk(s[1..]);
        CollapseKeepsInk(TrimStart(s[1..]));
        InkBehind(SPACE, Collapse(TrimStart(s[1..])));
      } else {
        CollapseKeepsInk(s[1..]);
        InkBehind(s[0], Collapse(s[1..]));
      }
    }
  }

  /** A hint that is not blank is still not blank once normalized. */
  lemma {:induction false} SpokenNotEmpty(hint: Text)
    requires Trim(hint) != []
    ensures Spoken(hint) != []
  {
    CollapseKeepsInk(hint);
    TrimEmptyIffNoInk(hint);
    TrimEmptyIffNoInk(Collapse(hint));
  }

  lemma {:induction false} CollapseWord(w: Text, rest: Text)
    requires forall i :: 0 <= i < |w| ==> !IsSpace(w[i])
    ensures Collapse(w + rest) == w + Collapse(rest)
    decreases |w|
  {
    if w == [] {
      assert w + rest == rest;
    } else {
      assert (w + rest)[1..] == w[1..] + rest;
      CollapseWord(w[1..], rest);
    }
  }

  lemma {:induction false} TrimEndBehind(a: Text, s: Text)
    requires TrimEnd(s) != []
    ensures TrimEnd(a + s) == a + TrimEnd(s)
    decreases |s|
  {
    var last := |s| - 1;
    if IsSpace(s[last]) {
      assert (a + s)[..|a + s| - 1] == a + s[..last];
      TrimEndBehind(a, s[..last]);
    }
  }

  lemma {:induction false} LineNotEmpty(words: seq<Text>)
    requires words != [] && words[0] != []
    ensures Line(words) != []
  {
  }

  /** From a text that does not start with white space. */
  lemma {:induction false} CollapsedIsWords(s: Text)
    requires s != [] && !IsSpace(s[0])
    ensures TrimEnd(Collapse(s)) == Line(Words(s)) != []
    decreases |s|
  {
    var w := FirstWord(s);
    var rest := s[|w|..];
    assert s == w + rest;
    CollapseWord(w, rest);
    assert Words(s) == [w] + Words(rest);
    if rest == [] {
      assert Collapse(s) == w;
    } else {
      var next := TrimStart(rest);
      TrimStartKeepsInk(rest[1..]);
      TrimStartIsTrimmed(rest[1..]);
      assert next == TrimStart(rest[1..]) && TrimStart(next) == next;
      assert Collapse(s) == w + [SPACE] + Collapse(next);
      var space := w + [SPACE];
      if next == [] {
        assert Collapse(s) == space && space[..|w|] == w;
        assert TrimEnd(w) == w;
      } else {
        CollapsedIsWords(next);
        TrimEndBehind(space, Collapse(next));
        assert Words(rest) == Words(next);
        assert Words(s)[1..] == Words(next);
      }
    }
  }

  /** What is spoken for a hint: its words, with one space between each two, and no other white space. */
  lemma {:induction false} SpokenIsWords(hint: Text)
    ensures Spoken(hint) == Line(Words(hint))
  {
    var t := TrimStart(hint);
    TrimStartIsTrimmed(hint);
    if hint != [] && IsSpace(hint[0]) {
      assert t == TrimStart(hint[1..]) && TrimStart(t) == t;
      assert Collapse(hint)[1..] == Collapse(t);
    }
    assert t != [] ==> Collapse(t)[0] == t[0];
    assert TrimStart(Collapse(hint)) == Collapse(t);
    if t != [] {
      CollapsedIsWords(t);
      assert TrimStart(t) == t;
    }
  }

  lemma {:induction false} WithHintTiles(text: Text, plan: Plan, h: Hint, cursor: nat)
    requires Tiles(plan, text, cursor) && HintOk(h, cursor, |text|)
    ensures Tiles(WithHint(text, plan, h, cursor), text, h.end)
  {
    AddTiles(plan, text, text[cursor..h.start], cursor, h.start, false);
    SpokenNotEmpty(h.text);
    AddTiles(Add(plan, text[cursor..h.start], cursor, h.start, false), text, Spoken(h.text), h.start, h.end, true);
  }

  lemma {:induction false} ExtendTiles(text: Text, plan: Plan, hints: seq<Hint>, cursor: nat)
    requires cursor <= |text| && AllOk(hints, cursor, |text|) && Tiles(plan, text, cursor)
    ensures Tiles(Extend(text, plan, hints, cursor), text, |text|)
    decreases |hints|
  {
    if hints == [] {
      AddTiles(plan, text, text[cursor..], cursor, |text|, false);
    } else {
      WithHintTiles(text, plan, hints[0], cursor);
      ExtendTiles(text, WithHint(text, plan, hints[0], cursor), hints[1..], hints[0].end);
    }
  }

  /** For every hint list the segments tile the spoken text, and their sources tile the text. */
  lemma {:induction false} PlanTiles(text: Text, hints: seq<Hint>)
    ensures Tiles(Planned(text, hints), text, |text|)
  {
    ExtendTiles(text, Plan([], []), Usable(hints, |text|), 0);
  }

  /** Segment `s` is the replacement that hint `h` asks for: the words of the hint, a space between each two. */
  ghost predicate Speaks(plan: Plan, s: Segment, h: Hint) {
    && h.Hint? && s.replacement && s.start <= s.end <= |plan.text|
    && s.sourceStart == h.start && s.sourceEnd == h.end && plan.text[s.start..s.end] == Line(Words(h.text))
  }

  /** The replacements of the plan are those of `hints`, one for one and in order. */
  ghost predicate SpeaksAll(plan: Plan, hints: seq<Hint>)
    decreases |plan.segments|
  {
    if plan.segments == [] then hints == []
    else
      var last := |plan.segments| - 1;
      var s, rest := plan.segments[last], plan.(segments := plan.segments[..last]);
      if s.replacement then hints != [] && Speaks(plan, s, hints[|hints| - 1]) && SpeaksAll(rest, hints[..|hints| - 1])
      else SpeaksAll(rest, hints)
  }

  lemma {:induction false} LongerTextSpeaks(plan: Plan, hints: seq<Hint>, more: Text)
    requires SpeaksAll(plan, hints)
    ensures SpeaksAll(plan.(text := plan.text + more), hints)
    decreases |plan.segments|
  {
    if plan.segments != [] {
      var last := |plan.segments| - 1;
      var s, rest := plan.segments[last], plan.(segments := plan.segments[..last]);
      if s.replacement {
        assert (plan.text + more)[s.start..s.end] == plan.text[s.start..s.end];
        LongerTextSpeaks(rest, hints[..|hints| - 1], more);
      } else {
        LongerTextSpeaks(rest, hints, more);
      }
    }
  }

  lemma {:induction false} AddSpeaks(plan: Plan, hints: seq<Hint>, value: Text, start: nat, end: nat)
    requires SpeaksAll(plan, hints)
    ensures SpeaksAll(Add(plan, value, start, end, false), hints)
    ensures forall h: Hint :: h.Hint? && h.start == start && h.end == end && value == Spoken(h.text) && value != [] ==>
              SpeaksAll(Add(plan, value, start, end, true), hints + [h])
  {
    LongerTextSpeaks(plan, hints, value);
    var literal, replaced := Add(plan, value, start, end, false), Add(plan, value, start, end, true);
    if value != [] {
      assert literal.segments[..|plan.segments|] == plan.segments == replaced.segments[..|plan.segments|];
      assert replaced.text[|plan.text|..|plan.text| + |value|] == value;
      forall h: Hint | h.Hint? && h.start == start && h.end == end && value == Spoken(h.text)
        ensures SpeaksAll(replaced, hints + [h])
      {
        SpokenIsWords(h.text);
        assert (hints + [h])[..|hints|] == hints;
        assert Speaks(replaced, replaced.segments[|plan.segments|], h);
      }
    }
  }

  lemma {:induction false} WithHintSpeaks(text: Text, plan: Plan, spoken: seq<Hint>, h: Hint, cursor: nat)
    requires HintOk(h, cursor, |text|) && SpeaksAll(plan, spoken)
    ensures SpeaksAll(WithHint(text, plan, h, cursor), spoken + [h])
  {
    AddSpeaks(plan, spoken, text[cursor..h.start], cursor, h.start);
    SpokenNotEmpty(h.text);
    AddSpeaks(Add(plan, text[cursor..h.start], cursor, h.start, false), spoken, Spoken(h.text), h.start, h.end);
  }

  lemma {:induction false} ExtendSpeaks(text: Text, plan: Plan, spoken: seq<Hint>, hints: seq<Hint>, cursor: nat)
    requires cursor <= |text| && AllOk(hints, cursor, |text|) && SpeaksAll(plan, spoken)
    ensures SpeaksAll(Extend(text, plan, hints, cursor), spoken + hints)
    decreases |hints|
  {
    if hints == [] {
      AddSpeaks(plan, spoken, text[cursor..], cursor, |text|);
      assert spoken + hints == spoken;
    } else {
      var h := hints[0];
      WithHintSpeaks(text, plan, spoken, h, cursor);
      ExtendSpeaks(text, WithHint(text, plan, h, cursor), spoken + [h], hints[1..], h.end);
      assert spoken + [h] + hints[1..] == spoken + hints;
    }
  }

  /** If all hints are acceptable, each is spoken over exactly its source range, and nothing else is replaced;
      otherwise nothing is. */
  lemma {:induction false} HintsAreSpoken(text: Text, hints: seq<Hint>)
    ensures SpeaksAll(Planned(text, hints), if AllAcceptable(hints, |text|) then hints else [])
  {
    UsableExactlyWhen(hints, |text|);
    ExtendSpeaks(text, Plan([], []), [], Usable(hints, |text|), 0);
    assert [] + Usable(hints, |text|) == Usable(hints, |text|);
  }

  /** The plan that speaks the text as it stands. */
  function Identity(text: Text): Plan {
    Plan(text, if text == [] then [] else [Segment(0, |text|, 0, |text|, false)])
  }

  /** A hint that can be used on a text of this length: 1 to 200 characters are replaced by at most 200, none of
      them a control character and not all of them white space. */
  ghost predicate Acceptable(h: Hint, length: nat) {
    && h.Hint? && 0 <= h.start < h.end <= length && h.end - h.start <= 200 && |h.text| <= 200
    && (forall i :: 0 <= i < |h.text| ==> h.text[i] > 0x1F)
    && exists i :: 0 <= i < |h.text| && !IsSpace(h.text[i])
  }

  /** At most 128 such hints, from left to right and apart from each other. */
  ghost predicate AllAcceptable(hints: seq<Hint>, length: nat) {
    && |hints| <= 128
    && (forall i :: 0 <= i < |hints| ==> Acceptable(hints[i], length))
    && (forall i, j :: 0 <= i < j < |hints| ==> hints[i].end <= hints[j].start)
  }

  lemma {:induction false} NotBlank(s: Text)
    ensures Trim(s) != [] <==> exists i :: 0 <= i < |s| && !IsSpace(s[i])
  {
    var before, after := TrimMeaning(s);
    if Trim(s) != [] {
      assert s[|before|] == Trim(s)[0];
    } else {
      assert s == before + after;
    }
  }

  lemma {:induction false} AllOkExactlyWhen(hints: seq<Hint>, cursor: nat, length: nat)
    ensures AllOk(hints, cursor, length) <==>
            && (forall i :: 0 <= i < |hints| ==> Acceptable(hints[i], length) && hints[i].start >= cursor)
            && (forall i, j :: 0 <= i < j < |hints| ==> hints[i].end <= hints[j].start)
    decreases |hints|
  {
    if hints != [] && hints[0].Hint? {
      var h, rest := hints[0], hints[1..];
      NotBlank(h.text);
      assert HintOk(h, cursor, length) <==> Acceptable(h, length) && h.start >= cursor;
      assert forall i :: 0 < i < |hints| ==> hints[i] == rest[i - 1];
      if HintOk(h, cursor, length) {
        AllOkExactlyWhen(rest, h.end, length);
        RestAcceptable(hints, cursor, length);
      }
    }
  }

  lemma {:induction false} RestAcceptable(hints: seq<Hint>, cursor: nat, length: nat)
    requires hints != [] && Acceptable(hints[0], length) && hints[0].start >= cursor
    ensures
      var h, rest := hints[0], hints[1..];
      && (forall i :: 0 <= i < |rest| ==> Acceptable(rest[i], length) && rest[i].start >= h.end)
      && (forall i, j :: 0 <= i < j < |rest| ==> rest[i].end <= rest[j].start)
      <==>
      && (forall i :: 0 <= i < |hints| ==> Acceptable(hints[i], length) && hints[i].start >= cursor)
      && (forall i, j :: 0 <= i < j < |hints| ==> hints[i].end <= hints[j].start)
  {
    var rest := hints[1..];
    assert forall i :: 0 <= i < |rest| ==> rest[i] == hints[i + 1];
    assert forall i :: 0 < i < |hints| ==> hints[i] == rest[i - 1];
  }

  /** The hints are used, all of them, exactly when all are acceptable; a single bad one takes all others with
      it. */
  lemma {:induction false} UsableExactlyWhen(hints: seq<Hint>, length: nat)
    ensures Usable(hints, length) == if AllAcceptable(hints, length) then hints else []
  {
    AllOkExactlyWhen(hints, 0, length);
  }

  /** The plan is the identity exactly when there are no hints, too many, or a malformed one: a usable one
      always shows. */
  lemma {:induction false} IdentityExactlyWhenMalformed(text: Text, hints: seq<Hint>)
    ensures Planned(text, hints) == Identity(text) <==> hints == [] || !AllAcceptable(hints, |text|)
  {
    UsableExactlyWhen(hints, |text|);
    if Usable(hints, |text|) == [] {
      assert text[0..] == text;
      assert [] + text == text;
    }
    HintsAreSpoken(text, hints);
    IdentitySpeaksNothing(text, Usable(hints, |text|));
  }

  lemma {:induction false} IdentitySpeaksNothing(text: Text, hints: seq<Hint>)
    ensures SpeaksAll(Identity(text), hints) ==> hints == []
  {
    if text != [] {
      var rest := Identity(text).(segments := Identity(text).segments[..0]);
      assert rest.segments == [];
      assert SpeaksAll(rest, hints) ==> hints == [];
    }
  }

  // ---------------------------------------------------------------- mapping ranges back

  /** The first segment at or after `k` that holds the character at `x`; `find` of the source. */
  function Holding(ss: seq<Segment>, x: int, k: nat): Option<Segment>
    requires k <= |ss|
    decreases |ss| - k
  {
    if k == |ss| then None
    else if ss[k].start <= x < ss[k].end then Some(ss[k])
    else Holding(ss, x, k + 1)
  }

  /** `pronunciationRange`: `end` belongs to the segment that holds the character before it. */
  function Range(plan: Plan, start: int, end: int): Option<(int, int)> {
    var first, last := Holding(plan.segments, start, 0), Holding(plan.segments, end - 1, 0);
    if first.None? || last.None? then None
    else
      var f, l := first.value, last.value;
      Some((if f.replacement then f.sourceStart else f.sourceStart + start - f.start,
            if l.replacement then l.sourceEnd else l.sourceStart + end - l.start))
  }

  /** Starts and source starts grow from segment to segment. */
  lemma {:induction false} SegmentsGrow(plan: Plan, text: Text, upTo: nat, i: nat, j: nat)
    requires Tiles(plan, text, upTo) && i < j < |plan.segments|
    ensures plan.segments[i].end <= plan.segments[j].start
    ensures plan.segments[i].sourceEnd <= plan.segments[j].sourceStart
    decreases j
  {
    if i < j - 1 {
      SegmentsGrow(plan, text, upTo, i, j - 1);
      assert Faithful(plan, plan.segments[j - 1], text);
    }
    assert plan.segments[j - 1].end == plan.segments[j - 1 + 1].start;
  }

  lemma {:induction false} HoldingFrom(plan: Plan, text: Text, upTo: nat, x: int, k: nat) returns (i: nat)
    requires Tiles(plan, text, upTo) && k < |plan.segments|
    requires plan.segments[k].start <= x < |plan.text|
    ensures i < |plan.segments| && Holding(plan.segments, x, k) == Some(plan.segments[i])
    ensures plan.segments[i].start <= x < plan.segments[i].end
    decreases |plan.segments| - k
  {
    if x < plan.segments[k].end {
      i := k;
    } else {
      assert plan.segments[k].end == plan.segments[k + 1].start;
      i := HoldingFrom(plan, text, upTo, x, k + 1);
    }
  }

  lemma {:induction false} NotHeld(plan: Plan, text: Text, upTo: nat, x: int, k: nat)
    requires Tiles(plan, text, upTo) && k <= |plan.segments| && !(0 <= x < |plan.text|)
    ensures Holding(plan.segments, x, k) == None
    decreases |plan.segments| - k
  {
    if k < |plan.segments| {
      assert Faithful(plan, plan.segments[k], text);
      NotHeld(plan, text, upTo, x, k + 1);
    }
  }

  /** A range maps to something exactly when both its ends lie in the spoken text. */
  lemma {:induction false} RangeDefined(plan: Plan, text: Text, start: int, end: int)
    requires Tiles(plan, text, |text|)
    ensures Range(plan, start, end).Some? <==> 0 <= start < |plan.text| && 0 < end <= |plan.text|
  {
    if 0 <= start < |plan.text| { var i := HoldingFrom(plan, text, |text|, start, 0); }
    else { NotHeld(plan, text, |text|, start, 0); }
    if 0 <= end - 1 < |plan.text| { var j := HoldingFrom(plan, text, |text|, end - 1, 0); }
    else { NotHeld(plan, text, |text|, end - 1, 0); }
  }

  lemma {:induction false} LiteralLength(plan: Plan, s: Segment, text: Text)
    requires Faithful(plan, s, text) && !s.replacement
    ensures s.end - s.start == s.sourceEnd - s.sourceStart
  {
    assert |plan.text[s.start..s.end]| == |text[s.sourceStart..s.sourceEnd]|;
  }

  /** The source range of the character at spoken position `x`, seen from its segment. */
  function SourceOf(s: Segment, x: int): (int, int) {
    if s.replacement then (s.sourceStart, s.sourceEnd)
    else (s.sourceStart + x - s.start, s.sourceStart + x + 1 - s.start)
  }

  lemma {:induction false} SourceInSegment(plan: Plan, s: Segment, text: Text, x: int)
    requires Faithful(plan, s, text) && s.start <= x < s.end
    ensures s.sourceStart <= SourceOf(s, x).0 < SourceOf(s, x).1 <= s.sourceEnd
  {
    if !s.replacement { LiteralLength(plan, s, text); }
  }

  /** Later characters come from later sources: the map back is monotone. */
  lemma {:induction false} SourceMonotone(plan: Plan, text: Text, i: nat, x: int, j: nat, y: int)
    requires Tiles(plan, text, |text|) && i < |plan.segments| && j < |plan.segments|
    requires plan.segments[i].start <= x < plan.segments[i].end && plan.segments[j].start <= y < plan.segments[j].end
    requires x <= y
    ensures SourceOf(plan.segments[i], x).0 <= SourceOf(plan.segments[j], y).0
    ensures SourceOf(plan.segments[i], x).1 <= SourceOf(plan.segments[j], y).1
    ensures SourceOf(plan.segments[i], x).0 < SourceOf(plan.segments[j], y).1 <= |text|
  {
    SourceInSegment(plan, plan.segments[i], text, x);
    SourceInSegment(plan, plan.segments[j], text, y);
    if i < j { SegmentsGrow(plan, text, |text|, i, j); }
    if j < i { SegmentsGrow(plan, text, |text|, j, i); }
  }

  /** Every non-empty spoken range maps to a non-empty source range in bounds. */
  lemma {:induction false} RangeInBounds(plan: Plan, text: Text, start: int, end: int)
    requires Tiles(plan, text, |text|) && 0 <= start < end <= |plan.text|
    ensures Range(plan, start, end).Some?
    ensures var (a, b) := Range(plan, start, end).value; 0 <= a < b <= |text|
  {
    var i := HoldingFrom(plan, text, |text|, start, 0);
    var j := HoldingFrom(plan, text, |text|, end - 1, 0);
    SourceInSegment(plan, plan.segments[i], text, start);
    SourceMonotone(plan, text, i, start, j, end - 1);
  }

  /** Growing a spoken range at either end never shrinks its source range there. */
  lemma {:induction false} RangeMonotone(plan: Plan, text: Text, start: int, end: int, start': int, end': int)
    requires Tiles(plan, text, |text|)
    requires 0 <= start <= start' < |plan.text| && 0 < end <= end' <= |plan.text|
    ensures Range(plan, start, end).Some? && Range(plan, start', end').Some?
    ensures Range(plan, start, end).value.0 <= Range(plan, start', end').value.0
    ensures Range(plan, start, end).value.1 <= Range(plan, start', end').value.1
  {
    var i := HoldingFrom(plan, text, |text|, start, 0);
    var i' := HoldingFrom(plan, text, |text|, start', 0);
    var j := HoldingFrom(plan, text, |text|, end - 1, 0);
    var j' := HoldingFrom(plan, text, |text|, end' - 1, 0);
    SourceMonotone(plan, text, i, start, i', start');
    SourceMonotone(plan, text, j, end - 1, j', end' - 1);
  }

  /** Inside a literal segment the source slice is the spoken slice. */
  lemma {:induction false} LiteralRangeIsVerbatim(plan: Plan, text: Text, i: nat, start: int, end: int)
    requires Tiles(plan, text, |text|) && i < |plan.segments| && !plan.segments[i].replacement
    requires plan.segments[i].start <= start < end <= plan.segments[i].end
    ensures Faithful(plan, plan.segments[i], text) && Range(plan, start, end).Some?
    ensures
      var (a, b) := Range(plan, start, end).value;
      0 <= a <= b <= |text| && text[a..b] == plan.text[start..end]
  {
    var s := plan.segments[i];
    assert Faithful(plan, s, text);
    var j := HoldingFrom(plan, text, |text|, start, 0);
    var k := HoldingFrom(plan, text, |text|, end - 1, 0);
    OnlyHolder(plan, text, i, j, start);
    OnlyHolder(plan, text, i, k, end - 1);
    LiteralLength(plan, s, text);
    SliceOfSlice(plan.text, s.start, s.end, start - s.start, end - s.start);
    SliceOfSlice(text, s.sourceStart, s.sourceEnd, start - s.start, end - s.start);
  }

  lemma {:induction false} SliceOfSlice(t: Text, a: nat, b: nat, c: nat, d: nat)
    requires a <= b <= |t| && c <= d <= b - a
    ensures t[a..b][c..d] == t[a + c..a + d]
  {
    forall k | 0 <= k < d - c ensures t[a..b][c..d][k] == t[a + c..a + d][k] {
      assert t[a..b][c + k] == t[a + c + k];
    }
  }

  lemma {:induction false} OnlyHolder(plan: Plan, text: Text, i: nat, j: nat, x: int)
    requires Tiles(plan, text, |text|) && i < |plan.segments| && j < |plan.segments|
    requires plan.segments[i].start <= x < plan.segments[i].end && plan.segments[j].start <= x < plan.segments[j].end
    ensures i == j
  {
    if i < j { SegmentsGrow(plan, text, |text|, i, j); }
    if j < i { SegmentsGrow(plan, text, |text|, j, i); }
  }

  /** Inside a replacement every range stands for all that was replaced. */
  lemma {:induction false} ReplacementMapsWhole(plan: Plan, text: Text, i: nat, start: int, end: int)
    requires Tiles(plan, text, |text|) && i < |plan.segments| && plan.segments[i].replacement
    requires plan.segments[i].start <= start < end <= plan.segments[i].end
    ensures Range(plan, start, end) == Some((plan.segments[i].sourceStart, plan.segments[i].sourceEnd))
  {
    assert Faithful(plan, plan.segments[i], text);
    var j := HoldingFrom(plan, text, |text|, start, 0);
    var k := HoldingFrom(plan, text, |text|, end - 1, 0);
    OnlyHolder(plan, text, i, j, start);
    OnlyHolder(plan, text, i, k, end - 1);
  }

  /** A range that runs over several segments maps from where its first character comes from to where its last
      one does. */
  lemma {:induction false} RangeIsHull(plan: Plan, text: Text, start: int, end: int)
    requires Tiles(plan, text, |text|) && 0 <= start < end <= |plan.text|
    ensures Range(plan, start, start + 1).Some? && Range(plan, end - 1, end).Some?
    ensures Range(plan, start, end) == Some((Range(plan, start, start + 1).value.0, Range(plan, end - 1, end).value.1))
  {
    var i := HoldingFrom(plan, text, |text|, start, 0);
    var j := HoldingFrom(plan, text, |text|, end - 1, 0);
  }

  /** The whole spoken text maps to the whole source text. */
  lemma {:induction false} WholeRange(plan: Plan, text: Text)
    requires Tiles(plan, text, |text|) && plan.text != []
    ensures Range(plan, 0, |plan.text|) == Some((0, |text|))
  {
    var last := |plan.segments| - 1;
    var i := HoldingFrom(plan, text, |text|, 0, 0);
    var j := HoldingFrom(plan, text, |text|, |plan.text| - 1, 0);
    assert Faithful(plan, plan.segments[0], text) && Faithful(plan, plan.segments[last], text);
    OnlyHolder(plan, text, i, 0, 0);
    OnlyHolder(plan, text, j, last, |plan.text| - 1);
    if !plan.segments[last].replacement { LiteralLength(plan, plan.segments[last], text); }
  }
}
