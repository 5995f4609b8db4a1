/** Text as the narration code sees it: JavaScript's white space, `trim` and `replace(/\s+/g,' ')`. */
module Narration {
  /** A character: a UTF-16 code unit where the source indexes strings, a code point where it uses
      `Array.from`. */
  type Ch = c: int | 0 <= c < 0x11_0000
  type Text = seq<Ch>

  const SPACE: Ch := 0x20

  /** The characters matched by `\s`, which are also those removed by `trim`. */
  predicate IsSpace(c: Ch) {
    0x09 <= c <= 0x0D || c == 0x20 || c == 0xA0 || c == 0x1680 || 0x2000 <= c <= 0x200A ||
    c == 0x2028 || c == 0x2029 || c == 0x202F || c == 0x205F || c == 0x3000 || c == 0xFEFF
  }

  function TrimStart(s: Text): Text
    decreases |s|
  {
    if s != [] && IsSpace(s[0]) then TrimStart(s[1..]) else s
  }

  function TrimEnd(s: Text): Text
    decreases |s|
  {
    if s != [] && IsSpace(s[|s| - 1]) then TrimEnd(s[..|s| - 1]) else s
  }

  function Trim(s: Text): Text { TrimEnd(TrimStart(s)) }

  /** The text without its white space. */
  function Ink(s: Text): Text
    decreases |s|
  {
    if s == [] then [] else (if IsSpace(s[0]) then [] else [s[0]]) + Ink(s[1..])
  }

  lemma {:induction false} InkAppend(a: Text, b: Text)
    ensures Ink(a + b) == Ink(a) + Ink(b)
    decreases |a|
  {
    if a == [] {
      assert a + b == b;
    } else {
      assert (a + b)[1..] == a[1..] + b;
      InkAppend(a[1..], b);
    }
  }

  lemma {:induction false} TrimStartKeepsInk(s: Text)
    ensures Ink(TrimStart(s)) == Ink(s) && |TrimStart(s)| <= |s|
    decreases |s|
  {
    if s != [] && IsSpace(s[0]) { TrimStartKeepsInk(s[1..]); }
  }

  lemma {:induction false} TrimEndKeepsInk(s: Text)
    ensures Ink(TrimEnd(s)) == Ink(s) && |TrimEnd(s)| <= |s|
    decreases |s|
  {
    if s != [] && IsSpace(s[|s| - 1]) {
      var last := |s| - 1;
      TrimEndKeepsInk(s[..last]);
      assert s == s[..last] + [s[last]];
      InkAppend(s[..last], [s[last]]);
    }
  }

  lemma {:induction false} TrimKeepsInk(s: Text)
    ensures Ink(Trim(s)) == Ink(s) && |Trim(s)| <= |s|
  {
    TrimStartKeepsInk(s);
    TrimEndKeepsInk(TrimStart(s));
  }

  /** No white space at either end. */
  predicate IsTrimmed(s: Text) {
    s != [] ==> !IsSpace(s[0]) && !IsSpace(s[|s| - 1])
  }

  lemma {:induction false} TrimStartIsTrimmed(s: Text)
    ensures TrimStart(s) != [] ==> !IsSpace(TrimStart(s)[0])
    decreases |s|
  {
    if s != [] && IsSpace(s[0]) { TrimStartIsTrimmed(s[1..]); }
  }

  lemma {:induction false} TrimEndIsTrimmed(s: Text)
    requires s != [] ==> !IsSpace(s[0])
    ensures IsTrimmed(TrimEnd(s)) && (TrimEnd(s) == [] <==> s == [])
    decreases |s|
  {
    if s != [] && IsSpace(s[|s| - 1]) { TrimEndIsTrimmed(s[..|s| - 1]); }
  }

  lemma {:induction false} TrimIsTrimmed(s: Text)
    ensures IsTrimmed(Trim(s))
  {
    TrimStartIsTrimmed(s);
    TrimEndIsTrimmed(TrimStart(s));
  }

  /** A trimmed text is empty exactly when the original was blank. */
  lemma {:induction false} TrimEmptyIffNoInk(s: Text)
    ensures Trim(s) == [] <==> Ink(s) == []
  {
    TrimKeepsInk(s);
    TrimIsTrimmed(s);
    var t := Trim(s);
    if t != [] { assert Ink(t) == [t[0]] + Ink(t[1..]); }
  }

  /** JavaScript's white space: tab to carriage return, the space separators of Unicode, the two line separators
      and the byte order mark. */
  lemma {:induction false} SpacesAre(c: Ch)
    ensures IsSpace(c) <==>
            c in [9, 10, 11, 12, 13, 32, 160, 5760, 8192, 8193, 8194, 8195, 8196, 8197, 8198, 8199, 8200, 8201, 8202,
                  8232, 8233, 8239, 8287, 12288, 65279]
  {
  }

  ghost predicate IsBlank(s: Text) { forall i :: 0 <= i < |s| ==> IsSpace(s[i]) }

  /** Trimming takes off white space at both ends, all of it, and nothing else. */
  lemma {:induction false} TrimMeaning(s: Text) returns (before: Text, after: Text)
    ensures s == before + Trim(s) + after && IsBlank(before) && IsBlank(after) && IsTrimmed(Trim(s))
  {
    TrimIsTrimmed(s);
    before := TrimStartMeaning(s);
    after := TrimEndMeaning(TrimStart(s));
  }

  lemma {:induction false} TrimStartMeaning(s: Text) returns (before: Text)
    ensures s == before + TrimStart(s) && IsBlank(before)
    decreases |s|
  {
    if s != [] && IsSpace(s[0]) {
      var rest := TrimStartMeaning(s[1..]);
      before := [s[0]] + rest;
    } else {
      before := [];
    }
  }

  lemma {:induction false} TrimEndMeaning(s: Text) returns (after: Text)
    ensures s == TrimEnd(s) + after && IsBlank(after)
    decreases |s|
  {
    if s != [] && IsSpace(s[|s| - 1]) {
      var rest := TrimEndMeaning(s[..|s| - 1]);
      after := rest + [s[|s| - 1]];
    } else {
      after := [];
    }
  }

  // ---------------------------------------------------------------- words

  /** The characters before the first white space. */
  function FirstWord(s: Text): (w: Text)
    ensures |w| <= |s| && w == s[..|w|] && (|w| < |s| ==> IsSpace(s[|w|]))
    ensures forall i :: 0 <= i < |w| ==> !IsSpace(w[i])
    ensures s != [] && !IsSpace(s[0]) ==> w != []
    decreases |s|
  {
    if s == [] || IsSpace(s[0]) then [] else [s[0]] + FirstWord(s[1..])
  }

  /** The words of a text: what white space keeps apart. */
  function Words(s: Text): seq<Text>
    decreases |s|
  {
    TrimStartKeepsInk(s);
    TrimStartIsTrimmed(s);
    var t := TrimStart(s);
    if t == [] then [] else [FirstWord(t)] + Words(t[|FirstWord(t)|..])
  }

  /** Pieces of text with one space between each two. */
  function Line(words: seq<Text>): Text
    decreases |words|
  {
    if words == [] then [] else if |words| == 1 then words[0] else words[0] + [SPACE] + Line(words[1..])
  }

  ghost predicate IsWord(w: Text) { w != [] && forall i :: 0 <= i < |w| ==> !IsSpace(w[i]) }

  /** `s` is these words with these gaps around them. */
  ghost predicate Interleaves(s: Text, gaps: seq<Text>, words: seq<Text>)
    decreases |words|
  {
    if gaps == [] then false
    else if words == [] then |gaps| == 1 && s == gaps[0]
    else
      var n := |gaps[0]| + |words[0]|;
      |s| >= n && s[..n] == gaps[0] + words[0] && Interleaves(s[n..], gaps[1..], words[1..])
  }

  /** The text is its words, which hold no white space, with blank gaps around them, none of them empty between
      two words. */
  lemma {:induction false} WordsMeaning(s: Text) returns (gaps: seq<Text>)
    ensures |gaps| == |Words(s)| + 1 && Interleaves(s, gaps, Words(s))
    ensures forall i :: 0 <= i < |Words(s)| ==> IsWord(Words(s)[i])
    ensures forall i :: 0 <= i < |gaps| ==> IsBlank(gaps[i]) && (0 < i < |gaps| - 1 ==> gaps[i] != [])
    ensures s != [] && IsSpace(s[0]) ==> gaps[0] != []
    decreases |s|
  {
    TrimStartKeepsInk(s);
    TrimStartIsTrimmed(s);
    var t := TrimStart(s);
    var gap := TrimStartMeaning(s);
    if t == [] {
      gaps := [gap];
    } else {
      var w := FirstWord(t);
      var rest := t[|w|..];
      var more := WordsMeaning(rest);
      gaps := [gap] + more;
      var n := |gap| + |w|;
      assert s[..n] == gap + w && s[n..] == rest;
      assert gaps[1..] == more && Words(s)[1..] == Words(rest);
    }
  }
}
