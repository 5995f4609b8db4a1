/**
 * The size lines and the error cases of the chunked body decoder (`decode_chunked`,
 * browser-tests/src/http.rs), said in the terms of what a sender writes: digits, white space characters,
 * and bodies that stop short.
 */
module ChunkedLines {
  import opened Wrappers
  import opened Octets
  import opened ChunkedBody

  // ---------------------------------------------------------------- digits

  /** `0` to `9` and `a` to `f`, and the same in upper case. */
  const LOWER: Bytes := [48, 49, 50, 51, 52, 53, 54, 55, 56, 57, 97, 98, 99, 100, 101, 102]
  const UPPER: Bytes := [48, 49, 50, 51, 52, 53, 54, 55, 56, 57, 65, 66, 67, 68, 69, 70]

  /** The digits are those of the two alphabets, and count from 0 to 15 in each. */
  lemma {:induction false} DigitsCount(b: Byte, v: nat)
    requires v < 16
    ensures IsHexDigit(b) <==> b in LOWER || b in UPPER
    ensures IsHexDigit(LOWER[v]) && DigitValue(LOWER[v]) == v
    ensures IsHexDigit(UPPER[v]) && DigitValue(UPPER[v]) == v
  {
    if IsHexDigit(b) {
      var at := if b <= 57 then b - 48 else if b <= 70 then b - 55 else b - 87;
      assert b == LOWER[at] || b == UPPER[at];
    }
  }

  function Lower(b: Byte): Byte { if 65 <= b <= 70 then b + 32 else b }

  function Lowered(s: Bytes): (r: Bytes)
    ensures |r| == |s| && forall i :: 0 <= i < |s| ==> r[i] == Lower(s[i])
  {
    seq(|s|, i requires 0 <= i < |s| => Lower(s[i]))
  }

  lemma {:induction false} NonZero(s: Bytes)
    requires s != [] && IsHex(s) && s[0] != 48
    ensures HexValue(s) > 0
    decreases |s|
  {
    if |s| == 1 {
      assert s[..0] == [];
    } else {
      NonZero(s[..|s| - 1]);
    }
  }

  /** A spelling without leading zeros is, in lower case, the shortest spelling of its value; so no two sizes share
      one. */
  lemma {:induction false} SpellingIsHex(s: Bytes)
    requires s != [] && IsHex(s) && (|s| == 1 || s[0] != 48)
    ensures Lowered(s) == Hex(HexValue(s))
    decreases |s|
  {
    var last := |s| - 1;
    var before, d := s[..last], DigitValue(s[last]);
    assert Lower(s[last]) == if d < 10 then 48 + d else 87 + d;
    var n := HexValue(s);
    assert n == 16 * HexValue(before) + d;
    if last == 0 {
      assert before == [] && HexValue(before) == 0;
    } else {
      NonZero(before);
      SpellingIsHex(before);
      assert n / 16 == HexValue(before) && n % 16 == d;
      assert Lowered(s) == Lowered(before) + [Lower(s[last])];
    }
  }

  lemma {:induction false} LeadingZero(s: Bytes)
    requires IsHex(s)
    ensures IsHex([48] + s) && HexValue([48] + s) == HexValue(s)
    decreases |s|
  {
    var all := [48] + s;
    if s == [] {
      assert all[..0] == [];
    } else {
      var last := |s| - 1;
      LeadingZero(s[..last]);
      assert all[..|all| - 1] == [48] + s[..last];
    }
  }

  /** A size is a number below 2^64, spelled by at least one digit, behind a plus or not; nothing else is one. */
  lemma {:induction false} FromHexExactlyWhen(text: Bytes, n: nat)
    ensures FromHex(text) == Some(n) <==>
            n < 18446744073709551616 &&
            exists digits :: digits != [] && IsHex(digits) && HexValue(digits) == n && (text == digits || text == [43] + digits)
  {
    if FromHex(text) == Some(n) {
      var digits := if |text| > 0 && text[0] == PLUS then text[1..] else text;
      assert text == digits || text == [43] + digits;
    }
    if digits :| digits != [] && IsHex(digits) && HexValue(digits) == n && (text == digits || text == [43] + digits) {
      assert IsHexDigit(digits[0]);
      assert text != digits ==> text[1..] == digits;
    }
  }

  // ---------------------------------------------------------------- white space

  /** White_Space of Unicode. */
  ghost predicate IsWhitePoint(u: nat) {
    || 0x09 <= u <= 0x0D || u == 0x20 || u == 0x85 || u == 0xA0 || u == 0x1680 || 0x2000 <= u <= 0x200A
    || u == 0x2028 || u == 0x2029 || u == 0x202F || u == 0x205F || u == 0x3000
  }

  /** UTF-8 of a code point of the basic plane. */
  function Utf8(u: nat): Bytes
    requires u < 0x1_0000
  {
    if u < 0x80 then [u]
    else if u < 0x800 then [0xC0 + u / 64, 0x80 + u % 64]
    else [0xE0 + u / 4096, 0x80 + u / 64 % 64, 0x80 + u % 64]
  }

  lemma {:induction false} Utf8Of(a: int, b: int, c: int)
    requires 0 <= b < 64 && 0 <= c < 64
    ensures 2 <= a < 32 ==> Utf8(a * 64 + c) == [0xC0 + a, 0x80 + c]
    ensures 1 <= a < 16 ==> a * 4096 + b * 64 + c >= 0x800 ==> Utf8(a * 4096 + b * 64 + c) == [0xE0 + a, 0x80 + b, 0x80 + c]
  {
    if 1 <= a < 16 {
      var u := a * 4096 + b * 64 + c;
      assert u / 64 == a * 64 + b && u % 64 == c;
      assert u / 4096 == a && (a * 64 + b) % 64 == b;
    }
  }

  lemma {:induction false} WhiteIsEncoded(c: Bytes) returns (u: nat)
    requires IsWhite(c)
    ensures IsWhitePoint(u) && c == Utf8(u)
  {
    if |c| == 1 {
      u := c[0];
    } else if |c| == 2 {
      Utf8Of(2, 0, c[1] - 0x80);
      u := 2 * 64 + (c[1] - 0x80);
    } else {
      var x: int, y: int, z: int := c[0] as int - 0xE0, c[1] as int - 0x80, c[2] as int - 0x80;
      Utf8Of(x, y, z);
      u := x * 4096 + y * 64 + z;
      assert c == [c[0], c[1], c[2]];
    }
  }

  lemma {:induction false} EncodedIsWhite(u: nat)
    requires IsWhitePoint(u)
    ensures IsWhite(Utf8(u))
  {
    if 0x2000 <= u <= 0x200A { Utf8Of(2, 0, u - 0x2000); }
  }

  /** White space is exactly the encodings of those code points. */
  lemma {:induction false} WhiteExactlyWhen(c: Bytes)
    ensures IsWhite(c) <==> exists u: nat :: IsWhitePoint(u) && c == Utf8(u)
  {
    if IsWhite(c) { var u := WhiteIsEncoded(c); }
    if u: nat :| IsWhitePoint(u) && c == Utf8(u) { EncodedIsWhite(u); }
  }

  /** White space characters, to be put in a row. */
  ghost predicate AreWhite(ws: seq<Bytes>) { forall i :: 0 <= i < |ws| ==> IsWhite(ws[i]) }

  lemma {:induction false} WhiteStarts(w: Bytes, rest: Bytes)
    requires IsWhite(w)
    ensures WhiteAtStart(w + rest) == |w| > 0
  {
    var s := w + rest;
    assert s[..|w|] == w && s[0] == w[0];
  }

  lemma {:induction false} TrimsWhiteStart(ws: seq<Bytes>, text: Bytes)
    requires AreWhite(ws) && WhiteAtStart(text) == 0
    ensures TrimStart(Concat(ws) + text) == text
    decreases |ws|
  {
    if ws == [] {
      assert Concat(ws) + text == text;
    } else {
      var s, rest := Concat(ws) + text, Concat(ws[1..]) + text;
      assert s == ws[0] + rest && s[|ws[0]|..] == rest;
      WhiteStarts(ws[0], rest);
      TrimsWhiteStart(ws[1..], text);
    }
  }

  lemma {:induction false} WhiteEnds(w: Bytes, before: Bytes)
    requires IsWhite(w)
    ensures WhiteAtEnd(before + w) == |w| > 0
  {
    var s := before + w;
    assert s[|s| - |w|..] == w && s[|s| - 1] == w[|w| - 1];
    if |w| == 3 { assert s[|s| - 2] == w[1]; }
  }

  lemma {:induction false} ConcatAppend(ws: seq<Bytes>, w: Bytes)
    ensures Concat(ws + [w]) == Concat(ws) + w
    decreases |ws|
  {
    var all := ws + [w];
    if ws == [] {
      assert all[1..] == [];
    } else {
      assert all[1..] == ws[1..] + [w];
      ConcatAppend(ws[1..], w);
    }
  }

  lemma {:induction false} TrimsWhiteEnd(ws: seq<Bytes>, text: Bytes)
    requires AreWhite(ws) && WhiteAtEnd(text) == 0
    ensures TrimEnd(text + Concat(ws)) == text
    decreases |ws|
  {
    if ws == [] {
      assert text + Concat(ws) == text;
    } else {
      var last := |ws| - 1;
      ConcatAppend(ws[..last], ws[last]);
      assert ws[..last] + [ws[last]] == ws;
      var s, before := text + Concat(ws), text + Concat(ws[..last]);
      assert s == before + ws[last] && s[..|s| - |ws[last]|] == before;
      WhiteEnds(ws[last], before);
      TrimsWhiteEnd(ws[..last], text);
    }
  }

  lemma {:induction false} NoSemicolonInWhite(ws: seq<Bytes>)
    requires AreWhite(ws)
    ensures 59 !in Concat(ws)
    decreases |ws|
  {
    if ws != [] {
      assert 59 !in ws[0];
      NoSemicolonInWhite(ws[1..]);
    }
  }

  lemma {:induction false} CutAndTrimmed(before: Bytes, text: Bytes, after: Bytes, ext: Bytes)
    requires 59 !in before && 59 !in text && 59 !in after && (ext == [] || ext[0] == 59)
    ensures SizeOf(before + text + after + ext) == FromHex(TrimEnd(TrimStart(before + (text + after))))
  {
    var visible := before + text + after;
    CutAtSemicolon(visible, ext);
    assert visible == before + (text + after);
  }

  /** A size line is read as what stands before the first semicolon, without any white space around it. */
  lemma {:induction false} SizeLineMeaning(before: seq<Bytes>, text: Bytes, after: seq<Bytes>, ext: Bytes)
    requires AreWhite(before) && AreWhite(after) && (ext == [] || ext[0] == 59)
    requires text != [] && 59 !in text && WhiteAtStart(text) == 0 && WhiteAtEnd(text) == 0
    requires WhiteAtStart(text + Concat(after)) == 0
    ensures SizeOf(Concat(before) + text + Concat(after) + ext) == FromHex(text)
  {
    NoSemicolonInWhite(before);
    NoSemicolonInWhite(after);
    CutAndTrimmed(Concat(before), text, Concat(after), ext);
    TrimsWhiteStart(before, text + Concat(after));
    TrimsWhiteEnd(after, text);
  }

  lemma {:induction false} NarrowStart(s: Bytes)
    requires s != [] && IsHexDigit(s[0])
    ensures WhiteAtStart(s) == 0
  {
  }

  /** So every size may be written in either case, with leading zeros and with white space around it. */
  lemma {:induction false} AnySpellingAnnounces(before: seq<Bytes>, digits: Bytes, after: seq<Bytes>, ext: Bytes)
    requires AreWhite(before) && AreWhite(after) && (ext == [] || ext[0] == 59)
    requires digits != [] && IsHex(digits) && HexValue(digits) < 18446744073709551616
    ensures SizeOf(Concat(before) + digits + Concat(after) + ext) == Some(HexValue(digits))
  {
    assert IsHexDigit(digits[0]) && IsHexDigit(digits[|digits| - 1]);
    NarrowEnd(digits);
    NarrowStart(digits);
    NarrowStart(digits + Concat(after));
    SizeLineMeaning(before, digits, after, ext);
    FromHexExactlyWhen(digits, HexValue(digits));
  }

  // ---------------------------------------------------------------- bodies that stop short

  function Wires(chunks: seq<Chunk>): Bytes
    decreases |chunks|
  {
    if chunks == [] then [] else Wire(chunks[0]) + Wires(chunks[1..])
  }

  /** A size line that announces this size, then `more`. */
  ghost predicate Opens(reader: SizeReader, tail: Bytes, line: Bytes, size: Option<nat>, more: Bytes) {
    NoCrlf(line) && reader(line) == size && tail == line + CRLF + more
  }

  /** Why decoding ends with `r` on `tail`, after chunks with `data`: a last size line of 0; no size line, or none
      behind data whose two closing bytes are not all there; a size line that is none; or fewer bytes than
      announced. */
  ghost predicate EndsWith(reader: SizeReader, tail: Bytes, data: Bytes, r: Result, line: Bytes, more: Bytes) {
    match r
    case Ok(body) => Opens(reader, tail, line, Some(0), more) && body == data
    case Err(TruncatedSize) =>
      || NoCrlf(tail)
      || (Opens(reader, tail, line, reader(line), more) && reader(line).Some? && 0 < reader(line).value <= |more| < reader(line).value + 2)
    case Err(BadSize(bad)) => Opens(reader, tail, line, None, more) && bad == line
    case Err(TruncatedChunk) =>
      Opens(reader, tail, line, reader(line), more) && reader(line).Some? && |more| < reader(line).value
  }

  lemma {:induction false} NoPosition(s: Bytes)
    requires Position(s, 0).None?
    ensures NoCrlf(s)
  {
    forall i ensures !CrlfAt(s, i) { if i >= 0 { } }
  }

  lemma {:induction false} EndsHere(reader: SizeReader, s: Bytes, line: Bytes, more: Bytes)
    requires NoCrlf(line) && s == line + CRLF + more
    requires reader(line).Some? && reader(line).value > 0 ==> |more| < reader(line).value + 2
    ensures EndsWith(reader, s, [], Decoded(reader, s), line, more)
  {
    LineEndIsFound(line, more);
    assert s[..|line|] == line && s[|line| + 2..] == more;
    if reader(line).Some? && 0 < reader(line).value <= |more| {
      assert After(more, reader(line).value) == [];
      NothingIsNotABody(reader);
    }
  }

  lemma {:induction false} EndsBehind(reader: SizeReader, tail: Bytes, first: Bytes, data: Bytes, r: Result, line: Bytes, more: Bytes)
    requires EndsWith(reader, tail, data, r, line, more)
    ensures EndsWith(reader, tail, first + data, Behind(first, r), line, more)
  {
  }

  /** What decoding makes of any bytes: well-formed chunks, as many as there are, and then one of the endings. */
  lemma {:induction false} DecodeExplains(reader: SizeReader, s: Bytes)
    returns (chunks: seq<Chunk>, tail: Bytes, line: Bytes, more: Bytes)
    ensures forall i :: 0 <= i < |chunks| ==> WellFormed(reader, chunks[i])
    ensures s == Wires(chunks) + tail && EndsWith(reader, tail, Data(chunks), Decoded(reader, s), line, more)
    decreases |s|, 1
  {
    chunks, tail, line, more := [], s, [], [];
    assert Wires([]) + s == s;
    var position := Position(s, 0);
    if position.None? {
      NoPosition(s);
    } else {
      var end := position.value;
      line, more := s[..end], s[end + 2..];
      LineIsFree(s, end);
      assert s == line + CRLF + more;
      var size := reader(line);
      if size.Some? && size.value > 0 && |more| >= size.value + 2 {
        chunks, tail, line, more := ExplainChunk(reader, s, end, size.value);
      } else {
        EndsHere(reader, s, line, more);
      }
    }
  }

  lemma {:induction false} ExplainChunk(reader: SizeReader, s: Bytes, end: nat, size: nat)
    returns (chunks: seq<Chunk>, tail: Bytes, line: Bytes, more: Bytes)
    requires Position(s, 0) == Some(end) && reader(s[..end]) == Some(size) && 0 < size && size + 2 <= |s| - end - 2
    ensures forall i :: 0 <= i < |chunks| ==> WellFormed(reader, chunks[i])
    ensures s == Wires(chunks) + tail && EndsWith(reader, tail, Data(chunks), Decoded(reader, s), line, more)
    decreases |s|, 0
  {
    var after := s[end + 2..];
    var c, rest := Chunk(s[..end], after[..size], after[size..size + 2]), after[size + 2..];
    LineIsFree(s, end);
    SplitChunk(s, end, size);
    DecodeChunkThenRest(reader, c, rest);
    chunks, tail, line, more := DecodeExplains(reader, rest);
    ChunkInFront(c, chunks, tail);
    EndsBehind(reader, tail, c.data, Data(chunks), Decoded(reader, rest), line, more);
    assert WellFormed(reader, c);
    ChunkJoins(reader, c, chunks, [], []);
    chunks := [c] + chunks;
  }

  lemma {:induction false} ChunkInFront(c: Chunk, chunks: seq<Chunk>, tail: Bytes)
    ensures Wires([c] + chunks) + tail == Wire(c) + (Wires(chunks) + tail)
    ensures Data([c] + chunks) == c.data + Data(chunks)
  {
    assert ([c] + chunks)[1..] == chunks;
  }

  /** And after any well-formed chunks each of the endings has its outcome. */
  lemma {:induction false} EndingDecides(reader: SizeReader, chunks: seq<Chunk>, tail: Bytes, line: Bytes, more: Bytes, r: Result)
    requires forall i :: 0 <= i < |chunks| ==> WellFormed(reader, chunks[i])
    requires EndsWith(reader, tail, Data(chunks), r, line, more)
    ensures Decoded(reader, Wires(chunks) + tail) == r
    decreases |chunks|
  {
    if chunks == [] {
      assert Wires(chunks) + tail == tail;
      LastDecides(reader, tail, line, more, r);
    } else {
      var c, rest := chunks[0], chunks[1..];
      assert chunks == [c] + rest;
      ChunkInFront(c, rest, tail);
      var r' := EndsWithout(reader, tail, c.data, Data(rest), r, line, more);
      EndingDecides(reader, rest, tail, line, more, r');
      DecodeChunkThenRest(reader, c, Wires(rest) + tail);
    }
  }

  lemma {:induction false} EndsWithout(reader: SizeReader, tail: Bytes, first: Bytes, data: Bytes, r: Result, line: Bytes, more: Bytes)
    returns (r': Result)
    requires EndsWith(reader, tail, first + data, r, line, more)
    ensures EndsWith(reader, tail, data, r', line, more) && r == Behind(first, r')
  {
    r' := if r.Ok? then Ok(data) else r;
  }

  lemma {:induction false} LastDecides(reader: SizeReader, tail: Bytes, line: Bytes, more: Bytes, r: Result)
    requires EndsWith(reader, tail, [], r, line, more)
    ensures Decoded(reader, tail) == r
  {
    if NoCrlf(tail) && r == Err(TruncatedSize) {
    } else {
      LineEndIsFound(line, more);
      assert tail[..|line|] == line && tail[|line| + 2..] == more;
      if r == Err(TruncatedSize) {
        assert After(more, reader(line).value) == [];
        NothingIsNotABody(reader);
      }
    }
  }
}
