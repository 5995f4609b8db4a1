/**
 * The chunked body decoder of the test harness (`decode_chunked`, browser-tests/src/http.rs), against
 * the chunked coding of section 7.1 of RFC 9112.
 */
module ChunkedBody {
  import opened Wrappers
  import opened Octets

  const CR: Byte := 13
  const LF: Byte := 10
  const SEMICOLON: Byte := 59
  const PLUS: Byte := 43
  const CRLF: Bytes := [CR, LF]

  /** The number of values of a 64-bit `usize`. */
  const SIZE_LIMIT: nat := 0x1_0000_0000_0000_0000

  datatype Error = TruncatedSize | BadSize(line: Bytes) | TruncatedChunk
  datatype Result = Ok(body: Bytes) | Err(error: Error)

  // ---------------------------------------------------------------- the size line

  predicate CrlfAt(s: Bytes, i: int) {
    0 <= i < |s| - 1 && s[i] == CR && s[i + 1] == LF
  }

  /** The first CR LF at or after `i`. */
  function Position(s: Bytes, i: nat): (r: Option<nat>)
    requires i <= |s|
    ensures r.Some? ==> i <= r.value && CrlfAt(s, r.value) && forall j :: i <= j < r.value ==> !CrlfAt(s, j)
    ensures r.None? ==> forall j :: i <= j ==> !CrlfAt(s, j)
    decreases |s| - i
  {
    if CrlfAt(s, i) then Some(i) else if i < |s| then Position(s, i + 1) else None
  }

  function BeforeSemicolon(s: Bytes): Bytes {
    if s == [] || s[0] == SEMICOLON then [] else [s[0]] + BeforeSemicolon(s[1..])
  }

  /** One White_Space character of Unicode, in UTF-8. */
  predicate IsWhite(c: Bytes) {
    || (|c| == 1 && (9 <= c[0] <= 13 || c[0] == 32))
    || (|c| == 2 && c[0] == 0xC2 && (c[1] == 0x85 || c[1] == 0xA0))
    || (|c| == 3 && IsWideWhite(c[0], c[1], c[2]))
  }

  predicate IsWideWhite(a: Byte, b: Byte, c: Byte) {
    || (a == 0xE1 && b == 0x9A && c == 0x80)
    || (a == 0xE2 && b == 0x80 && (0x80 <= c <= 0x8A || c == 0xA8 || c == 0xA9 || c == 0xAF))
    || (a == 0xE2 && b == 0x81 && c == 0x9F)
    || (a == 0xE3 && b == 0x80 && c == 0x80)
  }

  /** The width of the white space character `s` starts with, or 0. */
  function WhiteAtStart(s: Bytes): (w: nat)
    ensures w <= |s|
  {
    if |s| >= 1 && IsWhite(s[..1]) then 1
    else if |s| >= 2 && IsWhite(s[..2]) then 2
    else if |s| >= 3 && IsWhite(s[..3]) then 3
    else 0
  }

  function WhiteAtEnd(s: Bytes): (w: nat)
    ensures w <= |s|
  {
    if |s| >= 1 && IsWhite(s[|s| - 1..]) then 1
    else if |s| >= 2 && IsWhite(s[|s| - 2..]) then 2
    else if |s| >= 3 && IsWhite(s[|s| - 3..]) then 3
    else 0
  }

  function TrimStart(s: Bytes): Bytes
    decreases |s|
  {
    var w := WhiteAtStart(s);
    if w == 0 then s else TrimStart(s[w..])
  }

  function TrimEnd(s: Bytes): Bytes
    decreases |s|
  {
    var w := WhiteAtEnd(s);
    if w == 0 then s else TrimEnd(s[..|s| - w])
  }

  predicate IsHexDigit(b: Byte) {
    48 <= b <= 57 || 65 <= b <= 70 || 97 <= b <= 102
  }

  function DigitValue(b: Byte): (v: nat)
    requires IsHexDigit(b)
    ensures v < 16
  {
    if b <= 57 then b - 48 else if b <= 70 then b - 55 else b - 87
  }

  predicate IsHex(s: Bytes) { forall i :: 0 <= i < |s| ==> IsHexDigit(s[i]) }

  function HexValue(s: Bytes): nat
    requires IsHex(s)
    decreases |s|
  {
    if s == [] then 0 else 16 * HexValue(s[..|s| - 1]) + DigitValue(s[|s| - 1])
  }

  /** `usize::from_str_radix(text, 16)`: an optional plus, then at least one digit, without overflow. */
  function FromHex(text: Bytes): Option<nat> {
    var digits := if |text| > 0 && text[0] == PLUS then text[1..] else text;
    if digits != [] && IsHex(digits) && HexValue(digits) < SIZE_LIMIT then Some(HexValue(digits)) else None
  }

  function SizeOf(line: Bytes): Option<nat> {
    FromHex(TrimEnd(TrimStart(BeforeSemicolon(line))))
  }

  // ---------------------------------------------------------------- decoding

  /** How a size line is read. The source's way is `SizeOf`; the framing does not depend on it. */
  type SizeReader = Bytes -> Option<nat>

  /** `rest.get(size + 2..).unwrap_or(&[])`. */
  function After(rest: Bytes, size: nat): Bytes {
    if size + 2 <= |rest| then rest[size + 2..] else []
  }

  function Behind(body: Bytes, r: Result): Result {
    match r case Ok(b) => Ok(body + b) case Err(e) => Err(e)
  }

  ghost function Decoded(reader: SizeReader, s: Bytes): Result
    decreases |s|
  {
    match Position(s, 0)
    case None => Err(TruncatedSize)
    case Some(end) =>
      match reader(s[..end])
      case None => Err(BadSize(s[..end]))
      case Some(size) =>
        var rest := s[end + 2..];
        if size == 0 then Ok([])
        else if |rest| < size then Err(TruncatedChunk)
        else Behind(rest[..size], Decoded(reader, After(rest, size)))
  }

  lemma {:induction false} DecodeOneChunk(reader: SizeReader, s: Bytes, end: nat, size: nat, body: Bytes)
    requires Position(s, 0) == Some(end) && reader(s[..end]) == Some(size) && 0 < size <= |s| - end - 2
    ensures var rest := s[end + 2..];
      Behind(body, Decoded(reader, s)) == Behind(body + rest[..size], Decoded(reader, After(rest, size)))
  {
    var rest := s[end + 2..];
    var more := Decoded(reader, After(rest, size));
    assert Decoded(reader, s) == Behind(rest[..size], more);
    if more.Ok? { assert body + (rest[..size] + more.body) == (body + rest[..size]) + more.body; }
  }

  method DecodeChunked(reader: SizeReader, s: Bytes) returns (r: Result)
    ensures r == Decoded(reader, s)
  {
    var body: Bytes := [];
    var rest := s;
    while true
      invariant Behind(body, Decoded(reader, rest)) == Decoded(reader, s)
      decreases |rest|
    {
      var position := Position(rest, 0);
      if position.None? { return Err(TruncatedSize); }
      var line := rest[..position.value];
      var size := reader(line);
      if size.None? { return Err(BadSize(line)); }
      ghost var was := rest;
      rest := rest[position.value + 2..];
      if size.value == 0 { return Ok(body); }
      if |rest| < size.value { return Err(TruncatedChunk); }
      DecodeOneChunk(reader, was, position.value, size.value, body);
      body := body + rest[..size.value];
      rest := After(rest, size.value);
    }
  }

  // ---------------------------------------------------------------- the coding

  /** One chunk as it stands on the wire: its size line, its data, and the two bytes after the data,
      which the decoder skips without looking. */
  datatype Chunk = Chunk(line: Bytes, data: Bytes, gap: Bytes)

  ghost predicate NoCrlf(line: Bytes) { forall i :: !CrlfAt(line, i) }

  ghost predicate Announces(reader: SizeReader, line: Bytes, size: nat) { NoCrlf(line) && reader(line) == Some(size) }

  ghost predicate WellFormed(reader: SizeReader, c: Chunk) { c.data != [] && Announces(reader, c.line, |c.data|) && |c.gap| == 2 }

  function Wire(c: Chunk): Bytes { c.line + CRLF + c.data + c.gap }

  /** The chunks, then the last size line, then a trailer section the decoder does not look at. */
  function Encoded(chunks: seq<Chunk>, last: Bytes, trailer: Bytes): Bytes
    decreases |chunks|
  {
    if chunks == [] then last + CRLF + trailer else Wire(chunks[0]) + Encoded(chunks[1..], last, trailer)
  }

  function Data(chunks: seq<Chunk>): Bytes
    decreases |chunks|
  {
    if chunks == [] then [] else chunks[0].data + Data(chunks[1..])
  }

  lemma {:induction false} LineEndIsFound(line: Bytes, tail: Bytes)
    requires NoCrlf(line)
    ensures Position(line + CRLF + tail, 0) == Some(|line|)
  {
    var s := line + CRLF + tail;
    assert CrlfAt(s, |line|);
    forall j | 0 <= j < |line| ensures !CrlfAt(s, j) {
      assert !CrlfAt(line, j);
      if j + 1 == |line| { assert s[j + 1] == CR; }
    }
  }

  lemma {:induction false} DecodeChunkThenRest(reader: SizeReader, c: Chunk, tail: Bytes)
    requires WellFormed(reader, c)
    ensures Decoded(reader, Wire(c) + tail) == Behind(c.data, Decoded(reader, tail))
  {
    var after := c.data + c.gap + tail;
    var s := c.line + CRLF + after;
    assert Wire(c) + tail == s;
    LineEndIsFound(c.line, after);
    assert s[..|c.line|] == c.line;
    assert s[|c.line| + 2..] == after;
    assert after[..|c.data|] == c.data;
    assert after[|c.data| + 2..] == tail;
  }

  /** Decoding inverts encoding: whatever the chunks, the spelling of their sizes and the extensions. */
  lemma {:induction false} DecodeInvertsEncode(reader: SizeReader, chunks: seq<Chunk>, last: Bytes, trailer: Bytes)
    requires forall i :: 0 <= i < |chunks| ==> WellFormed(reader, chunks[i])
    requires Announces(reader, last, 0)
    ensures Decoded(reader, Encoded(chunks, last, trailer)) == Ok(Data(chunks))
    decreases |chunks|
  {
    if chunks == [] {
      LineEndIsFound(last, trailer);
      assert (last + CRLF + trailer)[..|last|] == last;
    } else {
      DecodeChunkThenRest(reader, chunks[0], Encoded(chunks[1..], last, trailer));
      DecodeInvertsEncode(reader, chunks[1..], last, trailer);
    }
  }

  /** And nothing else is accepted: whatever decodes is such an encoding of what it decodes to. */
  lemma {:induction false} DecodeIsSound(reader: SizeReader, s: Bytes)
    returns (chunks: seq<Chunk>, last: Bytes, trailer: Bytes)
    requires Decoded(reader, s).Ok?
    ensures forall i :: 0 <= i < |chunks| ==> WellFormed(reader, chunks[i])
    ensures Announces(reader, last, 0) && s == Encoded(chunks, last, trailer) && Decoded(reader, s) == Ok(Data(chunks))
    decreases |s|
  {
    var end := Position(s, 0).value;
    var rest := s[end + 2..];
    var size := reader(s[..end]).value;
    LineIsFree(s, end);
    if size == 0 {
      chunks, last, trailer := [], s[..end], rest;
      assert s == last + CRLF + rest;
    } else {
      chunks, last, trailer := DecodeIsSound(reader, After(rest, size));
      if |rest| < size + 2 { NothingIsNotABody(reader); }
      var c := Chunk(s[..end], rest[..size], rest[size..size + 2]);
      SplitChunk(s, end, size);
      ChunkJoins(reader, c, chunks, last, trailer);
      DecodeChunkThenRest(reader, c, rest[size + 2..]);
      chunks := [c] + chunks;
    }
  }

  lemma {:induction false} SplitChunk(s: Bytes, end: nat, size: nat)
    requires CrlfAt(s, end) && size + 2 <= |s| - end - 2
    ensures var rest := s[end + 2..];
      s == Wire(Chunk(s[..end], rest[..size], rest[size..size + 2])) + rest[size + 2..]
  {
    var rest := s[end + 2..];
    assert s == s[..end] + CRLF + rest;
    assert rest == rest[..size] + rest[size..size + 2] + rest[size + 2..];
  }

  lemma {:induction false} ChunkJoins(reader: SizeReader, c: Chunk, chunks: seq<Chunk>, last: Bytes,
                                      trailer: Bytes)
    requires WellFormed(reader, c) && forall i :: 0 <= i < |chunks| ==> WellFormed(reader, chunks[i])
    ensures forall i :: 0 <= i < |[c] + chunks| ==> WellFormed(reader, ([c] + chunks)[i])
    ensures Encoded([c] + chunks, last, trailer) == Wire(c) + Encoded(chunks, last, trailer)
    ensures Data([c] + chunks) == c.data + Data(chunks)
  {
    assert ([c] + chunks)[1..] == chunks;
  }

  lemma {:induction false} LineIsFree(s: Bytes, end: nat)
    requires Position(s, 0) == Some(end)
    ensures NoCrlf(s[..end])
  {
    forall i ensures !CrlfAt(s[..end], i) {
      if CrlfAt(s[..end], i) { assert CrlfAt(s, i); }
    }
  }

  lemma {:induction false} NothingIsNotABody(reader: SizeReader)
    ensures Decoded(reader, []) == Err(TruncatedSize)
  {
  }

  // ---------------------------------------------------------------- size lines of the standard

  /** `chunk-ext` with its optional blanks, free of CR LF: nothing, or blanks and a semicolon. */
  ghost predicate IsExtension(blanks: Bytes, ext: Bytes) {
    && (forall i :: 0 <= i < |blanks| ==> blanks[i] == 32 || blanks[i] == 9)
    && (if ext == [] then blanks == [] else ext[0] == SEMICOLON)
    && NoCrlf(ext)
  }

  lemma {:induction false} CutAtSemicolon(s: Bytes, ext: Bytes)
    requires SEMICOLON !in s && (ext == [] || ext[0] == SEMICOLON)
    ensures BeforeSemicolon(s + ext) == s
    decreases |s|
  {
    if s == [] {
      assert s + ext == ext;
    } else {
      assert (s + ext)[1..] == s[1..] + ext;
      CutAtSemicolon(s[1..], ext);
    }
  }

  lemma {:induction false} NarrowEnd(s: Bytes)
    requires s != [] && s[|s| - 1] < 0x80
    ensures WhiteAtEnd(s) == if 9 <= s[|s| - 1] <= 13 || s[|s| - 1] == 32 then 1 else 0
  {
  }

  lemma {:induction false} TrimBlanks(digits: Bytes, blanks: Bytes)
    requires digits != [] && IsHex(digits)
    requires forall i :: 0 <= i < |blanks| ==> blanks[i] == 32 || blanks[i] == 9
    ensures TrimEnd(digits + blanks) == digits
    decreases |blanks|
  {
    var s := digits + blanks;
    NarrowEnd(s);
    if blanks == [] {
      assert s == digits;
    } else {
      var less := blanks[..|blanks| - 1];
      assert s[..|s| - 1] == digits + less;
      TrimBlanks(digits, less);
    }
  }

  lemma {:induction false} NoCrlfBehind(visible: Bytes, ext: Bytes)
    requires CR !in visible && NoCrlf(ext)
    ensures NoCrlf(visible + ext)
  {
    forall i ensures !CrlfAt(visible + ext, i) {
      assert !CrlfAt(ext, i - |visible|);
    }
  }

  lemma {:induction false} NothingToTrim(s: Bytes)
    requires s != [] && IsHexDigit(s[0])
    ensures TrimStart(s) == s
  {
  }

  lemma {:induction false} PlainHex(digits: Bytes)
    requires digits != [] && IsHex(digits) && HexValue(digits) < SIZE_LIMIT
    ensures FromHex(digits) == Some(HexValue(digits))
  {
    assert IsHexDigit(digits[0]);
  }

  /** A size line of the standard announces its size, in any case and with any leading zeros. */
  lemma {:induction false} StandardLineAnnounces(digits: Bytes, blanks: Bytes, ext: Bytes)
    requires digits != [] && IsHex(digits) && HexValue(digits) < SIZE_LIMIT && IsExtension(blanks, ext)
    ensures Announces(SizeOf, digits + blanks + ext, HexValue(digits))
  {
    var visible := digits + blanks;
    assert CR !in visible && SEMICOLON !in visible;
    NoCrlfBehind(visible, ext);
    CutAtSemicolon(visible, ext);
    NothingToTrim(visible);
    TrimBlanks(digits, blanks);
    PlainHex(digits);
  }

  /** Every size has a spelling: here the shortest lower-case one. */
  function Hex(n: nat): Bytes {
    var d := n % 16;
    var digit: Byte := if d < 10 then 48 + d else 87 + d;
    if n < 16 then [digit] else Hex(n / 16) + [digit]
  }

  lemma {:induction false} HexSpells(n: nat)
    ensures Hex(n) != [] && IsHex(Hex(n)) && HexValue(Hex(n)) == n
  {
    if n >= 16 {
      HexSpells(n / 16);
      assert Hex(n)[..|Hex(n)| - 1] == Hex(n / 16);
    } else {
      assert HexValue([]) == 0;
    }
  }

  /** A part of the body as a sender writes it: the data, any spelling of its size, any extension. */
  datatype Part = Part(data: Bytes, digits: Bytes, blanks: Bytes, ext: Bytes)

  ghost predicate IsStandard(p: Part) {
    && p.digits != [] && IsHex(p.digits) && HexValue(p.digits) == |p.data| < SIZE_LIMIT
    && IsExtension(p.blanks, p.ext)
  }

  function SizeLine(p: Part): Bytes { p.digits + p.blanks + p.ext }

  function Written(parts: seq<Part>): seq<Chunk>
    decreases |parts|
  {
    if parts == [] then [] else [Chunk(SizeLine(parts[0]), parts[0].data, CRLF)] + Written(parts[1..])
  }

  function Body(parts: seq<Part>): Bytes
    decreases |parts|
  {
    if parts == [] then [] else parts[0].data + Body(parts[1..])
  }

  lemma {:induction false} WrittenIsWellFormed(reader: SizeReader, parts: seq<Part>)
    requires forall i :: 0 <= i < |parts| ==> parts[i].data != [] &&
                                              Announces(reader, SizeLine(parts[i]), |parts[i].data|)
    ensures forall i :: 0 <= i < |Written(parts)| ==> WellFormed(reader, Written(parts)[i])
    ensures Data(Written(parts)) == Body(parts)
    decreases |parts|
  {
    if parts != [] {
      WrittenIsWellFormed(reader, parts[1..]);
      ChunkJoins(reader, Chunk(SizeLine(parts[0]), parts[0].data, CRLF), Written(parts[1..]), [], []);
    }
  }

  lemma {:induction false} PartAnnounces(p: Part)
    requires IsStandard(p)
    ensures Announces(SizeOf, SizeLine(p), |p.data|)
  {
    StandardLineAnnounces(p.digits, p.blanks, p.ext);
  }

  /** However a sender cuts the body, spells the sizes and extends the lines, and whatever trailer
      section follows, the receiver gets the body. */
  lemma {:induction false} BodyArrives(parts: seq<Part>, last: Part, trailer: Bytes)
    requires forall i :: 0 <= i < |parts| ==> IsStandard(parts[i]) && parts[i].data != []
    requires IsStandard(last) && last.data == []
    ensures Decoded(SizeOf, Encoded(Written(parts), SizeLine(last), trailer)) == Ok(Body(parts))
  {
    forall i | 0 <= i < |parts| ensures Announces(SizeOf, SizeLine(parts[i]), |parts[i].data|) {
      PartAnnounces(parts[i]);
    }
    PartAnnounces(last);
    WrittenIsWellFormed(SizeOf, parts);
    DecodeInvertsEncode(SizeOf, Written(parts), SizeLine(last), trailer);
  }
}
