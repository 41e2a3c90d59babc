/**
 * The framing of the Debug Adapter Protocol: a Content-Length header, a blank line, a body. Bodies are
 * opaque bytes; the socket may deliver them in chunks of any size.
 */
module Transport {
  import opened Bytes
  import opened IntText
  import opened Reading

  const CR: Byte := 0x0d
  const LF: Byte := 0x0a
  const HEADER_SEP: seq<Byte> := [CR, LF, CR, LF]
  const MAX_HEADER_BYTES := 8192
  const READ_CHUNK_SIZE := 4096

  // "Content-Length: " and, in lower case, "content-length:"
  const LENGTH_FIELD: seq<Byte> :=
    [0x43, 0x6f, 0x6e, 0x74, 0x65, 0x6e, 0x74, 0x2d, 0x4c, 0x65, 0x6e, 0x67, 0x74, 0x68, 0x3a, 0x20]
  const LENGTH_PREFIX: seq<Byte> :=
    [0x63, 0x6f, 0x6e, 0x74, 0x65, 0x6e, 0x74, 0x2d, 0x6c, 0x65, 0x6e, 0x67, 0x74, 0x68, 0x3a]

  /** A body whose length is a machine word. */
  type Body = s: seq<Byte> | |s| < 0x1_0000_0000_0000_0000

  function Header(length: nat): seq<Byte> {
    LENGTH_FIELD + Digits(length) + HEADER_SEP
  }

  function EncodeMessage(body: Body): seq<Byte> {
    Header(|body|) + body
  }

  // ------------------------------------------------------------------
  // Headers
  // ------------------------------------------------------------------

  function Lower(b: Byte): Byte {
    if 0x41 <= b <= 0x5a then b + 0x20 else b
  }

  function LowerAll(s: seq<Byte>): (r: seq<Byte>)
    ensures |r| == |s| && forall i :: 0 <= i < |s| ==> r[i] == Lower(s[i])
  {
    seq(|s|, i requires 0 <= i < |s| => Lower(s[i]))
  }

  function SkipSpaceAtEnd(s: seq<Byte>): seq<Byte> {
    if s != [] && IsSpace(s[|s| - 1]) then SkipSpaceAtEnd(s[..|s| - 1]) else s
  }

  function Strip(s: seq<Byte>): seq<Byte> {
    SkipSpaceAtEnd(SkipSpace(s))
  }

  /** Digits, with single underscores between them. */
  predicate IsPyDigits(s: seq<Byte>) {
    && s != [] && IsDigit(s[|s| - 1])
    && (|s| == 1 || IsPyDigits(s[..|s| - 1]) || (|s| > 2 && s[|s| - 2] == 0x5f && IsPyDigits(s[..|s| - 2])))
  }

  function PyDigitsValue(s: seq<Byte>): int {
    if s == [] then 0
    else
      var front := PyDigitsValue(s[..|s| - 1]);
      if s[|s| - 1] == 0x5f then front else 10 * front - 0x30 + s[|s| - 1]
  }

  /** `int()` on bytes: space around it, a sign, digits. */
  function PyInt(s: seq<Byte>): Option<int> {
    var t := Strip(s);
    var signed := t != [] && (t[0] == 0x2b || t[0] == 0x2d);
    var digits := if signed then t[1..] else t;
    if !IsPyDigits(digits) then None
    else Some(if signed && t[0] == 0x2d then -PyDigitsValue(digits) else PyDigitsValue(digits))
  }

  /** The part of a line behind its first colon. */
  function AfterColon(line: seq<Byte>): seq<Byte> {
    if line == [] then [] else if line[0] == 0x3a then line[1..] else AfterColon(line[1..])
  }

  datatype Length = Missing | Invalid | Length(value: int)

  predicate IsLengthLine(line: seq<Byte>) {
    LENGTH_PREFIX <= LowerAll(line)
  }

  /** The last Content-Length line counts; one that is not a number spoils the header. */
  function LengthIn(lines: seq<seq<Byte>>): Length {
    if lines == [] then Missing
    else
      var before, line := LengthIn(lines[..|lines| - 1]), lines[|lines| - 1];
      if before.Invalid? || !IsLengthLine(line) then before
      else match PyInt(AfterColon(line)) {
        case None => Invalid
        case Some(n) => Length(n)
      }
  }

  /** The lines of a header block. */
  function Lines(block: seq<Byte>): (lines: seq<seq<Byte>>)
    ensures lines != []
  {
    if block == [] then [[]]
    else if |block| >= 2 && block[0] == CR && block[1] == LF then [[]] + Lines(block[2..])
    else
      var rest := Lines(block[1..]);
      [[block[0]] + rest[0]] + rest[1..]
  }

  // ------------------------------------------------------------------
  // What one read finds in the bytes to come
  // ------------------------------------------------------------------

  predicate EndsWith(s: seq<Byte>, tail: seq<Byte>) {
    |s| >= |tail| && s[|s| - |tail|..] == tail
  }

  /** The shortest prefix, beyond the first `from` bytes, that ends with the separator. */
  function HeaderEnd(s: seq<Byte>, from: nat): (end: Option<nat>)
    ensures end.Some? ==> from < end.value <= |s| && EndsWith(s[..end.value], HEADER_SEP)
    decreases |s| - from
  {
    if from >= |s| then None
    else if EndsWith(s[..from + 1], HEADER_SEP) then Some(from + 1)
    else HeaderEnd(s, from + 1)
  }

  /** It is the shortest one. */
  lemma {:induction false} HeaderEndFirst(s: seq<Byte>, from: nat, k: nat)
    requires from < k <= |s| && EndsWith(s[..k], HEADER_SEP)
    ensures HeaderEnd(s, from).Some? && HeaderEnd(s, from).value <= k
    decreases |s| - from
  {
    if !EndsWith(s[..from + 1], HEADER_SEP) {
      HeaderEndFirst(s, from + 1, k);
    }
  }

  lemma HeaderEndStep(s: seq<Byte>, from: nat)
    requires from <= |s|
    ensures from == |s| ==> HeaderEnd(s, from) == None
    ensures from < |s| ==> HeaderEnd(s, from) == if EndsWith(s[..from + 1], HEADER_SEP) then Some(from + 1)
      else HeaderEnd(s, from + 1)
  {
  }

  datatype Failure = TransportClosed | TransportError

  datatype Read = Message(body: seq<Byte>, rest: seq<Byte>) | Fails(failure: Failure)

  /** What `read_message` makes of the bytes still to come, up to the end of the stream. */
  function NextMessage(s: seq<Byte>): Read {
    match HeaderEnd(s, 0)
    case None =>
      Fails(if s == [] then TransportClosed else TransportError)
    case Some(end) =>
      if end > MAX_HEADER_BYTES + 1 then Fails(TransportError)
      else match LengthIn(Lines(s[..end - 4])) {
        case Missing => Fails(TransportError)
        case Invalid => Fails(TransportError)
        case Length(n) => if n < 0 then Fails(TransportError) else BodyBehind(s, end, n)
      }
  }

  /** The body behind a header of `end` bytes. */
  function BodyBehind(s: seq<Byte>, end: nat, n: nat): Read
    requires end <= |s|
  {
    if |s| - end >= n then Message(s[end..end + n], s[end + n..])
    else if |s| == end then Fails(TransportClosed)
    else Fails(TransportError)
  }

  // ------------------------------------------------------------------
  // The stream
  // ------------------------------------------------------------------

  /** The peer's bytes. The network decides how many of them one `recv` delivers. */
  class Socket {
    var incoming: seq<Byte>

    constructor (bytes: seq<Byte>)
      ensures incoming == bytes
    {
      incoming := bytes;
    }

    method Recv(size: nat) returns (chunk: seq<Byte>)
      requires size > 0
      modifies this
      ensures chunk + incoming == old(incoming) && |chunk| <= size
      ensures chunk == [] <==> old(incoming) == []
    {
      if incoming == [] {
        return [];
      }
      var most := if size < |incoming| then size else |incoming|;
      var some: nat := *;
      var n := if 0 < some <= most then some else most;
      chunk := incoming[..n];
      incoming := incoming[n..];
    }
  }

  datatype Received = Got(bytes: seq<Byte>) | Raised(failure: Failure)

  class BufferedSocketIO {
    const sock: Socket
    var readBuf: seq<Byte>

    ghost function Unread(): seq<Byte>
      reads this, sock
    {
      readBuf + sock.incoming
    }

    constructor (s: Socket)
      ensures sock == s && Unread() == s.incoming
    {
      sock := s;
      readBuf := [];
    }

    /** At least one byte unless the stream is at its end, and from the buffer if there is anything in it. */
    method Read(size: nat) returns (out: seq<Byte>)
      modifies this, sock
      ensures out + Unread() == old(Unread()) && |out| <= size
      ensures out == [] <==> size == 0 || old(Unread()) == []
    {
      if size == 0 {
        return [];
      }
      if readBuf == [] {
        var chunk := sock.Recv(READ_CHUNK_SIZE);
        if chunk == [] {
          return [];
        }
        readBuf := readBuf + chunk;
      }
      var take := if size < |readBuf| then size else |readBuf|;
      out := readBuf[..take];
      readBuf := readBuf[take..];
    }
  }

  /** Exactly `n` bytes, however they arrive. */
  method ReadExact(stream: BufferedSocketIO, n: nat) returns (r: Received)
    modifies stream, stream.sock
    ensures
      var s := old(stream.Unread());
      if |s| >= n then r == Got(s[..n]) && stream.Unread() == s[n..]
      else r == Raised(if s == [] then TransportClosed else TransportError)
  {
    ghost var s := stream.Unread();
    if n == 0 {
      return Got([]);
    }
    var buf: seq<Byte> := [];
    while |buf| < n
      invariant buf + stream.Unread() == s && |buf| <= n
      decreases n - |buf|
    {
      var chunk := stream.Read(n - |buf|);
      if chunk == [] {
        assert buf + [] == buf;
        return Raised(if buf == [] then TransportClosed else TransportError);
      }
      buf := buf + chunk;
    }
    r := Got(buf);
  }

  /** Byte by byte, up to and with the separator. */
  method ReadHeader(stream: BufferedSocketIO) returns (r: Received)
    modifies stream, stream.sock
    ensures
      var s := old(stream.Unread());
      match HeaderEnd(s, 0) {
        case Some(end) =>
          if end > MAX_HEADER_BYTES + 1 then r == Raised(TransportError)
          else r == Got(s[..end]) && stream.Unread() == s[end..]
        case None => r == Raised(if s == [] then TransportClosed else TransportError)
      }
  {
    hide HeaderEnd, EndsWith;
    ghost var s := stream.Unread();
    var buf: seq<Byte> := [];
    while true
      invariant |buf| <= |s| && buf == s[..|buf|] && stream.Unread() == s[|buf|..] && |buf| <= MAX_HEADER_BYTES + 1
      invariant HeaderEnd(s, |buf|) == HeaderEnd(s, 0)
      decreases |s| - |buf|
    {
      if |buf| > MAX_HEADER_BYTES {
        return Raised(TransportError);
      }
      HeaderEndStep(s, |buf|);
      var byte := stream.Read(1);
      if byte == [] {
        return Raised(if buf == [] then TransportClosed else TransportError);
      }
      NextByte(s, |buf|, byte, stream.Unread());
      buf := buf + byte;
      if EndsWith(buf, HEADER_SEP) {
        return Got(buf);
      }
    }
  }

  lemma NextByte(s: seq<Byte>, k: nat, byte: seq<Byte>, rest: seq<Byte>)
    requires k <= |s| && |byte| == 1 && byte + rest == s[k..]
    ensures k < |s| && s[..k] + byte == s[..k + 1] && rest == s[k + 1..]
  {
    assert s[k..][0] == byte[0];
    assert s[k + 1..] == s[k..][1..];
  }

  /** The length a header block declares. */
  method ParseHeader(block: seq<Byte>) returns (length: Length)
    ensures length == LengthIn(Lines(block))
  {
    length := Missing;
    var lines := Lines(block);
    for i := 0 to |lines|
      invariant length == LengthIn(lines[..i]) && !length.Invalid?
    {
      assert lines[..i + 1][..i] == lines[..i];
      if IsLengthLine(lines[i]) {
        var n := PyInt(AfterColon(lines[i]));
        if n.None? {
          InvalidStays(lines, i + 1);
          return Invalid;
        }
        length := Length(n.value);
      }
    }
    assert lines[..|lines|] == lines;
  }

  lemma {:induction false} InvalidStays(lines: seq<seq<Byte>>, i: nat)
    requires i <= |lines| && LengthIn(lines[..i]).Invalid?
    ensures LengthIn(lines).Invalid?
    decreases |lines|
  {
    if i == |lines| {
      assert lines[..i] == lines;
    } else {
      assert lines[..|lines| - 1][..i] == lines[..i];
      InvalidStays(lines[..|lines| - 1], i);
    }
  }

  method ReadMessage(stream: BufferedSocketIO) returns (r: Received)
    modifies stream, stream.sock
    ensures
      match NextMessage(old(stream.Unread())) {
        case Message(body, rest) => r == Got(body) && stream.Unread() == rest
        case Fails(failure) => r == Raised(failure)
      }
  {
    hide Lines, LengthIn, BodyBehind;
    ghost var s := stream.Unread();
    var header := ReadHeader(stream);
    if header.Raised? {
      return header;
    }
    var block := header.bytes[..|header.bytes| - 4];
    assert block == s[..|header.bytes| - 4];
    var length := ParseHeader(block);
    if length.Missing? || length.Invalid? || length.value < 0 {
      return Raised(TransportError);
    }
    SuffixRead(s, |header.bytes|, length.value);
    r := ReadExact(stream, length.value);
  }

  /** Reading the body from what is left behind the header. */
  lemma SuffixRead(s: seq<Byte>, end: nat, n: nat)
    requires end <= |s|
    ensures
      var behind := s[end..];
      BodyBehind(s, end, n) ==
        if |behind| >= n then Message(behind[..n], behind[n..])
        else Fails(if behind == [] then TransportClosed else TransportError)
  {
    var behind := s[end..];
    if |behind| >= n {
      assert behind[..n] == s[end..end + n] && behind[n..] == s[end + n..];
    }
  }

  // ------------------------------------------------------------------
  // A frame is read back as its body
  // ------------------------------------------------------------------

  function HeaderLine(n: nat): seq<Byte> {
    LENGTH_FIELD + Digits(n)
  }

  lemma NoCrInHeaderLine(n: nat)
    ensures CR !in HeaderLine(n)
  {
    DigitsRead(n);
  }

  lemma {:induction false} OneLine(block: seq<Byte>)
    requires CR !in block
    ensures Lines(block) == [block]
  {
    if block != [] {
      OneLine(block[1..]);
      assert [block[0]] + block[1..] == block;
    }
  }

  lemma {:induction false} BehindColon(a: seq<Byte>, b: seq<Byte>)
    requires 0x3a !in a
    ensures AfterColon(a + [0x3a] + b) == b
  {
    var s := a + [0x3a] + b;
    if a == [] {
      assert s[1..] == b;
    } else {
      assert s[1..] == a[1..] + [0x3a] + b;
      BehindColon(a[1..], b);
    }
  }

  lemma {:induction false} PlainDigits(s: seq<Byte>)
    requires s != [] && forall c :: c in s ==> IsDigit(c)
    ensures IsPyDigits(s) && PyDigitsValue(s) == DigitsValue(s)
  {
    if |s| > 1 {
      PlainDigits(s[..|s| - 1]);
    } else {
      assert s[..0] == [];
    }
  }

  lemma DecimalIsPyInt(n: nat)
    ensures PyInt([0x20] + Digits(n)) == Some(n)
  {
    DigitsRead(n);
    PlainDigits(Digits(n));
    var s := [0x20] + Digits(n);
    assert s[1..] == Digits(n);
    assert IsDigit(Digits(n)[0]) && IsDigit(Digits(n)[|Digits(n)| - 1]);
    assert SkipSpace(s) == SkipSpace(s[1..]) == Digits(n);
    assert SkipSpaceAtEnd(Digits(n)) == Digits(n);
  }

  lemma HeaderLineRead(n: nat)
    ensures LengthIn([HeaderLine(n)]) == Length(n)
  {
    var line := HeaderLine(n);
    assert LowerAll(line)[..15] == LENGTH_PREFIX;
    var name := LENGTH_FIELD[..14];
    assert line == name + [0x3a] + ([0x20] + Digits(n));
    BehindColon(name, [0x20] + Digits(n));
    DecimalIsPyInt(n);
    var lines := [line];
    assert |lines[..0]| == 0;
  }

  /** The separator of a header is the first one in the stream. */
  lemma HeaderEndsAt(n: nat, s: seq<Byte>, t: seq<Byte>)
    requires s == Header(n) + t
    ensures HeaderEnd(s, 0) == Some(|Header(n)|)
  {
    hide HeaderEnd;
    var h := |Header(n)|;
    assert s[..h] == Header(n) && EndsWith(s[..h], HEADER_SEP);
    HeaderEndFirst(s, 0, h);
    var end := HeaderEnd(s, 0);
    if end.value < h {
      assert s[..end.value] == Header(n)[..end.value];
      NoSeparatorInside(n, s, end.value);
    }
  }

  lemma NoSeparatorInside(n: nat, s: seq<Byte>, k: nat)
    requires k < |Header(n)| && k <= |s| && s[..k] == Header(n)[..k]
    ensures !EndsWith(s[..k], HEADER_SEP)
  {
    NoCrInHeaderLine(n);
    if k >= 4 {
      assert s[..k][k - 4..][0] == Header(n)[k - 4] == HeaderLine(n)[k - 4];
    }
  }

  lemma MachineWordDigits(n: nat)
    requires n < 0x1_0000_0000_0000_0000
    ensures |Header(n)| <= MAX_HEADER_BYTES
  {
    assert Pow10(20) > n by {
      assert Pow10(5) == 100000;
      assert Pow10(10) == 100000 * Pow10(5);
      assert Pow10(15) == 100000 * Pow10(10);
      assert Pow10(20) == 100000 * Pow10(15);
    }
    DigitCount(n, 20);
  }

  /** What the header of a frame says, whatever follows it. */
  lemma HeaderSays(n: nat, s: seq<Byte>, t: seq<Byte>)
    requires n < 0x1_0000_0000_0000_0000 && s == Header(n) + t
    ensures HeaderEnd(s, 0) == Some(|Header(n)|) && |Header(n)| <= MAX_HEADER_BYTES
    ensures LengthIn(Lines(s[..|Header(n)| - 4])) == Length(n)
  {
    HeaderEndsAt(n, s, t);
    MachineWordDigits(n);
    NoCrInHeaderLine(n);
    OneLine(HeaderLine(n));
    HeaderLineRead(n);
    assert s[..|Header(n)| - 4] == HeaderLine(n);
  }

  lemma FrameReadBack(body: Body, t: seq<Byte>)
    ensures NextMessage(EncodeMessage(body) + t) == Message(body, t)
  {
    hide LengthIn, HeaderEnd, Lines, Header;
    var s, h := EncodeMessage(body) + t, |Header(|body|)|;
    assert s == Header(|body|) + (body + t);
    HeaderSays(|body|, s, body + t);
    assert s[h..h + |body|] == body && s[h + |body|..] == t;
  }

  // ------------------------------------------------------------------
  // Whole streams
  // ------------------------------------------------------------------

  /** Messages until the stream fails. */
  function ReadAll(s: seq<Byte>): (seq<seq<Byte>>, Failure)
    decreases |s|
  {
    match NextMessage(s)
    case Fails(failure) => ([], failure)
    case Message(body, rest) =>
      var (more, failure) := ReadAll(rest);
      ([body] + more, failure)
  }

  lemma ReadAllStep(s: seq<Byte>)
    ensures
      match NextMessage(s) {
        case Fails(failure) => ReadAll(s) == ([], failure)
        case Message(body, rest) => |rest| < |s| && ReadAll(s) == ([body] + ReadAll(rest).0, ReadAll(rest).1)
      }
  {
  }

  method Serve(stream: BufferedSocketIO) returns (bodies: seq<seq<Byte>>, failure: Failure)
    modifies stream, stream.sock
    ensures (bodies, failure) == ReadAll(old(stream.Unread()))
  {
    hide NextMessage, ReadAll;
    ghost var s := stream.Unread();
    bodies := [];
    assert [] + ReadAll(s).0 == ReadAll(s).0;
    while true
      invariant ReadAll(s) == (bodies + ReadAll(stream.Unread()).0, ReadAll(stream.Unread()).1)
      decreases |stream.Unread()|
    {
      ReadAllStep(stream.Unread());
      var r := ReadMessage(stream);
      if r.Raised? {
        assert bodies + [] == bodies;
        return bodies, r.failure;
      }
      assert bodies + ([r.bytes] + ReadAll(stream.Unread()).0) == bodies + [r.bytes] + ReadAll(stream.Unread()).0;
      bodies := bodies + [r.bytes];
    }
  }

  function Frames(bodies: seq<Body>): seq<Byte> {
    if bodies == [] then [] else EncodeMessage(bodies[0]) + Frames(bodies[1..])
  }

  lemma {:induction false} FramesThen(bodies: seq<Body>, t: seq<Byte>)
    ensures ReadAll(Frames(bodies) + t) == (bodies + ReadAll(t).0, ReadAll(t).1)
  {
    hide NextMessage, EncodeMessage;
    if bodies == [] {
      assert [] + t == t && bodies + ReadAll(t).0 == ReadAll(t).0;
    } else {
      FramesThen(bodies[1..], t);
      FrameReadBack(bodies[0], Frames(bodies[1..]) + t);
      assert Frames(bodies) + t == EncodeMessage(bodies[0]) + (Frames(bodies[1..]) + t);
      assert bodies + ReadAll(t).0 == [bodies[0]] + (bodies[1..] + ReadAll(t).0);
    }
  }

  /** However the bytes are split, a stream of frames is read as exactly its bodies, and then as closed. */
  lemma StreamReadBack(bodies: seq<Body>)
    ensures ReadAll(Frames(bodies)) == (bodies, TransportClosed)
  {
    hide LengthIn, EncodeMessage;
    FramesThen(bodies, []);
    assert Frames(bodies) + [] == Frames(bodies) && bodies + [] == bodies;
  }

  /**
   * A stream cut inside a frame delivers the bodies before it. It counts as cleanly closed if and only
   * if the cut falls between two frames, or exactly between the header and a body that is not empty.
   */
  lemma CutStream(bodies: seq<Body>, last: Body, cut: nat)
    requires cut < |EncodeMessage(last)|
    ensures
      var (read, failure) := ReadAll(Frames(bodies) + EncodeMessage(last)[..cut]);
      read == bodies && (failure.TransportClosed? <==> cut == 0 || cut == |Header(|last|)|)
  {
    hide LengthIn, HeaderEnd, Lines, EncodeMessage, NextMessage, Header;
    var t := EncodeMessage(last)[..cut];
    FramesThen(bodies, t);
    CutFrame(last, cut);
    assert bodies + [] == bodies;
  }

  lemma CutFrame(last: Body, cut: nat)
    requires cut < |EncodeMessage(last)|
    ensures NextMessage(EncodeMessage(last)[..cut])
         == Fails(if cut == 0 || cut == |Header(|last|)| then TransportClosed else TransportError)
  {
    hide LengthIn, Lines, Header;
    var s, n := EncodeMessage(last)[..cut], |last|;
    if cut < |Header(n)| {
      CutHeader(n, s);
    } else {
      assert s == Header(n) + s[|Header(n)|..];
      HeaderSays(n, s, s[|Header(n)|..]);
    }
  }

  lemma CutHeader(n: nat, s: seq<Byte>)
    requires |s| < |Header(n)| && s == Header(n)[..|s|]
    ensures HeaderEnd(s, 0) == None
  {
    hide HeaderEnd, Header, EndsWith;
    var end := HeaderEnd(s, 0);
    if end.Some? {
      assert s[..end.value] == Header(n)[..end.value];
      NoSeparatorInside(n, s, end.value);
    }
  }
}
