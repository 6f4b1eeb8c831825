/** What is said over the serial framing: encoded commands to the display and the frames it sends back. */
module TjcProtocol {
  import opened Common
  import opened TjcFraming

  /** A character of a Python string; lone surrogates are characters too. */
  type CodePoint = c: int | 0 <= c < 0x11_0000

  type Text = seq<CodePoint>

  const BACKSLASH: CodePoint := 0x5C
  const QUOTE: CodePoint := 0x22

  predicate IsSurrogate(c: CodePoint) {
    0xD800 <= c < 0xE000
  }

  /** UTF-8, section 3 of RFC 3629. */
  function EncodeChar(c: CodePoint): Bytes {
    if c < 0x80 then [c]
    else if c < 0x800 then [0xC0 + c / 64, 0x80 + c % 64]
    else if c < 0x1_0000 then [0xE0 + c / 4096, 0x80 + c / 64 % 64, 0x80 + c % 64]
    else [0xF0 + c / 26_2144, 0x80 + c / 4096 % 64, 0x80 + c / 64 % 64, 0x80 + c % 64]
  }

  /** str.encode, which refuses surrogates. */
  function EncodeText(t: Text): Option<Bytes> {
    if t == [] then Some([])
    else
      var rest := EncodeText(t[1..]);
      if IsSurrogate(t[0]) || rest.None? then None else Some(EncodeChar(t[0]) + rest.value)
  }

  predicate IsTail(b: byte) {
    0x80 <= b < 0xC0
  }

  /** What an octet carries below its marker. */
  function Bits(b: byte, marker: byte): int {
    b as int - marker as int
  }

  /** The first character of well-formed UTF-8, and how many octets it takes. */
  function DecodeChar(b: Bytes): Option<(CodePoint, nat)>
    requires b != []
  {
    if b[0] < 0x80 then Some((b[0], 1))
    else if 0xC0 <= b[0] < 0xE0 && |b| >= 2 && IsTail(b[1]) then
      Some((Bits(b[0], 0xC0) * 64 + Bits(b[1], 0x80), 2))
    else if 0xE0 <= b[0] < 0xF0 && |b| >= 3 && IsTail(b[1]) && IsTail(b[2]) then
      Some((Bits(b[0], 0xE0) * 4096 + Bits(b[1], 0x80) * 64 + Bits(b[2], 0x80), 3))
    else if 0xF0 <= b[0] <= 0xF4 && |b| >= 4 && IsTail(b[1]) && IsTail(b[2]) && IsTail(b[3])
            && (b[0] == 0xF4 ==> b[1] < 0x90) then
      Some((Bits(b[0], 0xF0) * 26_2144 + Bits(b[1], 0x80) * 4096 + Bits(b[2], 0x80) * 64 + Bits(b[3], 0x80), 4))
    else None
  }

  /** The strict decoder. */
  function DecodeText(b: Bytes): Text {
    if b == [] then []
    else
      var first := DecodeChar(b);
      if first.None? then [] else [first.value.0] + DecodeText(b[first.value.1..])
  }

  /** Six bits split off a number come back. */
  lemma SixBits(c: nat)
    ensures c == c / 64 * 64 + c % 64 && 0 <= c % 64 < 64
  {
  }

  lemma SixBitsTwice(c: nat)
    ensures c == c / 4096 * 4096 + c / 64 % 64 * 64 + c % 64
  {
    SixBits(c);
    SixBits(c / 64);
    assert c / 64 / 64 == c / 4096;
  }

  lemma SixBitsThrice(c: nat)
    ensures c == c / 26_2144 * 26_2144 + c / 4096 % 64 * 4096 + c / 64 % 64 * 64 + c % 64
  {
    SixBitsTwice(c);
    SixBits(c / 4096);
    assert c / 4096 / 64 == c / 26_2144;
  }

  lemma EncodedCharIsFirst(c: CodePoint, rest: Bytes)
    ensures DecodeChar(EncodeChar(c) + rest) == Some((c, |EncodeChar(c)|))
  {
    if 0x80 <= c < 0x800 {
      SixBits(c);
    } else if 0x800 <= c < 0x1_0000 {
      SixBitsTwice(c);
    } else if 0x1_0000 <= c {
      SixBitsThrice(c);
    }
  }

  lemma EncodedCharDecodes(c: CodePoint, rest: Bytes)
    ensures DecodeText(EncodeChar(c) + rest) == [c] + DecodeText(rest)
    ensures forall i :: 0 <= i < |EncodeChar(c)| ==> EncodeChar(c)[i] < 0xF5
  {
    EncodedCharIsFirst(c, rest);
    assert (EncodeChar(c) + rest)[|EncodeChar(c)|..] == rest;
  }

  /** Encoding loses nothing, fails exactly on surrogates and never uses an octet above 0xF4. */
  lemma {:induction false} TextRoundTrip(t: Text)
    ensures EncodeText(t).Some? <==> forall i :: 0 <= i < |t| ==> !IsSurrogate(t[i])
    ensures EncodeText(t).Some? ==>
              && DecodeText(EncodeText(t).value) == t
              && forall i :: 0 <= i < |EncodeText(t).value| ==> EncodeText(t).value[i] < 0xF5
  {
    if t != [] {
      TextRoundTrip(t[1..]);
      assert t == [t[0]] + t[1..];
      if EncodeText(t).Some? {
        EncodedCharDecodes(t[0], EncodeText(t[1..]).value);
      }
    }
  }

  function EncodeCommand(command: Text): Option<Bytes> {
    var encoded := EncodeText(command);
    if encoded.None? then None else Some(encoded.value + TERMINATOR)
  }

  /** The commands that can be encoded at all, one after the other on the line. */
  function Line(commands: seq<Text>): Option<Bytes> {
    if commands == [] then Some([])
    else
      var first, rest := EncodeCommand(commands[0]), Line(commands[1..]);
      if first.None? || rest.None? then None else Some(first.value + rest.value)
  }

  function Payloads(commands: seq<Text>): seq<Bytes>
    requires Line(commands).Some?
  {
    if commands == [] then [] else [EncodeText(commands[0]).value] + Payloads(commands[1..])
  }

  lemma {:induction false} LineCarriesPayloads(commands: seq<Text>)
    requires Line(commands).Some?
    ensures Line(commands).value == Join(Payloads(commands), []) && AllQualify(Payloads(commands))
    ensures |Payloads(commands)| == |commands|
    ensures forall k :: 0 <= k < |commands| ==> DecodeText(Payloads(commands)[k]) == commands[k]
  {
    if commands != [] {
      LineCarriesPayloads(commands[1..]);
      TextRoundTrip(commands[0]);
      assert Payloads(commands)[1..] == Payloads(commands[1..]);
      assert Qualifies(Payloads(commands)[0]);
    }
  }

  /** Frames that spell the commands. */
  ghost predicate Spell(frames: seq<Bytes>, commands: seq<Text>) {
    |frames| == |commands| && forall k :: 0 <= k < |commands| ==> DecodeText(frames[k]) == commands[k]
  }

  /** Any sequence of encoded commands, cut into any chunks, is received as exactly those commands. */
  lemma CommandsAreReceived(commands: seq<Text>, chunks: seq<Bytes>)
    requires Line(commands).Some? && Concat(chunks) == Line(commands).value
    ensures Spell(FeedAll(chunks).0, commands) && FeedAll(chunks).1 == []
  {
    LineCarriesPayloads(commands);
    FramingRoundTrip(Payloads(commands), chunks);
  }

  /** str.replace of a one-character pattern. */
  function ReplaceChar(t: Text, pattern: CodePoint, replacement: Text): Text {
    if t == [] then []
    else (if t[0] == pattern then replacement else [t[0]]) + ReplaceChar(t[1..], pattern, replacement)
  }

  /** Backslashes first, then quotes. */
  function EscapeText(value: Text): Text {
    ReplaceChar(ReplaceChar(value, BACKSLASH, [BACKSLASH, BACKSLASH]), QUOTE, [BACKSLASH, QUOTE])
  }

  lemma {:induction false} ReplaceCharAppend(a: Text, b: Text, pattern: CodePoint, replacement: Text)
    ensures ReplaceChar(a + b, pattern, replacement)
            == ReplaceChar(a, pattern, replacement) + ReplaceChar(b, pattern, replacement)
  {
    if a == [] {
      assert a + b == b;
    } else {
      ReplaceCharAppend(a[1..], b, pattern, replacement);
      assert (a + b)[1..] == a[1..] + b;
      Associates(if a[0] == pattern then replacement else [a[0]],
                 ReplaceChar(a[1..], pattern, replacement), ReplaceChar(b, pattern, replacement));
    }
  }

  /** The two passes together escape character by character. */
  lemma EscapeOne(c: CodePoint, rest: Text)
    ensures EscapeText([c] + rest) ==
              (if c == BACKSLASH || c == QUOTE then [BACKSLASH, c] else [c]) + EscapeText(rest)
  {
    var once := if c == BACKSLASH then [BACKSLASH, BACKSLASH] else [c];
    assert ([c] + rest)[1..] == rest;
    assert ReplaceChar([c] + rest, BACKSLASH, [BACKSLASH, BACKSLASH])
        == once + ReplaceChar(rest, BACKSLASH, [BACKSLASH, BACKSLASH]);
    ReplaceCharAppend(once, ReplaceChar(rest, BACKSLASH, [BACKSLASH, BACKSLASH]), QUOTE, [BACKSLASH, QUOTE]);
    assert once[1..] == if c == BACKSLASH then [BACKSLASH] else [];
    if c == BACKSLASH {
      assert once[1..][1..] == [];
    }
  }

  /** How a quoted text is read: up to the first quote that no backslash precedes, dropping the backslashes. */
  function ReadQuoted(t: Text): Option<(Text, Text)> {
    if t == [] then None
    else if t[0] == QUOTE then Some(([], t[1..]))
    else
      var escaped := t[0] == BACKSLASH;
      if escaped && |t| == 1 then None
      else
        var c, rest := if escaped then t[1] else t[0], ReadQuoted(if escaped then t[2..] else t[1..]);
        if rest.None? then None else Some(([c] + rest.value.0, rest.value.1))
  }

  /** An escaped text followed by a quote is read back whole, and the reading stops at that quote. */
  lemma {:induction false} QuotedTextIsReadBack(value: Text, rest: Text)
    ensures ReadQuoted(EscapeText(value) + [QUOTE] + rest) == Some((value, rest))
  {
    if value == [] {
      assert EscapeText(value) + [QUOTE] + rest == [QUOTE] + rest;
    } else {
      var c := value[0];
      QuotedTextIsReadBack(value[1..], rest);
      EscapeOne(c, value[1..]);
      assert value == [c] + value[1..];
      var t, tail := EscapeText(value) + [QUOTE] + rest, EscapeText(value[1..]) + [QUOTE] + rest;
      assert t == (if c == BACKSLASH || c == QUOTE then [BACKSLASH, c] else [c]) + tail;
      assert t[if c == BACKSLASH || c == QUOTE then 2 else 1..] == tail;
    }
  }

  lemma EscapeIsInjective(u: Text, v: Text)
    requires EscapeText(u) == EscapeText(v)
    ensures u == v
  {
    QuotedTextIsReadBack(u, []);
    QuotedTextIsReadBack(v, []);
  }

  const TXT: Text := [0x2E, 0x74, 0x78, 0x74, 0x3D, 0x22]

  /** The command that sets a component's text: component.txt="value". */
  function SetText(component: Text, value: Text): Text {
    component + TXT + EscapeText(value) + [QUOTE]
  }

  /** Setting a text: the one command on the line is read back as the component, the assignment and the value. */
  lemma SetTextIsReceived(component: Text, value: Text, chunks: seq<Bytes>)
    requires EncodeCommand(SetText(component, value)).Some?
    requires Concat(chunks) == EncodeCommand(SetText(component, value)).value
    ensures var (frames, buffer) := FeedAll(chunks);
            && buffer == [] && |frames| == 1
            && var command := DecodeText(frames[0]);
            && component + TXT <= command
            && ReadQuoted(command[|component + TXT|..]) == Some((value, []))
  {
    var command := SetText(component, value);
    assert Line([command][1..]) == Some([]);
    assert EncodeCommand(command).value + [] == EncodeCommand(command).value;
    assert Line([command]) == Some(EncodeCommand(command).value);
    CommandsAreReceived([command], chunks);
    QuotedTextIsReadBack(value, []);
    assert command[|component + TXT|..] == EscapeText(value) + [QUOTE] + [];
  }

  /** What the display reports. */
  datatype Event =
    | Touch(page: byte, component: byte, press: bool)
    | Page(page: byte)
    | StringReturn(raw: Bytes)
    | NumericReturn(number: int)
    | Ready

  function LittleEndian(b: Bytes): int
    requires |b| == 4
  {
    var u: int := (b[0] as int) + 256 * (b[1] as int) + 65536 * (b[2] as int) + 16777216 * (b[3] as int);
    if u >= 0x8000_0000 then u - 0x1_0000_0000 else u
  }

  function ParseFrame(frame: Bytes): Option<Event> {
    if frame == [] then None
    else
      var kind, payload := frame[0], frame[1..];
      if kind == 0x65 && |payload| >= 3 then
        if payload[2] == 1 then Some(Touch(payload[0], payload[1], true))
        else if payload[2] == 0 then Some(Touch(payload[0], payload[1], false))
        else None
      else if kind == 0x66 && |payload| >= 1 then Some(Page(payload[0]))
      else if kind == 0x70 then Some(StringReturn(payload))
      else if kind == 0x71 && |payload| >= 4 then Some(NumericReturn(LittleEndian(payload[..4])))
      else if kind == 0x88 then Some(Ready)
      else None
  }

  predicate IsInt32(v: int) {
    -0x8000_0000 <= v < 0x8000_0000
  }

  /** The frame in which the display reports an event. */
  function PrintEvent(e: Event): Bytes
    requires e.NumericReturn? ==> IsInt32(e.number)
  {
    match e
    case Touch(page, component, press) => [0x65, page, component, if press then 1 else 0]
    case Page(page) => [0x66, page]
    case StringReturn(raw) => [0x70] + raw
    case NumericReturn(v) => [0x71, v % 256, v / 256 % 256, v / 65536 % 256, v / 16777216 % 256]
    case Ready => [0x88]
  }

  /** When a reported event gets through the framing. */
  predicate GetsThrough(e: Event) {
    match e
    case Page(page) => page != 0xFF
    case StringReturn(raw) => Qualifies(raw)
    case NumericReturn(v) => v % 0x100_0000 != 0xFF_FFFF && !(-0x100_0000 <= v < 0)
    case _ => true
  }

  lemma EightBits(v: int)
    ensures v == v / 256 * 256 + v % 256 && 0 <= v % 256 < 256
  {
  }

  /** The four octets of a number. */
  lemma FourOctets(v: int)
    ensures v == v / 16777216 * 16777216 + v / 65536 % 256 * 65536 + v / 256 % 256 * 256 + v % 256
  {
    EightBits(v);
    EightBits(v / 256);
    EightBits(v / 65536);
    assert v / 256 / 256 == v / 65536 && v / 65536 / 256 == v / 16777216;
  }

  lemma TopOctet(v: int)
    requires IsInt32(v)
    ensures v / 16777216 == v / 16777216 % 256 - if v < 0 then 256 else 0
    ensures v / 16777216 % 256 == 0xFF <==> -0x100_0000 <= v < 0
  {
  }

  lemma LowOctets(v: int)
    ensures v % 0x100_0000 == v / 65536 % 256 * 65536 + v / 256 % 256 * 256 + v % 256
  {
    FourOctets(v);
  }

  lemma NumberRoundTrip(v: int)
    requires IsInt32(v)
    ensures LittleEndian([v % 256, v / 256 % 256, v / 65536 % 256, v / 16777216 % 256]) == v
    ensures v / 16777216 % 256 == 0xFF <==> -0x100_0000 <= v < 0
    ensures v % 256 == 0xFF && v / 256 % 256 == 0xFF && v / 65536 % 256 == 0xFF <==> v % 0x100_0000 == 0xFF_FFFF
  {
    FourOctets(v);
    TopOctet(v);
    LowOctets(v);
  }

  /** Parsing inverts the frame layout. */
  lemma PrintedEventParses(e: Event)
    requires e.NumericReturn? ==> IsInt32(e.number)
    ensures ParseFrame(PrintEvent(e)) == Some(e)
  {
    if e.NumericReturn? {
      NumberRoundTrip(e.number);
      var p := PrintEvent(e)[1..];
      assert p[..4] == [e.number % 256, e.number / 256 % 256, e.number / 65536 % 256, e.number / 16777216 % 256];
    }
  }

  /** A frame is understood exactly as the report it begins with; a string takes all of it. */
  lemma ParsesExactlyReports(frame: Bytes, e: Event)
    ensures ParseFrame(frame) == Some(e) <==>
              && (e.NumericReturn? ==> IsInt32(e.number))
              && PrintEvent(e) <= frame && (e.StringReturn? ==> PrintEvent(e) == frame)
  {
    if (e.NumericReturn? ==> IsInt32(e.number)) && PrintEvent(e) <= frame {
      PrintedEventParses(e);
      PrefixParsesTheSame(PrintEvent(e), frame);
    }
    if ParseFrame(frame) == Some(e) {
      ParsedFrameIsPrinted(frame, e);
    }
  }

  lemma PrefixParsesTheSame(p: Bytes, frame: Bytes)
    requires p <= frame && ParseFrame(p).Some?
    ensures !ParseFrame(p).value.StringReturn? ==> ParseFrame(frame) == ParseFrame(p)
  {
    if p[0] == 0x71 {
      assert frame[1..][..4] == p[1..][..4];
    }
  }

  lemma OctetsOf(a: byte, b: byte, c: byte, d: byte)
    ensures var v := LittleEndian([a, b, c, d]);
            IsInt32(v) && v % 256 == a && v / 256 % 256 == b && v / 65536 % 256 == c && v / 16777216 % 256 == d
  {
    var v := LittleEndian([a, b, c, d]);
    var top: int := if d >= 128 then d - 256 else d;
    LowOctet(v, (b as int) + 256 * (c as int) + 65536 * top, a);
    LowOctet(v / 256, (c as int) + 256 * top, b);
    LowOctet(v / 256 / 256, top, c);
    EightBits(v);
    assert v / 256 / 256 == v / 65536 && v / 65536 / 256 == v / 16777216;
  }

  lemma LowOctet(v: int, rest: int, low: byte)
    requires v == rest * 256 + low
    ensures v / 256 == rest && v % 256 == low
  {
  }

  lemma ParsedFrameIsPrinted(frame: Bytes, e: Event)
    requires ParseFrame(frame) == Some(e)
    ensures e.NumericReturn? ==> IsInt32(e.number)
    ensures PrintEvent(e) <= frame && (e.StringReturn? ==> PrintEvent(e) == frame)
  {
    if frame[0] == 0x71 {
      OctetsOf(frame[1], frame[2], frame[3], frame[4]);
      assert frame[1..][..4] == [frame[1], frame[2], frame[3], frame[4]];
    }
  }

  /** The text between a component and its value. */
  lemma AssignmentIsSpelt()
    ensures |TXT| == |".txt=\""| && forall i :: 0 <= i < |TXT| ==> TXT[i] == ".txt=\""[i] as int
  {
  }

  lemma PrintedEventQualifies(e: Event)
    requires e.NumericReturn? ==> IsInt32(e.number)
    ensures Qualifies(PrintEvent(e)) <==> GetsThrough(e)
  {
    var p := PrintEvent(e);
    match e
    case StringReturn(raw) =>
      assert forall j :: 0 <= j ==> TerminatorAt(p, j + 1) == TerminatorAt(raw, j);
      if Find(p) != -1 {
        assert TerminatorAt(raw, Find(p) - 1);
      }
      if Find(raw) != -1 {
        assert TerminatorAt(p, Find(raw) + 1);
      }
    case NumericReturn(v) =>
      NumberRoundTrip(v);
      if v % 0x100_0000 == 0xFF_FFFF {
        assert TerminatorAt(p, 1);
      }
    case _ =>
  }

  /** A reported event, cut into any chunks, is received as its one frame exactly when the frame cannot be torn:
      a page number other than 255, a string without a terminator or trailing 0xFF, a number that neither ends in
      three 0xFF octets nor lies from -2^24 to -1. */
  lemma EventIsReceived(e: Event, chunks: seq<Bytes>)
    requires e.NumericReturn? ==> IsInt32(e.number)
    requires Concat(chunks) == PrintEvent(e) + TERMINATOR
    ensures FeedAll(chunks) == ([PrintEvent(e)], []) <==> GetsThrough(e)
  {
    PrintedEventQualifies(e);
    assert Join([PrintEvent(e)], []) == PrintEvent(e) + TERMINATOR;
    FramingRoundTrip([PrintEvent(e)], chunks);
    assert AllQualify([PrintEvent(e)]) <==> Qualifies([PrintEvent(e)][0]);
  }
}
