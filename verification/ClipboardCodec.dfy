/** The provide message of the ExtendedClipboard extension: per set format bit a length and
    NUL-terminated UTF-8, the whole deflated. */
module ClipboardCodec {
  import LineEndings
  import opened Options

  datatype Result<+T> = Ok(value: T) | Err(error: Error)
  datatype Error = BadStream | TruncatedLength | TruncatedOrOversized | ExceedsFormats

  type Byte = n: nat | n < 256

  const CLIP_PROVIDE := 0x1000_0000
  const MAX_CLIPBOARD_BYTES := 16 * 1024 * 1024

  datatype Formats = Formats(text: Option<string>, rtf: Option<string>, html: Option<string>)

  /** zlib and UTF-8, which the codec is given. */
  datatype Library = Library(
    deflate: seq<Byte> -> seq<Byte>, inflate: seq<Byte> -> Option<seq<Byte>>,
    encode: string -> seq<Byte>, decode: seq<Byte> -> string)

  ghost predicate Lawful(lib: Library) {
    && (forall x: seq<Byte> :: lib.inflate(lib.deflate(x)) == Some(x))
    && (forall t: string :: lib.decode(lib.encode(t)) == t)
  }

  // ----- Line ends -----

  /** Every line feed, with or without a carriage return, becomes the pair. */
  function ToCrlf(t: string): string {
    if t == [] then []
    else if |t| >= 2 && t[0] == '\r' && t[1] == '\n' then "\r\n" + ToCrlf(t[2..])
    else if t[0] == '\n' then "\r\n" + ToCrlf(t[1..])
    else [t[0]] + ToCrlf(t[1..])
  }

  lemma {:induction false} ToCrlfHead(t: string)
    ensures t != [] ==> ToCrlf(t) != [] && ToCrlf(t)[0] != '\n'
    ensures t != [] && t[0] != '\n' ==> ToCrlf(t)[0] == t[0]
  {
  }

  /** No line feed is left without its carriage return. */
  lemma {:induction false} EveryLineFeedPaired(t: string, i: nat)
    requires i < |ToCrlf(t)| && ToCrlf(t)[i] == '\n'
    ensures i > 0 && ToCrlf(t)[i - 1] == '\r'
    decreases |t|
  {
    var k := if |t| >= 2 && t[0] == '\r' && t[1] == '\n' then 2 else 1;
    var head := if k == 2 || t[0] == '\n' then "\r\n" else [t[0]];
    assert ToCrlf(t) == head + ToCrlf(t[k..]);
    if i >= |head| {
      EveryLineFeedPaired(t[k..], i - |head|);
      if i == |head| { assert false; }
      assert ToCrlf(t)[i - 1] == ToCrlf(t[k..])[i - 1 - |head|];
    }
  }

  lemma {:induction false} TextComesBack(t: string)
    ensures LineEndings.CrlfToLf(ToCrlf(t)) == LineEndings.CrlfToLf(t)
    decreases |t|
  {
    if t == [] {
    } else if |t| >= 2 && t[0] == '\r' && t[1] == '\n' {
      TextComesBack(t[2..]);
      assert ToCrlf(t)[2..] == ToCrlf(t[2..]);
    } else if t[0] == '\n' {
      TextComesBack(t[1..]);
      assert ToCrlf(t)[2..] == ToCrlf(t[1..]);
    } else {
      TextComesBack(t[1..]);
      ToCrlfHead(t[1..]);
      assert ToCrlf(t)[1..] == ToCrlf(t[1..]);
    }
  }

  ghost predicate HasCrlf(t: string) {
    exists i :: 0 <= i < |t| - 1 && t[i] == '\r' && t[i + 1] == '\n'
  }

  lemma {:induction false} CrlfToLfShrinks(t: string)
    ensures |LineEndings.CrlfToLf(t)| <= |t|
    decreases |t|
  {
    if t == [] {
    } else if |t| >= 2 && t[0] == '\r' && t[1] == '\n' {
      CrlfToLfShrinks(t[2..]);
    } else {
      CrlfToLfShrinks(t[1..]);
    }
  }

  /** A text survives unchanged exactly when it holds no carriage-return line-feed pair. */
  lemma {:induction false} UnchangedIffNoCrlf(t: string)
    ensures LineEndings.CrlfToLf(t) == t <==> !HasCrlf(t)
    decreases |t|
  {
    if t == [] {
    } else if |t| >= 2 && t[0] == '\r' && t[1] == '\n' {
      CrlfToLfShrinks(t[2..]);
    } else {
      UnchangedIffNoCrlf(t[1..]);
      assert t == [t[0]] + t[1..];
      assert LineEndings.CrlfToLf(t)[1..] == LineEndings.CrlfToLf(t[1..]);
      if HasCrlf(t) {
        var i :| 0 <= i < |t| - 1 && t[i] == '\r' && t[i + 1] == '\n';
        assert t[1..][i - 1] == '\r' && t[1..][i] == '\n';
      }
      if HasCrlf(t[1..]) {
        var i :| 0 <= i < |t[1..]| - 1 && t[1..][i] == '\r' && t[1..][i + 1] == '\n';
        assert t[i + 1] == '\r' && t[i + 2] == '\n';
      }
    }
  }

  // ----- Framing -----

  function Be32(n: nat): (b: seq<Byte>)
    ensures |b| == 4
  {
    [n / 0x100 / 0x100 / 0x100 % 0x100, n / 0x100 / 0x100 % 0x100, n / 0x100 % 0x100, n % 0x100]
  }

  function ReadBe32(b: seq<Byte>): nat
    requires |b| == 4
  {
    ((b[0] as int * 0x100 + b[1]) * 0x100 + b[2]) * 0x100 + b[3]
  }

  lemma Be32RoundTrip(n: nat)
    ensures ReadBe32(Be32(n)) == n % 0x1_0000_0000
  {
    var a := n / 0x100;
    var b := a / 0x100;
    var c := b / 0x100;
    var top := c / 0x100;
    var value := ((c % 0x100 * 0x100 + b % 0x100) * 0x100 + a % 0x100) * 0x100 + n % 0x100;
    LastDigit(n, a);
    LastDigit(a, b);
    LastDigit(b, c);
    LastDigit(c, top);
    assert n == top * 0x1_0000_0000 + value;
    assert 0 <= value < 0x1_0000_0000;
    assert Be32(n) == [c % 0x100, b % 0x100, a % 0x100, n % 0x100];
  }

  lemma LastDigit(n: nat, q: nat)
    requires q == n / 0x100
    ensures n == q * 0x100 + n % 0x100 && 0 <= n % 0x100 < 0x100
  {
  }

  /** The blocks one after the other, each behind its length. */
  function Frame(blocks: seq<seq<Byte>>): seq<Byte> {
    if blocks == [] then [] else Be32(|blocks[0]|) + blocks[0] + Frame(blocks[1..])
  }

  lemma {:induction false} FrameSplit(a: seq<seq<Byte>>, b: seq<seq<Byte>>)
    ensures Frame(a + b) == Frame(a) + Frame(b)
    decreases |a|
  {
    hide Be32;
    if a == [] {
      assert a + b == b;
    } else {
      FrameSplit(a[1..], b);
      assert (a + b)[0] == a[0] && (a + b)[1..] == a[1..] + b;
      assert Frame(a + b) == Be32(|a[0]|) + a[0] + (Frame(a[1..]) + Frame(b));
    }
  }

  predicate HasBit(flags: nat, bit: nat)
    requires bit > 0
  {
    flags / bit % 2 == 1
  }

  // ----- Building -----

  function BlockOf(lib: Library, text: string): seq<Byte> {
    lib.encode(text) + [0]
  }

  function Blocks(lib: Library, data: Formats): seq<seq<Byte>> {
    (if data.text.Some? then [BlockOf(lib, ToCrlf(data.text.value))] else [])
    + (if data.rtf.Some? then [BlockOf(lib, data.rtf.value)] else [])
    + (if data.html.Some? then [BlockOf(lib, data.html.value)] else [])
  }

  function FormatMask(data: Formats): nat {
    (if data.text.Some? then 1 else 0) + (if data.rtf.Some? then 2 else 0) + (if data.html.Some? then 4 else 0)
  }

  function Built(lib: Library, data: Formats): seq<Byte> {
    Be32(CLIP_PROVIDE + FormatMask(data)) + lib.deflate(Frame(Blocks(lib, data)))
  }

  /** The blocks of the first `i` formats. */
  function Taken(lib: Library, slots: seq<Option<string>>, i: nat): seq<seq<Byte>>
    requires i <= |slots|
  {
    if i == 0 then []
    else
      var slot := slots[i - 1];
      Taken(lib, slots, i - 1)
      + if slot.None? then [] else [BlockOf(lib, if i == 1 then ToCrlf(slot.value) else slot.value)]
  }

  lemma TakenAll(lib: Library, data: Formats)
    ensures Taken(lib, [data.text, data.rtf, data.html], 3) == Blocks(lib, data)
  {
    var slots := [data.text, data.rtf, data.html];
    assert Taken(lib, slots, 1) == if data.text.Some? then [BlockOf(lib, ToCrlf(data.text.value))] else [];
    assert Taken(lib, slots, 2)
        == Taken(lib, slots, 1) + if data.rtf.Some? then [BlockOf(lib, data.rtf.value)] else [];
  }

  lemma FrameSnoc(blocks: seq<seq<Byte>>, block: seq<Byte>)
    ensures Frame(blocks + [block]) == Frame(blocks) + Be32(|block|) + block
  {
    FrameSplit(blocks, [block]);
    assert Frame([block]) == Be32(|block|) + block + Frame([]);
  }

  method BuildProvideBody(lib: Library, data: Formats) returns (body: seq<Byte>)
    ensures body == Built(lib, data)
  {
    var slots := [data.text, data.rtf, data.html];
    var parts: seq<Byte> := [];
    for i := 0 to |slots|
      invariant parts == Frame(Taken(lib, slots, i))
    {
      if slots[i].None? {
        assert Taken(lib, slots, i) + [] == Taken(lib, slots, i);
        continue;
      }
      var text := if i == 0 then ToCrlf(slots[i].value) else slots[i].value;
      var bytes := BlockOf(lib, text);
      FrameSnoc(Taken(lib, slots, i), bytes);
      parts := parts + Be32(|bytes|) + bytes;
    }
    TakenAll(lib, data);
    body := Be32(CLIP_PROVIDE + FormatMask(data)) + lib.deflate(parts);
  }

  // ----- Parsing -----

  function StripNul(raw: seq<Byte>): seq<Byte> {
    if raw != [] && raw[|raw| - 1] == 0 then raw[..|raw| - 1] else raw
  }

  /** What the block of a format bit adds; the parser reads past formats it does not know. */
  function Store(lib: Library, out: Formats, bit: nat, raw: seq<Byte>): Formats {
    var value := lib.decode(StripNul(raw));
    if bit == 1 then out.(text := Some(LineEndings.CrlfToLf(value)))
    else if bit == 2 then out.(rtf := Some(value))
    else if bit == 4 then out.(html := Some(value))
    else out
  }

  function ParseFrom(lib: Library, flags: nat, data: seq<Byte>, bit: nat, out: Formats): Result<Formats>
    requires bit > 0
    decreases 0x1_0000 - bit
  {
    if bit > 0x8000 then if data == [] then Ok(out) else Err(ExceedsFormats)
    else if !HasBit(flags, bit) then ParseFrom(lib, flags, data, 2 * bit, out)
    else if |data| < 4 then Err(TruncatedLength)
    else
      var length := ReadBe32(data[..4]);
      if length > MAX_CLIPBOARD_BYTES || 4 + length > |data| then Err(TruncatedOrOversized)
      else ParseFrom(lib, flags, data[4 + length..], 2 * bit, Store(lib, out, bit, data[4..4 + length]))
  }

  const NOTHING := Formats(None, None, None)

  function Parse(lib: Library, flags: nat, payload: seq<Byte>): Result<Formats> {
    var data := lib.inflate(payload);
    if data.None? || |data.value| > 2 * MAX_CLIPBOARD_BYTES then Err(BadStream)
    else ParseFrom(lib, flags, data.value, 1, NOTHING)
  }

  method ParseProvideBody(lib: Library, flags: nat, payload: seq<Byte>) returns (r: Result<Formats>)
    ensures r == Parse(lib, flags, payload)
  {
    hide HasBit, ReadBe32, Store;
    var inflated := lib.inflate(payload);
    if inflated.None? || |inflated.value| > 2 * MAX_CLIPBOARD_BYTES { return Err(BadStream); }
    var data, out, cursor, bit := inflated.value, NOTHING, 0, 1;
    while bit <= 0x8000
      invariant 0 < bit && 0 <= cursor <= |data|
      invariant ParseFrom(lib, flags, data[cursor..], bit, out) == Parse(lib, flags, payload)
      decreases 0x1_0000 - bit
    {
      if HasBit(flags, bit) {
        ghost var rest := data[cursor..];
        if cursor + 4 > |data| { return Err(TruncatedLength); }
        assert data[cursor..cursor + 4] == rest[..4];
        var length := ReadBe32(data[cursor..cursor + 4]);
        cursor := cursor + 4;
        if length > MAX_CLIPBOARD_BYTES || cursor + length > |data| { return Err(TruncatedOrOversized); }
        var raw := data[cursor..cursor + length];
        assert raw == rest[4..4 + length] && data[cursor + length..] == rest[4 + length..];
        cursor := cursor + length;
        out := Store(lib, out, bit, raw);
      }
      bit := bit * 2;
    }
    if cursor != |data| { return Err(ExceedsFormats); }
    return Ok(out);
  }

  // ----- What is accepted, and as what -----

  /** How many blocks the flags announce, from `bit` up. */
  function Slots(flags: nat, bit: nat): nat
    requires bit > 0
    decreases 0x1_0000 - bit
  {
    if bit > 0x8000 then 0 else Slots(flags, 2 * bit) + if HasBit(flags, bit) then 1 else 0
  }

  /** The blocks given to the flags that announce them, lowest bit first. */
  function Interpret(lib: Library, flags: nat, blocks: seq<seq<Byte>>, bit: nat, out: Formats): Formats
    requires bit > 0 && |blocks| == Slots(flags, bit)
    decreases 0x1_0000 - bit
  {
    if bit > 0x8000 then out
    else if HasBit(flags, bit) then Interpret(lib, flags, blocks[1..], 2 * bit, Store(lib, out, bit, blocks[0]))
    else Interpret(lib, flags, blocks, 2 * bit, out)
  }

  ghost predicate Small(blocks: seq<seq<Byte>>) {
    forall i :: 0 <= i < |blocks| ==> |blocks[i]| <= MAX_CLIPBOARD_BYTES
  }

  lemma FirstBlock(blocks: seq<seq<Byte>>)
    requires blocks != [] && |blocks[0]| < 0x1_0000_0000
    ensures |Frame(blocks)| >= 4 && ReadBe32(Frame(blocks)[..4]) == |blocks[0]|
    ensures 4 + |blocks[0]| <= |Frame(blocks)| && Frame(blocks)[4..4 + |blocks[0]|] == blocks[0]
    ensures Frame(blocks)[4 + |blocks[0]|..] == Frame(blocks[1..])
  {
    var n := |blocks[0]|;
    var data := Frame(blocks);
    assert data == Be32(n) + blocks[0] + Frame(blocks[1..]);
    assert data[..4] == Be32(n);
    Be32RoundTrip(n);
  }

  /** Framed blocks of at most 16 MiB, one for each announced format, are accepted as
      themselves, and a larger one is refused. */
  lemma {:induction false} FramedIsAcceptedIffSmall(lib: Library, flags: nat, blocks: seq<seq<Byte>>, bit: nat, out: Formats)
    requires bit > 0 && |blocks| == Slots(flags, bit) && |Frame(blocks)| < 0x1_0000_0000
    ensures ParseFrom(lib, flags, Frame(blocks), bit, out)
         == if Small(blocks) then Ok(Interpret(lib, flags, blocks, bit, out)) else Err(TruncatedOrOversized)
    decreases 0x1_0000 - bit
  {
    if bit > 0x8000 {
    } else if HasBit(flags, bit) {
      var n := |blocks[0]|;
      assert |Frame(blocks)| == 4 + n + |Frame(blocks[1..])|;
      FirstBlock(blocks);
      if n <= MAX_CLIPBOARD_BYTES {
        FramedIsAcceptedIffSmall(lib, flags, blocks[1..], 2 * bit, Store(lib, out, bit, blocks[0]));
        assert blocks == [blocks[0]] + blocks[1..];
        assert Small(blocks) <==> Small(blocks[1..]);
      }
    } else {
      FramedIsAcceptedIffSmall(lib, flags, blocks, 2 * bit, out);
    }
  }

  lemma Be32Reads(b: seq<Byte>)
    requires |b| == 4
    ensures Be32(ReadBe32(b)) == b && ReadBe32(b) < 0x1_0000_0000
  {
    var n, high: int, top: int := ReadBe32(b), b[0] as int * 0x100 + b[1], b[0] as int;
    assert n / 0x100 == high * 0x100 + b[2];
    assert n / 0x100 / 0x100 == high && high / 0x100 == top;
  }

  lemma NoneToInterpret(lib: Library, flags: nat, bit: nat, out: Formats)
    requires bit > 0x8000
    ensures Slots(flags, bit) == 0 && Interpret(lib, flags, [], bit, out) == out
  {
  }

  lemma InterpretNext(lib: Library, flags: nat, blocks: seq<seq<Byte>>, bit: nat, out: Formats)
    requires 0 < bit <= 0x8000 && |blocks| == Slots(flags, bit)
    ensures HasBit(flags, bit) ==>
              |blocks| == Slots(flags, 2 * bit) + 1
              && Interpret(lib, flags, blocks, bit, out)
                 == Interpret(lib, flags, blocks[1..], 2 * bit, Store(lib, out, bit, blocks[0]))
    ensures !HasBit(flags, bit) ==>
              |blocks| == Slots(flags, 2 * bit)
              && Interpret(lib, flags, blocks, bit, out) == Interpret(lib, flags, blocks, 2 * bit, out)
  {
  }

  /** Nothing else is accepted: what parses is framed blocks to its last byte. */
  lemma {:induction false} AcceptedIsFramed(lib: Library, flags: nat, data: seq<Byte>, bit: nat, out: Formats)
      returns (blocks: seq<seq<Byte>>)
    requires bit > 0 && ParseFrom(lib, flags, data, bit, out).Ok?
    ensures |blocks| == Slots(flags, bit) && Small(blocks) && data == Frame(blocks)
    ensures ParseFrom(lib, flags, data, bit, out) == Ok(Interpret(lib, flags, blocks, bit, out))
    decreases 0x1_0000 - bit
  {
    hide Be32, ReadBe32, Store, HasBit, Interpret;
    if bit > 0x8000 {
      blocks := [];
      NoneToInterpret(lib, flags, bit, out);
    } else if HasBit(flags, bit) {
      var length := ReadBe32(data[..4]);
      var raw := data[4..4 + length];
      var rest := AcceptedIsFramed(lib, flags, data[4 + length..], 2 * bit, Store(lib, out, bit, raw));
      blocks := [raw] + rest;
      assert blocks[1..] == rest;
      InterpretNext(lib, flags, blocks, bit, out);
      Be32Reads(data[..4]);
      assert data == data[..4] + raw + data[4 + length..];
    } else {
      blocks := AcceptedIsFramed(lib, flags, data, 2 * bit, out);
      InterpretNext(lib, flags, blocks, bit, out);
    }
  }

  // ----- Round trip -----

  /** What the other side gets: the same formats, the text with its pairs turned to line feeds. */
  function Normal(data: Formats): Formats {
    data.(text := if data.text.Some? then Some(LineEndings.CrlfToLf(data.text.value)) else None)
  }

  ghost predicate WithinLimits(lib: Library, data: Formats) {
    Small(Blocks(lib, data)) && |Frame(Blocks(lib, data))| <= 2 * MAX_CLIPBOARD_BYTES
  }

  lemma NoHighBit(flags: nat, bit: nat)
    requires flags < bit
    ensures !HasBit(flags, bit)
  {
    assert flags / bit == 0;
  }

  lemma {:induction false} NoHighSlots(flags: nat, bit: nat)
    requires flags < bit
    ensures Slots(flags, bit) == 0
    decreases 0x1_0000 - bit
  {
    NoHighBit(flags, bit);
    if bit <= 0x8000 { NoHighSlots(flags, 2 * bit); }
  }

  lemma {:induction false} NoHighFormats(lib: Library, flags: nat, bit: nat, out: Formats)
    requires flags < bit
    ensures Slots(flags, bit) == 0 && Interpret(lib, flags, [], bit, out) == out
    decreases 0x1_0000 - bit
  {
    NoHighSlots(flags, bit);
    NoHighBit(flags, bit);
    if bit <= 0x8000 { NoHighSlots(flags, 2 * bit); NoHighFormats(lib, flags, 2 * bit, out); }
  }

  lemma BlockComesBack(lib: Library, text: string)
    requires Lawful(lib)
    ensures lib.decode(StripNul(BlockOf(lib, text))) == text
  {
    assert StripNul(BlockOf(lib, text)) == lib.encode(text);
  }

  lemma MaskBits(data: Formats)
    ensures HasBit(FormatMask(data), 1) <==> data.text.Some?
    ensures HasBit(FormatMask(data), 2) <==> data.rtf.Some?
    ensures HasBit(FormatMask(data), 4) <==> data.html.Some?
    ensures FormatMask(data) < 8
  {
  }

  /** From the bit for HTML up, what is left of `data` comes back. */
  lemma HtmlSlot(lib: Library, data: Formats, blocks: seq<seq<Byte>>, out: Formats)
    requires Lawful(lib) && blocks == if data.html.Some? then [BlockOf(lib, data.html.value)] else []
    requires out.html == None
    ensures Slots(FormatMask(data), 4) == |blocks|
    ensures Interpret(lib, FormatMask(data), blocks, 4, out) == out.(html := data.html)
  {
    var flags := FormatMask(data);
    MaskBits(data);
    NoHighFormats(lib, flags, 8, out.(html := data.html));
    if data.html.Some? {
      BlockComesBack(lib, data.html.value);
      assert blocks[1..] == [];
    }
  }

  lemma RtfSlot(lib: Library, data: Formats, html: seq<seq<Byte>>, blocks: seq<seq<Byte>>, out: Formats)
    requires Lawful(lib) && html == if data.html.Some? then [BlockOf(lib, data.html.value)] else []
    requires blocks == (if data.rtf.Some? then [BlockOf(lib, data.rtf.value)] else []) + html
    requires out.html == None && out.rtf == None
    ensures Slots(FormatMask(data), 2) == |blocks|
    ensures Interpret(lib, FormatMask(data), blocks, 2, out) == out.(rtf := data.rtf, html := data.html)
  {
    var flags := FormatMask(data);
    MaskBits(data);
    HtmlSlot(lib, data, html, out.(rtf := data.rtf));
    if data.rtf.Some? {
      BlockComesBack(lib, data.rtf.value);
      assert blocks[1..] == html;
    } else {
      assert blocks == html;
    }
  }

  lemma TextSlot(lib: Library, data: Formats)
    requires Lawful(lib)
    ensures Slots(FormatMask(data), 1) == |Blocks(lib, data)|
    ensures Interpret(lib, FormatMask(data), Blocks(lib, data), 1, NOTHING) == Normal(data)
  {
    var flags, blocks := FormatMask(data), Blocks(lib, data);
    var html := if data.html.Some? then [BlockOf(lib, data.html.value)] else [];
    var rtf := (if data.rtf.Some? then [BlockOf(lib, data.rtf.value)] else []) + html;
    MaskBits(data);
    RtfSlot(lib, data, html, rtf, NOTHING.(text := Normal(data).text));
    if data.text.Some? {
      BlockComesBack(lib, ToCrlf(data.text.value));
      TextComesBack(data.text.value);
      assert blocks[1..] == rtf;
    } else {
      assert blocks == rtf;
    }
  }

  lemma HeaderFields(mask: nat)
    requires mask < 8
    ensures (CLIP_PROVIDE + mask) / 0x100_0000 * 0x100_0000 == CLIP_PROVIDE && (CLIP_PROVIDE + mask) % 0x1_0000 == mask
    ensures (CLIP_PROVIDE + mask) % 0x1_0000_0000 == CLIP_PROVIDE + mask
  {
  }

  lemma HeaderComesBack(lib: Library, data: Formats)
    ensures var flags := ReadBe32(Built(lib, data)[..4]);
            flags / 0x100_0000 * 0x100_0000 == CLIP_PROVIDE && flags % 0x1_0000 == FormatMask(data)
    ensures Built(lib, data)[4..] == lib.deflate(Frame(Blocks(lib, data)))
  {
    var header := CLIP_PROVIDE + FormatMask(data);
    assert Built(lib, data)[..4] == Be32(header);
    Be32RoundTrip(header);
    HeaderFields(FormatMask(data));
  }

  /** A built message parses to what was put in exactly when each block is at most 16 MiB and
      all of them at most 32 MiB; otherwise the parser refuses what the builder wrote. */
  lemma RoundTripIffWithinLimits(lib: Library, data: Formats)
    requires Lawful(lib)
    ensures var body := Built(lib, data);
            var parsed := Parse(lib, ReadBe32(body[..4]) % 0x1_0000, body[4..]);
            if WithinLimits(lib, data) then parsed == Ok(Normal(data)) else parsed.Err?
  {
    var framed := Frame(Blocks(lib, data));
    HeaderComesBack(lib, data);
    assert lib.inflate(lib.deflate(framed)) == Some(framed);
    if |framed| <= 2 * MAX_CLIPBOARD_BYTES {
      TextSlot(lib, data);
      FramedIsAcceptedIffSmall(lib, FormatMask(data), Blocks(lib, data), 1, NOTHING);
    }
  }
}
