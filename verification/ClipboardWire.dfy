/** The bytes of a provide message, spelled out (the ExtendedClipboard extension of RFB). */
module ClipboardWire {
  import opened ClipboardCodec
  import opened Options

  function Weighed(b: seq<Byte>): int
    requires |b| == 4
  {
    b[0] as int * 16777216 + b[1] as int * 65536 + b[2] as int * 256 + b[3] as int
  }

  /** A length is four bytes, the most significant first. */
  lemma LengthSpelled(n: nat)
    requires n < 4294967296
    ensures Weighed(Be32(n)) == n
  {
    Be32RoundTrip(n);
  }

  lemma SameNumber(a: seq<Byte>, b: seq<Byte>)
    requires |a| == |b| == 4 && Weighed(a) == Weighed(b)
    ensures a == b
  {
    Be32Reads(a);
    Be32Reads(b);
  }

  /** What a format adds: its length with the terminator, its bytes, and a zero byte. */
  function Field(lib: Library, text: Option<string>): seq<Byte> {
    if text.None? then [] else Be32(|lib.encode(text.value)| + 1) + lib.encode(text.value) + [0]
  }

  function WithPairs(text: Option<string>): Option<string> {
    if text.None? then None else Some(ToCrlf(text.value))
  }

  lemma OneField(lib: Library, block: seq<Byte>)
    ensures Frame([block]) == Be32(|block|) + block
  {
    assert [block][1..] == [];
  }

  lemma FieldIsFrame(lib: Library, text: string)
    ensures Frame([BlockOf(lib, text)]) == Field(lib, Some(text))
  {
    OneField(lib, BlockOf(lib, text));
  }

  lemma FrameNothing()
    ensures Frame([]) == []
  {
  }

  /** The header says provide, 0x10 in the first byte, and names the formats in the last: 1 for
      text, 2 for RTF, 4 for HTML. */
  lemma HeaderSpelled(lib: Library, data: Formats)
    ensures |Built(lib, data)| >= 4
    ensures Built(lib, data)[..4]
         == [0x10, 0, 0, (if data.text.Some? then 1 else 0) + (if data.rtf.Some? then 2 else 0)
                         + (if data.html.Some? then 4 else 0)]
  {
    var mask := FormatMask(data);
    LengthSpelled(CLIP_PROVIDE + mask);
    SameNumber(Be32(CLIP_PROVIDE + mask), [0x10, 0, 0, mask]);
  }

  /** The rest inflates to the three fields in that order, the text with its lines ended by pairs. */
  lemma BodySpelled(lib: Library, data: Formats)
    requires Lawful(lib)
    ensures lib.inflate(Built(lib, data)[4..])
         == Some(Field(lib, WithPairs(data.text)) + Field(lib, data.rtf) + Field(lib, data.html))
  {
    hide Be32, Frame, BlockOf, ToCrlf;
    var a := if data.text.Some? then [BlockOf(lib, ToCrlf(data.text.value))] else [];
    var b := if data.rtf.Some? then [BlockOf(lib, data.rtf.value)] else [];
    var c := if data.html.Some? then [BlockOf(lib, data.html.value)] else [];
    FrameSplit(a, b);
    FrameSplit(a + b, c);
    FrameNothing();
    if data.text.Some? { FieldIsFrame(lib, ToCrlf(data.text.value)); }
    if data.rtf.Some? { FieldIsFrame(lib, data.rtf.value); }
    if data.html.Some? { FieldIsFrame(lib, data.html.value); }
    assert Blocks(lib, data) == a + b + c;
    assert Built(lib, data)[4..] == lib.deflate(Frame(a + b + c));
  }

  /** The limits are 16 MiB for a format and 32 MiB in all. */
  lemma LimitsSpelled(lib: Library, data: Formats)
    ensures WithinLimits(lib, data) <==>
              (forall i :: 0 <= i < |Blocks(lib, data)| ==> |Blocks(lib, data)[i]| <= 16777216)
              && |Frame(Blocks(lib, data))| <= 33554432
  {
  }

  // ----- What is refused, and why -----

  /** Good blocks for every format announced, and then something more: too many bytes. */
  lemma {:induction false} MoreIsRefused(lib: Library, flags: nat, blocks: seq<seq<Byte>>, rest: seq<Byte>, bit: nat, out: Formats)
    requires bit > 0 && |blocks| == Slots(flags, bit) && Small(blocks) && rest != []
    ensures ParseFrom(lib, flags, Frame(blocks) + rest, bit, out) == Err(ExceedsFormats)
    decreases 0x1_0000 - bit
  {
    if bit > 0x8000 {
      assert Frame(blocks) + rest == rest;
    } else if HasBit(flags, bit) {
      BlockThen(blocks, rest);
      assert forall i :: 0 <= i < |blocks| - 1 ==> |blocks[1..][i]| == |blocks[i + 1]|;
      MoreIsRefused(lib, flags, blocks[1..], rest, 2 * bit, Store(lib, out, bit, blocks[0]));
    } else {
      MoreIsRefused(lib, flags, blocks, rest, 2 * bit, out);
    }
  }

  lemma BlockThen(blocks: seq<seq<Byte>>, rest: seq<Byte>)
    requires blocks != [] && |blocks[0]| < 0x1_0000_0000
    ensures var data, n := Frame(blocks) + rest, |blocks[0]|;
            && |data| >= 4 + n && ReadBe32(data[..4]) == n && data[4..4 + n] == blocks[0]
            && data[4 + n..] == Frame(blocks[1..]) + rest
  {
    hide Frame, ReadBe32;
    FirstBlock(blocks);
    Prefixed(Frame(blocks), rest, 4, 4 + |blocks[0]|);
  }

  lemma Prefixed(a: seq<Byte>, b: seq<Byte>, i: nat, j: nat)
    requires i <= j <= |a|
    ensures (a + b)[..i] == a[..i] && (a + b)[i..j] == a[i..j] && (a + b)[j..] == a[j..] + b
  {
  }

  /** Good blocks for some of the formats announced, and then fewer bytes than a length takes. */
  lemma {:induction false} NoLengthIsRefused(lib: Library, flags: nat, blocks: seq<seq<Byte>>, rest: seq<Byte>, bit: nat, out: Formats)
    requires bit > 0 && |blocks| < Slots(flags, bit) && Small(blocks) && |rest| < 4
    ensures ParseFrom(lib, flags, Frame(blocks) + rest, bit, out) == Err(TruncatedLength)
    decreases 0x1_0000 - bit
  {
    if HasBit(flags, bit) {
      if blocks == [] {
        assert Frame(blocks) + rest == rest;
      } else {
        BlockThen(blocks, rest);
        assert forall i :: 0 <= i < |blocks| - 1 ==> |blocks[1..][i]| == |blocks[i + 1]|;
        NoLengthIsRefused(lib, flags, blocks[1..], rest, 2 * bit, Store(lib, out, bit, blocks[0]));
      }
    } else {
      NoLengthIsRefused(lib, flags, blocks, rest, 2 * bit, out);
    }
  }
}
