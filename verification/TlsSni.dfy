/** Reading the server name out of a TLS ClientHello. */
module TlsSni {
  import opened Options

  type Byte = n: nat | n < 256
  type Bytes = seq<Byte>

  // ----- Python's view of the bytes -----

  /** `data[i:j]`, which stops at the end of the data. */
  function Slice(data: Bytes, i: nat, j: nat): Bytes
    requires i <= j
  {
    if j <= |data| then data[i..j] else if i <= |data| then data[i..] else []
  }

  /** `int.from_bytes(…, "big")` of any number of bytes. */
  function Number(b: Bytes): nat {
    if b == [] then 0 else 256 * Number(b[..|b| - 1]) + b[|b| - 1]
  }

  // ----- The scanner -----

  /** The loop over the extensions; an index past the data ends the scan with nothing. */
  function Scan(data: Bytes, pos: nat, endPos: nat): Option<Bytes>
    decreases |data| - pos
  {
    if pos >= endPos || pos + 4 > |data| then None
    else
      var kind, length := Number(Slice(data, pos, pos + 2)), Number(Slice(data, pos + 2, pos + 4));
      if kind != 0 then Scan(data, pos + 4 + length, endPos)
      else if pos + 6 >= |data| then None
      else if data[pos + 6] != 0 then Scan(data, pos + 4 + length, endPos)
      else
        var nameLength := Number(Slice(data, pos + 7, pos + 9));
        Some(Slice(data, pos + 9, pos + 9 + nameLength))
  }

  /** Where the compression methods begin. */
  function AfterCiphers(data: Bytes): Option<nat> {
    if |data| <= 43 || data[0] != 0x16 || data[5] != 0x01 then None
    else
      var ciphersAt: nat := 44 + data[43] as nat;
      Some(ciphersAt + 2 + Number(Slice(data, ciphersAt, ciphersAt + 2)))
  }

  function Sni(data: Bytes): Option<Bytes> {
    var at := AfterCiphers(data);
    if at.None? || at.value >= |data| then None
    else
      var extAt: nat := at.value + 1 + data[at.value] as nat;
      Scan(data, extAt + 2, extAt + 2 + Number(Slice(data, extAt, extAt + 2)))
  }

  /** `decode` is UTF-8 decoding; bytes it cannot decode raise, and the scan gives nothing. */
  method ExtractTlsSni(decode: Bytes -> Option<string>, data: Bytes) returns (name: Option<string>)
    ensures name == if Sni(data).Some? then decode(Sni(data).value) else None
  {
    hide Number, Slice;
    if |data| < 5 || data[0] != 0x16 { return None; }
    var pos: nat := 5;
    if pos >= |data| || data[pos] != 0x01 { return None; }
    pos := pos + 1 + 3 + 2 + 32;
    if pos >= |data| { return None; }
    var sessionIdLength := data[pos];
    pos := pos + 1 + sessionIdLength;
    var cipherLength := Number(Slice(data, pos, pos + 2));
    pos := pos + 2 + cipherLength;
    if pos >= |data| { return None; }
    var compressionLength := data[pos];
    pos := pos + 1 + compressionLength;
    var extLength := Number(Slice(data, pos, pos + 2));
    pos := pos + 2;
    var endPos := pos + extLength;
    while pos < endPos && pos + 4 <= |data|
      invariant 0 <= pos && Scan(data, pos, endPos) == Sni(data)
      decreases |data| - pos
    {
      var extType := Number(Slice(data, pos, pos + 2));
      var extDataLength := Number(Slice(data, pos + 2, pos + 4));
      pos := pos + 4;
      if extType == 0 {
        if pos + 2 >= |data| { return None; }
        var sniType := data[pos + 2];
        if sniType == 0 {
          var nameLength := Number(Slice(data, pos + 3, pos + 5));
          return decode(Slice(data, pos + 5, pos + 5 + nameLength));
        }
      }
      pos := pos + extDataLength;
    }
    name := None;
  }

  // ----- ClientHello messages -----

  type Short = b: Bytes | |b| < 256
  type Long = b: Bytes | |b| < 0x1_0000

  /** An entry of a server name list (RFC 6066, section 3); kind 0 is a host name. */
  datatype ServerName = ServerName(kind: Byte, name: Long)

  datatype Extension =
    | ServerNames(first: ServerName, others: seq<ServerName>)
    | Other(kind: nat, body: Long)

  /** `record` is what the record header holds after its type, `fixed` the handshake length,
      version and random of the message. */
  datatype Hello = Hello(record: Bytes, fixed: Bytes, sessionId: Short, ciphers: Long, compression: Short,
                         extensions: seq<Extension>)

  function U16(n: nat): (b: Bytes)
    requires n < 0x1_0000
    ensures |b| == 2
  {
    [n / 256, n % 256]
  }

  function NameBytes(n: ServerName): Bytes {
    [n.kind] + U16(|n.name|) + n.name
  }

  function NamesBytes(names: seq<ServerName>): Bytes {
    if names == [] then [] else NameBytes(names[0]) + NamesBytes(names[1..])
  }

  predicate FitsExtension(e: Extension) {
    match e
    case ServerNames(first, others) => 2 + |NameBytes(first)| + |NamesBytes(others)| < 0x1_0000
    case Other(kind, _) => 0 < kind < 0x1_0000
  }

  function BodyBytes(e: Extension): Bytes
    requires FitsExtension(e)
  {
    match e
    case ServerNames(first, others) =>
      U16(|NameBytes(first)| + |NamesBytes(others)|) + NameBytes(first) + NamesBytes(others)
    case Other(_, body) => body
  }

  function ExtensionBytes(e: Extension): (b: Bytes)
    requires FitsExtension(e)
    ensures |b| >= 4
  {
    U16(if e.Other? then e.kind else 0) + U16(|BodyBytes(e)|) + BodyBytes(e)
  }

  function ExtensionsBytes(es: seq<Extension>): Bytes
    requires forall i :: 0 <= i < |es| ==> FitsExtension(es[i])
  {
    if es == [] then [] else ExtensionBytes(es[0]) + ExtensionsBytes(es[1..])
  }

  ghost predicate WellFormed(h: Hello) {
    && |h.record| == 4 && |h.fixed| == 37
    && (forall i :: 0 <= i < |h.extensions| ==> FitsExtension(h.extensions[i]))
    && |ExtensionsBytes(h.extensions)| < 0x1_0000
  }

  /** Everything before the length of the extensions. */
  function HeadBytes(h: Hello): Bytes {
    [0x16] + h.record + [0x01] + h.fixed + [|h.sessionId|] + h.sessionId
    + U16(|h.ciphers|) + h.ciphers + [|h.compression|] + h.compression
  }

  function HelloBytes(h: Hello): Bytes
    requires WellFormed(h)
  {
    HeadBytes(h) + U16(|ExtensionsBytes(h.extensions)|) + ExtensionsBytes(h.extensions)
  }

  /** The host name of the first server name list that starts with one. */
  function HostName(es: seq<Extension>): Option<Bytes> {
    if es == [] then None
    else if es[0].ServerNames? && es[0].first.kind == 0 then Some(es[0].first.name)
    else HostName(es[1..])
  }

  // ----- The scanner reads them -----

  lemma NumberU16(n: nat)
    requires n < 0x1_0000
    ensures Number(U16(n)) == n
  {
    var b := U16(n);
    assert b[..1] == [n / 256] && [n / 256][..0] == [];
    assert Number(b[..1]) == 256 * Number([]) + n / 256;
  }

  /** `part` lies in `data` at `at`. */
  ghost predicate LiesAt(data: Bytes, at: nat, part: Bytes) {
    at + |part| <= |data| && data[at..at + |part|] == part
  }

  lemma LiesLeft(data: Bytes, at: nat, a: Bytes, b: Bytes)
    requires LiesAt(data, at, a + b)
    ensures LiesAt(data, at, a) && LiesAt(data, at + |a|, b)
  {
    var all := data[at..at + |a + b|];
    assert all[..|a|] == a && all[|a|..] == b;
  }

  lemma ReadU16(data: Bytes, at: nat, n: nat)
    requires n < 0x1_0000 && LiesAt(data, at, U16(n))
    ensures Number(Slice(data, at, at + 2)) == n
  {
    NumberU16(n);
  }

  lemma OtherSteps(data: Bytes, pos: nat, endPos: nat, e: Extension)
    requires e.Other? && FitsExtension(e) && LiesAt(data, pos, ExtensionBytes(e)) && pos < endPos
    ensures Scan(data, pos, endPos) == Scan(data, pos + |ExtensionBytes(e)|, endPos)
  {
    LiesLeft(data, pos, U16(e.kind) + U16(|e.body|), e.body);
    LiesLeft(data, pos, U16(e.kind), U16(|e.body|));
    ReadU16(data, pos, e.kind);
    ReadU16(data, pos + 2, |e.body|);
  }

  lemma NamesLie(data: Bytes, pos: nat, e: Extension)
    requires e.ServerNames? && FitsExtension(e) && LiesAt(data, pos, ExtensionBytes(e))
    ensures LiesAt(data, pos, U16(0)) && LiesAt(data, pos + 2, U16(|BodyBytes(e)|))
    ensures |ExtensionBytes(e)| == 4 + |BodyBytes(e)| && |BodyBytes(e)| < 0x1_0000
    ensures pos + 6 < |data| && data[pos + 6] == e.first.kind
    ensures LiesAt(data, pos + 7, U16(|e.first.name|)) && LiesAt(data, pos + 9, e.first.name)
  {
    var body, name := BodyBytes(e), e.first;
    var listLength := U16(|NameBytes(name)| + |NamesBytes(e.others)|);
    LiesLeft(data, pos, U16(0) + U16(|body|), body);
    LiesLeft(data, pos, U16(0), U16(|body|));
    LiesLeft(data, pos + 4, listLength + NameBytes(name), NamesBytes(e.others));
    LiesLeft(data, pos + 4, listLength, NameBytes(name));
    LiesLeft(data, pos + 6, [name.kind] + U16(|name.name|), name.name);
    LiesLeft(data, pos + 6, [name.kind], U16(|name.name|));
    assert data[pos + 6..pos + 7][0] == name.kind;
  }

  lemma NamesStep(data: Bytes, pos: nat, endPos: nat, e: Extension)
    requires e.ServerNames? && FitsExtension(e) && LiesAt(data, pos, ExtensionBytes(e)) && pos < endPos
    ensures Scan(data, pos, endPos)
         == if e.first.kind == 0 then Some(e.first.name) else Scan(data, pos + |ExtensionBytes(e)|, endPos)
  {
    hide Number, ExtensionBytes, BodyBytes, U16;
    NamesLie(data, pos, e);
    ReadU16(data, pos, 0);
    ReadU16(data, pos + 2, |BodyBytes(e)|);
    ReadU16(data, pos + 7, |e.first.name|);
  }

  lemma ScanEnds(data: Bytes, pos: nat)
    ensures Scan(data, pos, pos) == None
  {
  }

  lemma {:induction false} ScanFindsHostName(data: Bytes, pos: nat, es: seq<Extension>)
    requires forall i :: 0 <= i < |es| ==> FitsExtension(es[i])
    requires LiesAt(data, pos, ExtensionsBytes(es))
    ensures Scan(data, pos, pos + |ExtensionsBytes(es)|) == HostName(es)
    decreases |es|
  {
    hide Scan, ExtensionBytes, LiesAt, FitsExtension;
    if es == [] {
      ScanEnds(data, pos);
    } else {
      var e, endPos := es[0], pos + |ExtensionsBytes(es)|;
      LiesLeft(data, pos, ExtensionBytes(e), ExtensionsBytes(es[1..]));
      ScanFindsHostName(data, pos + |ExtensionBytes(e)|, es[1..]);
      if e.Other? { OtherSteps(data, pos, endPos, e); } else { NamesStep(data, pos, endPos, e); }
    }
  }

  lemma HeadLies(h: Hello, data: Bytes)
    requires |h.record| == 4 && |h.fixed| == 37 && HeadBytes(h) <= data
    ensures |data| > 43 && data[0] == 0x16 && data[5] == 0x01 && data[43] == |h.sessionId|
    ensures var ciphersAt := 44 + |h.sessionId|;
            var compressionAt := ciphersAt + 2 + |h.ciphers|;
            && LiesAt(data, ciphersAt, U16(|h.ciphers|))
            && compressionAt < |data| && data[compressionAt] == |h.compression|
            && |HeadBytes(h)| == compressionAt + 1 + |h.compression|
  {
    var a := [0x16] + h.record + [0x01] + h.fixed;
    var b := a + [|h.sessionId|] + h.sessionId;
    var c := b + U16(|h.ciphers|);
    var d := c + h.ciphers;
    var head := d + [|h.compression|] + h.compression;
    assert head == HeadBytes(h);
    assert a[0] == 0x16 && a[5] == 0x01 && |a| == 43;
    assert head[..43] == a && head[43] == |h.sessionId|;
    assert |b| == 44 + |h.sessionId| && head[|b|..|b| + 2] == U16(|h.ciphers|);
    assert head[|d|] == |h.compression|;
    assert data[..|head|] == head;
  }

  lemma HelloLies(h: Hello, rest: Bytes)
    requires WellFormed(h)
    ensures var data, at, exts := HelloBytes(h) + rest, |HeadBytes(h)|, ExtensionsBytes(h.extensions);
            HeadBytes(h) <= data && LiesAt(data, at, U16(|exts|)) && LiesAt(data, at + 2, exts)
  {
    hide HeadBytes, ExtensionsBytes, U16;
    var data, head, exts := HelloBytes(h) + rest, HeadBytes(h), ExtensionsBytes(h.extensions);
    assert data == head + (U16(|exts|) + exts + rest);
    assert data[|head|..|head| + 2 + |exts|] == U16(|exts|) + exts;
    LiesLeft(data, |head|, U16(|exts|), exts);
  }

  /** For every well-formed ClientHello, whatever its session id, ciphers, compression methods
      and extensions, and whatever follows it, the scanner gives exactly the host name of the
      first server name list that starts with one, and nothing when there is none. */
  lemma SniIsHostName(h: Hello, rest: Bytes)
    requires WellFormed(h)
    ensures Sni(HelloBytes(h) + rest) == HostName(h.extensions)
  {
    hide Scan, HelloBytes, HeadBytes, ExtensionsBytes, HostName, Number, U16, LiesAt, Slice;
    var data, at, exts := HelloBytes(h) + rest, |HeadBytes(h)|, ExtensionsBytes(h.extensions);
    HelloLies(h, rest);
    HeadLies(h, data);
    ReadU16(data, 44 + |h.sessionId|, |h.ciphers|);
    ReadU16(data, at, |exts|);
    ScanFindsHostName(data, at + 2, h.extensions);
  }

  // ----- A hello without an extension block, followed by other bytes -----

  lemma SliceShift(a: Bytes, b: Bytes, i: nat, j: nat)
    requires i <= j
    ensures Slice(a + b, |a| + i, |a| + j) == Slice(b, i, j)
  {
  }

  lemma {:induction false} ScanShift(a: Bytes, b: Bytes, pos: nat, endPos: nat)
    ensures Scan(a + b, |a| + pos, |a| + endPos) == Scan(b, pos, endPos)
    decreases |b| - pos
  {
    hide Number, Slice;
    SliceShift(a, b, pos, pos + 2);
    SliceShift(a, b, pos + 2, pos + 4);
    SliceShift(a, b, pos + 7, pos + 9);
    var length, nameLength := Number(Slice(b, pos + 2, pos + 4)), Number(Slice(b, pos + 7, pos + 9));
    SliceShift(a, b, pos + 9, pos + 9 + nameLength);
    if pos + 4 <= |b| { ScanShift(a, b, pos + 4 + length, endPos); }
  }

  /** Where the extension after the one at `pos` begins. */
  function Next(data: Bytes, pos: nat): nat {
    pos + 4 + Number(Slice(data, pos + 2, pos + 4))
  }

  /** At `pos` there is a server name list that starts with a host name. */
  predicate NamesHost(data: Bytes, pos: nat) {
    pos + 6 < |data| && Number(Slice(data, pos, pos + 2)) == 0 && data[pos + 6] == 0
  }

  /** At `pos` there is an extension of another type, or a list that starts with a name of another kind. */
  predicate Passed(data: Bytes, pos: nat) {
    && pos + 4 <= |data|
    && (Number(Slice(data, pos, pos + 2)) != 0 || (pos + 6 < |data| && data[pos + 6] != 0))
  }

  /** `at` lists the starts of extensions that follow each other in the data, all passed over
      but the last, which names a host. */
  ghost predicate CutAt(data: Bytes, pos: nat, endPos: nat, at: seq<nat>) {
    && at != [] && at[0] == pos && at[|at| - 1] < endPos && NamesHost(data, at[|at| - 1])
    && forall i :: 0 <= i < |at| - 1 ==> Passed(data, at[i]) && at[i + 1] == Next(data, at[i])
  }

  function NameAt(data: Bytes, pos: nat): Bytes {
    Slice(data, pos + 9, pos + 9 + Number(Slice(data, pos + 7, pos + 9)))
  }

  lemma {:induction false} CutIsFound(data: Bytes, pos: nat, endPos: nat, at: seq<nat>)
    requires CutAt(data, pos, endPos, at)
    ensures pos < endPos && Scan(data, pos, endPos) == Some(NameAt(data, at[|at| - 1]))
    decreases |at|
  {
    hide Number, Slice;
    if |at| > 1 {
      var rest := at[1..];
      assert forall i :: 0 <= i < |rest| ==> rest[i] == at[i + 1];
      assert Passed(data, at[0]) && at[1] == Next(data, at[0]);
      CutIsFound(data, at[1], endPos, rest);
    }
  }

  lemma {:induction false} FoundHasCut(data: Bytes, pos: nat, endPos: nat) returns (at: seq<nat>)
    requires Scan(data, pos, endPos).Some?
    ensures CutAt(data, pos, endPos, at)
    decreases |data| - pos
  {
    hide Number, Slice;
    if NamesHost(data, pos) {
      at := [pos];
    } else {
      assert Passed(data, pos);
      var rest := FoundHasCut(data, Next(data, pos), endPos);
      at := [pos] + rest;
    }
  }

  /** Where the block that the scanner reads off `rest` ends. */
  function BlockEnd(rest: Bytes): nat {
    2 + Number(Slice(rest, 0, 2))
  }

  /** With no extension block, the scanner takes whatever follows the hello for one. It invents a
      name exactly when those bytes can be cut into extensions up to one that names a host, and
      then gives that name. */
  lemma NoBlockReadsWhatFollows(h: Hello, rest: Bytes)
    requires |h.record| == 4 && |h.fixed| == 37
    ensures Sni(HeadBytes(h) + rest).Some? <==> exists at :: CutAt(rest, 2, BlockEnd(rest), at)
    ensures forall at :: CutAt(rest, 2, BlockEnd(rest), at) ==>
              Sni(HeadBytes(h) + rest) == Some(NameAt(rest, at[|at| - 1]))
  {
    hide Number, Slice, HeadBytes, Scan, U16, LiesAt, NameAt;
    var head := HeadBytes(h);
    HeadLies(h, head + rest);
    ReadU16(head + rest, 44 + |h.sessionId|, |h.ciphers|);
    SliceShift(head, rest, 0, 2);
    ScanShift(head, rest, 2, BlockEnd(rest));
    forall at | CutAt(rest, 2, BlockEnd(rest), at)
      ensures Scan(rest, 2, BlockEnd(rest)) == Some(NameAt(rest, at[|at| - 1]))
    {
      CutIsFound(rest, 2, BlockEnd(rest), at);
    }
    if Scan(rest, 2, BlockEnd(rest)).Some? {
      var at := FoundHasCut(rest, 2, BlockEnd(rest));
    }
  }

  /** A hello that ends before its extensions has no name. */
  lemma NoExtensionsNoName(h: Hello)
    requires |h.record| == 4 && |h.fixed| == 37
    ensures Sni(HeadBytes(h)) == None
  {
    HeadLies(h, HeadBytes(h));
    ReadU16(HeadBytes(h), 44 + |h.sessionId|, |h.ciphers|);
  }
}
