/** Buffered exact reads over a socket. */
module SocketReader {
  datatype Read<+T> = Bytes(value: T) | Waits | Fails

  function Concat<T>(chunks: seq<seq<T>>): seq<T> {
    if chunks == [] then [] else chunks[0] + Concat(chunks[1..])
  }

  lemma {:induction false} ConcatSplit<T>(a: seq<seq<T>>, b: seq<seq<T>>)
    ensures Concat(a + b) == Concat(a) + Concat(b)
    decreases |a|
  {
    if a == [] {
      assert a + b == b;
    } else {
      ConcatSplit(a[1..], b);
      assert (a + b)[0] == a[0] && (a + b)[1..] == a[1..] + b;
    }
  }

  class SocketReader<T(!new)> {
    var chunks: seq<seq<T>>
    var size: nat
    var ended: bool

    ghost predicate Valid()
      reads this
    {
      size == |Concat(chunks)|
    }

    /** The bytes that have arrived and not been read. */
    ghost function Contents(): seq<T>
      reads this
    {
      Concat(chunks)
    }

    constructor ()
      ensures Valid() && Contents() == [] && !ended
    {
      chunks, size, ended := [], 0, false;
    }

    method OnData(chunk: seq<T>)
      requires Valid()
      modifies this
      ensures Valid() && Contents() == old(Contents()) + chunk && ended == old(ended)
    {
      ConcatSplit(chunks, [chunk]);
      assert Concat([chunk]) == chunk + Concat([]);
      chunks := chunks + [chunk];
      size := size + |chunk|;
    }

    method OnEnd()
      requires Valid()
      modifies this
      ensures Valid() && Contents() == old(Contents()) && ended
    {
      ended := true;
    }

    /** One look at the buffer: `read` repeats it each time it is woken. Bytes that arrived
        before the end of the stream can still be read after it. */
    method TryRead(n: nat) returns (out: Read<seq<T>>)
      requires Valid()
      modifies this
      ensures Valid() && ended == old(ended)
      ensures n <= |old(Contents())| ==> out == Bytes(old(Contents())[..n]) && Contents() == old(Contents())[n..]
      ensures n > |old(Contents())| ==> out == (if ended then Fails else Waits) && Contents() == old(Contents())
    {
      if size < n { return if ended then Fails else Waits; }
      var all := if |chunks| == 1 then chunks[0] else Concat(chunks);
      if |chunks| == 1 { assert Concat(chunks) == chunks[0] + [] == all; }
      out := Bytes(all[..n]);
      var rest := all[n..];
      chunks := if |rest| > 0 then [rest] else [];
      size := |rest|;
      assert Concat([rest]) == rest + Concat([]);
    }
  }

  // ----- Any chunking gives the same reads -----

  /** Data arrives, or the pending read looks at the buffer. */
  datatype Event<+T> = Data(chunk: seq<T>) | Look

  /** `asked` are the lengths read in turn. */
  datatype Stream<+T> = Stream(buffer: seq<T>, done: seq<seq<T>>)

  function Step<T>(s: Stream<T>, e: Event<T>, asked: seq<nat>): Stream<T> {
    match e
    case Data(chunk) => s.(buffer := s.buffer + chunk)
    case Look =>
      if |s.done| < |asked| && asked[|s.done|] <= |s.buffer|
      then Stream(s.buffer[asked[|s.done|]..], s.done + [s.buffer[..asked[|s.done|]]])
      else s
  }

  function Run<T>(events: seq<Event<T>>, asked: seq<nat>): Stream<T> {
    if events == [] then Stream([], [])
    else Step(Run(events[..|events| - 1], asked), events[|events| - 1], asked)
  }

  function Arrived<T>(events: seq<Event<T>>): seq<T> {
    if events == [] then []
    else
      var last := events[|events| - 1];
      Arrived(events[..|events| - 1]) + if last.Data? then last.chunk else []
  }

  function Sum(ns: seq<nat>): nat {
    if ns == [] then 0 else Sum(ns[..|ns| - 1]) + ns[|ns| - 1]
  }

  lemma SumSnoc(ns: seq<nat>, k: nat)
    requires k < |ns|
    ensures Sum(ns[..k + 1]) == Sum(ns[..k]) + ns[k]
  {
    assert ns[..k + 1][..k] == ns[..k];
  }

  /** What read number `k` must return. */
  ghost predicate IsSlice<T>(out: seq<T>, all: seq<T>, asked: seq<nat>, k: nat)
    requires k < |asked|
  {
    Sum(asked[..k]) + asked[k] <= |all| && out == all[Sum(asked[..k])..Sum(asked[..k]) + asked[k]]
  }

  ghost predicate Tracks<T>(s: Stream<T>, all: seq<T>, asked: seq<nat>) {
    && |s.done| <= |asked| && Sum(asked[..|s.done|]) <= |all|
    && s.buffer == all[Sum(asked[..|s.done|])..]
    && forall k :: 0 <= k < |s.done| ==> IsSlice(s.done[k], all, asked, k)
  }

  lemma DataTracks<T>(s: Stream<T>, all: seq<T>, asked: seq<nat>, chunk: seq<T>)
    requires Tracks(s, all, asked)
    ensures Tracks(Step(s, Data(chunk), asked), all + chunk, asked)
  {
    var from := Sum(asked[..|s.done|]);
    assert (all + chunk)[from..] == all[from..] + chunk;
    forall k | 0 <= k < |s.done| ensures IsSlice(s.done[k], all + chunk, asked, k) {
      assert IsSlice(s.done[k], all, asked, k);
      var i, j := Sum(asked[..k]), Sum(asked[..k]) + asked[k];
      assert (all + chunk)[i..j] == all[i..j];
    }
  }

  lemma LookTracks<T>(s: Stream<T>, all: seq<T>, asked: seq<nat>)
    requires Tracks(s, all, asked)
    ensures Tracks(Step(s, Look, asked), all, asked)
  {
    var n := |s.done|;
    if n < |asked| && asked[n] <= |s.buffer| {
      var from := Sum(asked[..n]);
      SumSnoc(asked, n);
      assert all[from..][..asked[n]] == all[from..from + asked[n]];
      assert all[from..][asked[n]..] == all[from + asked[n]..];
    }
  }

  /** However the bytes are cut into chunks and whenever the reads look, each read returns
      its own stretch of the stream, in order, with nothing lost or read twice. */
  lemma {:induction false} ReadsAreSlices<T>(events: seq<Event<T>>, asked: seq<nat>)
    ensures Tracks(Run(events, asked), Arrived(events), asked)
    decreases |events|
  {
    if events == [] {
      assert asked[..0] == [];
    } else {
      var init, last := events[..|events| - 1], events[|events| - 1];
      ReadsAreSlices(init, asked);
      match last
      case Data(chunk) => DataTracks(Run(init, asked), Arrived(init), asked, chunk);
      case Look =>
        LookTracks(Run(init, asked), Arrived(init), asked);
        assert Arrived(events) == Arrived(init) + [];
    }
  }

  /** Two schedules of the same bytes agree on every read both have finished. */
  lemma ChunkingDoesNotMatter<T>(a: seq<Event<T>>, b: seq<Event<T>>, asked: seq<nat>, k: nat)
    requires Arrived(a) == Arrived(b) && k < |Run(a, asked).done| && k < |Run(b, asked).done|
    ensures Run(a, asked).done[k] == Run(b, asked).done[k]
  {
    ReadsAreSlices(a, asked);
    ReadsAreSlices(b, asked);
    assert IsSlice(Run(a, asked).done[k], Arrived(a), asked, k);
    assert IsSlice(Run(b, asked).done[k], Arrived(b), asked, k);
  }
}
