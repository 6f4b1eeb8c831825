/** Serial framing for the touch display: the incremental splitter and the streams it cuts. */
module TjcFraming {
  type byte = b: int | 0 <= b < 256

  type Bytes = seq<byte>

  const TERMINATOR: Bytes := [0xFF, 0xFF, 0xFF]

  /** Whether the terminator stands at position i. */
  predicate TerminatorAt(s: Bytes, i: int) {
    0 <= i && i + 3 <= |s| && s[i] == 0xFF && s[i + 1] == 0xFF && s[i + 2] == 0xFF
  }

  /** bytearray.find: the first position of the terminator, or -1. */
  function Find(s: Bytes): (i: int)
    ensures i == -1 ==> forall j :: !TerminatorAt(s, j)
    ensures i != -1 ==> TerminatorAt(s, i) && forall j :: j < i ==> !TerminatorAt(s, j)
  {
    if |s| < 3 then -1
    else if TerminatorAt(s, 0) then 0
    else
      var i := Find(s[1..]);
      assert forall j :: 0 < j ==> TerminatorAt(s, j) == TerminatorAt(s[1..], j - 1);
      if i == -1 then -1 else i + 1
  }

  /** Only one position can be the first. */
  lemma FindIs(s: Bytes, i: nat)
    requires TerminatorAt(s, i) && forall j :: 0 <= j < i ==> !TerminatorAt(s, j)
    ensures Find(s) == i
  {
  }

  /** The frames of a stream and the bytes left over. */
  function Split(s: Bytes): (seq<Bytes>, Bytes)
    decreases |s|
  {
    var i := Find(s);
    if i == -1 then ([], s)
    else
      var (frames, rest) := Split(s[i + 3..]);
      ([s[..i]] + frames, rest)
  }

  /** The stream that carries the frames, each followed by the terminator, and then the rest. */
  function Join(frames: seq<Bytes>, rest: Bytes): Bytes {
    if frames == [] then rest else frames[0] + TERMINATOR + Join(frames[1..], rest)
  }

  /** A payload that framing cannot tear: no terminator inside and no trailing 0xFF. */
  predicate Qualifies(p: Bytes) {
    Find(p) == -1 && (p == [] || p[|p| - 1] != 0xFF)
  }

  ghost predicate AllQualify(frames: seq<Bytes>) {
    forall k :: 0 <= k < |frames| ==> Qualifies(frames[k])
  }

  /** The first terminator of a payload followed by the terminator is the one appended exactly when the payload
      qualifies. */
  lemma FirstTerminatorIsAppended(p: Bytes, tail: Bytes)
    ensures Find(p + TERMINATOR + tail) == |p| <==> Qualifies(p)
  {
    var s := p + TERMINATOR + tail;
    assert TerminatorAt(s, |p|);
    assert forall j :: 0 <= j && j + 3 <= |p| ==> TerminatorAt(s, j) == TerminatorAt(p, j);
    if Qualifies(p) {
      FindIs(s, |p|);
    } else if Find(p) == -1 {
      assert TerminatorAt(s, |p| - 1);
    } else {
      assert TerminatorAt(s, Find(p));
    }
  }

  /** The frames with their terminators and then the rest reproduce the stream; every frame qualifies and the rest
      holds no terminator. */
  lemma {:induction false} SplitIsSound(s: Bytes)
    ensures var (frames, rest) := Split(s); Join(frames, rest) == s && AllQualify(frames) && Find(rest) == -1
    decreases |s|
  {
    var i := Find(s);
    if i != -1 {
      SplitIsSound(s[i + 3..]);
      assert s == s[..i] + TERMINATOR + s[i + 3..];
      FirstTerminatorIsAppended(s[..i], s[i + 3..]);
    }
  }

  /** And it is the only way to cut the stream like that. */
  lemma {:induction false} SplitIsUnique(frames: seq<Bytes>, rest: Bytes)
    requires AllQualify(frames) && Find(rest) == -1
    ensures Split(Join(frames, rest)) == (frames, rest)
  {
    if frames != [] {
      var tail := Join(frames[1..], rest);
      SplitIsUnique(frames[1..], rest);
      FirstTerminatorIsAppended(frames[0], tail);
      var s := Join(frames, rest);
      assert s[..|frames[0]|] == frames[0] && s[|frames[0]| + 3..] == tail;
      assert frames == [frames[0]] + frames[1..];
    }
  }

  lemma {:induction false} JoinAppends(frames: seq<Bytes>, more: seq<Bytes>, rest: Bytes, tail: Bytes)
    ensures Join(frames, rest) + tail == Join(frames, rest + tail)
    ensures Join(frames, Join(more, rest)) == Join(frames + more, rest)
  {
    if frames == [] {
      assert frames + more == more;
    } else {
      JoinAppends(frames[1..], more, rest, tail);
      assert (frames + more)[1..] == frames[1..] + more;
      var head := frames[0] + TERMINATOR;
      assert (head + Join(frames[1..], rest)) + tail == head + (Join(frames[1..], rest) + tail);
    }
  }

  /** Splitting a stream in two goes, keeping what is left over in between. */
  lemma SplitResumes(a: Bytes, b: Bytes)
    ensures var (frames, rest) := Split(a);
            var (more, left) := Split(rest + b);
            Split(a + b) == (frames + more, left)
  {
    var (frames, rest) := Split(a);
    var (more, left) := Split(rest + b);
    SplitIsSound(a);
    SplitIsSound(rest + b);
    JoinAppends(frames, more, rest, b);
    JoinAppends(frames, more, left, b);
    SplitIsUnique(frames + more, left);
  }

  function Concat(chunks: seq<Bytes>): Bytes {
    if chunks == [] then [] else Concat(chunks[..|chunks| - 1]) + chunks[|chunks| - 1]
  }

  /** The frames returned by successive feeds, joined, and the final buffer. */
  function FeedAll(chunks: seq<Bytes>): (seq<Bytes>, Bytes) {
    if chunks == [] then ([], [])
    else
      var (frames, buffer) := FeedAll(chunks[..|chunks| - 1]);
      var (more, left) := Split(buffer + chunks[|chunks| - 1]);
      (frames + more, left)
  }

  /** However a stream is cut into chunks, feeding them yields what one feed of the whole stream would. */
  lemma {:induction false} ChunkingIsIrrelevant(chunks: seq<Bytes>)
    ensures FeedAll(chunks) == Split(Concat(chunks))
  {
    if chunks != [] {
      ChunkingIsIrrelevant(chunks[..|chunks| - 1]);
      SplitResumes(Concat(chunks[..|chunks| - 1]), chunks[|chunks| - 1]);
    }
  }

  /** Framing round trip: the payloads come back, whatever the chunking, exactly when all of them qualify. */
  lemma FramingRoundTrip(payloads: seq<Bytes>, chunks: seq<Bytes>)
    requires Concat(chunks) == Join(payloads, [])
    ensures FeedAll(chunks) == (payloads, []) <==> AllQualify(payloads)
  {
    ChunkingIsIrrelevant(chunks);
    SplitIsSound(Join(payloads, []));
    if AllQualify(payloads) {
      SplitIsUnique(payloads, []);
    }
  }

  /** Moving the first frame of the buffer to the list of frames leaves the stream they stand for alone. */
  lemma TakeFrame(frames: seq<Bytes>, buffer: Bytes)
    requires Find(buffer) != -1
    ensures var i := Find(buffer);
            Join(frames, buffer) == Join(frames + [buffer[..i]], buffer[i + 3..]) && Qualifies(buffer[..i])
  {
    var i := Find(buffer);
    var frame, rest := buffer[..i], buffer[i + 3..];
    assert buffer == frame + TERMINATOR + rest;
    FirstTerminatorIsAppended(frame, rest);
    assert Join([frame], rest) == buffer;
    JoinAppends(frames, [frame], rest, []);
  }

  /** The splitter object. */
  class TjcFrameSplitter {
    var buffer: Bytes

    constructor ()
      ensures buffer == []
    {
      buffer := [];
    }

    method Feed(data: Bytes) returns (frames: seq<Bytes>)
      modifies this
      ensures (frames, buffer) == Split(old(buffer) + data)
    {
      buffer := buffer + data;
      frames := [];
      ghost var stream := buffer;
      while true
        invariant stream == Join(frames, buffer) && AllQualify(frames)
        decreases |buffer|
      {
        var idx := Find(buffer);
        if idx < 0 {
          SplitIsUnique(frames, buffer);
          break;
        }
        TakeFrame(frames, buffer);
        frames := frames + [buffer[..idx]];
        buffer := buffer[idx + 3..];
      }
    }
  }
}
