/** Length-prefixed messages over a byte stream that may return any part of what was asked: ipc/src/lib.rs. */
module Framing {
  import opened Bytes
  import opened Messages
  import opened Codec
  import opened Wire

  /** IPC_PROTOCOL_VERSION of one binary. */
  datatype Version = Version(major: byte, minor: byte, patch: byte) {
    function Bytes(): seq<byte> { [major, minor, patch] }

    predicate Speaks(other: Version) { major == other.major && minor == other.minor }
  }

  const MAX_PAYLOAD := 5 * 1024 * 1024

  datatype IpcError = ConnectionReset | UnexpectedEof | VersionMismatch | TooLarge | BadPayload

  datatype Received<+T> = Msg(value: T) | Err(error: IpcError)

  // ---- What sending and receiving mean on whole byte strings ----

  /** The length goes through `as u32`. */
  function Frame(ver: Version, payload: seq<byte>): seq<byte> {
    ToLe(|payload| % 0x1_0000_0000, 4) + ver.Bytes() + payload
  }

  /** `recv` on everything the peer will ever send: the outcome and the bytes left. */
  function RecvSpec(ver: Version, schema: Schema, s: seq<byte>): (r: (Received<Val>, seq<byte>))
    ensures r.0.Msg? ==> |r.1| + 7 <= |s| && Fits(schema, r.0.value)
  {
    if s == [] then (Err(ConnectionReset), [])
    else if |s| < 7 then (Err(UnexpectedEof), [])
    else
      var len, rest := FromLe(s[..4]), s[7..];
      if s[4] != ver.major || s[5] != ver.minor then (Err(VersionMismatch), rest) else RecvBody(schema, len, rest)
  }

  /** The part of `recv` that follows the header. */
  function RecvBody(schema: Schema, len: nat, rest: seq<byte>): (r: (Received<Val>, seq<byte>))
    ensures r.0.Msg? ==> |r.1| <= |rest| && Fits(schema, r.0.value)
  {
    if len > MAX_PAYLOAD then (Err(TooLarge), rest)
    else if |rest| < len then (Err(UnexpectedEof), [])
    else match Decode(schema, Source(rest[..len], Unlimited))
         case Done((v, _)) => (Msg(v), rest[len..])
         case Failed => (Err(BadPayload), rest[len..])
  }

  /** Receiving until the first error. */
  function RecvAll(ver: Version, schema: Schema, s: seq<byte>): (r: (seq<Val>, IpcError))
    ensures forall i :: 0 <= i < |r.0| ==> Fits(schema, r.0[i])
    decreases |s|
  {
    match RecvSpec(ver, schema, s)
    case (Err(e), _) => ([], e)
    case (Msg(v), rest) => var (vs, e) := RecvAll(ver, schema, rest); ([v] + vs, e)
  }

  function Frames(ver: Version, schema: Schema, vs: seq<Val>): seq<byte>
    requires forall i :: 0 <= i < |vs| ==> Fits(schema, vs[i])
  {
    if vs == [] then [] else Frame(ver, Encode(schema, vs[0])) + Frames(ver, schema, vs[1..])
  }

  /** The length that `as u32` makes of a payload's. */
  function WireLength(p: seq<byte>): nat { |p| % 0x1_0000_0000 }

  lemma FrameHeader(ver: Version, p: seq<byte>, rest: seq<byte>)
    ensures var s := Frame(ver, p) + rest;
            |s| >= 7 && FromLe(s[..4]) == WireLength(p) && s[4] == ver.major && s[5] == ver.minor && s[7..] == p + rest
  {
    var s := Frame(ver, p) + rest;
    Pow256Values();
    LeRoundTrip(WireLength(p), 4);
    assert s[..4] == ToLe(WireLength(p), 4);
    assert s[4] == ver.Bytes()[0] && s[5] == ver.Bytes()[1];
  }

  /** The part of a long payload that its wrapped length announces is no message. */
  lemma WrappedPayload(schema: Schema, v: Val, rest: seq<byte>)
    requires Fits(schema, v) && |Encode(schema, v)| > MAX_PAYLOAD && WireLength(Encode(schema, v)) <= MAX_PAYLOAD
    ensures var p, n := Encode(schema, v), WireLength(Encode(schema, v));
            && n < |p| && (p + rest)[..n] == p[..n] && (p + rest)[n..] == p[n..] + rest
            && Decode(schema, Source(p[..n], Unlimited)).Failed?
  {
    ProperPrefixFails(schema, v, WireLength(Encode(schema, v)), Unlimited);
  }

  /** What follows a header is judged by the announced length alone. */
  lemma RecvPayload(ver: Version, sender: Version, schema: Schema, p: seq<byte>, rest: seq<byte>)
    requires ver.Speaks(sender)
    ensures RecvSpec(ver, schema, Frame(sender, p) + rest) == RecvBody(schema, WireLength(p), p + rest)
  {
    FrameHeader(sender, p, rest);
  }

  lemma ShortBody(schema: Schema, v: Val, rest: seq<byte>)
    requires Fits(schema, v) && |Encode(schema, v)| <= MAX_PAYLOAD
    ensures RecvBody(schema, WireLength(Encode(schema, v)), Encode(schema, v) + rest) == (Msg(v), rest)
  {
    WholeEncoding(schema, v);
    ExactBody(schema, Encode(schema, v), rest);
  }

  lemma WholeEncoding(schema: Schema, v: Val)
    requires Fits(schema, v)
    ensures Decode(schema, Source(Encode(schema, v), Unlimited)) == Done((v, Source([], Unlimited)))
  {
    RoundTrip(schema, v, [], Unlimited);
    assert Encode(schema, v) + [] == Encode(schema, v);
  }

  lemma ExactBody(schema: Schema, p: seq<byte>, rest: seq<byte>)
    requires |p| <= MAX_PAYLOAD && Decode(schema, Source(p, Unlimited)).Done?
    ensures RecvBody(schema, WireLength(p), p + rest) == (Msg(Decode(schema, Source(p, Unlimited)).value.0), rest)
  {
    assert WireLength(p) == |p|;
    TakeDrop(p, rest);
  }

  lemma LongBody(schema: Schema, v: Val, rest: seq<byte>)
    requires Fits(schema, v) && |Encode(schema, v)| > MAX_PAYLOAD
    ensures var p, n := Encode(schema, v), WireLength(Encode(schema, v));
            RecvBody(schema, n, p + rest) ==
            if n > MAX_PAYLOAD then (Err(TooLarge), p + rest) else (Err(BadPayload), p[n..] + rest)
  {
    if WireLength(Encode(schema, v)) <= MAX_PAYLOAD {
      WrappedPayload(schema, v, rest);
    }
  }

  /**
   * A frame from a sender with the same major and minor version arrives as the value sent, exactly
   * when its payload is at most 5 MiB. A longer one, which `send` does not refuse, is rejected: after
   * its header, or - from 4 GiB on, where the length wraps - perhaps only after part of the payload.
   * What is left of it is misread as the next frame.
   */
  lemma FrameArrivesIff(ver: Version, sender: Version, schema: Schema, v: Val, rest: seq<byte>)
    requires Fits(schema, v) && ver.Speaks(sender)
    ensures var p := Encode(schema, v);
            RecvSpec(ver, schema, Frame(sender, p) + rest) ==
            if |p| <= 5_242_880 then (Msg(v), rest)
            else if WireLength(p) > 5_242_880 then (Err(TooLarge), p + rest)
            else (Err(BadPayload), p[WireLength(p)..] + rest)
  {
    RecvPayload(ver, sender, schema, Encode(schema, v), rest);
    if |Encode(schema, v)| <= MAX_PAYLOAD {
      ShortBody(schema, v, rest);
    } else {
      LongBody(schema, v, rest);
    }
  }

  /** A frame of a version this side does not speak is rejected. */
  lemma ForeignFrameIsRejected(ver: Version, sender: Version, schema: Schema, p: seq<byte>, rest: seq<byte>)
    requires !ver.Speaks(sender)
    ensures RecvSpec(ver, schema, Frame(sender, p) + rest).0 == Err(VersionMismatch)
  {
    FrameHeader(sender, p, rest);
  }

  /** A frame cut behind its header. */
  lemma CutHeader(sender: Version, p: seq<byte>, k: nat)
    requires 7 <= k < |Frame(sender, p)|
    ensures var s := Frame(sender, p)[..k];
            && FromLe(s[..4]) == WireLength(p) && s[4] == sender.major && s[5] == sender.minor
            && |s[7..]| < |p|
  {
    FrameHeader(sender, p, []);
    assert Frame(sender, p) + [] == Frame(sender, p);
    assert Frame(sender, p)[..k][..4] == Frame(sender, p)[..4];
  }

  /** A stream cut inside a frame is an unexpected end, one cut before it a reset. */
  lemma CutFrame(ver: Version, sender: Version, schema: Schema, p: seq<byte>, k: nat)
    requires ver.Speaks(sender) && |p| <= MAX_PAYLOAD && k < |Frame(sender, p)|
    ensures RecvSpec(ver, schema, Frame(sender, p)[..k]) == (Err(if k == 0 then ConnectionReset else UnexpectedEof), [])
  {
    if k >= 7 {
      CutHeader(sender, p, k);
    }
  }

  lemma LastFrameIsCut(ver: Version, sender: Version, schema: Schema, p: seq<byte>, k: nat)
    requires ver.Speaks(sender) && |p| <= MAX_PAYLOAD && k < |Frame(sender, p)|
    ensures RecvAll(ver, schema, Frame(sender, p)[..k]) == ([], if k == 0 then ConnectionReset else UnexpectedEof)
  {
    CutFrame(ver, sender, schema, p, k);
  }

  lemma FirstFrame(ver: Version, sender: Version, schema: Schema, v: Val, rest: seq<byte>)
    requires ver.Speaks(sender) && Fits(schema, v) && |Encode(schema, v)| <= MAX_PAYLOAD
    ensures var (vs, end) := RecvAll(ver, schema, rest);
            RecvAll(ver, schema, Frame(sender, Encode(schema, v)) + rest) == ([v] + vs, end)
  {
    FrameArrivesIff(ver, sender, schema, v, rest);
  }

  ghost predicate Sendable(schema: Schema, vs: seq<Val>) {
    forall i :: 0 <= i < |vs| ==> Fits(schema, vs[i]) && |Encode(schema, vs[i])| <= MAX_PAYLOAD
  }

  lemma FramesUnfold(sender: Version, schema: Schema, vs: seq<Val>, tail: seq<byte>)
    requires Sendable(schema, vs) && vs != []
    ensures Sendable(schema, vs[1..])
    ensures Frames(sender, schema, vs) + tail
         == Frame(sender, Encode(schema, vs[0])) + (Frames(sender, schema, vs[1..]) + tail)
  {
    Associate(Frame(sender, Encode(schema, vs[0])), Frames(sender, schema, vs[1..]), tail);
  }

  lemma OneOfFrames(ver: Version, sender: Version, schema: Schema, vs: seq<Val>, tail: seq<byte>)
    requires ver.Speaks(sender) && Sendable(schema, vs) && vs != []
    ensures Sendable(schema, vs[1..])
    ensures var (others, end) := RecvAll(ver, schema, Frames(sender, schema, vs[1..]) + tail);
            RecvAll(ver, schema, Frames(sender, schema, vs) + tail) == ([vs[0]] + others, end)
  {
    FramesUnfold(sender, schema, vs, tail);
    FirstFrame(ver, sender, schema, vs[0], Frames(sender, schema, vs[1..]) + tail);
  }

  lemma FirstOf<T>(vs: seq<T>, more: seq<T>)
    ensures vs == [] ==> vs + more == more
    ensures vs != [] ==> [vs[0]] + (vs[1..] + more) == vs + more
  {
  }

  /** Whole frames are received in front of whatever follows them. */
  lemma {:induction false} FramesThen(ver: Version, sender: Version, schema: Schema, vs: seq<Val>, tail: seq<byte>)
    requires ver.Speaks(sender) && Sendable(schema, vs)
    ensures var (more, end) := RecvAll(ver, schema, tail);
            RecvAll(ver, schema, Frames(sender, schema, vs) + tail) == (vs + more, end)
  {
    FirstOf(vs, RecvAll(ver, schema, tail).0);
    if vs == [] {
      assert Frames(sender, schema, vs) + tail == tail;
    } else {
      OneOfFrames(ver, sender, schema, vs, tail);
      FramesThen(ver, sender, schema, vs[1..], tail);
    }
  }

  /**
   * Main result. However many messages were sent and wherever the stream then ends inside a further
   * frame, receiving yields exactly the messages sent, followed by a connection reset when the stream
   * ended between two frames and by an unexpected end otherwise.
   */
  lemma StreamDelivers(ver: Version, sender: Version, schema: Schema, vs: seq<Val>, last: seq<byte>, k: nat)
    requires ver.Speaks(sender)
    requires forall i :: 0 <= i < |vs| ==> Fits(schema, vs[i]) && |Encode(schema, vs[i])| <= MAX_PAYLOAD
    requires |last| <= MAX_PAYLOAD && k < |Frame(sender, last)|
    ensures RecvAll(ver, schema, Frames(sender, schema, vs) + Frame(sender, last)[..k]) ==
            (vs, if k == 0 then ConnectionReset else UnexpectedEof)
  {
    FramesThen(ver, sender, schema, vs, Frame(sender, last)[..k]);
    LastFrameIsCut(ver, sender, schema, last, k);
    assert vs + [] == vs;
  }

  // ---- The implementation ----

  /** Whether a peer that takes at most `limit` bytes takes all of `s`, and what it takes. */
  predicate Room(limit: Option<nat>, s: seq<byte>) { limit.Some? ==> |s| <= limit.value }

  function Taken(limit: Option<nat>, s: seq<byte>): (t: seq<byte>)
    ensures Room(limit, t) && (Room(limit, s) ==> t == s)
  {
    if Room(limit, s) then s else s[..limit.value]
  }

  /**
   * One end of a connection; `incoming` is everything the peer will send before it closes, `limit` the
   * number of bytes it takes before it does, if it ever does.
   */
  class Stream {
    var incoming: seq<byte>
    var outgoing: seq<byte>
    const limit: Option<nat>

    ghost predicate Valid()
      reads this
    {
      Room(limit, outgoing)
    }

    constructor (incoming: seq<byte>, limit: Option<nat>)
      ensures this.incoming == incoming && outgoing == [] && this.limit == limit && Valid()
    {
      this.incoming, outgoing, this.limit := incoming, [], limit;
    }

    /** Some non-empty part of what is there; nothing only at the end of the stream. */
    method Read(max: nat) returns (chunk: seq<byte>)
      requires max > 0
      modifies this`incoming
      ensures old(incoming) == chunk + incoming && |chunk| <= max
      ensures chunk == [] <==> old(incoming) == []
    {
      if incoming == [] {
        return [];
      }
      var n: nat :| 0 < n <= max && n <= |incoming|;
      chunk := incoming[..n];
      incoming := incoming[n..];
    }

    /** `read_exact` of the standard library. */
    method ReadExact(n: nat) returns (r: Io<seq<byte>>)
      modifies this`incoming
      ensures if |old(incoming)| >= n then r == Done(old(incoming)[..n]) && incoming == old(incoming)[n..]
              else r == Failed && incoming == []
    {
      var data: seq<byte> := [];
      while |data| < n
        invariant |data| <= n && data + incoming == old(incoming)
        decreases n - |data|
      {
        var chunk := Read(n - |data|);
        if chunk == [] {
          return Failed;
        }
        data := data + chunk;
      }
      return Done(data);
    }

    method WriteAll(bytes: seq<byte>) returns (r: Io<()>)
      requires Valid()
      modifies this`outgoing
      ensures Valid() && outgoing == Taken(limit, old(outgoing) + bytes)
      ensures r.Done? <==> Room(limit, old(outgoing) + bytes)
    {
      r := if Room(limit, outgoing + bytes) then Done(()) else Failed;
      outgoing := Taken(limit, outgoing + bytes);
    }
  }

  /** `s` does not fit, and no more of it is taken than of `t`. */
  predicate CutAt(limit: Option<nat>, s: seq<byte>, t: seq<byte>) {
    !Room(limit, s) && Taken(limit, s) == Taken(limit, t)
  }

  /** A write that fails leaves the same bytes as the whole write would. */
  lemma InThreeParts(limit: Option<nat>, o: seq<byte>, a: seq<byte>, b: seq<byte>, c: seq<byte>)
    ensures o + (a + b + c) == o + a + b + c
    ensures !Room(limit, o + a) ==> CutAt(limit, o + (a + b + c), o + a)
    ensures !Room(limit, o + a + b) ==> CutAt(limit, o + (a + b + c), o + a + b)
  {
  }

  class IpcConnection {
    const stream: Stream
    const ver: Version

    constructor (stream: Stream, ver: Version)
      ensures this.stream == stream && this.ver == ver
    {
      this.stream, this.ver := stream, ver;
    }

    method Send(schema: Schema, v: Val) returns (r: Io<()>)
      requires Fits(schema, v) && stream.Valid()
      modifies stream`outgoing
      ensures stream.Valid() && stream.outgoing
          == Taken(stream.limit, old(stream.outgoing) + Frame(ver, Encode(schema, v)))
      ensures r.Done? <==> Room(stream.limit, old(stream.outgoing) + Frame(ver, Encode(schema, v)))
    {
      var data := Encode(schema, v);
      ghost var o, a, b := stream.outgoing, ToLe(|data| % 0x1_0000_0000, 4), ver.Bytes();
      InThreeParts(stream.limit, o, a, b, data);
      assert Frame(ver, data) == a + b + data;
      var _ :- stream.WriteAll(ToLe(|data| % 0x1_0000_0000, 4));
      var _ :- stream.WriteAll(ver.Bytes());
      r := stream.WriteAll(data);
    }

    /** Whatever parts the reads return, the outcome is that of the whole byte string. */
    method Recv(schema: Schema) returns (r: Received<Val>)
      modifies stream`incoming
      ensures (r, stream.incoming) == RecvSpec(ver, schema, old(stream.incoming))
    {
      ghost var s := stream.incoming;
      var header: seq<byte> := [];
      while |header| < 4
        invariant |header| <= 4 && header + stream.incoming == s
        decreases 4 - |header|
      {
        var chunk := stream.Read(4 - |header|);
        if chunk == [] {
          return Err(if header == [] then ConnectionReset else UnexpectedEof);
        }
        header := header + chunk;
      }
      assert header == s[..4] && stream.incoming == s[4..];
      var len := FromLe(header);
      var version := stream.ReadExact(3);
      if version.Failed? {
        return Err(UnexpectedEof);
      }
      assert version.value == s[4..7] && stream.incoming == s[7..];
      if version.value[0] != ver.major || version.value[1] != ver.minor {
        return Err(VersionMismatch);
      }
      r := Payload(schema, len);
    }

    /** The part of `recv` that follows the header. */
    method Payload(schema: Schema, len: nat) returns (r: Received<Val>)
      modifies stream`incoming
      ensures (r, stream.incoming) == RecvBody(schema, len, old(stream.incoming))
    {
      if len > MAX_PAYLOAD {
        return Err(TooLarge);
      }
      var data := stream.ReadExact(len);
      if data.Failed? {
        return Err(UnexpectedEof);
      }
      var decoded := Decode(schema, Source(data.value, Unlimited));
      return if decoded.Done? then Msg(decoded.value.0) else Err(BadPayload);
    }
  }
}
