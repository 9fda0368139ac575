/** The handshake and the request loop, on one side and as two processes over two byte queues. */
module Session {
  import opened Bytes
  import opened Messages
  import opened Codec
  import opened Wire
  import opened Framing

  const LCC: seq<byte> := [0x4C, 0x43, 0x43]
  const ERR: seq<byte> := [0x45, 0x52, 0x52]
  const OKK: seq<byte> := [0x4F, 0x4B, 0x4B]

  function Hello(ver: Version): seq<byte> { LCC + [ver.major, ver.minor] }

  /** `accept_handshake` on the five bytes of a hello: verdict and reply. */
  function Reply(ver: Version, hello: seq<byte>): (bool, seq<byte>)
    requires |hello| == 5
  {
    if hello[..3] != LCC then (false, [])
    else if hello[3] != ver.major || hello[4] != ver.minor then (false, ERR + [ver.major, ver.minor])
    else (true, OKK + [ver.major, ver.minor])
  }

  datatype Verdict = Accepted(major: byte, minor: byte) | Refused(daemonMajor: byte, daemonMinor: byte) | Garbled

  /** What the client makes of the five bytes it gets back. */
  function Judge(reply: seq<byte>): Verdict
    requires |reply| == 5
  {
    if reply[..3] == ERR then Refused(reply[3], reply[4])
    else if reply[..3] == OKK then Accepted(reply[3], reply[4])
    else Garbled
  }

  /** Both sides reach the same verdict, and it is whether they speak the same protocol version. */
  lemma VerdictsAgree(client: Version, daemon: Version)
    ensures var (ok, reply) := Reply(daemon, Hello(client));
            && |reply| == 5
            && (ok <==> client.Speaks(daemon))
            && Judge(reply) == if ok then Accepted(daemon.major, daemon.minor) else Refused(daemon.major, daemon.minor)
  {
    assert Hello(client)[..3] == LCC;
    assert (ERR + [daemon.major, daemon.minor])[..3] == ERR && (OKK + [daemon.major, daemon.minor])[..3] == OKK;
  }

  /**
   * The handshake in bytes, for every hello: silence unless it begins with `LCC`, then `ERR` or `OKK` and
   * the daemon's version, `OKK` exactly for the daemon's own major and minor numbers.
   */
  lemma HandshakeIs(ver: Version, hello: seq<byte>)
    requires |hello| == 5
    ensures Reply(ver, hello).0 <==> hello == [0x4C, 0x43, 0x43, ver.major, ver.minor]
    ensures hello[..3] != [0x4C, 0x43, 0x43] ==> Reply(ver, hello).1 == []
    ensures hello[..3] == [0x4C, 0x43, 0x43] && hello[3..] != [ver.major, ver.minor] ==>
              Reply(ver, hello).1 == [0x45, 0x52, 0x52, ver.major, ver.minor]
    ensures hello[..3] == [0x4C, 0x43, 0x43] && hello[3..] == [ver.major, ver.minor] ==>
              Reply(ver, hello).1 == [0x4F, 0x4B, 0x4B, ver.major, ver.minor]
  {
    assert hello == hello[..3] + hello[3..] && hello[3..] == [hello[3], hello[4]];
    assert [0x4C, 0x43, 0x43, ver.major, ver.minor][..3] == LCC;
  }

  /** What the client makes of every reply. */
  lemma JudgementIs(reply: seq<byte>)
    requires |reply| == 5
    ensures Judge(reply) == Accepted(reply[3], reply[4]) <==> reply[..3] == [0x4F, 0x4B, 0x4B]
    ensures Judge(reply) == Refused(reply[3], reply[4]) <==> reply[..3] == [0x45, 0x52, 0x52]
    ensures Judge(reply) == Garbled <==> reply[..3] != [0x4F, 0x4B, 0x4B] && reply[..3] != [0x45, 0x52, 0x52]
  {
    assert ERR[0] != OKK[0];
  }

  // ---- The daemon's connection thread ----

  method AcceptHandshake(conn: IpcConnection) returns (ok: bool)
    requires conn.stream.Valid()
    modifies conn.stream
    ensures conn.stream.Valid()
    ensures var s, out := old(conn.stream.incoming), old(conn.stream.outgoing);
            if |s| < 5 then !ok && conn.stream.incoming == [] && conn.stream.outgoing == out
            else
              var (accepted, reply) := Reply(conn.ver, s[..5]);
              && conn.stream.incoming == s[5..] && conn.stream.outgoing == Taken(conn.stream.limit, out + reply)
              && (ok <==> accepted && Room(conn.stream.limit, out + reply))
  {
    var hello := conn.stream.ReadExact(5);
    if hello.Failed? {
      return false;
    }
    var req := hello.value;
    if req[..3] != LCC {
      assert conn.stream.outgoing + [] == conn.stream.outgoing;
      return false;
    }
    if req[3] != conn.ver.major || req[4] != conn.ver.minor {
      var ignored := conn.stream.WriteAll(ERR + [conn.ver.major, conn.ver.minor]);
      return false;
    }
    var written := conn.stream.WriteAll(OKK + [conn.ver.major, conn.ver.minor]);
    return written.Done?;
  }

  /** The daemon's answers, as a function of the requests of this connection so far. */
  type Work = seq<IpcRequest> -> IpcResponse

  ghost predicate AllFit(s: Schema, vs: seq<Val>) { forall i :: 0 <= i < |vs| ==> Fits(s, vs[i]) }

  function Requests(vs: seq<Val>): (rs: seq<IpcRequest>)
    requires AllFit(REQUEST, vs)
    ensures |rs| == |vs|
  {
    seq(|vs|, i requires 0 <= i < |vs| => RequestOf(vs[i]))
  }

  /** Answers on the level of encoded values. */
  type Answering = seq<Val> --> Val

  /** `f` answers every history of `ins` values with a value that fits `outs`. */
  ghost predicate Total(ins: Schema, outs: Schema, f: Answering) {
    forall vs :: AllFit(ins, vs) ==> f.requires(vs) && Fits(outs, f(vs))
  }

  function AnswerWith(work: Work): Answering {
    (vs: seq<Val>) requires AllFit(REQUEST, vs) => ResponseVal(work(Requests(vs)))
  }

  lemma AnswerWithIsTotal(work: Work)
    ensures Total(REQUEST, RESPONSE, AnswerWith(work))
  {
    forall vs | AllFit(REQUEST, vs)
      ensures AnswerWith(work).requires(vs) && Fits(RESPONSE, AnswerWith(work)(vs))
    {
      var answer := ResponseVal(work(Requests(vs)));
      assert AnswerWith(work)(vs) == answer;
    }
  }

  /** The frames that answer the requests `vs`, one by one. */
  ghost function Answers(ver: Version, ins: Schema, outs: Schema, f: Answering, vs: seq<Val>): seq<byte>
    requires Total(ins, outs, f) && AllFit(ins, vs)
  {
    if vs == [] then [] else Answers(ver, ins, outs, f, vs[..|vs| - 1]) + Frame(ver, Encode(outs, f(vs)))
  }

  /**
   * How a connection ends after `vs` were answered, `sent` having been sent before: either everything
   * arrived, `vs` are all requests received before the first error, and the settings are saved exactly
   * when that error was a reset and their lock was free; or the last answer could not be sent.
   */
  ghost predicate Ends(limit: Option<nat>, ver: Version, ins: Schema, outs: Schema, f: Answering, sent: seq<byte>,
                       all: (seq<Val>, IpcError), vs: seq<Val>, stateFree: bool, saved: bool)
    requires Total(ins, outs, f) && AllFit(ins, vs)
  {
    if Room(limit, sent + Answers(ver, ins, outs, f, vs))
    then vs == all.0 && (saved <==> all.1 == ConnectionReset && stateFree)
    else !saved && vs != [] && vs <= all.0 && Room(limit, sent + Answers(ver, ins, outs, f, vs[..|vs| - 1]))
  }

  /** `process_ipc_connection`: the answers go out in order, one frame each, as far as the peer takes them. */
  method ProcessConnection(conn: IpcConnection, work: Work, stateFree: bool)
    returns (done: seq<IpcRequest>, saved: bool, ghost vs: seq<Val>)
    requires conn.stream.Valid()
    modifies conn.stream
    ensures AllFit(REQUEST, vs) && done == Requests(vs) && Total(REQUEST, RESPONSE, AnswerWith(work))
    ensures var s, out, limit := old(conn.stream.incoming), old(conn.stream.outgoing), conn.stream.limit;
            if |s| < 5 then vs == [] && !saved && conn.stream.outgoing == out
            else
              var (accepted, reply) := Reply(conn.ver, s[..5]);
              if !accepted || !Room(limit, out + reply)
              then vs == [] && !saved && conn.stream.outgoing == Taken(limit, out + reply)
              else
                && Ends(limit, conn.ver, REQUEST, RESPONSE, AnswerWith(work), out + reply,
                    RecvAll(conn.ver, REQUEST, s[5..]), vs, stateFree, saved)
                && conn.stream.outgoing == Taken(limit, out + reply
                    + Answers(conn.ver, REQUEST, RESPONSE, AnswerWith(work), vs))
  {
    AnswerWithIsTotal(work);
    vs := [];
    var ok := AcceptHandshake(conn);
    if !ok {
      return [], false, [];
    }
    var answered;
    answered, saved := AnswerAll(conn, REQUEST, RESPONSE, AnswerWith(work), stateFree);
    done, vs := Requests(answered), answered;
  }

  /** The loop after the handshake. */
  method AnswerAll(conn: IpcConnection, ins: Schema, outs: Schema, f: Answering, stateFree: bool)
    returns (vs: seq<Val>, saved: bool)
    requires Total(ins, outs, f) && conn.stream.Valid()
    modifies conn.stream
    ensures conn.stream.Valid() && AllFit(ins, vs)
    ensures Ends(conn.stream.limit, conn.ver, ins, outs, f, old(conn.stream.outgoing),
                 RecvAll(conn.ver, ins, old(conn.stream.incoming)), vs, stateFree, saved)
    ensures conn.stream.outgoing == Taken(conn.stream.limit,
        old(conn.stream.outgoing) + Answers(conn.ver, ins, outs, f, vs))
  {
    vs, saved := [], false;
    ghost var limit, sent, all := conn.stream.limit, conn.stream.outgoing, RecvAll(conn.ver, ins, conn.stream.incoming);
    var running := true;
    assert sent + [] == sent && vs + all.0 == all.0;
    while running
      invariant AllFit(ins, vs) && conn.stream.Valid()
      invariant running ==> !saved && Continues(all, vs, RecvAll(conn.ver, ins, conn.stream.incoming))
      invariant running ==> Room(limit, sent + Answers(conn.ver, ins, outs, f, vs))
      invariant !running ==> Ends(limit, conn.ver, ins, outs, f, sent, all, vs, stateFree, saved)
      invariant conn.stream.outgoing == Taken(limit, sent + Answers(conn.ver, ins, outs, f, vs))
      decreases running, |conn.stream.incoming|
    {
      var r, delivered := AnswerNext(conn, ins, outs, f, vs, all);
      match r {
        case Msg(v) =>
          AnswersExtend(conn.ver, ins, outs, f, vs, v, sent);
          assert (vs + [v])[..|vs|] == vs;
          vs := vs + [v];
          running := delivered;
        case Err(e) =>
          saved := e == ConnectionReset && stateFree;
          running := false;
      }
    }
  }

  lemma AnswersExtend(ver: Version, ins: Schema, outs: Schema, f: Answering, vs: seq<Val>, v: Val, sent: seq<byte>)
    requires Total(ins, outs, f) && AllFit(ins, vs) && Fits(ins, v)
    ensures AllFit(ins, vs + [v])
    ensures sent + Answers(ver, ins, outs, f, vs + [v])
        == sent + Answers(ver, ins, outs, f, vs) + Frame(ver, Encode(outs, f(vs + [v])))
  {
    AnswersStep(ver, ins, outs, f, vs, v);
    Associate(sent, Answers(ver, ins, outs, f, vs), Frame(ver, Encode(outs, f(vs + [v]))));
  }

  lemma AnswersStep(ver: Version, ins: Schema, outs: Schema, f: Answering, vs: seq<Val>, v: Val)
    requires Total(ins, outs, f) && AllFit(ins, vs) && Fits(ins, v)
    ensures AllFit(ins, vs + [v])
    ensures Answers(ver, ins, outs, f, vs + [v])
        == Answers(ver, ins, outs, f, vs) + Frame(ver, Encode(outs, f(vs + [v])))
  {
    assert (vs + [v])[..|vs|] == vs;
  }

  /** One round of the loop. */
  method AnswerNext(conn: IpcConnection, ins: Schema, outs: Schema, f: Answering, vs: seq<Val>,
                    ghost all: (seq<Val>, IpcError))
    returns (r: Received<Val>, delivered: bool)
    requires Total(ins, outs, f) && AllFit(ins, vs) && Continues(all, vs, RecvAll(conn.ver, ins, conn.stream.incoming))
    requires conn.stream.Valid()
    modifies conn.stream
    ensures conn.stream.Valid()
    ensures r.Msg? ==> && Fits(ins, r.value) && vs + [r.value] <= all.0
                       && |conn.stream.incoming| < |old(conn.stream.incoming)|
                       && Continues(all, vs + [r.value], RecvAll(conn.ver, ins, conn.stream.incoming))
    ensures r.Msg? ==> var out := old(conn.stream.outgoing) + Frame(conn.ver, Encode(outs, f(vs + [r.value])));
                       conn.stream.outgoing == Taken(conn.stream.limit, out)
                           && (delivered <==> Room(conn.stream.limit, out))
    ensures r.Err? ==> all == (vs, r.error) && conn.stream.outgoing == old(conn.stream.outgoing)
  {
    NextValue(conn.ver, ins, conn.stream.incoming, all, vs);
    r := conn.Recv(ins);
    delivered := false;
    if r.Msg? {
      var sent := conn.Send(outs, f(vs + [r.value]));
      delivered := sent.Done?;
    }
  }

  /** `total` is `vs` followed by what is still to come. */
  ghost predicate Continues(total: (seq<Val>, IpcError), vs: seq<Val>, rest: (seq<Val>, IpcError)) {
    total == (vs + rest.0, rest.1)
  }

  lemma NextValue(ver: Version, ins: Schema, s: seq<byte>, total: (seq<Val>, IpcError), vs: seq<Val>)
    requires Continues(total, vs, RecvAll(ver, ins, s))
    ensures match RecvSpec(ver, ins, s)
            case (Msg(v), rest) => Continues(total, vs + [v], RecvAll(ver, ins, rest))
            case (Err(e), _) => total == (vs, e)
  {
    match RecvSpec(ver, ins, s) {
      case (Msg(v), rest) =>
        var (later, e) := RecvAll(ver, ins, rest);
        assert vs + ([v] + later) == vs + [v] + later;
      case (Err(e), _) => assert vs + [] == vs;
    }
  }

  /** A well-formed session: `n` requests and then nothing, or part of another one. */
  lemma {:induction false} ConnectionServesWhatWasSent(daemon: Version, client: Version, rs: seq<IpcRequest>,
          last: IpcRequest, k: nat)
    requires daemon.Speaks(client) && k < |Frame(client, EncodeRequest(last))|
    ensures var vals := seq(|rs|, i requires 0 <= i < |rs| => RequestVal(rs[i]));
            var (vs, e) := RecvAll(daemon, REQUEST, Frames(client, REQUEST, vals)
                + Frame(client, EncodeRequest(last))[..k]);
            Requests(vs) == rs && (e == ConnectionReset <==> k == 0)
  {
    var vals := seq(|rs|, i requires 0 <= i < |rs| => RequestVal(rs[i]));
    forall i | 0 <= i < |vals|
      ensures Fits(REQUEST, vals[i]) && |Encode(REQUEST, vals[i])| <= MAX_PAYLOAD
    {
      RequestIsShort(rs[i]);
    }
    RequestIsShort(last);
    StreamDelivers(daemon, client, REQUEST, vals, EncodeRequest(last), k);
    assert Requests(vals) == rs;
  }

  lemma RequestIsShort(r: IpcRequest)
    ensures |EncodeRequest(r)| <= 56
  {
    EncodingIsShort(REQUEST, RequestVal(r));
  }

  // ---- The client ----

  /**
   * `connect` from the hello on; nothing is returned if the hello cannot be sent or the stream ends
   * before the reply.
   */
  method Connect(conn: IpcConnection) returns (verdict: Option<Verdict>)
    requires conn.stream.Valid()
    modifies conn.stream
    ensures conn.stream.Valid()
    ensures conn.stream.outgoing == Taken(conn.stream.limit, old(conn.stream.outgoing) + Hello(conn.ver))
    ensures var s := old(conn.stream.incoming);
            if !Room(conn.stream.limit, old(conn.stream.outgoing) + Hello(conn.ver))
            then verdict == None && conn.stream.incoming == s
            else if |s| < 5 then verdict == None && conn.stream.incoming == []
            else verdict == Some(Judge(s[..5])) && conn.stream.incoming == s[5..]
  {
    var written := conn.stream.WriteAll(LCC + [conn.ver.major, conn.ver.minor]);
    if written.Failed? {
      return None;
    }
    var read := conn.stream.ReadExact(5);
    if read.Failed? {
      return None;
    }
    var resp := read.value;
    var daemonMajor, daemonMinor := resp[3], resp[4];
    if resp[..3] == ERR {
      return Some(Refused(daemonMajor, daemonMinor));
    } else if resp[..3] != OKK {
      return Some(Garbled);
    }
    return Some(Accepted(daemonMajor, daemonMinor));
  }

  /** What the next frame of the daemon's bytes `s` is to the client. */
  function NextResponse(ver: Version, s: seq<byte>): Received<IpcResponse> {
    match RecvSpec(ver, RESPONSE, s).0
    case Msg(v) => Msg(ResponseOf(v))
    case Err(e) => Err(e)
  }

  /** `request`; it fails before it receives if the request cannot be sent. */
  method Request(conn: IpcConnection, req: IpcRequest) returns (r: Io<Received<IpcResponse>>)
    requires conn.stream.Valid()
    modifies conn.stream
    ensures var s, out := old(conn.stream.incoming), old(conn.stream.outgoing) + Frame(conn.ver, EncodeRequest(req));
            && conn.stream.Valid() && conn.stream.outgoing == Taken(conn.stream.limit, out)
            && (if Room(conn.stream.limit, out)
                then r == Done(NextResponse(conn.ver, s)) && conn.stream.incoming == RecvSpec(conn.ver, RESPONSE, s).1
                else r == Failed && conn.stream.incoming == s)
  {
    var sent := conn.Send(REQUEST, RequestVal(req));
    if sent.Failed? {
      return Failed;
    }
    var received := conn.Recv(RESPONSE);
    match received {
      case Msg(v) => return Done(Msg(ResponseOf(v)));
      case Err(e) => return Done(Err(e));
    }
  }

  /** A response reaches the client as it was sent exactly when the versions agree and it is within the frame limit. */
  lemma ResponseArrivesIff(client: Version, daemon: Version, resp: IpcResponse, rest: seq<byte>)
    ensures var s := Frame(daemon, EncodeResponse(resp)) + rest;
            && (NextResponse(client, s) == Msg(resp)
                <==> (client.Speaks(daemon) && |EncodeResponse(resp)| <= MAX_PAYLOAD))
            && (NextResponse(client, s) == Msg(resp) ==> RecvSpec(client, RESPONSE, s).1 == rest)
  {
    if client.Speaks(daemon) {
      FrameArrivesIff(client, daemon, RESPONSE, ResponseVal(resp), rest);
    } else {
      ForeignFrameIsRejected(client, daemon, RESPONSE, EncodeResponse(resp), rest);
    }
  }

  // ---- Client and daemon as two processes ----

  datatype Client = Fresh | AwaitVerdict | Ready | AwaitResponse | Dead

  datatype Daemon = AwaitHello | Serving | Closed

  datatype Net = Net(
    client: Client, daemon: Daemon,
    up: seq<byte>, down: seq<byte>,        // bytes on their way to the daemon and to the client
    asked: seq<IpcRequest>, served: seq<IpcRequest>, answered: seq<IpcResponse>)

  datatype Move = SendHello | AnswerHello | ReadVerdict | Ask(req: IpcRequest) | Serve | ReadResponse

  const START := Net(Fresh, AwaitHello, [], [], [], [], [])

  /** Enough bytes are there for `recv` to return without waiting. */
  predicate Arrived(ver: Version, s: seq<byte>) {
    && |s| >= 7
    && (s[4] != ver.major || s[5] != ver.minor || FromLe(s[..4]) > MAX_PAYLOAD || |s| - 7 >= FromLe(s[..4]))
  }

  function Next(cv: Version, dv: Version, work: Work, n: Net, m: Move): Option<Net> {
    match m
    case SendHello =>
      if n.client.Fresh? then Some(n.(client := AwaitVerdict, up := n.up + Hello(cv))) else None
    case AnswerHello =>
      if !n.daemon.AwaitHello? || |n.up| < 5 then None else
      var (ok, reply) := Reply(dv, n.up[..5]);
      Some(n.(daemon := if ok then Serving else Closed, up := n.up[5..], down := n.down + reply))
    case ReadVerdict =>
      if !n.client.AwaitVerdict? || |n.down| < 5 then None else
      Some(n.(client := if Judge(n.down[..5]).Accepted? then Ready else Dead, down := n.down[5..]))
    case Ask(req) =>
      if !n.client.Ready? then None else
      Some(n.(client := AwaitResponse, up := n.up + Frame(cv, EncodeRequest(req)), asked := n.asked + [req]))
    case Serve =>
      if !n.daemon.Serving? || !Arrived(dv, n.up) then None else
      (match RecvSpec(dv, REQUEST, n.up)
       case (Err(_), rest) => Some(n.(daemon := Closed, up := rest))
       case (Msg(v), rest) =>
         var served := n.served + [RequestOf(v)];
         Some(n.(up := rest, served := served, down := n.down + Frame(dv, EncodeResponse(work(served))))))
    case ReadResponse =>
      if !n.client.AwaitResponse? || !Arrived(cv, n.down) then None else
      match RecvSpec(cv, RESPONSE, n.down)
      case (Err(_), rest) => Some(n.(client := Dead, down := rest))
      case (Msg(v), rest) => Some(n.(client := Ready, down := rest, answered := n.answered + [ResponseOf(v)]))
  }

  function Run(cv: Version, dv: Version, work: Work, ms: seq<Move>): Option<Net> {
    if ms == [] then Some(START)
    else match Run(cv, dv, work, ms[..|ms| - 1])
         case None => None
         case Some(n) => Next(cv, dv, work, n, ms[|ms| - 1])
  }

  /** The only assumption on the daemon's answers: none is longer than a frame may be. */
  ghost predicate ShortAnswers(work: Work) {
    forall rs :: |EncodeResponse(work(rs))| <= MAX_PAYLOAD
  }

  ghost predicate NetInv(cv: Version, dv: Version, work: Work, n: Net) {
    && (forall i :: 0 <= i < |n.answered| ==> i < |n.asked| && n.answered[i] == work(n.asked[..i + 1]))
    && (match (n.client, n.daemon)
        case (Fresh, AwaitHello) => n == START
        case (AwaitVerdict, AwaitHello) => n.up == Hello(cv) && n.down == [] && n.asked == n.served == []
            && n.answered == []
        case (AwaitVerdict, d) =>
          && (d.Serving? <==> cv.Speaks(dv))
          && n.up == [] && n.down == Reply(dv, Hello(cv)).1 && n.asked == n.served == [] && n.answered == []
        case (Ready, Serving) =>
          cv.Speaks(dv) && n.up == [] && n.down == [] && n.served == n.asked && |n.answered| == |n.asked|
        case (AwaitResponse, Serving) =>
          && cv.Speaks(dv) && |n.asked| == |n.answered| + 1
          && ((n.down == [] && n.served == n.asked[..|n.answered|]
              && n.up == Frame(cv, EncodeRequest(n.asked[|n.answered|])))
              || (n.up == [] && n.served == n.asked && n.down == Frame(dv, EncodeResponse(work(n.asked)))))
        case (Dead, Closed) => !cv.Speaks(dv) && n.asked == n.served == [] && n.answered == []
        case _ => false)
  }

  lemma WholeFrameArrived(ver: Version, sender: Version, schema: Schema, v: Val)
    requires Fits(schema, v) && ver.Speaks(sender) && |Encode(schema, v)| <= MAX_PAYLOAD
    ensures var s := Frame(sender, Encode(schema, v)); Arrived(ver, s) && RecvSpec(ver, schema, s) == (Msg(v), [])
  {
    var p := Encode(schema, v);
    FrameHeader(sender, p, []);
    FrameArrivesIff(ver, sender, schema, v, []);
    assert Frame(sender, p) + [] == Frame(sender, p);
  }

  lemma ShakeKeepsNetInv(cv: Version, dv: Version, work: Work, n: Net, m: Move)
    requires NetInv(cv, dv, work, n) && Next(cv, dv, work, n, m).Some?
        && (m.SendHello? || m.AnswerHello? || m.ReadVerdict?)
    ensures NetInv(cv, dv, work, Next(cv, dv, work, n, m).value)
  {
    VerdictsAgree(cv, dv);
    match m {
      case SendHello => assert [] + Hello(cv) == Hello(cv);
      case AnswerHello =>
        assert n.up[..5] == Hello(cv) && n.up[5..] == [];
        assert [] + Reply(dv, Hello(cv)).1 == Reply(dv, Hello(cv)).1;
      case ReadVerdict =>
        var reply := Reply(dv, Hello(cv)).1;
        assert n.down == reply && reply[..5] == reply && reply[5..] == [];
    }
  }

  lemma MoveKeepsNetInv(cv: Version, dv: Version, work: Work, n: Net, m: Move)
    requires ShortAnswers(work) && NetInv(cv, dv, work, n) && Next(cv, dv, work, n, m).Some?
    ensures NetInv(cv, dv, work, Next(cv, dv, work, n, m).value)
  {
    match m {
      case SendHello | AnswerHello | ReadVerdict => ShakeKeepsNetInv(cv, dv, work, n, m);
      case Ask(req) => AskKeepsNetInv(cv, dv, work, n, req);
      case Serve => ServeKeepsNetInv(cv, dv, work, n);
      case ReadResponse => ReadKeepsNetInv(cv, dv, work, n);
    }
  }

  lemma AskKeepsNetInv(cv: Version, dv: Version, work: Work, n: Net, req: IpcRequest)
    requires NetInv(cv, dv, work, n) && n.client.Ready?
    ensures NetInv(cv, dv, work, Next(cv, dv, work, n, Ask(req)).value)
  {
    var asked := n.asked + [req];
    assert asked[..|n.asked|] == n.asked;
    assert [] + Frame(cv, EncodeRequest(req)) == Frame(cv, EncodeRequest(req));
    forall i | 0 <= i < |n.answered|
      ensures n.answered[i] == work(asked[..i + 1])
    {
      assert asked[..i + 1] == n.asked[..i + 1];
    }
  }

  lemma ServeKeepsNetInv(cv: Version, dv: Version, work: Work, n: Net)
    requires NetInv(cv, dv, work, n) && Next(cv, dv, work, n, Serve).Some?
    ensures NetInv(cv, dv, work, Next(cv, dv, work, n, Serve).value)
  {
    if n.client.AwaitResponse? && n.up != [] {
      var req := n.asked[|n.answered|];
      RequestIsShort(req);
      WholeFrameArrived(dv, cv, REQUEST, RequestVal(req));
      assert n.served + [req] == n.asked;
      assert [] + Frame(dv, EncodeResponse(work(n.asked))) == Frame(dv, EncodeResponse(work(n.asked)));
    }
  }

  lemma ResponseIsRead(cv: Version, dv: Version, work: Work, n: Net)
    requires n.client.AwaitResponse? && cv.Speaks(dv) && n.down == Frame(dv, EncodeResponse(work(n.asked)))
    requires |EncodeResponse(work(n.asked))| <= MAX_PAYLOAD
    ensures Next(cv, dv, work, n, ReadResponse)
            == Some(n.(client := Ready, down := [], answered := n.answered + [work(n.asked)]))
  {
    WholeFrameArrived(cv, dv, RESPONSE, ResponseVal(work(n.asked)));
  }

  lemma ReadKeepsNetInv(cv: Version, dv: Version, work: Work, n: Net)
    requires ShortAnswers(work) && NetInv(cv, dv, work, n) && Next(cv, dv, work, n, ReadResponse).Some?
    ensures NetInv(cv, dv, work, Next(cv, dv, work, n, ReadResponse).value)
  {
    assert n.client.AwaitResponse? && n.down != [];
    ResponseIsRead(cv, dv, work, n);
    assert n.asked[..|n.asked|] == n.asked;
  }

  lemma {:induction false} NetInvHolds(cv: Version, dv: Version, work: Work, ms: seq<Move>)
    requires ShortAnswers(work) && Run(cv, dv, work, ms).Some?
    ensures NetInv(cv, dv, work, Run(cv, dv, work, ms).value)
  {
    if ms != [] {
      NetInvHolds(cv, dv, work, ms[..|ms| - 1]);
      MoveKeepsNetInv(cv, dv, work, Run(cv, dv, work, ms[..|ms| - 1]).value, ms[|ms| - 1]);
    }
  }

  /**
   * Main result, for every interleaving of the two processes: the client gets past the handshake
   * exactly when major and minor versions match and the daemon agrees; no later receive ever fails;
   * at most one request is outstanding; and the `i`-th response answers the `i`-th request.
   */
  lemma {:induction false} SessionIsSound(cv: Version, dv: Version, work: Work, ms: seq<Move>)
    requires ShortAnswers(work) && Run(cv, dv, work, ms).Some?
    ensures var n := Run(cv, dv, work, ms).value;
            && (n.client.Ready? || n.client.AwaitResponse? ==> cv.Speaks(dv) && n.daemon.Serving?)
            && (n.client.Dead? ==> !cv.Speaks(dv) && n.daemon.Closed?)
            && (n.daemon.Serving? ==> cv.Speaks(dv)) && (n.daemon.Closed? ==> !cv.Speaks(dv))
            && |n.asked| == |n.answered| + (if n.client.AwaitResponse? then 1 else 0)
            && n.served <= n.asked && |n.answered| <= |n.served|
            && forall i :: 0 <= i < |n.answered| ==> n.answered[i] == work(n.asked[..i + 1])
  {
    NetInvHolds(cv, dv, work, ms);
    var n := Run(cv, dv, work, ms).value;
    if n.client.AwaitResponse? && n.down == [] {
      assert n.asked[..|n.answered|] <= n.asked;
    }
  }

  /** The session is never stuck: unless the client is idle or was refused, somebody can move without a new request. */
  lemma {:induction false} SessionNeverStuck(cv: Version, dv: Version, work: Work, ms: seq<Move>)
    requires ShortAnswers(work) && Run(cv, dv, work, ms).Some?
    ensures var n := Run(cv, dv, work, ms).value;
            n.client.Ready? || n.client.Dead? || exists m: Move :: !m.Ask? && Next(cv, dv, work, n, m).Some?
  {
    NetInvHolds(cv, dv, work, ms);
    var n := Run(cv, dv, work, ms).value;
    if !n.client.Ready? && !n.client.Dead? {
      var m := SomebodyCanMove(cv, dv, work, n);
      assert !m.Ask? && Next(cv, dv, work, n, m).Some?;
    }
  }

  lemma SomebodyCanMove(cv: Version, dv: Version, work: Work, n: Net) returns (m: Move)
    requires ShortAnswers(work) && NetInv(cv, dv, work, n) && !n.client.Ready? && !n.client.Dead?
    ensures !m.Ask? && Next(cv, dv, work, n, m).Some?
  {
    match n.client {
      case Fresh => m := SendHello;
      case AwaitVerdict =>
        VerdictsAgree(cv, dv);
        m := if n.daemon.AwaitHello? then AnswerHello else ReadVerdict;
      case AwaitResponse =>
        AwaitedFrameArrived(cv, dv, work, n);
        m := if n.down == [] then Serve else ReadResponse;
    }
  }

  lemma AwaitedFrameArrived(cv: Version, dv: Version, work: Work, n: Net)
    requires ShortAnswers(work) && NetInv(cv, dv, work, n) && n.client.AwaitResponse?
    ensures n.daemon.Serving? && if n.down == [] then Arrived(dv, n.up) else Arrived(cv, n.down)
  {
    if n.down == [] {
      assert n.up != [];
      RequestIsShort(n.asked[|n.answered|]);
      WholeFrameArrived(dv, cv, REQUEST, RequestVal(n.asked[|n.answered|]));
    } else {
      WholeFrameArrived(cv, dv, RESPONSE, ResponseVal(work(n.asked)));
    }
  }
}
