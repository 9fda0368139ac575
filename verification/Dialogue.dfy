/** A client talking to the modelled daemon: `Session` with the answers of `DaemonRuns`. */
module Dialogue {
  import opened Bytes
  import opened EcPort
  import opened EcRegs
  import opened EcActs
  import opened Messages
  import opened Settings
  import opened Codec
  import opened Wire
  import opened Framing
  import opened Daemon
  import opened DaemonRuns
  import Session

  // ---- No answer comes near the frame limit ----

  /** The texts of an answer are short. */
  predicate ShortTexts(resp: IpcResponse) {
    match resp
    case SystemInfo(chip, revision, _, version) => |chip| <= 6 && |revision| <= 2 && |version| <= 5
    case Error(text) => text == []
    case _ => true
  }

  lemma AnswersHaveShortTexts(t: Table, w: World, req: IpcRequest, id: u64)
    requires Served(req)
    ensures ShortTexts(OnRequest(t, w, req, id).1)
  {
  }

  lemma ShortTextsAreCheap(resp: IpcResponse)
    requires ShortTexts(resp)
    ensures Cost(RESPONSE, ResponseVal(resp)) <= 64
  {
  }

  /** Every answer of the daemon, in every world. */
  lemma AnswerIsShort(t: Table, w: World, req: IpcRequest, id: u64)
    requires Served(req)
    ensures |EncodeResponse(OnRequest(t, w, req, id).1)| <= 128
  {
    AnswersHaveShortTexts(t, w, req, id);
    ShortTextsAreCheap(OnRequest(t, w, req, id).1);
    EncodingIsShort(RESPONSE, ResponseVal(OnRequest(t, w, req, id).1));
  }

  // ---- The daemon as one end of a session ----

  /** What else happens to the daemon: before the first request, and after each of them. */
  type Elsewhere = nat -> seq<Input>

  ghost predicate AllElsewhere(others: Elsewhere) { forall i :: AllServed(others(i)) }

  ghost predicate Requested(rs: seq<IpcRequest>) { forall i :: 0 <= i < |rs| ==> Served(rs[i]) }

  /** Everything the daemon has seen after the requests `rs` of this connection. */
  ghost function Inputs(others: Elsewhere, rs: seq<IpcRequest>, id: u64): (xs: seq<Input>)
    requires AllElsewhere(others) && Requested(rs)
    ensures AllServed(xs)
  {
    if rs == [] then others(0)
    else
      var n := |rs| - 1;
      Inputs(others, rs[..n], id) + [Request(rs[n], id)] + others(n + 1)
  }

  /** The answer to the last of the requests `rs`. */
  ghost function AnswerTo(t: Table, w: World, others: Elsewhere, rs: seq<IpcRequest>, id: u64): IpcResponse
    requires AllElsewhere(others) && Requested(rs) && rs != []
  {
    OnRequest(t, Run(t, w, Inputs(others, rs[..|rs| - 1], id)), rs[|rs| - 1], id).1
  }

  /** Sessions ask only for what the daemon implements; for anything else, some answer. */
  ghost function DaemonWork(t: Table, w: World, others: Elsewhere, id: u64): Session.Work
    requires AllElsewhere(others)
  {
    rs => if rs != [] && Requested(rs) then AnswerTo(t, w, others, rs, id) else FAILED
  }

  lemma DaemonAnswersAreShort(t: Table, w: World, others: Elsewhere, id: u64)
    requires AllElsewhere(others)
    ensures Session.ShortAnswers(DaemonWork(t, w, others, id))
  {
    forall rs: seq<IpcRequest>
      ensures |EncodeResponse(DaemonWork(t, w, others, id)(rs))| <= MAX_PAYLOAD
    {
      if rs != [] && Requested(rs) {
        AnswerIsShort(t, Run(t, w, Inputs(others, rs[..|rs| - 1], id)), rs[|rs| - 1], id);
      } else {
        ShortTextsAreCheap(FAILED);
        EncodingIsShort(RESPONSE, ResponseVal(FAILED));
      }
    }
  }

  /**
   * Main result: over every interleaving of a client and the daemon, whatever else happens to the daemon
   * in between, no receive fails, and the `i`-th answer the client receives is the one the daemon's
   * specification gives to the `i`-th request in the world of that moment.
   */
  lemma {:induction false} ClientHearsTheDaemon(cv: Version, dv: Version, t: Table, w: World, others: Elsewhere,
          id: u64, ms: seq<Session.Move>)
    requires AllElsewhere(others) && Session.Run(cv, dv, DaemonWork(t, w, others, id), ms).Some?
    requires Requested(Session.Run(cv, dv, DaemonWork(t, w, others, id), ms).value.asked)
    ensures var n := Session.Run(cv, dv, DaemonWork(t, w, others, id), ms).value;
            && (n.client.Dead? ==> !cv.Speaks(dv)) && (n.daemon.Closed? ==> !cv.Speaks(dv))
            && |n.answered| <= |n.asked| <= |n.answered| + 1
            && forall i :: 0 <= i < |n.answered| ==> n.answered[i] == AnswerTo(t, w, others, n.asked[..i + 1], id)
  {
    DaemonAnswersAreShort(t, w, others, id);
    Session.SessionIsSound(cv, dv, DaemonWork(t, w, others, id), ms);
  }
}
