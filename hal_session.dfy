/** A session with the HAL: a sequence of calls into its public entry
    points and the replies they get. The HAL keeps no state between calls:
    its only data is what was fixed when it was built (the version
    string). A step of a session therefore leaves the state as it was, and
    the reply to each call depends on that call alone, whatever came
    before it and in whatever order the calls are made. */
module HalSession {
  import opened HalTypes
  import opened Hal

  /** One call of the public interface, with its arguments. */
  datatype HalCall =
    | CallBoardSetconf(board: BoardConf)
    | CallRxrfSetconf(rfChain: uint8, rxrf: RxrfConf)
    | CallRxifSetconf(ifChain: uint8, rxif: RxifConf)
    | CallTxgainSetconf(lut: Option<TxGainLut>)
    | CallStart
    | CallStop
    | CallReceive(maxPkt: uint8, pktData: Option<seq<RxPkt>>)
    | CallSend(pkt: TxPkt)
    | CallStatus(select: uint8)
    | CallAbortTx
    | CallGetTrigcnt
    | CallVersionInfo

  /** The reply of one call: its return value and what it stored through
      its out-pointer. */
  datatype HalReply =
    | Returned(ret: HalReturn)
    | Received(rx: ReceiveReply)
    | StatusRead(status: StatusReply)
    | TrigcntRead(trig: TrigcntReply)
    | VersionRead(version: string)

  /** Everything the HAL holds across calls: the build it was compiled
      from. */
  datatype HalState = HalState(build: BuildOptions)

  /** The reply an entry point gives to a call in a given state. */
  function Reply(st: HalState, call: HalCall): (reply: HalReply) {
    match call
    case CallBoardSetconf(c) => Returned(BoardSetconf(c))
    case CallRxrfSetconf(i, c) => Returned(RxrfSetconf(i, c))
    case CallRxifSetconf(i, c) => Returned(RxifSetconf(i, c))
    case CallTxgainSetconf(c) => Returned(TxgainSetconf(c))
    case CallStart => Returned(Start())
    case CallStop => Returned(Stop())
    case CallReceive(m, p) => Received(Receive(m, p))
    case CallSend(p) => Returned(Send(p))
    case CallStatus(s) => StatusRead(Status(s))
    case CallAbortTx => Returned(AbortTx())
    case CallGetTrigcnt => TrigcntRead(GetTrigcnt())
    case CallVersionInfo => VersionRead(VersionInfo(st.build))
  }

  /** The state after a call: the state it was called in, since no entry
      point writes any global. */
  function Next(st: HalState, call: HalCall): (st': HalState) {
    st
  }

  /** The replies to a sequence of calls made one after the other, each
      in the state the previous ones left. */
  function Run(st: HalState, calls: seq<HalCall>): (replies: seq<HalReply>)
    ensures |replies| == |calls|
  {
    if calls == [] then []
    else [Reply(st, calls[0])] + Run(Next(st, calls[0]), calls[1..])
  }

  /** The i-th reply of a session is the reply to the i-th call made on
      its own: nothing earlier in the session affects it. */
  lemma {:induction false} RunPointwise(st: HalState, calls: seq<HalCall>, i: nat)
    requires i < |calls|
    ensures Run(st, calls)[i] == Reply(st, calls[i])
  {
    if i > 0 {
      RunPointwise(Next(st, calls[0]), calls[1..], i - 1);
    }
  }

  /** Running two sessions back to back gives the replies of each session
      run from the start. */
  lemma RunAppend(st: HalState, a: seq<HalCall>, b: seq<HalCall>)
    ensures Run(st, a + b) == Run(st, a) + Run(st, b)
  {
    var joined, sum := Run(st, a + b), Run(st, a) + Run(st, b);
    forall i | 0 <= i < |joined|
      ensures joined[i] == sum[i]
    {
      RunPointwise(st, a + b, i);
      if i < |a| {
        RunPointwise(st, a, i);
      } else {
        RunPointwise(st, b, i - |a|);
      }
    }
  }

  /** Reordering the calls reorders the replies the same way: for any
      permutation `perm` of the positions, the reply at position k of the
      permuted session is the reply at position perm[k] of the original. */
  lemma ReorderedRun(st: HalState, calls: seq<HalCall>, perm: seq<nat>)
    requires |perm| == |calls|
    requires forall k :: 0 <= k < |perm| ==> perm[k] < |calls|
    ensures var reordered := seq(|perm|, k requires 0 <= k < |perm| => calls[perm[k]]);
            forall k :: 0 <= k < |perm| ==> Run(st, reordered)[k] == Run(st, calls)[perm[k]]
  {
    var reordered := seq(|perm|, k requires 0 <= k < |perm| => calls[perm[k]]);
    forall k | 0 <= k < |perm|
      ensures Run(st, reordered)[k] == Run(st, calls)[perm[k]]
    {
      RunPointwise(st, reordered, k);
      RunPointwise(st, calls, perm[k]);
    }
  }

  /** Whether a call is one whose only result is a return code: the
      setters, start, stop, send and abort. */
  predicate ReturnsCodeOnly(call: HalCall) {
    call.CallBoardSetconf? || call.CallRxrfSetconf? || call.CallRxifSetconf?
    || call.CallTxgainSetconf? || call.CallStart? || call.CallStop?
    || call.CallSend? || call.CallAbortTx?
  }

  /** In every session, at every position: the setters, start, stop, send
      and abort return LGW_HAL_SUCCESS; receive returns 0 packets and leaves
      the buffer as passed; status reports RX_STATUS_UNKNOWN; the trigger
      counter reads 0; the version string is that of the build. */
  lemma {:induction false} SessionReplies(st: HalState, calls: seq<HalCall>, i: nat)
    requires i < |calls|
    ensures ReturnsCodeOnly(calls[i]) ==> Run(st, calls)[i] == Returned(HalSuccess)
    ensures calls[i].CallReceive? ==> Run(st, calls)[i] == Received(ReceiveReply(0, calls[i].pktData))
    ensures calls[i].CallStatus? ==> Run(st, calls)[i] == StatusRead(StatusReply(HalSuccess, RxStatusUnknown))
    ensures calls[i].CallGetTrigcnt? ==> Run(st, calls)[i] == TrigcntRead(TrigcntReply(HalSuccess, 0))
    ensures calls[i].CallVersionInfo? ==> Run(st, calls)[i] == VersionRead(VersionString(st.build))
  {
    RunPointwise(st, calls, i);
  }
}
