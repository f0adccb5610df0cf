/**
  The path of a push request through the threads of the server: signalling worker, server
  queue, the rtc worker picked by the CRC of the stream name, and back to the signalling
  worker (signaling_worker.cpp, rtc_server.cpp, rtc_worker.cpp under xrtc_server/src/server).

  Every thread is a program counter; every hop is a push followed, in a later step, by one
  integer written to the receiver's pipe. A run is any interleaving of these steps. Queue
  operations are single steps: two queues sit behind a mutex, and module LockFreeQueue
  shows what the third one gives at the level of pointer steps.
 */
module PushPipeline {
  import Crc32

  /** A connection object: its address, and which of the objects at that address it was. */
  datatype Conn = Conn(addr: nat, born: nat)

  /** A push request; `id` numbers the requests in the order they enter the server queue. */
  datatype Msg = Msg(id: nat, stream: seq<bv8>, worker: nat, conn: Conn, fd: nat)

  datatype Token = NewConn | RtcMsg

  /** One entry of a connection table, with the requests answered on it. */
  datatype Slot = Slot(conn: Conn, answered: seq<Msg>)

  datatype SigPc =
    | SIdle
    | SNotify(fd: nat)          // request pushed, server not notified yet
    | SToken(token: Token)      // token read, not acted on yet
    | SAnswer(msg: Msg)         // reply popped, not answered yet

  /** `lostConns` and `lostMsgs` count the tokens of each kind whose write to the pipe failed. */
  datatype Sig = Sig(
    pc: SigPc, pipe: seq<Token>, newConns: seq<nat>, replies: seq<Msg>, conns: map<nat, Slot>, lostConns: nat, lostMsgs: nat)

  datatype SrvPc =
    | VIdle
    | VToken                    // token read, not acted on yet
    | VRoute(msg: Msg)          // request popped, not forwarded yet
    | VNotify(rtc: nat)         // request pushed to an rtc worker, worker not notified yet

  datatype Srv = Srv(pc: SrvPc, pipe: nat, queue: seq<Msg>, lost: nat)

  datatype RtcPc =
    | RIdle
    | RToken                    // token read, not acted on yet
    | RHandle(msg: Msg)         // request popped, being handled
    | RNotify(sig: nat)         // reply pushed, signalling worker not notified yet

  /** `handled` is the history of requests this worker took, in order. */
  datatype Rtc = Rtc(pc: RtcPc, pipe: nat, queue: seq<Msg>, handled: seq<Msg>, lost: nat)

  datatype AcceptPc = AIdle | ANotify(sig: nat)

  /**
    `crashed` records a null message being dereferenced. `issued`, `answered` and `dropped`
    are histories, as is `objects`, the number of connection objects made so far.
   */
  datatype State = State(
    workerNum: int, sigs: seq<Sig>, srv: Srv, rtcs: seq<Rtc>, accept: AcceptPc, crashed: bool,
    issued: seq<Msg>, answered: seq<Msg>, dropped: seq<Msg>, objects: nat)

  /** Steps. A `bool` is an outcome outside the program: a pipe write, a certificate, an offer. */
  datatype Action =
    | Accept(w: nat, fd: nat)
    | AcceptNotify(ok: bool)
    | Dispatch(w: nat, fd: nat, stream: seq<bv8>)
    | DispatchNotify(w: nat, ok: bool)
    | SigWake(w: nat)
    | SigTakeConn(w: nat, addr: nat, ok: bool)
    | SigTakeMsg(w: nat)
    | SigAnswer(w: nat, ok: bool)
    | SigClose(w: nat, fd: nat)
    | SrvWake
    | SrvTake
    | SrvRoute(ok: bool)
    | SrvNotify(ok: bool)
    | RtcWake(i: nat)
    | RtcTake(i: nat)
    | RtcHandle(i: nat, ok: bool)
    | RtcNotify(i: nat, ok: bool)

  /** `_get_worker`: the same name always gives the same index. */
  function WorkerFor(stream: seq<bv8>, workers: nat): (i: nat)
    requires workers > 0
    ensures i < workers
  {
    (Crc32.Compute(stream) as int) % workers
  }

  ghost predicate Fresh(s: State) {
    && (forall w :: 0 <= w < |s.sigs| ==> s.sigs[w] == Sig(SIdle, [], [], [], map[], 0, 0))
    && s.srv == Srv(VIdle, 0, [], 0)
    && (forall i :: 0 <= i < |s.rtcs| ==> s.rtcs[i] == Rtc(RIdle, 0, [], [], 0))
    && s.accept == AIdle && !s.crashed
    && s.issued == [] && s.answered == [] && s.dropped == [] && s.objects == 0
  }

  // ---------------------------------------------------------------------------------
  // Requests in flight

  ghost function SumOf(parts: seq<multiset<Msg>>): multiset<Msg> {
    if parts == [] then multiset{} else parts[0] + SumOf(parts[1..])
  }

  ghost function SigPart(g: Sig): multiset<Msg> {
    multiset(g.replies) + (if g.pc.SAnswer? then multiset{g.pc.msg} else multiset{})
  }

  ghost function RtcPart(r: Rtc): multiset<Msg> {
    multiset(r.queue) + (if r.pc.RHandle? then multiset{r.pc.msg} else multiset{})
  }

  ghost function SrvPart(v: Srv): multiset<Msg> {
    multiset(v.queue) + (if v.pc.VRoute? then multiset{v.pc.msg} else multiset{})
  }

  ghost function SigParts(sigs: seq<Sig>): seq<multiset<Msg>> {
    seq(|sigs|, i requires 0 <= i < |sigs| => SigPart(sigs[i]))
  }

  ghost function RtcParts(rtcs: seq<Rtc>): seq<multiset<Msg>> {
    seq(|rtcs|, i requires 0 <= i < |rtcs| => RtcPart(rtcs[i]))
  }

  /** Every request that sits in some queue or in the hands of some thread. */
  ghost function InFlight(s: State): multiset<Msg> {
    SrvPart(s.srv) + SumOf(RtcParts(s.rtcs)) + SumOf(SigParts(s.sigs))
  }

  // ---------------------------------------------------------------------------------
  // Steps

  /**
    When a step can be taken. Two lines are hypotheses on the environment: the kernel hands
    out only descriptors that are positive and not open in the table, and the allocator does
    not reuse the address of a connection while one of its requests is still in flight.
   */
  ghost predicate Enabled(s: State, a: Action) {
    match a
    case Accept(w, fd) => s.accept.AIdle? && w < |s.sigs| && fd >= 1
    case AcceptNotify(_) => s.accept.ANotify? && s.accept.sig < |s.sigs|
    case Dispatch(w, fd, _) => w < |s.sigs| && s.sigs[w].pc.SIdle? && fd in s.sigs[w].conns
    case DispatchNotify(w, _) => w < |s.sigs| && s.sigs[w].pc.SNotify?
    case SigWake(w) => w < |s.sigs| && s.sigs[w].pc.SIdle? && s.sigs[w].pipe != []
    case SigTakeConn(w, addr, _) =>
      && w < |s.sigs| && s.sigs[w].pc == SToken(NewConn)
      && (s.sigs[w].newConns != [] ==> s.sigs[w].newConns[0] !in s.sigs[w].conns)
      && (forall fd :: fd in s.sigs[w].conns ==> s.sigs[w].conns[fd].conn.addr != addr)
      && (forall m :: m in InFlight(s) && m.worker == w ==> m.conn.addr != addr)
    case SigTakeMsg(w) => w < |s.sigs| && s.sigs[w].pc == SToken(RtcMsg)
    case SigAnswer(w, _) => w < |s.sigs| && s.sigs[w].pc.SAnswer?
    case SigClose(w, fd) => w < |s.sigs| && s.sigs[w].pc.SIdle? && fd in s.sigs[w].conns
    case SrvWake => s.srv.pc.VIdle? && s.srv.pipe > 0
    case SrvTake => s.srv.pc.VToken?
    case SrvRoute(_) => s.srv.pc.VRoute?
    case SrvNotify(_) => s.srv.pc.VNotify? && s.srv.pc.rtc < |s.rtcs|
    case RtcWake(i) => i < |s.rtcs| && s.rtcs[i].pc.RIdle? && s.rtcs[i].pipe > 0
    case RtcTake(i) => i < |s.rtcs| && s.rtcs[i].pc.RToken?
    case RtcHandle(i, _) => i < |s.rtcs| && s.rtcs[i].pc.RHandle? && s.rtcs[i].pc.msg.worker < |s.sigs|
    case RtcNotify(i, _) => i < |s.rtcs| && s.rtcs[i].pc.RNotify? && s.rtcs[i].pc.sig < |s.sigs|
  }

  ghost function Step(s: State, a: Action): State
    requires Enabled(s, a)
  {
    match a
    // notify_new_conn: produce, then notify
    case Accept(w, fd) =>
      var g := s.sigs[w];
      s.(sigs := s.sigs[w := g.(newConns := g.newConns + [fd])], accept := ANotify(w))
    case AcceptNotify(ok) =>
      var w := s.accept.sig;
      var g := s.sigs[w];
      s.(sigs := s.sigs[w := if ok then g.(pipe := g.pipe + [NewConn]) else g.(lostConns := g.lostConns + 1)], accept := AIdle)
    // _process_push: build the message, push it, then notify; a failed notify closes the connection
    case Dispatch(w, fd, stream) =>
      var g := s.sigs[w];
      var m := Msg(|s.issued|, stream, w, g.conns[fd].conn, fd);
      s.(sigs := s.sigs[w := g.(pc := SNotify(fd))],
         srv := s.srv.(queue := s.srv.queue + [m]),
         issued := s.issued + [m])
    case DispatchNotify(w, ok) =>
      var g := s.sigs[w];
      if ok then s.(sigs := s.sigs[w := g.(pc := SIdle)], srv := s.srv.(pipe := s.srv.pipe + 1))
      else s.(sigs := s.sigs[w := g.(pc := SIdle, conns := g.conns - {g.pc.fd})], srv := s.srv.(lost := s.srv.lost + 1))
    case SigWake(w) =>
      var g := s.sigs[w];
      s.(sigs := s.sigs[w := g.(pc := SToken(g.pipe[0]), pipe := g.pipe[1..])])
    // _process_notify, NEW_CONN
    case SigTakeConn(w, addr, ok) =>
      var g := s.sigs[w];
      if g.newConns == [] then s.(sigs := s.sigs[w := g.(pc := SIdle)])
      else if !ok then s.(sigs := s.sigs[w := g.(pc := SIdle, newConns := g.newConns[1..])])
      else
        var slot := Slot(Conn(addr, s.objects), []);
        s.(sigs := s.sigs[w := g.(pc := SIdle, newConns := g.newConns[1..],
                                  conns := g.conns[g.newConns[0] := slot])],
           objects := s.objects + 1)
    // _process_notify, RTC_MSG
    case SigTakeMsg(w) =>
      var g := s.sigs[w];
      if g.replies == [] then s.(sigs := s.sigs[w := g.(pc := SIdle)])
      else s.(sigs := s.sigs[w := g.(pc := SAnswer(g.replies[0]), replies := g.replies[1..])])
    // _response_server_offer: the table must still hold the same address under the same fd
    case SigAnswer(w, ok) =>
      var g := s.sigs[w];
      var m := g.pc.msg;
      if ok && m.fd in g.conns && g.conns[m.fd].conn.addr == m.conn.addr then
        var slot := g.conns[m.fd];
        s.(sigs := s.sigs[w := g.(pc := SIdle, conns := g.conns[m.fd := slot.(answered := slot.answered + [m])])],
           answered := s.answered + [m])
      else s.(sigs := s.sigs[w := g.(pc := SIdle)], dropped := s.dropped + [m])
    case SigClose(w, fd) =>
      var g := s.sigs[w];
      s.(sigs := s.sigs[w := g.(conns := g.conns - {fd})])
    case SrvWake => s.(srv := s.srv.(pc := VToken, pipe := s.srv.pipe - 1))
    // RtcServer::_process_rtc_msg reads the message before testing it for null
    case SrvTake =>
      if s.srv.queue == [] then s.(crashed := true)
      else s.(srv := s.srv.(pc := VRoute(s.srv.queue[0]), queue := s.srv.queue[1..]))
    case SrvRoute(ok) =>
      var m := s.srv.pc.msg;
      if ok && |s.rtcs| > 0 && |s.rtcs| == s.workerNum then
        var i := WorkerFor(m.stream, |s.rtcs|);
        var r := s.rtcs[i];
        s.(srv := s.srv.(pc := VNotify(i)), rtcs := s.rtcs[i := r.(queue := r.queue + [m])])
      else s.(srv := s.srv.(pc := VIdle), dropped := s.dropped + [m])
    case SrvNotify(ok) =>
      var i := s.srv.pc.rtc;
      var r := s.rtcs[i];
      s.(srv := s.srv.(pc := VIdle),
         rtcs := s.rtcs[i := if ok then r.(pipe := r.pipe + 1) else r.(lost := r.lost + 1)])
    case RtcWake(i) =>
      var r := s.rtcs[i];
      s.(rtcs := s.rtcs[i := r.(pc := RToken, pipe := r.pipe - 1)])
    case RtcTake(i) =>
      var r := s.rtcs[i];
      if r.queue == [] then s.(rtcs := s.rtcs[i := r.(pc := RIdle)])
      else s.(rtcs := s.rtcs[i := r.(pc := RHandle(r.queue[0]), queue := r.queue[1..],
                                     handled := r.handled + [r.queue[0]])])
    // RtcWorker::_process_push: no offer, no reply
    case RtcHandle(i, ok) =>
      var r := s.rtcs[i];
      var m := r.pc.msg;
      if !ok then s.(rtcs := s.rtcs[i := r.(pc := RIdle)], dropped := s.dropped + [m])
      else
        var g := s.sigs[m.worker];
        s.(rtcs := s.rtcs[i := r.(pc := RNotify(m.worker))],
           sigs := s.sigs[m.worker := g.(replies := g.replies + [m])])
    case RtcNotify(i, ok) =>
      var r := s.rtcs[i];
      var w := r.pc.sig;
      var g := s.sigs[w];
      s.(rtcs := s.rtcs[i := r.(pc := RIdle)],
         sigs := s.sigs[w := if ok then g.(pipe := g.pipe + [RtcMsg]) else g.(lostMsgs := g.lostMsgs + 1)])
  }

  ghost predicate Feasible(s: State, acts: seq<Action>)
    decreases |acts|
  {
    acts == [] || (Enabled(s, acts[0]) && Feasible(Step(s, acts[0]), acts[1..]))
  }

  ghost function Run(s: State, acts: seq<Action>): State
    requires Feasible(s, acts)
    decreases |acts|
  {
    if acts == [] then s else Run(Step(s, acts[0]), acts[1..])
  }
}
