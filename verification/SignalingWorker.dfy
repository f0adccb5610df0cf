/**
  The connection table of a signalling worker and the callbacks that change it
  (xrtc_server/src/server/signaling_worker.cpp, tcp_connection.h and base/event_loop.cpp).
 */
module SignalingWorker {
  import opened Common
  import opened Xrpc
  import opened Framing

  datatype Event = Read | Write

  const TWO_64: int := 0x1_0000_0000_0000_0000

  /** `unsigned long long` */
  type uint64 = x: int | 0 <= x < TWO_64

  /** An `IOWatcher` with the part of its `ev_io` that the event loop looks at. */
  class IOWatcher {
    var active: bool
    var fd: int
    var events: set<Event>

    constructor ()
      ensures !active && events == {}
    {
      active, fd, events := false, -1, {};
    }

    /** `EventLoop::start_io_event` */
    method Start(fd: int, mask: set<Event>)
      modifies this
      ensures active
      ensures events == (if old(active) then old(events) + mask else mask)
      ensures this.fd == (if old(active) && mask <= old(events) then old(this.fd) else fd)
    {
      if active {
        var newEvents := events + mask;
        if newEvents == events {
          return;
        }
        this.fd, events := fd, newEvents;
      } else {
        this.fd, events, active := fd, mask, true;
      }
    }

    /** `EventLoop::stop_io_event`; when nothing is left to watch the mask keeps its old value. */
    method Stop(fd: int, mask: set<Event>)
      modifies this
      ensures old(events) - mask == old(events) ==> unchanged(this)
      ensures old(events) - mask != old(events) ==>
                if old(events) - mask == {} then !active && events == old(events)
                else active && this.fd == fd && events == old(events) - mask
    {
      var newEvents := events - mask;
      if newEvents == events {
        return;
      }
      active := false;
      if newEvents != {} {
        this.fd, events, active := fd, newEvents, true;
      }
    }

    /** `EventLoop::delete_io_event` */
    method Delete()
      modifies this
      ensures !active
    {
      active := false;
    }
  }

  class TcpConnection {
    const fd: int
    const watcher: IOWatcher
    var timerActive: bool
    var querybuf: seq<byte>
    var bytesExpected: nat
    var bytesProcessed: nat
    var inBody: bool
    var lastActiveTime: uint64
    var replyMsgs: seq<seq<byte>>
    ghost var closed: bool

    constructor (fd: int)
      ensures this.fd == fd && fresh(watcher) && !watcher.active && watcher.events == {}
      ensures State() == START && replyMsgs == [] && !closed && !timerActive
    {
      this.fd := fd;
      watcher := new IOWatcher();
      timerActive, closed := false, false;
      querybuf, bytesExpected, bytesProcessed, inBody := [], HEADER_SIZE, 0, false;
      lastActiveTime, replyMsgs := 0, [];
    }

    function State(): Parser
      reads this
    {
      Parser(querybuf, bytesExpected, bytesProcessed, inBody)
    }

    /** What holds of a live connection between callbacks. */
    ghost predicate Armed()
      reads this, watcher
    {
      && !closed
      && timerActive
      && watcher.active
      && watcher.fd == fd
      && Read in watcher.events
      && (Write in watcher.events <==> replyMsgs != [])
      && Coherent(State())
    }
  }

  /** Outcome of `sock_read_data`: an error or end of file, or some bytes (none for "try again"). */
  datatype ReadOutcome = Broken | Got(data: seq<byte>)

  class Worker {
    var conns: seq<TcpConnection?>

    /** The thread is in an endless loop, or a buffer has aborted the process: no callback runs any more. */
    var stuck: bool

    /** Requests dispatched so far, oldest first. */
    var dispatched: seq<(TcpConnection, Request)>

    /** Every connection object made so far. */
    ghost var made: set<TcpConnection>

    /** The reads that were parsed, oldest first. */
    ghost var log: seq<Heard>

    constructor ()
      ensures Valid() && Answerable() && Told() && !stuck && conns == [] && dispatched == [] && made == {}
    {
      stuck, conns, dispatched, made, log := false, [], [], {}, [];
    }

    ghost function Watchers(): set<IOWatcher>
      reads this
    {
      set c | c in made :: c.watcher
    }

    ghost predicate InTable(c: TcpConnection)
      reads this
    {
      0 <= c.fd < |conns| && conns[c.fd] == c
    }

    /** Each connection is either live, armed and in its slot, or closed with nothing left armed. */
    ghost predicate Settled(c: TcpConnection)
      reads this, c, c.watcher
    {
      && c.fd >= 1
      && (if c.closed then !InTable(c) && !c.timerActive && !c.watcher.active else InTable(c) && c.Armed())
    }

    ghost predicate Valid()
      reads this, made, Watchers()
    {
      && (forall c :: c in made ==> Settled(c))
      && (forall i :: 0 <= i < |conns| && conns[i] != null ==> conns[i] in made && conns[i].fd == i)
      && (forall c, d :: c in made && d in made && c != d ==> c.watcher != d.watcher)
    }

    /** `_new_conn`; the flags are the outcomes of the socket calls. */
    method NewConn(fd: int, socketOk: bool, peerOk: bool, now: uint64) returns (conn: TcpConnection?)
      requires Valid()
      requires fd != 0 && (0 < fd < |conns| ==> conns[fd] == null)
      modifies this
      ensures Valid() && dispatched == old(dispatched) && stuck == old(stuck) && log == old(log)
      ensures conn == null <==> fd < 0 || !socketOk || !peerOk
      ensures conn == null ==> conns == old(conns) && made == old(made)
      ensures conn != null ==>
                && fresh(conn) && fresh(conn.watcher) && conn.fd == fd && conn.State() == START && conn.replyMsgs == []
                && made == old(made) + {conn}
                && |conns| == (if fd < |old(conns)| then |old(conns)| else fd * 2)
                && (forall i :: 0 <= i < |conns| ==>
                      conns[i] == if i == fd then conn else if i < |old(conns)| then old(conns)[i] else null)
    {
      StartCoherent();
      hide Coherent;
      if fd < 0 {
        return null;
      }
      if !socketOk {
        return null;
      }
      var c := new TcpConnection(fd);
      if !peerOk {
        return null;
      }
      c.watcher.Start(fd, {Read});
      c.timerActive, c.lastActiveTime := true, now;
      if fd >= |conns| {
        conns := conns + seq(fd * 2 - |conns|, _ => null);
      }
      conns := conns[fd := c];
      made := made + {c};
      conn := c;
    }

    /** `_close_conn` and `_remove_conn`. */
    method CloseConn(c: TcpConnection)
      requires Valid() && c in made && !c.closed
      modifies this`conns, c`timerActive, c`closed, c.watcher
      ensures Valid() && c.closed
      ensures conns == old(conns)[c.fd := null]
    {
      c.timerActive := false;
      c.watcher.Delete();
      conns := conns[c.fd := null];
      c.closed := true;
    }

    /** `_process_timeout`: the difference is unsigned, so a clock that was set back closes the connection as well. */
    method ProcessTimeout(c: TcpConnection, now: uint64, timeout: nat)
      requires Valid() && c in made && c.timerActive
      modifies this`conns, c, c.watcher
      ensures Valid()
      ensures now >= old(c.lastActiveTime) ==> (c.closed <==> now - old(c.lastActiveTime) >= timeout)
      ensures now < old(c.lastActiveTime) ==> (c.closed <==> timeout <= TWO_64 - (old(c.lastActiveTime) - now))
      ensures conns == if c.closed then old(conns)[c.fd := null] else old(conns)
      ensures !c.closed ==> unchanged(c) && unchanged(c.watcher)
    {
      if (now - c.lastActiveTime) % TWO_64 >= timeout {
        CloseConn(c);
      }
    }

    /**
      `_process_query_buffer`: the parse loop. `outcomes` tells what the calls of `_process_request`
      return; a loop that would make more calls than there are outcomes has not ended.
     */
    method ProcessQueryBuffer(c: TcpConnection, outcomes: seq<bool>) returns (end: Ending)
      requires Coherent(c.State())
      modifies this`dispatched, c`bytesExpected, c`bytesProcessed, c`inBody
      ensures var t := Process(old(c.State()), outcomes);
              && end == (match t case Next(_, _) => Done case Fail(_) => Refused case Looping(_, _) => Endless)
              && (!t.Fail? ==> c.State() == t.parser)
              && dispatched == old(dispatched) + Tagged(c, t.dispatched)
      ensures Coherent(c.State())
    {
      ghost var whole := Process(c.State(), outcomes);
      ghost var sofar: seq<Request> := [];
      var k := 0;
      assert outcomes[0..] == outcomes && dispatched + Tagged(c, []) == dispatched;
      HavingIs([], whole);
      hide Process, Front, Coherent, Having, Tagged, Magic, BodyLen;
      while |c.querybuf| >= c.bytesExpected + c.bytesProcessed
        invariant 0 <= k <= |outcomes|
        invariant Coherent(c.State())
        invariant dispatched == old(dispatched) + Tagged(c, sofar)
        invariant whole == Having(sofar, Process(c.State(), outcomes[k..]))
        decreases |outcomes| - k, if c.inBody then 0 else 1
      {
        TurnOf(c.State(), outcomes[k..]);
        HavingIs(sofar, Process(c.State(), outcomes[k..]));
        if !c.inBody {
          var ok := TakeHeader(c);
          if !ok {
            return Refused;
          }
        } else {
          if k == |outcomes| {
            return Endless;
          }
          HavingMore(sofar, Front(c.querybuf), Process(c.State().(processed := SHORT_LIVED), outcomes[k..][1..]));
          TaggedGrows(old(dispatched), c, sofar, Front(c.querybuf));
          assert outcomes[k..][1..] == outcomes[k + 1..];
          var accepted := outcomes[k];
          k := k + 1;
          sofar := sofar + [Front(c.querybuf)];
          DispatchFront(c, accepted);
          if !accepted {
            return Refused;
          }
        }
      }
      TurnOf(c.State(), outcomes[k..]);
      HavingIs(sofar, Process(c.State(), outcomes[k..]));
      return Done;
    }

    /** The head state of the loop. */
    method TakeHeader(c: TcpConnection) returns (ok: bool)
      requires Coherent(c.State()) && Ready(c.State()) && !c.inBody
      modifies c`bytesExpected, c`bytesProcessed, c`inBody
      ensures |c.querybuf| >= HEADER_SIZE && (ok <==> Magic(c.querybuf) == HEADER_MAGICNUM)
      ensures Coherent(c.State())
      ensures c.State() == if ok then old(c.State()).(inBody := true, processed := HEADER_SIZE, expected := BodyLen(c.querybuf)) else old(c.State())
    {
      hide Get32;
      if Get32(c.querybuf[24..28]) != HEADER_MAGICNUM {
        return false;
      }
      c.inBody := true;
      c.bytesProcessed := HEADER_SIZE;
      c.bytesExpected := Get32(c.querybuf[32..36]);
      ok := true;
    }

    /** The body state of the loop: the request at the front of the buffer, and what processing it returns. */
    method DispatchFront(c: TcpConnection, accepted: bool)
      requires Coherent(c.State()) && Ready(c.State()) && c.inBody
      modifies this`dispatched, c`bytesProcessed
      ensures |c.querybuf| >= HEADER_SIZE && |c.querybuf| >= HEADER_SIZE + BodyLen(c.querybuf)
      ensures dispatched == old(dispatched) + [(c, Front(c.querybuf))]
      ensures Coherent(c.State()) && c.State() == if accepted then old(c.State()).(processed := SHORT_LIVED) else old(c.State())
    {
      hide Get32;
      var bodyLen := Get32(c.querybuf[32..36]);
      var request := Request(c.querybuf[..HEADER_SIZE], c.querybuf[HEADER_SIZE..HEADER_SIZE + bodyLen]);
      dispatched := dispatched + [(c, request)];
      if accepted {
        c.bytesProcessed := SHORT_LIVED;
      }
    }

    /** One turn of the loop, as the specification has it. */
    static lemma TurnOf(p: Parser, outcomes: seq<bool>)
      requires Coherent(p)
      ensures Ready(p) ==> |p.buf| >= HEADER_SIZE && (p.inBody ==> |p.buf| >= HEADER_SIZE + BodyLen(p.buf))
      ensures Ready(p) && !p.inBody && Magic(p.buf) == HEADER_MAGICNUM ==>
                Coherent(p.(inBody := true, processed := HEADER_SIZE, expected := BodyLen(p.buf)))
      ensures Ready(p) && p.inBody ==> Coherent(p.(processed := SHORT_LIVED))
      ensures Process(p, outcomes) ==
              if !Ready(p) then Next(p, [])
              else if !p.inBody then
                if Magic(p.buf) != HEADER_MAGICNUM then Fail([])
                else Process(p.(inBody := true, processed := HEADER_SIZE, expected := BodyLen(p.buf)), outcomes)
              else
                if outcomes == [] then Looping(p, [])
                else if !outcomes[0] then Fail([Front(p.buf)])
                else Having([Front(p.buf)], Process(p.(processed := SHORT_LIVED), outcomes[1..]))
    {
      hide Get32, Having, Front;
    }

    static lemma HavingIs(sofar: seq<Request>, t: Turn)
      ensures Having(sofar, t).dispatched == sofar + t.dispatched && (t.dispatched == [] ==> Having(sofar, t).dispatched == sofar)
      ensures (t.Next? ==> Having(sofar, t).Next?) && (t.Fail? ==> Having(sofar, t).Fail?) && (t.Looping? ==> Having(sofar, t).Looping?)
      ensures !t.Fail? ==> Having(sofar, t).parser == t.parser
      ensures sofar == [] ==> Having(sofar, t) == t
    {
      assert [] + t.dispatched == t.dispatched;
    }

    static lemma HavingMore(sofar: seq<Request>, r: Request, t: Turn)
      ensures Having(sofar, Having([r], t)) == Having(sofar + [r], t)
    {
      assert sofar + ([r] + t.dispatched) == sofar + [r] + t.dispatched;
    }

    static ghost function Tagged(c: TcpConnection, requests: seq<Request>): seq<(TcpConnection, Request)> {
      seq(|requests|, i requires 0 <= i < |requests| => (c, requests[i]))
    }

    static lemma TaggedGrows(before: seq<(TcpConnection, Request)>, c: TcpConnection, requests: seq<Request>, r: Request)
      ensures before + Tagged(c, requests) + [(c, r)] == before + Tagged(c, requests + [r])
    {
    }

    /** The live connection a descriptor stands for, if any. */
    function Lookup(fd: int): TcpConnection?
      reads this
    {
      if 0 <= fd < |conns| then conns[fd] else null
    }

    /** The kernel hands over at most as many bytes as were asked for. */
    predicate ReadPossible(c: TcpConnection, outcome: ReadOutcome)
      reads c
    {
      outcome.Got? ==> |outcome.data| <= c.bytesExpected
    }

    /** `_read_conn` */
    method ReadConn(fd: int, outcome: ReadOutcome, outcomes: seq<bool>, now: uint64)
      requires Valid() && !stuck
      requires Lookup(fd) != null ==> ReadPossible(Lookup(fd), outcome)
      modifies this`conns, this`dispatched, this`stuck, this`log, Lookup(fd), if Lookup(fd) == null then {} else {Lookup(fd).watcher}
      ensures Valid() && made == old(made)
      ensures log == old(log) + if old(Lookup(fd)) == null then [] else ReadEntry(old(Lookup(fd)), old(Lookup(fd).State()), {Read}, outcome, outcomes)
      ensures var c := old(Lookup(fd));
              if c == null then conns == old(conns) && dispatched == old(dispatched) && !stuck
              else if old(c.bytesExpected) > MAX_BODY then
                stuck && conns == old(conns) && dispatched == old(dispatched) && unchanged(c) && unchanged(c.watcher)
              else if outcome.Broken? then
                c.closed && conns == old(conns)[fd := null] && dispatched == old(dispatched) && !stuck
              else
                var t := Process(ReceivedIsCoherent(old(c.State()), outcome.data), outcomes);
                && dispatched == old(dispatched) + Tagged(c, t.dispatched)
                && c.closed == t.Fail? && stuck == t.Looping?
                && c.replyMsgs == old(c.replyMsgs)
                && (if t.Fail? then conns == old(conns)[fd := null]
                    else conns == old(conns) && c.State() == t.parser && c.watcher.events == old(c.watcher.events))
    {
      hide Coherent, Process;
      if fd < 0 || fd >= |conns| || conns[fd] == null {
        return;
      }
      var c := conns[fd];
      if c.bytesExpected > MAX_BODY {
        stuck := true;
        return;
      }
      c.lastActiveTime := now;
      if outcome.Broken? {
        CloseConn(c);
        return;
      }
      ghost var p := ReceivedIsCoherent(c.State(), outcome.data);
      c.querybuf := c.querybuf + outcome.data;
      assert c.State() == p;
      log := log + [Heard(c, outcome.data, outcomes[..|Process(p, outcomes).dispatched|])];
      var end := ProcessQueryBuffer(c, outcomes);
      if end.Refused? {
        CloseConn(c);
      } else if end.Endless? {
        stuck := true;
      }
    }

    /** `_add_reply` */
    method AddReply(c: TcpConnection, msg: seq<byte>)
      requires Valid() && c in made && !c.closed
      modifies c`replyMsgs, c.watcher
      ensures Valid()
      ensures c.replyMsgs == old(c.replyMsgs) + [msg]
    {
      c.replyMsgs := c.replyMsgs + [msg];
      c.watcher.Start(c.fd, {Write});
    }

    /**
      `_response_server_offer`: the reply goes out only if the table still holds the same
      object under the same descriptor. `c` may be a connection that has been closed since.
     */
    method ResponseServerOffer(c: TcpConnection?, fd: int, body: seq<byte>, memory: bool) returns (queued: bool)
      requires Valid() && |body| <= MAX_RES_BUF
      requires c != null ==> c in made && (!c.closed ==> c.inBody)
      modifies c, if c == null then {} else {c.watcher}
      ensures Valid()
      ensures queued <==> c != null && !c.closed && fd == c.fd && memory
      ensures queued ==> |c.querybuf| >= HEADER_SIZE && c.replyMsgs == old(c.replyMsgs) + [ReplyFrame(c.querybuf[..HEADER_SIZE], body)]
      ensures queued ==> c.State() == old(c.State())
      ensures c != null && !queued ==> unchanged(c) && unchanged(c.watcher)
    {
      if c == null {
        return false;
      }
      if fd <= 0 || fd >= |conns| {
        return false;
      }
      if conns[fd] != c {
        return false;
      }
      if !memory {
        return false;
      }
      AddReply(c, ReplyFrame(c.querybuf[..HEADER_SIZE], body));
      return true;
    }

    /** The loop of `_write_conn`, for given results of its writes; `sent` is what the socket got. */
    method WriteLoop(c: TcpConnection, rets: seq<int>) returns (sent: seq<byte>, failed: bool)
      requires !WriteReplies(c.replyMsgs, rets, 0).Waiting? && Possible(Sizes(c.replyMsgs), rets, 0)
      modifies c`replyMsgs
      ensures var run := WriteReplies(old(c.replyMsgs), rets, 0); sent == run.sent && failed == run.Closed?
      ensures if failed then c.replyMsgs != [] && old(c.replyMsgs) != [] else c.replyMsgs == []
    {
      hide WriteReplies, Possible, Sizes;
      sent, failed := [], false;
      var curPos := 0;
      var k := 0;
      ghost var whole := WriteReplies(c.replyMsgs, rets, 0);
      assert rets[0..] == rets;
      while c.replyMsgs != []
        invariant 0 <= k <= |rets| && curPos >= 0
        invariant old(c.replyMsgs) == [] ==> c.replyMsgs == []
        invariant Prepend(sent, WriteReplies(c.replyMsgs, rets[k..], curPos)) == whole
        invariant Possible(Sizes(c.replyMsgs), rets[k..], curPos)
        decreases |rets| - k
      {
        WriteStep(sent, c.replyMsgs, rets[k..], curPos);
        assert rets[k..][1..] == rets[k + 1..];
        var msg := c.replyMsgs[0];
        var ret := rets[k];
        k := k + 1;
        if ret < 0 {
          failed := true;
          return;
        } else if ret == 0 {
        } else if ret + curPos >= |msg| {
          curPos := 0;
          sent := sent + msg[..ret];
          c.replyMsgs := c.replyMsgs[1..];
        } else {
          sent := sent + msg[..ret];
          curPos := curPos + ret;
        }
      }
      NothingLeft(rets[k..], curPos);
    }

    /** `_write_conn` */
    method WriteConn(fd: int, rets: seq<int>, now: uint64) returns (sent: seq<byte>)
      requires Valid()
      requires Lookup(fd) != null ==>
                 && !WriteReplies(Lookup(fd).replyMsgs, rets, 0).Waiting?
                 && Possible(Sizes(Lookup(fd).replyMsgs), rets, 0)
      modifies this`conns, Lookup(fd), if Lookup(fd) == null then {} else {Lookup(fd).watcher}
      ensures Valid() && made == old(made)
      ensures var c := old(Lookup(fd));
              if c == null then sent == [] && conns == old(conns)
              else
                var run := WriteReplies(old(c.replyMsgs), rets, 0);
                && sent == run.sent
                && c.closed == run.Closed?
                && (if c.closed then conns == old(conns)[fd := null]
                    else conns == old(conns) && c.replyMsgs == [] && c.State() == old(c.State()))
    {
      sent := [];
      if fd <= 0 || fd >= |conns| || conns[fd] == null {
        return;
      }
      var c := conns[fd];
      hide Coherent, WriteReplies, Possible;
      var failed;
      sent, failed := WriteLoop(c, rets);
      if failed {
        CloseConn(c);
        return;
      }
      c.lastActiveTime := now;
      assert Read in c.watcher.events - {Write};
      c.watcher.Stop(c.fd, {Write});
      assert c.State() == old(c.State());
      assert c.Armed();
    }

    /**
      `conn_io_cb`: one event may carry both kinds; the read may close the connection before
      the write looks it up again, or never return.
     */
    method ConnIoCb(c: TcpConnection, events: set<Event>, outcome: ReadOutcome, outcomes: seq<bool>, rets: seq<int>, now: uint64)
      returns (sent: seq<byte>)
      requires Valid() && !stuck && c in made && c.watcher.active && events <= c.watcher.events
      requires ReadPossible(c, outcome)
      requires !WriteReplies(c.replyMsgs, rets, 0).Waiting? && Possible(Sizes(c.replyMsgs), rets, 0)
      modifies this`conns, this`dispatched, this`stuck, this`log, c, c.watcher
      ensures Valid() && made == old(made)
      ensures log == old(log) + ReadEntry(c, old(c.State()), events, outcome, outcomes)
      ensures conns == if c.closed then old(conns)[c.fd := null] else old(conns)
      ensures var t := ReadTurn(old(c.State()), events, outcome, outcomes);
              && dispatched == old(dispatched) + Tagged(c, t.dispatched)
              && (if t.Fail? then c.closed && sent == [] else !c.closed ==> c.State() == t.parser)
              && (stuck <==> t.Looping? || (Read in events && old(c.bytesExpected) > MAX_BODY))
      ensures !c.closed && (old(c.inBody) || dispatched != old(dispatched)) ==> c.inBody
      ensures Write !in events || stuck ==> sent == []
      ensures Read in events && outcome.Broken? && !stuck ==> c.closed && sent == []
      ensures Write in events && !c.closed && !stuck ==> sent == WriteReplies(old(c.replyMsgs), rets, 0).sent && c.replyMsgs == []
    {
      sent := [];
      ghost var t := ReadTurn(c.State(), events, outcome, outcomes);
      TurnStaysInBody(c.State(), events, outcome, outcomes);
      hide Coherent, WriteReplies, Possible, Process;
      assert Lookup(c.fd) == c;
      var fd := c.watcher.fd;
      if Read in events {
        ReadConn(fd, outcome, outcomes, now);
      }
      if Write in events && !stuck {
        sent := WriteConn(fd, rets, now);
      }
    }

    /** Requests come from connections whose header is still in their buffer, while they live. */
    ghost predicate Answerable()
      reads this, made
    {
      forall k :: 0 <= k < |dispatched| ==>
        dispatched[k].0 in made && (!dispatched[k].0.closed ==> dispatched[k].0.inBody)
    }

    /**
      What a connection has read, cut as the reads were, and what its requests returned give its
      dispatches and, while it lives, its parse fields; while the thread is not stuck it is waiting.
     */
    ghost predicate ToldOf(c: TcpConnection)
      reads this, c
    {
      StartCoherent();
      var t := Deliver(START, Chunks(log, c), Results(log, c));
      && DispatchesOf(dispatched, c) == t.dispatched && |Results(log, c)| == |t.dispatched|
      && (!c.closed ==> !t.Fail? && t.parser == c.State() && (t.Looping? ==> stuck))
    }

    ghost predicate Told()
      reads this, made
    {
      && (forall k :: 0 <= k < |log| ==> log[k].conn in made)
      && forall c :: c in made ==> ToldOf(c)
    }

    /** The event can happen now. */
    ghost predicate Occurs(cb: Callback)
      reads this, Lookup(cb.fd), if Lookup(cb.fd) == null then {} else {Lookup(cb.fd).watcher}
      requires cb.OnIo?
    {
      var c := Lookup(cb.fd);
      && !stuck && c != null && cb.events <= c.watcher.events && ReadPossible(c, cb.outcome)
      && !WriteReplies(c.replyMsgs, cb.rets, 0).Waiting? && Possible(Sizes(c.replyMsgs), cb.rets, 0)
    }

    /** What a callback adds to the reads. */
    ghost function Entries(cb: Callback): seq<Heard>
      requires Valid()
      reads this, made, Watchers()
    {
      if cb.OnIo? && Lookup(cb.fd) != null && Occurs(cb) then
        ReadEntry(Lookup(cb.fd), Lookup(cb.fd).State(), cb.events, cb.outcome, cb.outcomes)
      else []
    }

    /** One callback; one that the kernel cannot produce now does nothing, and none runs in a stuck thread. */
    method Callback(cb: Callback)
      requires Valid() && Answerable() && Told()
      modifies this, made, Watchers()
      ensures Valid() && Answerable() && Told()
      ensures old(dispatched) <= dispatched
      ensures log == old(log) + old(Entries(cb))
      ensures old(stuck) ==> stuck && dispatched == old(dispatched) && conns == old(conns)
      ensures fresh(made - old(made)) && fresh(Watchers() - old(Watchers()))
    {
      if stuck {
        return;
      }
      match cb
      case OnNewConn(fd, socketOk, peerOk, now) =>
        if fd != 0 && Lookup(fd) == null {
          OnAccept(fd, socketOk, peerOk, now);
        }
      case OnIo(fd, events, outcome, outcomes, rets, now) =>
        var c := Lookup(fd);
        if c != null && events <= c.watcher.events && ReadPossible(c, outcome)
           && !WriteReplies(c.replyMsgs, rets, 0).Waiting? && Possible(Sizes(c.replyMsgs), rets, 0)
        {
          OnEvent(c, events, outcome, outcomes, rets, now);
        }
      case OnReply(k, body, memory) =>
        if k < |dispatched| && |body| <= MAX_RES_BUF {
          OnAnswer(dispatched[k].0, body, memory);
        }
      case OnTimeout(fd, now, timeout) =>
        var c := Lookup(fd);
        if c != null {
          OnTimer(c, now, timeout);
        }
    }

    method OnAccept(fd: int, socketOk: bool, peerOk: bool, now: uint64)
      requires Valid() && Answerable() && Told() && fd != 0 && Lookup(fd) == null
      modifies this
      ensures Valid() && Answerable() && Told() && dispatched == old(dispatched) && log == old(log)
      ensures fresh(made - old(made)) && fresh(Watchers() - old(Watchers()))
    {
      hide Deliver, Chunks, Results, DispatchesOf, Coherent;
      ghost var before := made;
      var conn := NewConn(fd, socketOk, peerOk, now);
      if conn != null {
        assert forall k :: 0 <= k < |log| ==> log[k].conn in before;
        assert forall k :: 0 <= k < |dispatched| ==> dispatched[k].0 in before;
        NothingYet(log, dispatched, conn);
        NothingDelivered();
        assert ToldOf(conn);
        assert forall c :: c in before ==> ToldOf(c);
      }
    }

    method OnEvent(c: TcpConnection, events: set<Event>, outcome: ReadOutcome, outcomes: seq<bool>, rets: seq<int>, now: uint64)
      requires Valid() && Answerable() && Told() && !stuck && c in made && c.watcher.active && events <= c.watcher.events
      requires ReadPossible(c, outcome)
      requires !WriteReplies(c.replyMsgs, rets, 0).Waiting? && Possible(Sizes(c.replyMsgs), rets, 0)
      modifies this`conns, this`dispatched, this`stuck, this`log, c, c.watcher
      ensures Valid() && Answerable() && Told() && made == old(made)
      ensures old(dispatched) <= dispatched && log == old(log) + ReadEntry(c, old(c.State()), events, outcome, outcomes)
    {
      hide Deliver, Chunks, Results, DispatchesOf, Coherent, WriteReplies, Possible, Sizes;
      ghost var (before, heard, was) := (dispatched, log, c.State());
      StartCoherent();
      assert Settled(c) && !c.closed && ToldOf(c);
      ReadIsTold(heard, before, c, was, events, outcome, outcomes);
      var _ := ConnIoCb(c, events, outcome, outcomes, rets, now);
      assert forall k :: |before| <= k < |dispatched| ==> dispatched[k].0 == c;
      assert forall k :: |heard| <= k < |log| ==> log[k].conn == c;
      hide ReadTurn, ReadEntry;
      assert ToldOf(c);
      forall d | d in made
        ensures ToldOf(d)
      {
      }
    }

    method OnAnswer(c: TcpConnection, body: seq<byte>, memory: bool)
      requires Valid() && Answerable() && Told() && |body| <= MAX_RES_BUF && c in made && (!c.closed ==> c.inBody)
      modifies c, c.watcher
      ensures Valid() && Answerable() && Told()
    {
      hide Deliver, Chunks, Results, DispatchesOf;
      assert ToldOf(c);
      var _ := ResponseServerOffer(c, c.fd, body, memory);
      assert ToldOf(c);
    }

    method OnTimer(c: TcpConnection, now: uint64, timeout: nat)
      requires Valid() && Answerable() && Told() && c in made && c.timerActive
      modifies this`conns, c, c.watcher
      ensures Valid() && Answerable() && Told()
    {
      hide Deliver, Chunks, Results, DispatchesOf;
      assert ToldOf(c);
      ProcessTimeout(c, now, timeout);
      assert ToldOf(c);
    }

    /**
      Any sequence of callbacks, with any outcomes of the system calls that the kernel can
      produce: after each of them the table is settled again, also when the thread gets stuck, and
      every connection has dispatched what the reads made of it, in their order, deliver. `heard`
      are the reads of this script, and `at` says from which callback each of them is.
     */
    method Serve(script: seq<Callback>) returns (ghost heard: seq<Heard>, ghost at: seq<nat>)
      requires Valid() && Answerable() && Told()
      modifies this, made, Watchers()
      ensures Valid() && Answerable() && Told()
      ensures old(dispatched) <= dispatched
      ensures log == old(log) + heard && ReadAt(script, |script|, heard, at)
      ensures old(stuck) ==> stuck && dispatched == old(dispatched) && conns == old(conns)
    {
      heard, at := [], [];
      assert ReadAt(script, 0, [], []) && Grown(log, [], log);
      hide *;
      for n := 0 to |script|
        invariant Valid() && Answerable() && Told()
        invariant old(dispatched) <= dispatched
        invariant Grown(old(log), heard, log) && ReadAt(script, n, heard, at)
        invariant old(stuck) ==> stuck && dispatched == old(dispatched) && conns == old(conns)
        invariant fresh(made - old(made)) && fresh(Watchers() - old(Watchers()))
      {
        ghost var last, entries := log, [];
        entries, at := ServeOne(script, n, heard, at);
        GrownOn(old(log), heard, last, entries, log);
        heard := heard + entries;
      }
      GrownIs(old(log), heard, log);
    }

    method ServeOne(script: seq<Callback>, n: nat, ghost heard: seq<Heard>, ghost was: seq<nat>)
      returns (ghost entries: seq<Heard>, ghost at: seq<nat>)
      requires Valid() && Answerable() && Told() && n < |script| && ReadAt(script, n, heard, was)
      modifies this, made, Watchers()
      ensures Valid() && Answerable() && Told()
      ensures old(dispatched) <= dispatched && log == old(log) + entries && ReadAt(script, n + 1, heard + entries, at)
      ensures old(stuck) ==> stuck && dispatched == old(dispatched) && conns == old(conns)
      ensures fresh(made - old(made)) && fresh(Watchers() - old(Watchers()))
    {
      hide *;
      entries := Entries(script[n]);
      EntriesAreFrom(script[n]);
      ReadOn(script, n, heard, was, entries);
      at := was + if entries == [] then [] else [n];
      Callback(script[n]);
    }

    lemma EntriesAreFrom(cb: Callback)
      requires Valid()
      ensures |Entries(cb)| <= 1 && (Entries(cb) != [] ==> From(cb, Entries(cb)[0]))
    {
      hide Coherent, Process, WriteReplies, Possible, Sizes;
    }
  }

  /** A read is from a callback: its descriptor, its bytes, and the first of its results. */
  ghost predicate From(cb: Callback, h: Heard) {
    cb.OnIo? && Read in cb.events && cb.fd == h.conn.fd && cb.outcome == Got(h.data) && h.outcomes <= cb.outcomes
  }

  /** Reads in the order of the callbacks they are from, among the first `n`. */
  ghost predicate ReadAt(script: seq<Callback>, n: nat, heard: seq<Heard>, at: seq<nat>) {
    && |at| == |heard| && n <= |script|
    && (forall m :: 0 <= m < |at| ==> at[m] < n && From(script[at[m]], heard[m]))
    && (forall l, m :: 0 <= l < m < |at| ==> at[l] < at[m])
  }

  ghost predicate Grown(before: seq<Heard>, heard: seq<Heard>, log: seq<Heard>) {
    log == before + heard
  }

  lemma GrownOn(before: seq<Heard>, heard: seq<Heard>, log: seq<Heard>, entries: seq<Heard>, more: seq<Heard>)
    requires Grown(before, heard, log) && more == log + entries
    ensures Grown(before, heard + entries, more)
  {
  }

  lemma GrownIs(before: seq<Heard>, heard: seq<Heard>, log: seq<Heard>)
    requires Grown(before, heard, log)
    ensures log == before + heard
  {
  }

  lemma ReadOn(script: seq<Callback>, n: nat, heard: seq<Heard>, at: seq<nat>, entries: seq<Heard>)
    requires ReadAt(script, n, heard, at) && n < |script|
    requires |entries| <= 1 && (entries != [] ==> From(script[n], entries[0]))
    ensures ReadAt(script, n + 1, heard + entries, at + if entries == [] then [] else [n])
  {
    hide From;
    if entries == [] {
      assert heard + entries == heard && at + [] == at;
    }
  }

  /** A read that was parsed: the bytes, and what the requests they completed returned. */
  datatype Heard = Heard(conn: TcpConnection, data: seq<byte>, outcomes: seq<bool>)

  /** What one event adds to the reads. */
  ghost function ReadEntry(c: TcpConnection, p: Parser, events: set<Event>, outcome: ReadOutcome, outcomes: seq<bool>): seq<Heard>
    requires Coherent(p)
  {
    if Read in events && outcome.Got? && p.expected <= MAX_BODY then
      [Heard(c, outcome.data, outcomes[..|ReadTurn(p, events, outcome, outcomes).dispatched|])]
    else []
  }

  ghost function Chunks(log: seq<Heard>, c: TcpConnection): seq<seq<byte>> {
    if log == [] then [] else
      var n := |log| - 1;
      Chunks(log[..n], c) + if log[n].conn == c then [log[n].data] else []
  }

  ghost function Results(log: seq<Heard>, c: TcpConnection): seq<bool> {
    if log == [] then [] else
      var n := |log| - 1;
      Results(log[..n], c) + if log[n].conn == c then log[n].outcomes else []
  }

  ghost function DispatchesOf(dispatched: seq<(TcpConnection, Request)>, c: TcpConnection): seq<Request> {
    if dispatched == [] then [] else
      var n := |dispatched| - 1;
      DispatchesOf(dispatched[..n], c) + if dispatched[n].0 == c then [dispatched[n].1] else []
  }

  lemma {:induction false} NothingYet(log: seq<Heard>, dispatched: seq<(TcpConnection, Request)>, c: TcpConnection)
    requires forall k :: 0 <= k < |log| ==> log[k].conn != c
    requires forall k :: 0 <= k < |dispatched| ==> dispatched[k].0 != c
    ensures Chunks(log, c) == [] && Results(log, c) == [] && DispatchesOf(dispatched, c) == []
    decreases |log| + |dispatched|
  {
    if log != [] {
      NothingYet(log[..|log| - 1], dispatched, c);
    } else if dispatched != [] {
      NothingYet(log, dispatched[..|dispatched| - 1], c);
    }
  }

  /** Requests of one connection are dispatches of that one alone. */
  lemma {:induction false} DispatchesMore(dispatched: seq<(TcpConnection, Request)>, c: TcpConnection, rs: seq<Request>, d: TcpConnection)
    ensures DispatchesOf(dispatched + Worker.Tagged(c, rs), d) == DispatchesOf(dispatched, d) + if c == d then rs else []
    decreases |rs|
  {
    if rs == [] {
      assert dispatched + Worker.Tagged(c, rs) == dispatched;
      assert DispatchesOf(dispatched, d) + [] == DispatchesOf(dispatched, d);
    } else {
      hide Worker.Tagged;
      var n := |rs| - 1;
      DispatchesMore(dispatched, c, rs[..n], d);
      assert rs[..n] + [rs[n]] == rs;
      Worker.TaggedGrows(dispatched, c, rs[..n], rs[n]);
      OneDispatch(dispatched + Worker.Tagged(c, rs[..n]), (c, rs[n]), d);
      hide DispatchesOf;
      assert c == d ==> DispatchesOf(dispatched, d) + rs[..n] + [rs[n]] == DispatchesOf(dispatched, d) + (rs[..n] + [rs[n]]);
    }
  }

  lemma OneDispatch(dispatched: seq<(TcpConnection, Request)>, x: (TcpConnection, Request), d: TcpConnection)
    ensures DispatchesOf(dispatched + [x], d) == DispatchesOf(dispatched, d) + if x.0 == d then [x.1] else []
  {
    assert (dispatched + [x])[..|dispatched|] == dispatched;
  }

  lemma HeardMore(log: seq<Heard>, h: Heard, d: TcpConnection)
    ensures Chunks(log + [h], d) == Chunks(log, d) + if h.conn == d then [h.data] else []
    ensures Results(log + [h], d) == Results(log, d) + if h.conn == d then h.outcomes else []
  {
    assert (log + [h])[..|log|] == log;
  }

  /** A read of `c` continues the delivery to `c` and leaves every other connection's alone. */
  lemma ReadIsTold(
    log: seq<Heard>, dispatched: seq<(TcpConnection, Request)>, c: TcpConnection, p: Parser, events: set<Event>, outcome: ReadOutcome,
    outcomes: seq<bool>)
    requires Coherent(START) && Coherent(p)
    requires Deliver(START, Chunks(log, c), Results(log, c)) == Next(p, DispatchesOf(dispatched, c))
    requires |Results(log, c)| == |DispatchesOf(dispatched, c)|
    ensures var (t, more) := (ReadTurn(p, events, outcome, outcomes), log + ReadEntry(c, p, events, outcome, outcomes));
            var all := dispatched + Worker.Tagged(c, t.dispatched);
            && Deliver(START, Chunks(more, c), Results(more, c)) == Having(DispatchesOf(dispatched, c), t)
            && DispatchesOf(all, c) == DispatchesOf(dispatched, c) + t.dispatched && |Results(more, c)| == |DispatchesOf(all, c)|
            && forall d: TcpConnection :: d != c ==>
                 Chunks(more, d) == Chunks(log, d) && Results(more, d) == Results(log, d) && DispatchesOf(all, d) == DispatchesOf(dispatched, d)
  {
    hide Deliver, Process, Coherent, Chunks, Results, DispatchesOf;
    var t := ReadTurn(p, events, outcome, outcomes);
    forall d: TcpConnection {
      DispatchesMore(dispatched, c, t.dispatched, d);
    }
    if ReadEntry(c, p, events, outcome, outcomes) == [] {
      assert log + [] == log && DispatchesOf(dispatched, c) + [] == DispatchesOf(dispatched, c);
    } else {
      var q := ReceivedIsCoherent(p, outcome.data);
      var used := outcomes[..|t.dispatched|];
      UsedOutcomes(q, outcomes);
      OneMoreRead(START, Chunks(log, c), Results(log, c), outcome.data, used);
      forall d: TcpConnection {
        HeardMore(log, Heard(c, outcome.data, used), d);
      }
    }
  }

  lemma NothingDelivered()
    ensures Coherent(START) && Deliver(START, [], []) == Next(START, [])
  {
  }

  /** How the parse loop ended, if it did. */
  datatype Ending = Done | Refused | Endless

  /** A connection's parser with what has been received. */
  function ReceivedIsCoherent(p: Parser, data: seq<byte>): (q: Parser)
    requires Coherent(p)
    ensures Coherent(q) && q == Receive(p, data)
  {
    ReceiveCoherent(p, data);
    Receive(p, data)
  }

  /** What the read of one event does, nothing if there is none or the buffer cannot grow. */
  function ReadTurn(p: Parser, events: set<Event>, outcome: ReadOutcome, outcomes: seq<bool>): Turn
    requires Coherent(p)
  {
    if Read in events && outcome.Got? && p.expected <= MAX_BODY then Process(ReceivedIsCoherent(p, outcome.data), outcomes)
    else Next(p, [])
  }

  lemma TurnStaysInBody(p: Parser, events: set<Event>, outcome: ReadOutcome, outcomes: seq<bool>)
    requires Coherent(p)
    ensures var t := ReadTurn(p, events, outcome, outcomes); !t.Fail? && (p.inBody || t.dispatched != []) ==> t.parser.inBody
  {
    if Read in events && outcome.Got? && p.expected <= MAX_BODY {
      var q := ReceivedIsCoherent(p, outcome.data);
      if !Process(q, outcomes).Fail? {
        ProcessStaysInBody(q, outcomes);
      }
    }
  }

  /** A callback with the outcomes of the system calls it makes and of the requests it dispatches. */
  datatype Callback =
    | OnNewConn(fd: int, socketOk: bool, peerOk: bool, now: uint64)
    | OnIo(fd: int, events: set<Event>, outcome: ReadOutcome, outcomes: seq<bool>, rets: seq<int>, now: uint64)
    | OnReply(k: nat, body: seq<byte>, memory: bool)
    | OnTimeout(fd: int, now: uint64, timeout: nat)

  /** What one turn of the write loop does to the run it stands for. */
  lemma WriteStep(sent: seq<byte>, replies: seq<seq<byte>>, rets: seq<int>, pos: nat)
    requires replies != [] && !WriteReplies(replies, rets, pos).Waiting? && Possible(Sizes(replies), rets, pos)
    ensures rets != []
    ensures var m, ret := replies[0], rets[0];
            var now := Prepend(sent, WriteReplies(replies, rets, pos));
            if ret < 0 then now == Closed(sent)
            else if ret == 0 then
              Possible(Sizes(replies), rets[1..], pos) && now == Prepend(sent, WriteReplies(replies, rets[1..], pos))
            else
              && ret <= |m|
              && (if ret + pos >= |m| then
                    && Possible(Sizes(replies[1..]), rets[1..], 0)
                    && now == Prepend(sent + m[..ret], WriteReplies(replies[1..], rets[1..], 0))
                  else
                    && Possible(Sizes(replies), rets[1..], pos + ret)
                    && now == Prepend(sent + m[..ret], WriteReplies(replies, rets[1..], pos + ret)))
  {
    assert Sizes(replies)[0] == |replies[0]|;
    assert Sizes(replies[1..]) == Sizes(replies)[1..];
    if 0 < rets[0] {
      PrependTwice(sent, replies[0][..rets[0]], WriteReplies(replies[1..], rets[1..], 0));
      PrependTwice(sent, replies[0][..rets[0]], WriteReplies(replies, rets[1..], pos + rets[0]));
    }
  }

  lemma NothingLeft(rets: seq<int>, pos: nat)
    ensures WriteReplies([], rets, pos) == Drained([])
  {
  }

  lemma PrependTwice(a: seq<byte>, b: seq<byte>, run: WriteRun)
    ensures Prepend(a, Prepend(b, run)) == Prepend(a + b, run)
  {
    match run
    case Drained(s) => assert a + (b + s) == (a + b) + s;
    case Closed(s) => assert a + (b + s) == (a + b) + s;
    case Waiting =>
  }

  lemma StartCoherent()
    ensures Coherent(START)
  {
  }
}
