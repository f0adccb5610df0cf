/**
  How a signalling connection turns the bytes it reads into requests, and its replies into
  bytes (xrtc_server/src/server/signaling_worker.cpp, lines 38 to 74 and 233 to 298).
 */
module Framing {
  import opened Common
  import opened Xrpc

  // ---------------------------------------------------------------------------------
  // Reading

  /** The parse fields of a connection. */
  datatype Parser = Parser(buf: seq<byte>, expected: nat, processed: nat, inBody: bool)

  const START := Parser([], HEADER_SIZE, 0, false)

  /** What `_process_query_buffer` leaves in `bytes_processed` after a request. */
  const SHORT_LIVED := 65535

  datatype Request = Request(header: seq<byte>, body: seq<byte>)

  function Magic(buf: seq<byte>): uint32
    requires |buf| >= HEADER_SIZE
  {
    Get32(buf[24..28])
  }

  function BodyLen(buf: seq<byte>): uint32
    requires |buf| >= HEADER_SIZE
  {
    Get32(buf[32..36])
  }

  /** The fields always agree with the header at the front of the buffer. */
  predicate Coherent(p: Parser) {
    if p.inBody then
      && |p.buf| >= HEADER_SIZE
      && Magic(p.buf) == HEADER_MAGICNUM
      && p.expected == BodyLen(p.buf)
      && (p.processed == HEADER_SIZE || p.processed == SHORT_LIVED)
      && (p.processed == SHORT_LIVED ==> |p.buf| >= HEADER_SIZE + p.expected)
    else p.expected == HEADER_SIZE && p.processed == 0
  }

  /** The loop guard. */
  predicate Ready(p: Parser) {
    |p.buf| >= p.expected + p.processed
  }

  /**
    What the loop does, given what successive calls of `_process_request` return: `dispatched` are
    those calls, whether they succeeded or not. `Looping` is a loop that wants to make one more.
   */
  datatype Turn =
    | Fail(dispatched: seq<Request>)
    | Next(parser: Parser, dispatched: seq<Request>)
    | Looping(parser: Parser, dispatched: seq<Request>)

  /** The request at the front of the buffer. */
  function Front(buf: seq<byte>): Request
    requires |buf| >= HEADER_SIZE && |buf| >= HEADER_SIZE + BodyLen(buf)
  {
    Request(buf[..HEADER_SIZE], buf[HEADER_SIZE..HEADER_SIZE + BodyLen(buf)])
  }

  /** What came before is put in front. */
  function Having(ds: seq<Request>, t: Turn): Turn {
    t.(dispatched := ds + t.dispatched)
  }

  /**
    The loop of `_process_query_buffer`. `outcomes` tells of each call of `_process_request` whether
    it returns 0: a call ends in a write to a pipe, so one request may be accepted and then refused.
   */
  function Process(p: Parser, outcomes: seq<bool>): (t: Turn)
    requires Coherent(p)
    ensures |t.dispatched| <= |outcomes|
    ensures t.Next? ==> Coherent(t.parser) && t.parser.buf == p.buf && !Ready(t.parser)
    ensures t.Looping? ==> Coherent(t.parser) && t.parser.buf == p.buf && Ready(t.parser) && t.parser.inBody
    decreases |outcomes|, if p.inBody then 0 else 1
  {
    if !Ready(p) then Next(p, [])
    else if !p.inBody then
      if Magic(p.buf) != HEADER_MAGICNUM then Fail([])
      else Process(p.(inBody := true, processed := HEADER_SIZE, expected := BodyLen(p.buf)), outcomes)
    else if outcomes == [] then Looping(p, [])
    else if !outcomes[0] then Fail([Front(p.buf)])
    else Having([Front(p.buf)], Process(p.(processed := SHORT_LIVED), outcomes[1..]))
  }

  /** The buffer holds a request and so much more that the guard is still true after it. */
  predicate Overfull(p: Parser) {
    && |p.buf| >= HEADER_SIZE
    && Magic(p.buf) == HEADER_MAGICNUM
    && |p.buf| >= BodyLen(p.buf) + SHORT_LIVED
  }

  /** The number of acceptances before the first refusal, if any. */
  function Accepted(outcomes: seq<bool>): (k: nat)
    ensures k <= |outcomes| && (forall i :: 0 <= i < k ==> outcomes[i]) && (k < |outcomes| ==> !outcomes[k])
  {
    if outcomes == [] || !outcomes[0] then 0 else 1 + Accepted(outcomes[1..])
  }

  function Copies(r: Request, n: nat): (rs: seq<Request>)
    ensures |rs| == n && forall i :: 0 <= i < n ==> rs[i] == r
  {
    seq(n, _ => r)
  }

  /** On such a buffer only a refusal ends the loop; until then it dispatches the same request again and again. */
  lemma {:induction false} OverfullDispatches(p: Parser, outcomes: seq<bool>)
    requires Coherent(p) && Overfull(p)
    ensures var k := Accepted(outcomes);
            if k < |outcomes| then Process(p, outcomes) == Fail(Copies(Front(p.buf), k + 1))
            else Process(p, outcomes).Looping? && Process(p, outcomes).dispatched == Copies(Front(p.buf), k)
    decreases |outcomes|, if p.inBody then 0 else 1
  {
    hide Magic, BodyLen, Front;
    if !p.inBody {
      OverfullDispatches(p.(inBody := true, processed := HEADER_SIZE, expected := BodyLen(p.buf)), outcomes);
    } else if outcomes != [] && outcomes[0] {
      OverfullDispatches(p.(processed := SHORT_LIVED), outcomes[1..]);
      assert forall n: nat :: [Front(p.buf)] + Copies(Front(p.buf), n) == Copies(Front(p.buf), n + 1);
    }
  }

  /** On any other it dispatches at most one request and ends. */
  lemma {:induction false} OthersDispatchOnce(p: Parser, outcomes: seq<bool>)
    requires Coherent(p) && !Overfull(p)
    ensures |Process(p, outcomes).dispatched| <= 1
    ensures outcomes != [] ==> !Process(p, outcomes).Looping?
    decreases |outcomes|, if p.inBody then 0 else 1
  {
    hide Front;
    if Ready(p) && !p.inBody && Magic(p.buf) == HEADER_MAGICNUM {
      OthersDispatchOnce(p.(inBody := true, processed := HEADER_SIZE, expected := BodyLen(p.buf)), outcomes);
    } else if Ready(p) && p.inBody && outcomes != [] && outcomes[0] {
      assert Process(p.(processed := SHORT_LIVED), outcomes[1..]) == Next(p.(processed := SHORT_LIVED), []);
    }
  }

  /** The first n values of a stream of outcomes. */
  function Take(o: nat -> bool, n: nat): (os: seq<bool>)
    ensures |os| == n && forall i :: 0 <= i < n ==> os[i] == o(i)
  {
    seq(n, i requires 0 <= i < n => o(i))
  }

  /** The loop ends within the first `n` outcomes. */
  ghost predicate Ends(p: Parser, o: nat -> bool, n: nat)
    requires Coherent(p)
  {
    !Process(p, Take(o, n)).Looping?
  }

  /** Whatever the requests do one after the other, the parse loop ends if and only if the buffer is not overfull or some call refuses. */
  lemma LoopEndsIff(p: Parser, o: nat -> bool)
    requires Coherent(p)
    ensures (exists n: nat :: Ends(p, o, n)) <==> !Overfull(p) || exists k: nat :: !o(k)
  {
    if !Overfull(p) {
      OthersDispatchOnce(p, Take(o, 1));
      assert Ends(p, o, 1);
    } else {
      forall n: nat
        ensures Ends(p, o, n) <==> exists k: nat :: k < n && !o(k)
      {
        OverfullDispatches(p, Take(o, n));
        hide Process, Overfull, Coherent;
        var os := Take(o, n);
        var k := Accepted(os);
        if k < n {
          assert !os[k] && !o(k);
        } else {
          assert forall i: nat :: i < n ==> os[i] == o(i);
        }
      }
      if k: nat :| !o(k) {
        assert Ends(p, o, k + 1);
      }
    }
  }

  /** The body state is never left, and every connection that dispatched is in it. */
  lemma {:induction false} ProcessStaysInBody(p: Parser, outcomes: seq<bool>)
    requires Coherent(p) && !Process(p, outcomes).Fail?
    ensures var t := Process(p, outcomes); p.inBody || t.dispatched != [] ==> t.parser.inBody
    decreases |outcomes|, if p.inBody then 0 else 1
  {
    if Ready(p) && !p.inBody {
      ProcessStaysInBody(p.(inBody := true, processed := HEADER_SIZE, expected := BodyLen(p.buf)), outcomes);
    } else if Ready(p) && outcomes != [] {
      ProcessStaysInBody(p.(processed := SHORT_LIVED), outcomes[1..]);
    }
  }

  function Receive(p: Parser, chunk: seq<byte>): Parser {
    p.(buf := p.buf + chunk)
  }

  lemma FrontOfPrefix(frame: seq<byte>, n: nat)
    requires HEADER_SIZE <= n <= |frame|
    ensures Magic(frame[..n]) == Magic(frame) && BodyLen(frame[..n]) == BodyLen(frame)
  {
    assert frame[..n][24..28] == frame[24..28];
    assert frame[..n][32..36] == frame[32..36];
  }

  /** What arrives stands behind what is there, so the fields still agree with the header. */
  lemma ReceiveCoherent(p: Parser, chunk: seq<byte>)
    requires Coherent(p)
    ensures Coherent(Receive(p, chunk))
  {
    if p.inBody {
      FrontOfPrefix(p.buf + chunk, |p.buf|);
      assert (p.buf + chunk)[..|p.buf|] == p.buf;
    }
  }

  /** The chunks of a connection arrive one read after the other, until the parser gives up or never comes back. */
  function Deliver(p: Parser, chunks: seq<seq<byte>>, outcomes: seq<bool>): Turn
    requires Coherent(p)
    decreases |chunks|
  {
    if chunks == [] then Next(p, [])
    else
      ReceiveCoherent(p, chunks[0]);
      var t := Process(Receive(p, chunks[0]), outcomes);
      if t.Next? then Having(t.dispatched, Deliver(t.parser, chunks[1..], outcomes[|t.dispatched|..])) else t
  }

  /** No read is empty or longer than what `_read_conn` asks for at that moment. */
  predicate Fits(p: Parser, chunks: seq<seq<byte>>, outcomes: seq<bool>)
    requires Coherent(p)
    decreases |chunks|
  {
    if chunks == [] then true
    else
      ReceiveCoherent(p, chunks[0]);
      var t := Process(Receive(p, chunks[0]), outcomes);
      && 0 < |chunks[0]| <= p.expected
      && (t.Next? ==> Fits(t.parser, chunks[1..], outcomes[|t.dispatched|..]))
  }

  lemma FirstRead(p: Parser, chunk: seq<byte>, chunks: seq<seq<byte>>, outcomes: seq<bool>, q: Parser, ds: seq<Request>)
    requires Coherent(p) && Coherent(Receive(p, chunk)) && Process(Receive(p, chunk), outcomes) == Next(q, ds)
    ensures Deliver(p, [chunk] + chunks, outcomes) == Having(ds, Deliver(q, chunks, outcomes[|ds|..]))
    ensures 0 < |chunk| <= p.expected && Fits(q, chunks, outcomes[|ds|..]) ==> Fits(p, [chunk] + chunks, outcomes)
  {
    assert ([chunk] + chunks)[1..] == chunks;
  }

  /** Results that no call asks for make no difference. */
  lemma {:induction false} UnusedOutcomes(p: Parser, outcomes: seq<bool>, more: seq<bool>)
    requires Coherent(p) && !Process(p, outcomes).Looping?
    ensures Process(p, outcomes + more) == Process(p, outcomes)
    decreases |outcomes|, if p.inBody then 0 else 1
  {
    if Ready(p) && !p.inBody && Magic(p.buf) == HEADER_MAGICNUM {
      UnusedOutcomes(p.(inBody := true, processed := HEADER_SIZE, expected := BodyLen(p.buf)), outcomes, more);
    } else if Ready(p) && p.inBody && outcomes[0] {
      UnusedOutcomes(p.(processed := SHORT_LIVED), outcomes[1..], more);
      assert (outcomes + more)[1..] == outcomes[1..] + more;
    }
  }

  /** Those that are asked for are as many as there are dispatches. */
  lemma {:induction false} UsedOutcomes(p: Parser, outcomes: seq<bool>)
    requires Coherent(p)
    ensures Process(p, outcomes[..|Process(p, outcomes).dispatched|]) == Process(p, outcomes)
    decreases |outcomes|, if p.inBody then 0 else 1
  {
    var used := outcomes[..|Process(p, outcomes).dispatched|];
    if Ready(p) && !p.inBody && Magic(p.buf) == HEADER_MAGICNUM {
      UsedOutcomes(p.(inBody := true, processed := HEADER_SIZE, expected := BodyLen(p.buf)), outcomes);
    } else if Ready(p) && p.inBody && outcomes != [] && outcomes[0] {
      UsedOutcomes(p.(processed := SHORT_LIVED), outcomes[1..]);
      var n := |Process(p.(processed := SHORT_LIVED), outcomes[1..]).dispatched|;
      assert |used| == n + 1 && used[1..] == outcomes[1..][..n];
    }
  }

  /** The next read continues where these reads, having used up their results, have left the parser. */
  ghost predicate Continues(p: Parser, chunks: seq<seq<byte>>, outcomes: seq<bool>, chunk: seq<byte>, more: seq<bool>)
    requires Coherent(p)
  {
    var t := Deliver(p, chunks, outcomes);
    && t.Next? && Coherent(t.parser) && Coherent(Receive(t.parser, chunk))
    && Deliver(p, chunks + [chunk], outcomes + more) == Having(t.dispatched, Process(Receive(t.parser, chunk), more))
  }

  /** The reads end with the parser waiting, and every result was asked for. */
  ghost predicate UsedUp(p: Parser, chunks: seq<seq<byte>>, outcomes: seq<bool>)
    requires Coherent(p)
  {
    Deliver(p, chunks, outcomes).Next? && |Deliver(p, chunks, outcomes).dispatched| == |outcomes|
  }

  lemma {:induction false} OneMoreRead(p: Parser, chunks: seq<seq<byte>>, outcomes: seq<bool>, chunk: seq<byte>, more: seq<bool>)
    requires Coherent(p) && UsedUp(p, chunks, outcomes)
    ensures Continues(p, chunks, outcomes, chunk, more)
    decreases |chunks|
  {
    hide *;
    if chunks == [] {
      NoReads(p, outcomes);
      FirstOfMany(p, chunk, more);
    } else {
      FirstOfThem(p, chunks, outcomes);
      var first := Process(Receive(p, chunks[0]), outcomes);
      OneMoreRead(first.parser, chunks[1..], outcomes[|first.dispatched|..], chunk, more);
      LaterOfThem(p, chunks, outcomes, chunk, more);
    }
  }

  lemma LaterOfThem(p: Parser, chunks: seq<seq<byte>>, outcomes: seq<bool>, chunk: seq<byte>, more: seq<bool>)
    requires Coherent(p) && chunks != [] && Coherent(Receive(p, chunks[0])) && Process(Receive(p, chunks[0]), outcomes).Next?
    requires var t := Process(Receive(p, chunks[0]), outcomes);
             && Coherent(t.parser) && |t.dispatched| <= |outcomes|
             && Continues(t.parser, chunks[1..], outcomes[|t.dispatched|..], chunk, more)
    ensures Continues(p, chunks, outcomes, chunk, more)
  {
    hide Process, Coherent, Deliver, Ready, Having, Receive, Fits;
    var first := Process(Receive(p, chunks[0]), outcomes);
    var (q, ds, rest) := (first.parser, first.dispatched, outcomes[|first.dispatched|..]);
    UnusedOutcomes(Receive(p, chunks[0]), outcomes, more);
    var u := Deliver(q, chunks[1..], rest);
    SplitOff(chunks, chunk);
    assert (outcomes + more)[|ds|..] == rest + more;
    FirstRead(p, chunks[0], chunks[1..], outcomes, q, ds);
    FirstRead(p, chunks[0], chunks[1..] + [chunk], outcomes + more, q, ds);
    HavingNext(ds, u);
    HavingTwice(ds, u.dispatched, Process(Receive(u.parser, chunk), more));
  }

  lemma SplitOff(chunks: seq<seq<byte>>, chunk: seq<byte>)
    requires chunks != []
    ensures chunks + [chunk] == [chunks[0]] + (chunks[1..] + [chunk]) && chunks == [chunks[0]] + chunks[1..]
  {
  }

  lemma HavingNext(ds: seq<Request>, t: Turn)
    requires t.Next?
    ensures Having(ds, t) == Next(t.parser, ds + t.dispatched)
  {
  }

  lemma NoReads(p: Parser, outcomes: seq<bool>)
    requires Coherent(p) && UsedUp(p, [], outcomes)
    ensures outcomes == []
  {
  }

  lemma FirstOfMany(p: Parser, chunk: seq<byte>, more: seq<bool>)
    requires Coherent(p)
    ensures Continues(p, [], [], chunk, more)
  {
    ReceiveCoherent(p, chunk);
    var t := Process(Receive(p, chunk), more);
    assert [] + [chunk] == [chunk] + [] && [] + more == more;
    assert t.dispatched + [] == t.dispatched && [] + t.dispatched == t.dispatched;
    hide Process, Coherent, Ready, Receive;
    if t.Next? {
      FirstRead(p, chunk, [], more, t.parser, t.dispatched);
    } else {
      LastRead(p, chunk, [], more);
    }
  }

  lemma FirstOfThem(p: Parser, chunks: seq<seq<byte>>, outcomes: seq<bool>)
    requires Coherent(p) && chunks != [] && UsedUp(p, chunks, outcomes)
    ensures Coherent(Receive(p, chunks[0]))
    ensures var t := Process(Receive(p, chunks[0]), outcomes);
            && t.Next? && Coherent(t.parser) && |t.dispatched| <= |outcomes|
            && UsedUp(t.parser, chunks[1..], outcomes[|t.dispatched|..])
  {
    ReceiveCoherent(p, chunks[0]);
    hide Process, Coherent;
  }

  lemma HavingTwice(a: seq<Request>, b: seq<Request>, t: Turn)
    ensures Having(a, Having(b, t)) == Having(a + b, t)
  {
    assert a + (b + t.dispatched) == (a + b) + t.dispatched;
  }

  /** A read that ends the connection, or never ends, is the last one. */
  lemma LastRead(p: Parser, chunk: seq<byte>, chunks: seq<seq<byte>>, outcomes: seq<bool>)
    requires Coherent(p) && Coherent(Receive(p, chunk)) && !Process(Receive(p, chunk), outcomes).Next?
    ensures Deliver(p, [chunk] + chunks, outcomes) == Process(Receive(p, chunk), outcomes)
  {
  }

  function Flatten(chunks: seq<seq<byte>>): seq<byte> {
    if chunks == [] then [] else chunks[0] + Flatten(chunks[1..])
  }

  ghost predicate IsFrame(frame: seq<byte>) {
    && |frame| >= HEADER_SIZE
    && Magic(frame) == HEADER_MAGICNUM
    && |frame| == HEADER_SIZE + BodyLen(frame)
  }

  /** The parser after the first n bytes of a frame, however they were cut. */
  function After(frame: seq<byte>, n: nat): Parser
    requires |frame| >= HEADER_SIZE && n <= |frame|
  {
    if n < HEADER_SIZE then Parser(frame[..n], HEADER_SIZE, 0, false)
    else Parser(frame[..n], BodyLen(frame), if n < |frame| then HEADER_SIZE else SHORT_LIVED, true)
  }

  /** What a read of the frame up to byte k gives, if the connection had n bytes of it before. */
  function Outcome(frame: seq<byte>, n: nat, k: nat, accepted: bool): Turn
    requires |frame| >= HEADER_SIZE && |frame| == HEADER_SIZE + BodyLen(frame) && n <= k <= |frame|
  {
    if n < |frame| && k == |frame| then
      if accepted then Next(After(frame, k), [Front(frame)]) else Fail([Front(frame)])
    else Next(After(frame, k), [])
  }

  lemma BodyStage(frame: seq<byte>, k: nat, outcomes: seq<bool>)
    requires IsFrame(frame) && HEADER_SIZE <= k <= |frame| && outcomes != []
    ensures var p := Parser(frame[..k], BodyLen(frame), HEADER_SIZE, true);
            && Coherent(p)
            && Process(p, outcomes) == Outcome(frame, HEADER_SIZE - 1, k, outcomes[0])
  {
    FrontOfPrefix(frame, k);
    hide Magic, BodyLen;
    if k == |frame| {
      assert frame[..k] == frame;
      var done := Parser(frame, BodyLen(frame), SHORT_LIVED, true);
      assert Coherent(done) && !Ready(done);
      assert Process(done, outcomes[1..]) == Next(done, []);
    }
  }

  lemma FrameRead(frame: seq<byte>, n: nat, k: nat, outcomes: seq<bool>)
    requires IsFrame(frame) && n <= k <= |frame| && outcomes != []
    ensures var q := Receive(After(frame, n), frame[n..k]);
            Coherent(q) && Process(q, outcomes) == Outcome(frame, n, k, outcomes[0])
  {
    assert frame[..n] + frame[n..k] == frame[..k];
    var q := Receive(After(frame, n), frame[n..k]);
    if k >= HEADER_SIZE {
      FrontOfPrefix(frame, k);
      BodyStage(frame, k, outcomes);
    }
    hide Magic, BodyLen;
    if n == |frame| { assert frame[..k] == frame; }
  }

  lemma AfterCoherent(frame: seq<byte>, n: nat)
    requires IsFrame(frame) && n <= |frame|
    ensures Coherent(After(frame, n)) && !Ready(After(frame, n))
  {
    if n >= HEADER_SIZE {
      FrontOfPrefix(frame, n);
    }
  }

  /**
    However the kernel cuts a frame into reads, the server dispatches exactly one request, made of
    its header and body, on the read that completes it, and none before; if it is refused, that is
    the end of the connection.
   */
  lemma {:induction false} FrameDispatchedOnce(frame: seq<byte>, n: nat, chunks: seq<seq<byte>>, outcomes: seq<bool>)
    requires IsFrame(frame) && n <= |frame| && outcomes != []
    requires Flatten(chunks) <= frame[n..]
    ensures Coherent(After(frame, n))
    ensures Deliver(After(frame, n), chunks, outcomes) == Outcome(frame, n, n + |Flatten(chunks)|, outcomes[0])
    decreases |chunks|
  {
    hide *;
    AfterCoherent(frame, n);
    if chunks == [] {
      NoPart(frame, n, outcomes);
    } else {
      assert chunks == [chunks[0]] + chunks[1..];
      FlattenFirst(chunks);
      var k := n + |chunks[0]|;
      PrefixSplit(chunks[0], Flatten(chunks[1..]), frame, n);
      if n < |frame| && k == |frame| {
        LastPart(frame, n, chunks[1..], outcomes);
      } else {
        FrameDispatchedOnce(frame, k, chunks[1..], outcomes);
        EarlierPart(frame, n, k, chunks[1..], outcomes);
      }
    }
  }

  lemma NoPart(frame: seq<byte>, n: nat, outcomes: seq<bool>)
    requires IsFrame(frame) && n <= |frame| && outcomes != [] && Coherent(After(frame, n))
    ensures Deliver(After(frame, n), [], outcomes) == Outcome(frame, n, n + |Flatten([])|, outcomes[0])
  {
    hide Coherent, After, BodyLen, Magic;
  }

  lemma FlattenFirst(chunks: seq<seq<byte>>)
    requires chunks != []
    ensures Flatten(chunks) == chunks[0] + Flatten(chunks[1..])
  {
  }

  /** The read that completes a frame. */
  lemma LastPart(frame: seq<byte>, n: nat, chunks: seq<seq<byte>>, outcomes: seq<bool>)
    requires IsFrame(frame) && n < |frame| && outcomes != [] && Flatten(chunks) == []
    ensures Coherent(After(frame, n))
    ensures Deliver(After(frame, n), [frame[n..|frame|]] + chunks, outcomes) == Outcome(frame, n, |frame|, outcomes[0])
  {
    hide Process, After, Front, Coherent, Magic, BodyLen, Fits, Deliver;
    AfterCoherent(frame, n);
    AfterCoherent(frame, |frame|);
    FrameRead(frame, n, |frame|, outcomes);
    if outcomes[0] {
      FirstRead(After(frame, n), frame[n..|frame|], chunks, outcomes, After(frame, |frame|), [Front(frame)]);
      NothingMore(After(frame, |frame|), chunks, outcomes[1..]);
      assert [Front(frame)] + [] == [Front(frame)];
    } else {
      LastRead(After(frame, n), frame[n..|frame|], chunks, outcomes);
    }
  }

  /** A read before that. */
  lemma EarlierPart(frame: seq<byte>, n: nat, k: nat, chunks: seq<seq<byte>>, outcomes: seq<bool>)
    requires IsFrame(frame) && n <= k <= |frame| && (n == |frame| || k < |frame|) && outcomes != []
    requires Flatten(chunks) <= frame[k..] && Coherent(After(frame, k))
    requires Deliver(After(frame, k), chunks, outcomes) == Outcome(frame, k, k + |Flatten(chunks)|, outcomes[0])
    ensures Coherent(After(frame, n))
    ensures Deliver(After(frame, n), [frame[n..k]] + chunks, outcomes) == Outcome(frame, n, k + |Flatten(chunks)|, outcomes[0])
  {
    hide Process, After, Front, Coherent, Magic, BodyLen, Fits, Deliver;
    AfterCoherent(frame, n);
    FrameRead(frame, n, k, outcomes);
    FirstRead(After(frame, n), frame[n..k], chunks, outcomes, After(frame, k), []);
    var t := Deliver(After(frame, k), chunks, outcomes);
    assert [] + t.dispatched == t.dispatched && outcomes[0..] == outcomes;
  }

  /** A parser that has come to rest stays there when nothing arrives. */
  lemma {:induction false} NothingMore(p: Parser, chunks: seq<seq<byte>>, outcomes: seq<bool>)
    requires Coherent(p) && !Ready(p) && Flatten(chunks) == []
    ensures Deliver(p, chunks, outcomes) == Next(p, [])
    decreases |chunks|
  {
    if chunks != [] {
      assert chunks[0] == [] && Receive(p, chunks[0]) == p;
      NothingMore(p, chunks[1..], outcomes);
      assert outcomes[0..] == outcomes;
    }
  }

  lemma PrefixSplit(a: seq<byte>, b: seq<byte>, s: seq<byte>, n: nat)
    requires n <= |s| && a + b <= s[n..]
    ensures n + |a| <= |s| && a == s[n..n + |a|] && b <= s[n + |a|..]
    ensures a + b == s[n..] ==> b == s[n + |a|..]
  {
    assert s[n..][..|a|] == (a + b)[..|a|];
    assert s[n..][|a|..|a| + |b|] == (a + b)[|a|..];
  }

  // Bytes behind an accepted frame.

  lemma OverfullAfterFrame(frame: seq<byte>, extra: seq<byte>)
    requires IsFrame(frame)
    ensures Overfull(Receive(After(frame, |frame|), extra)) <==> |extra| >= SHORT_LIVED - HEADER_SIZE
  {
    assert frame[..|frame|] == frame;
    FrontOfPrefix(frame + extra, |frame|);
    assert (frame + extra)[..|frame|] == frame;
  }

  /** They stay in the buffer, in whatever reads they come, as long as there are fewer than 65499 of them. */
  lemma {:induction false} FewAreKept(p: Parser, chunks: seq<seq<byte>>, outcomes: seq<bool>)
    requires Coherent(p) && p.inBody && p.processed == SHORT_LIVED
    requires |p.buf| + |Flatten(chunks)| < p.expected + SHORT_LIVED
    ensures Deliver(p, chunks, outcomes) == Next(Receive(p, Flatten(chunks)), [])
    decreases |chunks|
  {
    if chunks == [] {
      assert p.buf + [] == p.buf;
    } else {
      ReceiveCoherent(p, chunks[0]);
      FewAreKept(Receive(p, chunks[0]), chunks[1..], outcomes);
      assert p.buf + chunks[0] + Flatten(chunks[1..]) == p.buf + Flatten(chunks);
      assert outcomes[0..] == outcomes;
    }
  }

  /** With more, the read that brings the 65499th starts the endless loop: as many dispatches of the same request as there are acceptances. */
  lemma {:induction false} ManyLoop(p: Parser, chunks: seq<seq<byte>>, outcomes: seq<bool>)
    requires Coherent(p) && p.inBody && p.processed == SHORT_LIVED && |p.buf| < p.expected + SHORT_LIVED
    requires |p.buf| + |Flatten(chunks)| >= p.expected + SHORT_LIVED
    ensures var (t, k) := (Deliver(p, chunks, outcomes), Accepted(outcomes));
            if k < |outcomes| then t == Fail(Copies(Front(p.buf), k + 1))
            else t.Looping? && t.dispatched == Copies(Front(p.buf), k)
    decreases |chunks|
  {
    ReceiveCoherent(p, chunks[0]);
    var q := Receive(p, chunks[0]);
    assert q.buf[..|p.buf|] == p.buf;
    FrontOfPrefix(q.buf, |p.buf|);
    assert Front(q.buf) == Front(p.buf);
    if |q.buf| < p.expected + SHORT_LIVED {
      ManyLoop(q, chunks[1..], outcomes);
      var t := Deliver(q, chunks[1..], outcomes);
      assert [] + t.dispatched == t.dispatched && outcomes[0..] == outcomes;
    } else {
      OverfullDispatches(q, outcomes);
    }
  }

  /** After an accepted frame a connection's thread loops, its requests being accepted, if and only if at least 65499 more bytes come. */
  lemma FloodLoopsIff(frame: seq<byte>, chunks: seq<seq<byte>>, outcomes: seq<bool>)
    requires IsFrame(frame) && Accepted(outcomes) == |outcomes|
    ensures Coherent(After(frame, |frame|))
    ensures var t := Deliver(After(frame, |frame|), chunks, outcomes);
            && (t.Looping? <==> |Flatten(chunks)| >= SHORT_LIVED - HEADER_SIZE)
            && (t.Looping? ==> t.dispatched == Copies(Front(frame), |outcomes|))
            && (!t.Looping? ==> t == Next(Receive(After(frame, |frame|), Flatten(chunks)), []))
  {
    AfterCoherent(frame, |frame|);
    assert frame[..|frame|] == frame;
    var p := After(frame, |frame|);
    if |Flatten(chunks)| >= SHORT_LIVED - HEADER_SIZE {
      ManyLoop(p, chunks, outcomes);
    } else {
      FewAreKept(p, chunks, outcomes);
    }
  }

  /** A byte a read. */
  function Singles(s: seq<byte>): (chunks: seq<seq<byte>>)
    ensures Flatten(chunks) == s && forall c :: c in chunks ==> |c| == 1
  {
    if s == [] then [] else [[s[0]]] + Singles(s[1..])
  }

  lemma {:induction false} SinglesFit(p: Parser, s: seq<byte>, outcomes: seq<bool>)
    requires Coherent(p) && p.inBody && p.processed == SHORT_LIVED && p.expected > 0 && !Ready(p)
    ensures Fits(p, Singles(s), outcomes)
    decreases |s|
  {
    if s != [] {
      var q := Receive(p, [s[0]]);
      ReceiveCoherent(p, [s[0]]);
      if !Ready(q) {
        SinglesFit(q, s[1..], outcomes);
        assert outcomes[0..] == outcomes;
      } else {
        SpinningEndsReads(q, outcomes);
      }
      assert Singles(s)[1..] == Singles(s[1..]);
    }
  }

  lemma SpinningEndsReads(q: Parser, outcomes: seq<bool>)
    requires Coherent(q) && q.inBody && q.processed == SHORT_LIVED && Ready(q)
    ensures !Process(q, outcomes).Next?
  {
    OverfullDispatches(q, outcomes);
  }

  /**
    Any client can do it: a frame with a body and 65499 bytes more, in reads no longer than the
    server asks for, are dispatched again for every acceptance.
   */
  lemma ClientCanFlood(frame: seq<byte>, extra: seq<byte>, n: nat) returns (chunks: seq<seq<byte>>)
    requires IsFrame(frame) && |frame| > HEADER_SIZE && |extra| >= SHORT_LIVED - HEADER_SIZE && n > 0
    ensures Flatten(chunks) == frame + extra
    ensures var yes := Take(_ => true, n);
            && Fits(START, chunks, yes)
            && Deliver(START, chunks, yes).Looping?
            && Deliver(START, chunks, yes).dispatched == Copies(Front(frame), n)
  {
    var yes := Take(_ => true, n);
    hide Process, Deliver, Fits, Coherent, Magic, BodyLen, Front, Overfull, Copies;
    var head := frame[0..HEADER_SIZE];
    var rest := FloodBody(frame, extra, yes);
    chunks := [head] + rest;
    assert frame + extra == head + (frame[HEADER_SIZE..] + extra);
    FrameRead(frame, 0, HEADER_SIZE, yes);
    assert After(frame, 0) == START && yes[0..] == yes;
    AfterCoherent(frame, HEADER_SIZE);
    FirstRead(START, head, rest, yes, After(frame, HEADER_SIZE), []);
    assert forall ds: seq<Request> :: [] + ds == ds;
  }

  /** The same from the header on. */
  lemma FloodBody(frame: seq<byte>, extra: seq<byte>, yes: seq<bool>) returns (chunks: seq<seq<byte>>)
    requires IsFrame(frame) && |frame| > HEADER_SIZE && |extra| >= SHORT_LIVED - HEADER_SIZE
    requires yes != [] && forall i :: 0 <= i < |yes| ==> yes[i]
    ensures Flatten(chunks) == frame[HEADER_SIZE..] + extra && Coherent(After(frame, HEADER_SIZE))
    ensures Fits(After(frame, HEADER_SIZE), chunks, yes)
    ensures var t := Deliver(After(frame, HEADER_SIZE), chunks, yes); t.Looping? && t.dispatched == Copies(Front(frame), |yes|)
  {
    hide Process, Deliver, Fits, Coherent, Magic, BodyLen, Front, Overfull, Singles, Copies;
    var (body, tail) := (frame[HEADER_SIZE..|frame|], Singles(extra));
    chunks := [body] + tail;
    AfterCoherent(frame, HEADER_SIZE);
    AfterCoherent(frame, |frame|);
    FrameRead(frame, HEADER_SIZE, |frame|, yes);
    assert Accepted(yes[1..]) == |yes| - 1;
    FloodLoopsIff(frame, tail, yes[1..]);
    SinglesFit(After(frame, |frame|), extra, yes[1..]);
    assert 0 < |body| <= After(frame, HEADER_SIZE).expected;
    FirstRead(After(frame, HEADER_SIZE), body, tail, yes, After(frame, |frame|), [Front(frame)]);
    assert [Front(frame)] + Copies(Front(frame), |yes| - 1) == Copies(Front(frame), |yes|);
  }

  /** The client's frame is a frame, and the server sees the fields and the body that were sent. */
  lemma ClientFrame(body: seq<byte>, logId: uint32)
    requires |body| < 0x8000_0000
    ensures var frame := RequestFrame(body, logId);
            && IsFrame(frame)
            && Front(frame) == Request(Encode(NewHeader(|body|, logId)), body)
            && Decode(Front(frame).header) == NewHeader(|body|, logId)
            && NewHeader(|body|, logId).bodyLen == |body|
  {
    var h := NewHeader(|body|, logId);
    assert body[..h.bodyLen] == body;
    EncodedFrame(h, body);
    DecodeEncode(h, []);
    assert Encode(h) + [] == Encode(h);
    hide Decode, Encode;
  }

  /** A header in front of as many bytes as it says. */
  lemma EncodedFrame(h: Header, body: seq<byte>)
    requires h.Valid() && h.magicNum == HEADER_MAGICNUM && h.bodyLen == |body|
    ensures IsFrame(Encode(h) + body) && Front(Encode(h) + body) == Request(Encode(h), body)
  {
    var frame := Encode(h) + body;
    DecodeEncode(h, body);
    assert Decode(frame).magicNum == Magic(frame) && Decode(frame).bodyLen == BodyLen(frame);
    hide Decode, Encode, Magic, BodyLen;
    assert frame[HEADER_SIZE..] == body && frame[..HEADER_SIZE] == Encode(h);
  }

  // Room in the buffer.

  const INT_MAX := 0x7FFF_FFFF
  const SDS_MAX_PREALLOC := 0x10_0000

  /** The largest body whose room the buffer's signed fields can describe. */
  const MAX_BODY := INT_MAX - SDS_MAX_PREALLOC

  /** What `sdsMakeRoomFor` puts in the field `free`, an `int`. */
  function NewFree(len: nat, free: nat, add: nat): nat {
    if free >= add then free
    else
      var newlen := if len + add < SDS_MAX_PREALLOC then (len + add) * 2 else len + add + SDS_MAX_PREALLOC;
      newlen - len
  }

  /** The field overflows if and only if a read of more than `MAX_BODY` bytes finds too little room. */
  lemma RoomFitsIff(len: nat, free: nat, add: nat)
    requires len <= INT_MAX && free <= INT_MAX
    ensures NewFree(len, free, add) <= INT_MAX <==> add <= MAX_BODY || free >= add
  {
  }

  /** Hence bodies within 1 MiB of 2^31 overflow it on the first read after the header. */
  lemma BodyRoomFitsIff(frame: seq<byte>, n: nat, free: nat)
    requires IsFrame(frame) && HEADER_SIZE <= n < |frame| && n <= INT_MAX && free <= NewFree(0, 0, HEADER_SIZE)
    ensures NewFree(n, free, After(frame, n).expected) <= INT_MAX <==> BodyLen(frame) <= MAX_BODY
  {
    RoomFitsIff(n, free, BodyLen(frame));
  }

  /** The shortest body that does. */
  lemma FirstOverflow(logId: uint32)
    ensures var frame := RequestFrame(seq(MAX_BODY + 1, _ => 0), logId);
            IsFrame(frame) && NewFree(HEADER_SIZE, HEADER_SIZE, After(frame, HEADER_SIZE).expected) == INT_MAX + 1
  {
    var body := seq(MAX_BODY + 1, _ => 0 as byte);
    ClientFrame(body, logId);
  }

  /**
    The whole exchange: the request the client writes is dispatched exactly once with the
    fields and body sent, and the reply frame built from its header is read back by the
    client as exactly the reply body.
   */
  lemma Exchange(body: seq<byte>, logId: uint32, chunks: seq<seq<byte>>, outcomes: seq<bool>, reply: seq<byte>, rest: seq<byte>)
    requires |body| <= MAX_BODY && |reply| <= MAX_RES_BUF && outcomes != [] && outcomes[0]
    requires Flatten(chunks) == RequestFrame(body, logId)
    ensures var h := NewHeader(|body|, logId);
            var delivered := Deliver(START, chunks, outcomes);
            && delivered.Next?
            && delivered.dispatched == [Request(Encode(h), body)]
            && |delivered.parser.buf| >= HEADER_SIZE
            && Parse(ReplyFrame(delivered.parser.buf[..HEADER_SIZE], reply) + rest)
               == Ok(Response(h.(bodyLen := |reply|), reply))
  {
    hide Deliver, Parse, ReplyFrame, Encode, Decode, RequestFrame;
    var h := NewHeader(|body|, logId);
    var frame := RequestFrame(body, logId);
    ClientFrame(body, logId);
    assert After(frame, 0) == START;
    assert frame[0..] == frame;
    FrameDispatchedOnce(frame, 0, chunks, outcomes);
    assert frame[..|frame|] == frame;
    ReplyIsReadBack(h, reply, rest);
  }

  const MAX_RES_BUF := 4096

  // ---------------------------------------------------------------------------------
  // Writing

  /** How the loop of `_write_conn` ends, and the bytes it gave to the socket. */
  datatype WriteRun =
    | Drained(sent: seq<byte>)     // no reply left
    | Closed(sent: seq<byte>)      // a write failed
    | Waiting                      // the outcomes ran out first

  /**
    The loop, for given results of its writes: negative for failure, zero for "would block",
    else a number of bytes. `pos` is `cur_pos`; every write starts at the front of the reply.
   */
  function WriteReplies(replies: seq<seq<byte>>, rets: seq<int>, pos: nat): WriteRun
    decreases |rets|
  {
    if replies == [] then Drained([])
    else if rets == [] then Waiting
    else if rets[0] < 0 then Closed([])
    else if rets[0] == 0 then WriteReplies(replies, rets[1..], pos)
    else
      var m := replies[0];
      var piece := if rets[0] <= |m| then m[..rets[0]] else m;
      if rets[0] + pos >= |m| then Prepend(piece, WriteReplies(replies[1..], rets[1..], 0))
      else Prepend(piece, WriteReplies(replies, rets[1..], pos + rets[0]))
  }

  function Prepend(piece: seq<byte>, run: WriteRun): WriteRun {
    match run
    case Drained(s) => Drained(piece + s)
    case Closed(s) => Closed(piece + s)
    case Waiting => Waiting
  }

  /** Every write that takes anything takes the whole reply. */
  ghost predicate WholeWrites(sizes: seq<nat>, rets: seq<int>)
    decreases |rets|
  {
    if sizes == [] || rets == [] || rets[0] < 0 then true
    else if rets[0] == 0 then WholeWrites(sizes, rets[1..])
    else rets[0] == sizes[0] && WholeWrites(sizes[1..], rets[1..])
  }

  function Sizes(replies: seq<seq<byte>>): seq<nat> {
    seq(|replies|, i requires 0 <= i < |replies| => |replies[i]|)
  }

  /** With whole writes the socket gets the replies in order: all of them, or those before a failure. */
  lemma {:induction false} WholeWritesAreExact(replies: seq<seq<byte>>, rets: seq<int>)
    requires WholeWrites(Sizes(replies), rets)
    ensures match WriteReplies(replies, rets, 0)
            case Drained(sent) => sent == Flatten(replies)
            case Closed(sent) => exists n: nat :: n <= |replies| && sent == Flatten(replies[..n])
            case Waiting => true
    decreases |rets|
  {
    if replies == [] || rets == [] {
    } else if rets[0] < 0 {
      assert Flatten(replies[..0]) == [];
    } else if rets[0] == 0 {
      WholeWritesAreExact(replies, rets[1..]);
    } else {
      assert Sizes(replies)[1..] == Sizes(replies[1..]);
      WholeWritesAreExact(replies[1..], rets[1..]);
      var run := WriteReplies(replies[1..], rets[1..], 0);
      assert replies[0][..rets[0]] == replies[0];
      assert WriteReplies(replies, rets, 0) == Prepend(replies[0], run);
      hide WriteReplies, WholeWrites, Sizes;
      if run.Closed? {
        var n: nat :| n <= |replies[1..]| && run.sent == Flatten(replies[1..][..n]);
        OneMore(replies, n);
      }
    }
  }

  lemma OneMore(replies: seq<seq<byte>>, n: nat)
    requires n < |replies|
    ensures Flatten(replies[..n + 1]) == replies[0] + Flatten(replies[1..][..n])
  {
    assert replies[..n + 1][1..] == replies[1..][..n];
  }

  // A short write sends the front of its reply twice.

  ghost function Ones(s: seq<byte>): nat { multiset(s)[1] }

  /** Replies of the given sizes that show where the first short write is: all zero but for one byte. */
  ghost function Marked(sizes: seq<nat>, rets: seq<int>): (replies: seq<seq<byte>>)
    requires !WholeWrites(sizes, rets)
    requires forall i :: 0 <= i < |sizes| ==> sizes[i] > 0
    ensures Sizes(replies) == sizes
    decreases |rets|
  {
    if rets[0] == 0 then Marked(sizes, rets[1..])
    else if rets[0] == sizes[0] then
      var tail := Marked(sizes[1..], rets[1..]);
      SizesCons(Zeros(sizes[0]), tail, sizes);
      [Zeros(sizes[0])] + tail
    else
      var tail := AllZero(sizes[1..]);
      SizesCons([1] + Zeros(sizes[0] - 1), tail, sizes);
      [[1] + Zeros(sizes[0] - 1)] + tail
  }

  lemma SizesCons(r: seq<byte>, tail: seq<seq<byte>>, sizes: seq<nat>)
    requires sizes != [] && |r| == sizes[0] && Sizes(tail) == sizes[1..]
    ensures Sizes([r] + tail) == sizes
    ensures Ones(Flatten([r] + tail)) == Ones(r) + Ones(Flatten(tail))
  {
    assert ([r] + tail)[1..] == tail;
    assert sizes == [sizes[0]] + sizes[1..];
  }

  ghost function Zeros(n: nat): (s: seq<byte>)
    ensures |s| == n && Ones(s) == 0
  {
    if n == 0 then [] else [0] + Zeros(n - 1)
  }

  ghost function AllZero(sizes: seq<nat>): (replies: seq<seq<byte>>)
    ensures Sizes(replies) == sizes && Ones(Flatten(replies)) == 0
  {
    if sizes == [] then [] else
      var tail := AllZero(sizes[1..]);
      SizesCons(Zeros(sizes[0]), tail, sizes);
      [Zeros(sizes[0])] + tail
  }

  lemma {:induction false} MarkedOnce(sizes: seq<nat>, rets: seq<int>)
    requires !WholeWrites(sizes, rets)
    requires forall i :: 0 <= i < |sizes| ==> sizes[i] > 0
    ensures Ones(Flatten(Marked(sizes, rets))) == 1
    decreases |rets|
  {
    var ms := Marked(sizes, rets);
    if rets[0] == 0 {
      MarkedOnce(sizes, rets[1..]);
    } else if rets[0] == sizes[0] {
      MarkedOnce(sizes[1..], rets[1..]);
      assert ms[1..] == Marked(sizes[1..], rets[1..]);
    } else {
      assert ms[1..] == AllZero(sizes[1..]);
    }
  }

  /** A reply that is already partly sent is sent from its front again. */
  lemma {:induction false} SentAgain(replies: seq<seq<byte>>, rets: seq<int>, pos: nat)
    requires replies != [] && replies[0] != [] && replies[0][0] == 1
    requires WriteReplies(replies, rets, pos).Drained?
    ensures Ones(WriteReplies(replies, rets, pos).sent) >= 1
    decreases |rets|
  {
    if rets[0] == 0 {
      SentAgain(replies, rets[1..], pos);
    } else {
      var m := replies[0];
      var piece := if rets[0] <= |m| then m[..rets[0]] else m;
      assert piece[0] == 1;
      assert 1 in multiset(piece);
    }
  }

  /** No write takes more than the reply it is given. */
  predicate Possible(sizes: seq<nat>, rets: seq<int>, pos: nat)
    decreases |rets|
  {
    if sizes == [] || rets == [] || rets[0] < 0 then true
    else if rets[0] == 0 then Possible(sizes, rets[1..], pos)
    else
      && rets[0] <= sizes[0]
      && (if rets[0] + pos >= sizes[0] then Possible(sizes[1..], rets[1..], 0) else Possible(sizes, rets[1..], pos + rets[0]))
  }

  lemma {:induction false} MarkedTwice(sizes: seq<nat>, rets: seq<int>)
    requires !WholeWrites(sizes, rets) && Possible(sizes, rets, 0)
    requires forall i :: 0 <= i < |sizes| ==> sizes[i] > 0
    requires WriteReplies(Marked(sizes, rets), rets, 0).Drained?
    ensures Ones(WriteReplies(Marked(sizes, rets), rets, 0).sent) >= 2
    decreases |rets|
  {
    var ms := Marked(sizes, rets);
    assert Sizes(ms) == sizes && |ms| == |sizes|;
    if rets[0] == 0 {
      MarkedTwice(sizes, rets[1..]);
    } else if rets[0] == sizes[0] {
      assert ms[1..] == Marked(sizes[1..], rets[1..]);
      MarkedTwice(sizes[1..], rets[1..]);
    } else {
      assert |ms[0]| == sizes[0] && ms[0][0] == 1;
      hide Marked, WholeWrites;
      ShortWriteMarksTwice(ms, rets);
    }
  }

  lemma ShortWriteMarksTwice(ms: seq<seq<byte>>, rets: seq<int>)
    requires ms != [] && ms[0] != [] && ms[0][0] == 1 && rets != [] && 0 < rets[0] < |ms[0]|
    requires WriteReplies(ms, rets, 0).Drained?
    ensures Ones(WriteReplies(ms, rets, 0).sent) >= 2
  {
    var piece := ms[0][..rets[0]];
    assert piece[0] == 1 && 1 in multiset(piece);
    SentAgain(ms, rets[1..], rets[0]);
  }

  /** Whether the loop drains depends on the sizes of the replies only. */
  lemma {:induction false} DrainsBySize(a: seq<seq<byte>>, b: seq<seq<byte>>, rets: seq<int>, pos: nat)
    requires Sizes(a) == Sizes(b)
    ensures WriteReplies(a, rets, pos).Drained? == WriteReplies(b, rets, pos).Drained?
    decreases |rets|
  {
    assert |a| == |Sizes(a)| == |b|;
    if a == [] || rets == [] || rets[0] < 0 {
    } else {
      assert Sizes(a)[0] == Sizes(b)[0];
      assert Sizes(a[1..]) == Sizes(a)[1..] && Sizes(b[1..]) == Sizes(b)[1..];
      DrainsBySize(a, b, rets[1..], pos);
      if rets[0] > 0 {
        DrainsBySize(a[1..], b[1..], rets[1..], 0);
        DrainsBySize(a, b, rets[1..], pos + rets[0]);
      }
    }
  }

  ghost predicate SentExactly(replies: seq<seq<byte>>, rets: seq<int>) {
    WriteReplies(replies, rets, 0) == Drained(Flatten(replies))
  }

  /**
    When the loop drains the replies, the socket gets exactly their bytes, whatever they
    are, if and only if no write is short.
   */
  lemma ExactIffWhole(sample: seq<seq<byte>>, rets: seq<int>)
    requires WriteReplies(sample, rets, 0).Drained? && Possible(Sizes(sample), rets, 0)
    requires forall i :: 0 <= i < |sample| ==> sample[i] != []
    ensures WholeWrites(Sizes(sample), rets)
            <==> (forall replies :: Sizes(replies) == Sizes(sample) ==> SentExactly(replies, rets))
  {
    var sizes := Sizes(sample);
    if WholeWrites(sizes, rets) {
      forall replies | Sizes(replies) == sizes ensures SentExactly(replies, rets) {
        DrainsBySize(sample, replies, rets, 0);
        WholeWritesAreExact(replies, rets);
      }
    } else {
      var ms := Marked(sizes, rets);
      DrainsBySize(sample, ms, rets, 0);
      MarkedOnce(sizes, rets);
      MarkedTwice(sizes, rets);
      assert !SentExactly(ms, rets);
    }
  }

  /** Two bytes, of which the first write takes one: the socket gets the first byte twice. */
  lemma ShortWriteRepeats(x: byte, y: byte)
    ensures WriteReplies([[x, y]], [1, 1], 0) == Drained([x, x])
  {
    assert WriteReplies([], [], 0) == Drained([]);
    assert [1, 1][1..] == [1] && [1][1..] == [] && [[x, y]][1..] == [];
    assert WriteReplies([[x, y]], [1], 1) == Drained([x] + []);
    assert [x, y][..1] == [x];
    assert [x] + ([x] + []) == [x, x];
  }
}
