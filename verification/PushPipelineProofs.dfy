/** What every interleaving of the push pipeline keeps. */
module PushPipelineProofs {
  import opened PushPipeline

  // ---------------------------------------------------------------------------------
  // Conservation: a request is in exactly one place

  lemma {:induction false} SumUpdate(parts: seq<multiset<Msg>>, i: nat, p: multiset<Msg>, m: Msg)
    requires i < |parts|
    ensures SumOf(parts[i := p])[m] + parts[i][m] == SumOf(parts)[m] + p[m]
    decreases |parts|
  {
    var parts' := parts[i := p];
    if i == 0 {
      assert parts'[1..] == parts[1..];
    } else {
      assert parts'[1..] == parts[1..][i - 1 := p];
      SumUpdate(parts[1..], i - 1, p, m);
    }
  }

  /** How the total changes when one signalling worker does, counted for one request. */
  lemma SigMoves(sigs: seq<Sig>, w: nat, g: Sig, m: Msg)
    requires w < |sigs|
    ensures SumOf(SigParts(sigs[w := g]))[m] + SigPart(sigs[w])[m] == SumOf(SigParts(sigs))[m] + SigPart(g)[m]
  {
    assert SigParts(sigs[w := g]) == SigParts(sigs)[w := SigPart(g)];
    SumUpdate(SigParts(sigs), w, SigPart(g), m);
  }

  lemma RtcMoves(rtcs: seq<Rtc>, i: nat, r: Rtc, m: Msg)
    requires i < |rtcs|
    ensures SumOf(RtcParts(rtcs[i := r]))[m] + RtcPart(rtcs[i])[m] == SumOf(RtcParts(rtcs))[m] + RtcPart(r)[m]
  {
    assert RtcParts(rtcs[i := r]) == RtcParts(rtcs)[i := RtcPart(r)];
    SumUpdate(RtcParts(rtcs), i, RtcPart(r), m);
  }

  lemma HeadTail<T>(q: seq<T>)
    requires q != []
    ensures multiset(q) == multiset{q[0]} + multiset(q[1..])
  {
    assert q == [q[0]] + q[1..];
  }

  /** How often a request is counted among those in flight, answered and dropped. */
  ghost function Places(s: State, m: Msg): nat {
    InFlight(s)[m] + multiset(s.answered)[m] + multiset(s.dropped)[m]
  }

  /** No step makes or loses a request, except that a dispatch issues one. */
  ghost predicate Balanced(s: State, s': State, m: Msg) {
    Places(s', m) - multiset(s'.issued)[m] == Places(s, m) - multiset(s.issued)[m]
  }

  /** Steps that only move tokens and connections. */
  ghost predicate Housekeeping(a: Action) {
    !a.Dispatch? && !a.SigTakeMsg? && !a.SigAnswer? && !a.SrvTake? && !a.SrvRoute? && !a.RtcTake? && !a.RtcHandle?
  }

  ghost predicate SameParts(s: State, s': State) {
    && |s'.sigs| == |s.sigs| && (forall w :: 0 <= w < |s.sigs| ==> SigPart(s'.sigs[w]) == SigPart(s.sigs[w]))
    && |s'.rtcs| == |s.rtcs| && (forall i :: 0 <= i < |s.rtcs| ==> RtcPart(s'.rtcs[i]) == RtcPart(s.rtcs[i]))
    && SrvPart(s'.srv) == SrvPart(s.srv)
    && s'.issued == s.issued && s'.answered == s.answered && s'.dropped == s.dropped
  }

  lemma SigHousekeeping(s: State, a: Action)
    requires Enabled(s, a) && (a.Accept? || a.AcceptNotify? || a.SigWake? || a.SigTakeConn? || a.SigClose?)
    ensures SameParts(s, Step(s, a))
  {
    hide InFlight;
  }

  lemma DispatchNotifySame(s: State, w: nat, ok: bool)
    requires Enabled(s, DispatchNotify(w, ok))
    ensures SameParts(s, Step(s, DispatchNotify(w, ok)))
  {
    hide InFlight;
  }

  lemma SrvWakeSame(s: State)
    requires Enabled(s, SrvWake)
    ensures SameParts(s, Step(s, SrvWake))
  {
    hide InFlight;
  }

  lemma SrvNotifySame(s: State, ok: bool)
    requires Enabled(s, SrvNotify(ok))
    ensures SameParts(s, Step(s, SrvNotify(ok)))
  {
    hide InFlight;
  }

  lemma RtcHousekeeping(s: State, a: Action)
    requires Enabled(s, a) && (a.RtcWake? || a.RtcNotify?)
    ensures SameParts(s, Step(s, a))
  {
    hide InFlight;
  }

  lemma HousekeepingBalanced(s: State, a: Action, m: Msg)
    requires Enabled(s, a) && Housekeeping(a)
    ensures Balanced(s, Step(s, a), m)
  {
    hide Step, Enabled, SigPart, RtcPart, SrvPart, SumOf;
    if a.Accept? || a.AcceptNotify? || a.SigWake? || a.SigTakeConn? || a.SigClose? {
      SigHousekeeping(s, a);
    } else if a.DispatchNotify? {
      DispatchNotifySame(s, a.w, a.ok);
    } else if a.SrvWake? {
      SrvWakeSame(s);
    } else if a.SrvNotify? {
      SrvNotifySame(s, a.ok);
    } else {
      RtcHousekeeping(s, a);
    }
    var s' := Step(s, a);
    assert SigParts(s'.sigs) == SigParts(s.sigs);
    assert RtcParts(s'.rtcs) == RtcParts(s.rtcs);
  }

  lemma DispatchBalanced(s: State, w: nat, fd: nat, stream: seq<bv8>, m: Msg)
    requires Enabled(s, Dispatch(w, fd, stream))
    ensures Balanced(s, Step(s, Dispatch(w, fd, stream)), m)
  {
    hide SumOf, SigParts, RtcParts;
    SigMoves(s.sigs, w, Step(s, Dispatch(w, fd, stream)).sigs[w], m);
  }

  lemma SigTakeMsgBalanced(s: State, w: nat, m: Msg)
    requires Enabled(s, SigTakeMsg(w))
    ensures Balanced(s, Step(s, SigTakeMsg(w)), m)
  {
    hide SumOf, SigParts, RtcParts;
    SigMoves(s.sigs, w, Step(s, SigTakeMsg(w)).sigs[w], m);
    if s.sigs[w].replies != [] { HeadTail(s.sigs[w].replies); }
  }

  lemma SigAnswerBalanced(s: State, w: nat, ok: bool, m: Msg)
    requires Enabled(s, SigAnswer(w, ok))
    ensures Balanced(s, Step(s, SigAnswer(w, ok)), m)
  {
    hide SumOf, SigParts, RtcParts;
    SigMoves(s.sigs, w, Step(s, SigAnswer(w, ok)).sigs[w], m);
  }

  lemma SrvTakeBalanced(s: State, m: Msg)
    requires Enabled(s, SrvTake)
    ensures Balanced(s, Step(s, SrvTake), m)
  {
    hide SumOf, SigParts, RtcParts;
    if s.srv.queue != [] { HeadTail(s.srv.queue); }
    var s' := Step(s, SrvTake);
    assert SrvPart(s'.srv) == SrvPart(s.srv);
    assert s'.sigs == s.sigs && s'.rtcs == s.rtcs && s'.issued == s.issued && s'.answered == s.answered && s'.dropped == s.dropped;
    hide SrvPart, Step, Enabled;
  }

  lemma SrvRouteBalanced(s: State, ok: bool, m: Msg)
    requires Enabled(s, SrvRoute(ok))
    ensures Balanced(s, Step(s, SrvRoute(ok)), m)
  {
    hide SumOf, SigParts, RtcParts, WorkerFor;
    var s' := Step(s, SrvRoute(ok));
    if s'.srv.pc.VNotify? { RtcMoves(s.rtcs, s'.srv.pc.rtc, s'.rtcs[s'.srv.pc.rtc], m); }
  }

  lemma RtcTakeBalanced(s: State, i: nat, m: Msg)
    requires Enabled(s, RtcTake(i))
    ensures Balanced(s, Step(s, RtcTake(i)), m)
  {
    hide SumOf, SigParts, RtcParts;
    RtcMoves(s.rtcs, i, Step(s, RtcTake(i)).rtcs[i], m);
    if s.rtcs[i].queue != [] { HeadTail(s.rtcs[i].queue); }
  }

  lemma RtcHandleBalanced(s: State, i: nat, ok: bool, m: Msg)
    requires Enabled(s, RtcHandle(i, ok))
    ensures Balanced(s, Step(s, RtcHandle(i, ok)), m)
  {
    hide SumOf, SigParts, RtcParts;
    var s' := Step(s, RtcHandle(i, ok));
    var w := s.rtcs[i].pc.msg.worker;
    RtcMoves(s.rtcs, i, s'.rtcs[i], m);
    SigMoves(s.sigs, w, s'.sigs[w], m);
  }

  lemma StepBalanced(s: State, a: Action, m: Msg)
    requires Enabled(s, a)
    ensures Balanced(s, Step(s, a), m)
  {
    hide Balanced, Step;
    match a
    case Dispatch(w, fd, stream) => DispatchBalanced(s, w, fd, stream, m);
    case SigTakeMsg(w) => SigTakeMsgBalanced(s, w, m);
    case SigAnswer(w, ok) => SigAnswerBalanced(s, w, ok, m);
    case SrvTake => SrvTakeBalanced(s, m);
    case SrvRoute(ok) => SrvRouteBalanced(s, ok, m);
    case RtcTake(i) => RtcTakeBalanced(s, i, m);
    case RtcHandle(i, ok) => RtcHandleBalanced(s, i, ok, m);
    case _ => HousekeepingBalanced(s, a, m);
  }

  // ---------------------------------------------------------------------------------
  // Order: one rtc worker per stream name, requests taken in the order they were issued

  ghost predicate Increasing(ms: seq<Msg>) {
    forall j, k :: 0 <= j < k < |ms| ==> ms[j].id < ms[k].id
  }

  /** Requests the server still has to route. */
  ghost function Unrouted(v: Srv): seq<Msg> {
    (if v.pc.VRoute? then [v.pc.msg] else []) + v.queue
  }

  /** All an rtc worker took, has queued, or may still be sent, in that order. */
  ghost function Lane(r: Rtc, unrouted: seq<Msg>): seq<Msg> {
    r.handled + r.queue + unrouted
  }

  ghost predicate Issued(m: Msg, issued: seq<Msg>) {
    m.id < |issued| && issued[m.id] == m
  }

  ghost predicate LaneOk(r: Rtc, unrouted: seq<Msg>, issued: seq<Msg>) {
    && Increasing(Lane(r, unrouted))
    && (forall k :: 0 <= k < |Lane(r, unrouted)| ==> Issued(Lane(r, unrouted)[k], issued))
  }

  ghost predicate RoutedTo(r: Rtc, i: nat, workers: nat)
    requires i < workers
  {
    && (forall k :: 0 <= k < |r.handled| ==> WorkerFor(r.handled[k].stream, workers) == i)
    && (forall k :: 0 <= k < |r.queue| ==> WorkerFor(r.queue[k].stream, workers) == i)
  }

  ghost predicate Ordered(s: State) {
    && LaneOk(Rtc(RIdle, 0, [], [], 0), Unrouted(s.srv), s.issued)
    && (forall i :: 0 <= i < |s.rtcs| ==> LaneOk(s.rtcs[i], Unrouted(s.srv), s.issued))
    && (forall i :: 0 <= i < |s.rtcs| ==> RoutedTo(s.rtcs[i], i, |s.rtcs|))
  }

  lemma LaneGrows(r: Rtc, unrouted: seq<Msg>, issued: seq<Msg>, m: Msg)
    requires LaneOk(r, unrouted, issued) && m.id == |issued|
    ensures LaneOk(r, unrouted + [m], issued + [m])
  {
    assert Lane(r, unrouted + [m]) == Lane(r, unrouted) + [m];
  }

  lemma LaneSkips(r: Rtc, unrouted: seq<Msg>, issued: seq<Msg>)
    requires LaneOk(r, unrouted, issued) && unrouted != []
    ensures LaneOk(r, unrouted[1..], issued)
  {
    var n := |r.handled + r.queue|;
    var l, l' := Lane(r, unrouted), Lane(r, unrouted[1..]);
    forall k | 0 <= k < |l'| ensures l'[k] == l[if k < n then k else k + 1] {}
    forall j, k | 0 <= j < k < |l'| ensures l'[j].id < l'[k].id {
      assert l[if j < n then j else j + 1].id < l[if k < n then k else k + 1].id;
    }
  }

  lemma LaneReceives(r: Rtc, unrouted: seq<Msg>, issued: seq<Msg>)
    requires LaneOk(r, unrouted, issued) && unrouted != []
    ensures LaneOk(r.(queue := r.queue + [unrouted[0]]), unrouted[1..], issued)
  {
    assert Lane(r.(queue := r.queue + [unrouted[0]]), unrouted[1..]) == Lane(r, unrouted);
  }

  lemma LaneTakes(r: Rtc, unrouted: seq<Msg>, issued: seq<Msg>, pc: RtcPc)
    requires LaneOk(r, unrouted, issued) && r.queue != []
    ensures LaneOk(r.(pc := pc, queue := r.queue[1..], handled := r.handled + [r.queue[0]]), unrouted, issued)
  {
    var r' := r.(pc := pc, queue := r.queue[1..], handled := r.handled + [r.queue[0]]);
    assert Lane(r', unrouted) == Lane(r, unrouted);
  }

  /** Two workers with the same requests are in the same order. */
  lemma LaneSame(r: Rtc, r': Rtc, unrouted: seq<Msg>, issued: seq<Msg>)
    requires LaneOk(r, unrouted, issued) && r'.queue == r.queue && r'.handled == r.handled
    ensures LaneOk(r', unrouted, issued)
  {
    assert Lane(r', unrouted) == Lane(r, unrouted);
  }

  /** Steps that neither issue, route nor take a request. */
  ghost predicate KeepsOrder(a: Action) {
    !a.Dispatch? && !a.SrvTake? && !a.SrvRoute? && !a.RtcTake?
  }

  lemma KeepsOrderFrame(s: State, a: Action)
    requires Enabled(s, a) && KeepsOrder(a)
    ensures var s' := Step(s, a);
            && s'.issued == s.issued && Unrouted(s'.srv) == Unrouted(s.srv) && |s'.rtcs| == |s.rtcs|
            && forall i :: 0 <= i < |s.rtcs| ==>
                 s'.rtcs[i].queue == s.rtcs[i].queue && s'.rtcs[i].handled == s.rtcs[i].handled
  {
    hide InFlight;
  }

  lemma KeepsOrderOrdered(s: State, a: Action)
    requires Ordered(s) && Enabled(s, a) && KeepsOrder(a)
    ensures Ordered(Step(s, a))
  {
    hide Step, Enabled, LaneOk, WorkerFor, Unrouted;
    KeepsOrderFrame(s, a);
    var s' := Step(s, a);
    forall i | 0 <= i < |s'.rtcs|
      ensures LaneOk(s'.rtcs[i], Unrouted(s'.srv), s'.issued) && RoutedTo(s'.rtcs[i], i, |s'.rtcs|)
    {
      LaneSame(s.rtcs[i], s'.rtcs[i], Unrouted(s.srv), s.issued);
      assert RoutedTo(s.rtcs[i], i, |s.rtcs|);
    }
  }

  lemma DispatchOrdered(s: State, w: nat, fd: nat, stream: seq<bv8>)
    requires Ordered(s) && Enabled(s, Dispatch(w, fd, stream))
    ensures Ordered(Step(s, Dispatch(w, fd, stream)))
  {
    hide LaneOk, RoutedTo;
    var s' := Step(s, Dispatch(w, fd, stream));
    var m := s'.issued[|s.issued|];
    assert Unrouted(s'.srv) == Unrouted(s.srv) + [m];
    LaneGrows(Rtc(RIdle, 0, [], [], 0), Unrouted(s.srv), s.issued, m);
    forall i | 0 <= i < |s'.rtcs| ensures LaneOk(s'.rtcs[i], Unrouted(s'.srv), s'.issued) {
      LaneGrows(s.rtcs[i], Unrouted(s.srv), s.issued, m);
    }
  }

  lemma SrvTakeOrdered(s: State)
    requires Ordered(s) && Enabled(s, SrvTake)
    ensures Ordered(Step(s, SrvTake))
  {
    hide LaneOk, RoutedTo;
    assert Unrouted(Step(s, SrvTake).srv) == Unrouted(s.srv);
  }

  lemma SrvRouteOrdered(s: State, ok: bool)
    requires Ordered(s) && Enabled(s, SrvRoute(ok))
    ensures Ordered(Step(s, SrvRoute(ok)))
  {
    hide LaneOk, WorkerFor, RoutedTo;
    var s' := Step(s, SrvRoute(ok));
    var u := Unrouted(s.srv);
    RouteFrame(s, ok);
    hide Step, Enabled, Unrouted;
    LaneSkips(Rtc(RIdle, 0, [], [], 0), u, s.issued);
    forall i | 0 <= i < |s'.rtcs|
      ensures LaneOk(s'.rtcs[i], Unrouted(s'.srv), s'.issued) && RoutedTo(s'.rtcs[i], i, |s'.rtcs|)
    {
      LaneSkips(s.rtcs[i], u, s.issued);
      if s'.rtcs[i] != s.rtcs[i] {
        LaneReceives(s.rtcs[i], u, s.issued);
        RoutedMore(s.rtcs[i], i, |s.rtcs|, u[0]);
      }
    }
  }

  /** What routing one request changes. */
  lemma RouteFrame(s: State, ok: bool)
    requires Enabled(s, SrvRoute(ok))
    ensures var (s', u) := (Step(s, SrvRoute(ok)), Unrouted(s.srv));
            && u != [] && u[1..] == Unrouted(s'.srv) && s'.issued == s.issued && |s'.rtcs| == |s.rtcs|
            && forall i :: 0 <= i < |s.rtcs| ==>
                 s'.rtcs[i] == s.rtcs[i] || (s'.rtcs[i] == s.rtcs[i].(queue := s.rtcs[i].queue + [u[0]]) && WorkerFor(u[0].stream, |s.rtcs|) == i)
  {
    hide WorkerFor, InFlight;
  }

  lemma RoutedMore(r: Rtc, i: nat, n: nat, m: Msg)
    requires i < n && RoutedTo(r, i, n) && WorkerFor(m.stream, n) == i
    ensures RoutedTo(r.(queue := r.queue + [m]), i, n)
  {
    hide WorkerFor;
  }

  lemma RtcTakeOrdered(s: State, i: nat)
    requires Ordered(s) && Enabled(s, RtcTake(i))
    ensures Ordered(Step(s, RtcTake(i)))
  {
    hide LaneOk, WorkerFor;
    var s' := Step(s, RtcTake(i));
    var u, n := Unrouted(s.srv), s.issued;
    forall k | 0 <= k < |s'.rtcs|
      ensures LaneOk(s'.rtcs[k], u, n) && RoutedTo(s'.rtcs[k], k, |s'.rtcs|)
    {
      assert RoutedTo(s.rtcs[k], k, |s.rtcs|);
      if k == i {
        if s.rtcs[i].queue == [] { LaneSame(s.rtcs[i], s'.rtcs[i], u, n); }
        else { LaneTakes(s.rtcs[i], u, n, RHandle(s.rtcs[i].queue[0])); }
      }
    }
  }

  lemma StepOrdered(s: State, a: Action)
    requires Ordered(s) && Enabled(s, a)
    ensures Ordered(Step(s, a))
  {
    hide Ordered, Step;
    match a
    case Dispatch(w, fd, stream) => DispatchOrdered(s, w, fd, stream);
    case SrvTake => SrvTakeOrdered(s);
    case SrvRoute(ok) => SrvRouteOrdered(s, ok);
    case RtcTake(i) => RtcTakeOrdered(s, i);
    case _ => KeepsOrderOrdered(s, a);
  }

  // ---------------------------------------------------------------------------------
  // Wake-ups: a token always has a message behind it

  ghost function Total(xs: seq<nat>): nat {
    if xs == [] then 0 else xs[0] + Total(xs[1..])
  }

  lemma {:induction false} TotalUpdate(xs: seq<nat>, i: nat, x: nat)
    requires i < |xs|
    ensures Total(xs[i := x]) == Total(xs) - xs[i] + x
    decreases |xs|
  {
    if i == 0 {
      assert xs[0 := x][1..] == xs[1..];
    } else {
      assert xs[i := x][1..] == xs[1..][i - 1 := x];
      TotalUpdate(xs[1..], i - 1, x);
    }
  }

  ghost function One(b: bool): nat { if b then 1 else 0 }

  /** Signalling workers that pushed a request and still have to write the server's token. */
  ghost function SigOwes(sigs: seq<Sig>): seq<nat> {
    seq(|sigs|, w requires 0 <= w < |sigs| => One(sigs[w].pc.SNotify?))
  }

  /** Rtc workers that pushed a reply for worker w and still have to write its token. */
  ghost function RtcOwes(rtcs: seq<Rtc>, w: nat): seq<nat> {
    seq(|rtcs|, i requires 0 <= i < |rtcs| => One(rtcs[i].pc == RNotify(w)))
  }

  /** Tokens in the pipe, the one in hand, those still to be written and those lost are as many as the messages. */
  ghost predicate SrvTokens(v: Srv, owed: nat) {
    v.pipe + One(v.pc.VToken?) + owed + v.lost == |v.queue|
  }

  ghost predicate RtcTokens(r: Rtc, owed: nat) {
    r.pipe + One(r.pc.RToken?) + owed + r.lost == |r.queue|
  }

  ghost predicate SigTokens(g: Sig, owedMsgs: nat, owedConns: nat) {
    && multiset(g.pipe)[RtcMsg] + One(g.pc == SToken(RtcMsg)) + owedMsgs + g.lostMsgs == |g.replies|
    && multiset(g.pipe)[NewConn] + One(g.pc == SToken(NewConn)) + owedConns + g.lostConns == |g.newConns|
  }

  ghost predicate Backed(s: State) {
    && SrvTokens(s.srv, Total(SigOwes(s.sigs)))
    && (forall i :: 0 <= i < |s.rtcs| ==> RtcTokens(s.rtcs[i], One(s.srv.pc == VNotify(i))))
    && (forall w :: 0 <= w < |s.sigs| ==>
          SigTokens(s.sigs[w], Total(RtcOwes(s.rtcs, w)), One(s.accept == ANotify(w))))
  }

  lemma SigOwesUpdate(sigs: seq<Sig>, w: nat, g: Sig)
    requires w < |sigs|
    ensures Total(SigOwes(sigs[w := g])) == Total(SigOwes(sigs)) - One(sigs[w].pc.SNotify?) + One(g.pc.SNotify?)
  {
    assert SigOwes(sigs[w := g]) == SigOwes(sigs)[w := One(g.pc.SNotify?)];
    TotalUpdate(SigOwes(sigs), w, One(g.pc.SNotify?));
  }

  lemma RtcOwesUpdate(rtcs: seq<Rtc>, i: nat, r: Rtc, w: nat)
    requires i < |rtcs|
    ensures Total(RtcOwes(rtcs[i := r], w)) == Total(RtcOwes(rtcs, w)) - One(rtcs[i].pc == RNotify(w)) + One(r.pc == RNotify(w))
  {
    assert RtcOwes(rtcs[i := r], w) == RtcOwes(rtcs, w)[i := One(r.pc == RNotify(w))];
    TotalUpdate(RtcOwes(rtcs, w), i, One(r.pc == RNotify(w)));
  }

  lemma SigWakeBacked(s: State, w: nat)
    requires Backed(s) && Enabled(s, SigWake(w))
    ensures Backed(Step(s, SigWake(w)))
  {
    hide InFlight, Total, RtcOwes, SigOwes;
    SigOwesUpdate(s.sigs, w, Step(s, SigWake(w)).sigs[w]);
    assert SigTokens(s.sigs[w], Total(RtcOwes(s.rtcs, w)), One(s.accept == ANotify(w)));
    HeadTail(s.sigs[w].pipe);
  }

  lemma SigTakeConnBacked(s: State, w: nat, addr: nat, ok: bool)
    requires Backed(s) && Enabled(s, SigTakeConn(w, addr, ok))
    ensures Backed(Step(s, SigTakeConn(w, addr, ok)))
  {
    hide InFlight, Total, RtcOwes, SigOwes;
    SigOwesUpdate(s.sigs, w, Step(s, SigTakeConn(w, addr, ok)).sigs[w]);
    assert SigTokens(s.sigs[w], Total(RtcOwes(s.rtcs, w)), One(s.accept == ANotify(w)));
  }

  lemma SigTakeMsgBacked(s: State, w: nat)
    requires Backed(s) && Enabled(s, SigTakeMsg(w))
    ensures Backed(Step(s, SigTakeMsg(w)))
  {
    hide InFlight, Total, RtcOwes, SigOwes;
    SigOwesUpdate(s.sigs, w, Step(s, SigTakeMsg(w)).sigs[w]);
    assert SigTokens(s.sigs[w], Total(RtcOwes(s.rtcs, w)), One(s.accept == ANotify(w)));
  }

  lemma SigAnswerBacked(s: State, w: nat, ok: bool)
    requires Backed(s) && Enabled(s, SigAnswer(w, ok))
    ensures Backed(Step(s, SigAnswer(w, ok)))
  {
    hide InFlight, Total, RtcOwes, SigOwes;
    SigOwesUpdate(s.sigs, w, Step(s, SigAnswer(w, ok)).sigs[w]);
    assert SigTokens(s.sigs[w], Total(RtcOwes(s.rtcs, w)), One(s.accept == ANotify(w)));
  }

  lemma SigCloseBacked(s: State, w: nat, fd: nat)
    requires Backed(s) && Enabled(s, SigClose(w, fd))
    ensures Backed(Step(s, SigClose(w, fd)))
  {
    hide InFlight, Total, RtcOwes, SigOwes;
    SigOwesUpdate(s.sigs, w, Step(s, SigClose(w, fd)).sigs[w]);
    assert SigTokens(s.sigs[w], Total(RtcOwes(s.rtcs, w)), One(s.accept == ANotify(w)));
  }

  lemma DispatchBacked(s: State, w: nat, fd: nat, stream: seq<bv8>)
    requires Backed(s) && Enabled(s, Dispatch(w, fd, stream))
    ensures Backed(Step(s, Dispatch(w, fd, stream)))
  {
    hide InFlight, Total, RtcOwes, SigOwes;
    SigOwesUpdate(s.sigs, w, Step(s, Dispatch(w, fd, stream)).sigs[w]);
    assert SigTokens(s.sigs[w], Total(RtcOwes(s.rtcs, w)), One(s.accept == ANotify(w)));
  }

  lemma DispatchNotifyBacked(s: State, w: nat, ok: bool)
    requires Backed(s) && Enabled(s, DispatchNotify(w, ok))
    ensures Backed(Step(s, DispatchNotify(w, ok)))
  {
    hide InFlight, Total, RtcOwes, SigOwes;
    SigOwesUpdate(s.sigs, w, Step(s, DispatchNotify(w, ok)).sigs[w]);
    assert SigTokens(s.sigs[w], Total(RtcOwes(s.rtcs, w)), One(s.accept == ANotify(w)));
  }

  lemma AcceptStepBacked(s: State, a: Action)
    requires Backed(s) && Enabled(s, a) && (a.Accept? || a.AcceptNotify?)
    ensures Backed(Step(s, a))
  {
    hide InFlight, Total, RtcOwes, SigOwes;
    var s' := Step(s, a);
    var w := if a.Accept? then a.w else s.accept.sig;
    SigOwesUpdate(s.sigs, w, s'.sigs[w]);
    assert SigTokens(s.sigs[w], Total(RtcOwes(s.rtcs, w)), One(s.accept == ANotify(w)));
  }

  lemma SrvStepBacked(s: State, a: Action)
    requires Backed(s) && Enabled(s, a) && (a.SrvWake? || a.SrvTake?)
    ensures Backed(Step(s, a)) && Step(s, a).crashed == s.crashed
  {
    hide InFlight, Total, RtcOwes, SigOwes;
  }

  lemma SrvRouteBacked(s: State, a: Action)
    requires Backed(s) && Enabled(s, a) && (a.SrvRoute? || a.SrvNotify?)
    ensures Backed(Step(s, a))
  {
    hide InFlight, Total, RtcOwes, SigOwes, WorkerFor;
    var s' := Step(s, a);
    forall w | 0 <= w < |s'.sigs|
      ensures SigTokens(s'.sigs[w], Total(RtcOwes(s'.rtcs, w)), One(s'.accept == ANotify(w)))
    {
      if a.SrvRoute? && s'.srv.pc.VNotify? { RtcOwesUpdate(s.rtcs, s'.srv.pc.rtc, s'.rtcs[s'.srv.pc.rtc], w); }
      if a.SrvNotify? { RtcOwesUpdate(s.rtcs, s.srv.pc.rtc, s'.rtcs[s.srv.pc.rtc], w); }
    }
  }

  lemma RtcTakeBacked(s: State, a: Action)
    requires Backed(s) && Enabled(s, a) && (a.RtcWake? || a.RtcTake?)
    ensures Backed(Step(s, a))
  {
    hide InFlight, Total, RtcOwes, SigOwes;
    var s' := Step(s, a);
    assert RtcTokens(s.rtcs[a.i], One(s.srv.pc == VNotify(a.i)));
    forall w | 0 <= w < |s'.sigs|
      ensures SigTokens(s'.sigs[w], Total(RtcOwes(s'.rtcs, w)), One(s'.accept == ANotify(w)))
    {
      RtcOwesUpdate(s.rtcs, a.i, s'.rtcs[a.i], w);
    }
  }

  lemma RtcHandleBacked(s: State, i: nat, ok: bool)
    requires Backed(s) && Enabled(s, RtcHandle(i, ok))
    ensures Backed(Step(s, RtcHandle(i, ok)))
  {
    hide InFlight, Total, RtcOwes, SigOwes;
    var s' := Step(s, RtcHandle(i, ok));
    var v := s.rtcs[i].pc.msg.worker;
    SigOwesUpdate(s.sigs, v, s'.sigs[v]);
    forall w | 0 <= w < |s'.sigs|
      ensures SigTokens(s'.sigs[w], Total(RtcOwes(s'.rtcs, w)), One(s'.accept == ANotify(w)))
    {
      RtcOwesUpdate(s.rtcs, i, s'.rtcs[i], w);
    }
  }

  lemma RtcNotifyBacked(s: State, i: nat, ok: bool)
    requires Backed(s) && Enabled(s, RtcNotify(i, ok))
    ensures Backed(Step(s, RtcNotify(i, ok)))
  {
    hide InFlight, Total, RtcOwes, SigOwes;
    var s' := Step(s, RtcNotify(i, ok));
    var v := s.rtcs[i].pc.sig;
    SigOwesUpdate(s.sigs, v, s'.sigs[v]);
    forall w | 0 <= w < |s'.sigs|
      ensures SigTokens(s'.sigs[w], Total(RtcOwes(s'.rtcs, w)), One(s'.accept == ANotify(w)))
    {
      RtcOwesUpdate(s.rtcs, i, s'.rtcs[i], w);
    }
  }

  lemma StepBacked(s: State, a: Action)
    requires Backed(s) && Enabled(s, a)
    ensures Backed(Step(s, a))
  {
    hide Backed, Step;
    match a
    case Accept(_, _) => AcceptStepBacked(s, a);
    case AcceptNotify(_) => AcceptStepBacked(s, a);
    case Dispatch(w, fd, stream) => DispatchBacked(s, w, fd, stream);
    case DispatchNotify(w, ok) => DispatchNotifyBacked(s, w, ok);
    case SigWake(w) => SigWakeBacked(s, w);
    case SigTakeConn(w, addr, ok) => SigTakeConnBacked(s, w, addr, ok);
    case SigTakeMsg(w) => SigTakeMsgBacked(s, w);
    case SigAnswer(w, ok) => SigAnswerBacked(s, w, ok);
    case SigClose(w, fd) => SigCloseBacked(s, w, fd);
    case SrvWake => SrvStepBacked(s, a);
    case SrvTake => SrvStepBacked(s, a);
    case SrvRoute(_) => SrvRouteBacked(s, a);
    case SrvNotify(_) => SrvRouteBacked(s, a);
    case RtcWake(_) => RtcTakeBacked(s, a);
    case RtcTake(_) => RtcTakeBacked(s, a);
    case RtcHandle(i, ok) => RtcHandleBacked(s, i, ok);
    case RtcNotify(i, ok) => RtcNotifyBacked(s, i, ok);
  }

  // ---------------------------------------------------------------------------------
  // Answers reach the connection object that asked

  /** Every request is counted as often as it was issued. */
  ghost predicate Conserved(s: State) {
    && (forall m :: Places(s, m) == multiset(s.issued)[m])
    && (forall k :: 0 <= k < |s.issued| ==> s.issued[k].id == k && s.issued[k].worker < |s.sigs|)
  }

  /** What a step does to the numbering of requests. */
  lemma IssuedGrows(s: State, a: Action)
    requires Enabled(s, a)
    ensures var s' := Step(s, a);
            && |s'.sigs| == |s.sigs|
            && (!a.Dispatch? ==> s'.issued == s.issued)
            && (a.Dispatch? ==>
                  && |s'.issued| == |s.issued| + 1
                  && s'.issued[..|s.issued|] == s.issued
                  && s'.issued[|s.issued|].id == |s.issued|
                  && s'.issued[|s.issued|].worker == a.w < |s.sigs|)
  {
    hide InFlight;
  }

  lemma StepConserves(s: State, a: Action)
    requires Conserved(s) && Enabled(s, a)
    ensures Conserved(Step(s, a))
  {
    hide Places, Step, Enabled;
    var s' := Step(s, a);
    IssuedGrows(s, a);
    forall m ensures Places(s', m) == multiset(s'.issued)[m] {
      StepBalanced(s, a, m);
    }
    forall k | 0 <= k < |s'.issued| ensures s'.issued[k].id == k && s'.issued[k].worker < |s'.sigs| {
      if k < |s.issued| { assert s'.issued[k] == s.issued[k]; }
    }
  }

  /** An address in the table that a request also carries belongs to the same object. */
  ghost predicate Knows(conns: map<nat, Slot>, m: Msg) {
    forall fd :: fd in conns && conns[fd].conn.addr == m.conn.addr ==> conns[fd].conn == m.conn
  }

  ghost predicate SlotOk(slot: Slot, w: nat, fd: nat) {
    forall m :: m in slot.answered ==> m.worker == w && m.fd == fd && m.conn == slot.conn
  }

  ghost predicate ConnsOk(conns: map<nat, Slot>, w: nat) {
    && (forall fd :: fd in conns ==> SlotOk(conns[fd], w, fd))
    && (forall fd, fd' :: fd in conns && fd' in conns && fd != fd' ==>
          conns[fd].conn.addr != conns[fd'].conn.addr)
  }

  /** Where replies wait, they wait at the worker that issued the request. */
  ghost predicate Home(g: Sig, w: nat) {
    && (forall k :: 0 <= k < |g.replies| ==> g.replies[k].worker == w)
    && (g.pc.SAnswer? ==> g.pc.msg.worker == w)
  }

  ghost predicate Addressed(s: State) {
    && (forall w :: 0 <= w < |s.sigs| ==> ConnsOk(s.sigs[w].conns, w))
    && (forall w :: 0 <= w < |s.sigs| ==> Home(s.sigs[w], w))
    && (forall m :: m in InFlight(s) ==> m.worker < |s.sigs| && Knows(s.sigs[m.worker].conns, m))
  }

  /** Only a dispatch adds to the requests in flight. */
  lemma FlightShrinks(s: State, a: Action, m: Msg)
    requires Enabled(s, a) && m in InFlight(Step(s, a))
    ensures m in InFlight(s) || (a.Dispatch? && |Step(s, a).issued| > |s.issued| && m == Step(s, a).issued[|s.issued|])
  {
    hide InFlight, Step, Enabled;
    StepBalanced(s, a, m);
    HistoriesGrow(s, a, m);
    IssuedGrows(s, a);
    var s' := Step(s, a);
    if a.Dispatch? { assert s'.issued == s.issued + [s'.issued[|s.issued|]]; }
  }

  lemma HistoriesGrow(s: State, a: Action, m: Msg)
    requires Enabled(s, a)
    ensures var s' := Step(s, a);
            && multiset(s'.answered)[m] >= multiset(s.answered)[m]
            && multiset(s'.dropped)[m] >= multiset(s.dropped)[m]
  {
    var s' := Step(s, a);
    hide InFlight;
    assert s.answered <= s'.answered && s.dropped <= s'.dropped;
    hide Step, Enabled;
    PrefixCounts(s.answered, s'.answered, m);
    PrefixCounts(s.dropped, s'.dropped, m);
  }

  lemma PrefixCounts(p: seq<Msg>, q: seq<Msg>, m: Msg)
    requires p <= q
    ensures multiset(p)[m] <= multiset(q)[m]
  {
    assert q == p + q[|p|..];
  }

  /** A table that lost entries, or only had answers added to them. */
  ghost predicate Shrunk(conns: map<nat, Slot>, conns': map<nat, Slot>) {
    forall fd :: fd in conns' ==> fd in conns && conns'[fd].conn == conns[fd].conn
  }

  lemma ShrunkKnows(conns: map<nat, Slot>, conns': map<nat, Slot>, m: Msg)
    requires Shrunk(conns, conns') && Knows(conns, m)
    ensures Knows(conns', m)
  {
  }

  /** Steps that open no connection shrink every table; those that also answer nothing keep the slots. */
  lemma TablesShrink(s: State, a: Action, w: nat)
    requires Enabled(s, a) && !a.SigTakeConn? && w < |s.sigs|
    ensures |Step(s, a).sigs| == |s.sigs|
    ensures Shrunk(s.sigs[w].conns, Step(s, a).sigs[w].conns)
    ensures !a.SigAnswer? ==>
              forall fd :: fd in Step(s, a).sigs[w].conns ==> Step(s, a).sigs[w].conns[fd] == s.sigs[w].conns[fd]
  {
    hide InFlight;
    if a.SigAnswer? {
      AnswerShrinks(s, a.w, a.ok, w);
      hide Step, Enabled;
    } else if a.DispatchNotify? || a.SigClose? {
    } else {
      OthersKeepTables(s, a, w);
      hide Step, Enabled;
    }
  }

  lemma AnswerShrinks(s: State, v: nat, ok: bool, w: nat)
    requires Enabled(s, SigAnswer(v, ok)) && w < |s.sigs|
    ensures |Step(s, SigAnswer(v, ok)).sigs| == |s.sigs|
    ensures Shrunk(s.sigs[w].conns, Step(s, SigAnswer(v, ok)).sigs[w].conns)
  {
    hide InFlight;
  }

  lemma OthersKeepTables(s: State, a: Action, w: nat)
    requires Enabled(s, a) && !a.SigTakeConn? && !a.SigAnswer? && !a.DispatchNotify? && !a.SigClose? && w < |s.sigs|
    ensures |Step(s, a).sigs| == |s.sigs| && Step(s, a).sigs[w].conns == s.sigs[w].conns
    ensures Shrunk(s.sigs[w].conns, Step(s, a).sigs[w].conns)
  {
    hide InFlight, WorkerFor;
  }

  lemma ShrunkConnsOk(conns: map<nat, Slot>, conns': map<nat, Slot>, w: nat)
    requires ConnsOk(conns, w)
    requires forall fd :: fd in conns' ==> fd in conns && conns'[fd] == conns[fd]
    ensures ConnsOk(conns', w)
  {
  }

  lemma RepliesStayHome(s: State, a: Action, w: nat)
    requires Enabled(s, a) && w < |s.sigs| == |Step(s, a).sigs| && Home(s.sigs[w], w)
    ensures Home(Step(s, a).sigs[w], w)
  {
    hide InFlight;
    if a.RtcHandle? {
      HandleStaysHome(s, a.i, a.ok, w);
    } else if a.SigTakeMsg? {
      TakeMsgStaysHome(s, a.w, w);
    } else {
      OthersStayHome(s, a, w);
      hide Step, Enabled, Home;
    }
  }

  lemma HandleStaysHome(s: State, i: nat, ok: bool, w: nat)
    requires Enabled(s, RtcHandle(i, ok)) && w < |s.sigs| && Home(s.sigs[w], w)
    ensures Home(Step(s, RtcHandle(i, ok)).sigs[w], w)
  {
  }

  lemma TakeMsgStaysHome(s: State, v: nat, w: nat)
    requires Enabled(s, SigTakeMsg(v)) && w < |s.sigs| && Home(s.sigs[w], w)
    ensures Home(Step(s, SigTakeMsg(v)).sigs[w], w)
  {
  }

  lemma OthersStayHome(s: State, a: Action, w: nat)
    requires Enabled(s, a) && !a.RtcHandle? && !a.SigTakeMsg? && w < |s.sigs| == |Step(s, a).sigs| && Home(s.sigs[w], w)
    ensures Home(Step(s, a).sigs[w], w)
  {
    hide InFlight, WorkerFor;
  }

  /** The request in hand is in flight. */
  lemma AnswerInFlight(s: State, w: nat)
    requires w < |s.sigs| && s.sigs[w].pc.SAnswer?
    ensures s.sigs[w].pc.msg in InFlight(s)
  {
    SumHas(SigParts(s.sigs), w, s.sigs[w].pc.msg);
  }

  lemma {:induction false} SumHas(parts: seq<multiset<Msg>>, i: nat, m: Msg)
    requires i < |parts| && m in parts[i]
    ensures m in SumOf(parts)
    decreases |parts|
  {
    if i > 0 { SumHas(parts[1..], i - 1, m); }
  }

  lemma TakeConnTable(s: State, w: nat, addr: nat, ok: bool)
    requires Addressed(s) && Enabled(s, SigTakeConn(w, addr, ok))
    ensures ConnsOk(Step(s, SigTakeConn(w, addr, ok)).sigs[w].conns, w)
  {
    hide InFlight, Knows, Home;
    assert ConnsOk(s.sigs[w].conns, w);
  }

  lemma TakeConnKnows(s: State, w: nat, addr: nat, ok: bool, m: Msg)
    requires Enabled(s, SigTakeConn(w, addr, ok)) && m in InFlight(s) && m.worker < |s.sigs| == |Step(s, SigTakeConn(w, addr, ok)).sigs|
    requires Knows(s.sigs[m.worker].conns, m)
    ensures Knows(Step(s, SigTakeConn(w, addr, ok)).sigs[m.worker].conns, m)
  {
    hide InFlight;
  }

  lemma AnswerTable(s: State, w: nat, ok: bool)
    requires Addressed(s) && Enabled(s, SigAnswer(w, ok))
    ensures ConnsOk(Step(s, SigAnswer(w, ok)).sigs[w].conns, w)
  {
    AnswerInFlight(s, w);
    var g := s.sigs[w];
    var m := g.pc.msg;
    assert Home(g, w) && ConnsOk(g.conns, w) && Knows(g.conns, m);
    if m.fd in g.conns && g.conns[m.fd].conn.addr == m.conn.addr { ConnsAnswer(g.conns, w, m); }
    hide InFlight, ConnsOk;
  }

  lemma ConnsAnswer(conns: map<nat, Slot>, w: nat, m: Msg)
    requires ConnsOk(conns, w) && m.worker == w && m.fd in conns && conns[m.fd].conn == m.conn
    ensures ConnsOk(conns[m.fd := conns[m.fd].(answered := conns[m.fd].answered + [m])], w)
  {
    assert SlotOk(conns[m.fd], w, m.fd);
  }

  lemma DispatchKnows(s: State, w: nat, fd: nat, stream: seq<bv8>)
    requires Addressed(s) && Enabled(s, Dispatch(w, fd, stream))
    ensures var s' := Step(s, Dispatch(w, fd, stream));
            var m := s'.issued[|s.issued|];
            m.worker == w && Knows(s'.sigs[w].conns, m)
  {
    hide InFlight, Home, SlotOk;
    assert ConnsOk(s.sigs[w].conns, w);
  }

  /** The tables after a step. */
  lemma TablesStayOk(s: State, a: Action, w: nat)
    requires Addressed(s) && Enabled(s, a) && w < |s.sigs| == |Step(s, a).sigs|
    ensures ConnsOk(Step(s, a).sigs[w].conns, w)
  {
    var conns, conns' := s.sigs[w].conns, Step(s, a).sigs[w].conns;
    assert ConnsOk(conns, w);
    if a.SigTakeConn? && a.w == w {
      TakeConnTable(s, a.w, a.addr, a.ok);
    } else if a.SigAnswer? && a.w == w {
      AnswerTable(s, a.w, a.ok);
    } else if a.SigTakeConn? || a.SigAnswer? {
    } else {
      hide Step, Enabled;
      TablesShrink(s, a, w);
      ShrunkConnsOk(conns, conns', w);
    }
  }

  lemma FlightStaysKnown(s: State, a: Action, m: Msg)
    requires Addressed(s) && Enabled(s, a) && m in InFlight(Step(s, a)) && |Step(s, a).sigs| == |s.sigs|
    ensures m.worker < |s.sigs| && Knows(Step(s, a).sigs[m.worker].conns, m)
  {
    FlightShrinks(s, a, m);
    hide Step, Enabled, InFlight;
    if m in InFlight(s) {
      if a.SigTakeConn? {
        TakeConnKnows(s, a.w, a.addr, a.ok, m);
      } else {
        TablesShrink(s, a, m.worker);
        ShrunkKnows(s.sigs[m.worker].conns, Step(s, a).sigs[m.worker].conns, m);
      }
    } else {
      IssuedGrows(s, a);
      DispatchKnows(s, a.w, a.fd, a.stream);
    }
  }

  lemma StepAddressed(s: State, a: Action)
    requires Addressed(s) && Enabled(s, a)
    ensures Addressed(Step(s, a))
  {
    hide Step, Enabled, ConnsOk, Knows, Home, InFlight;
    IssuedGrows(s, a);
    var s' := Step(s, a);
    forall w | 0 <= w < |s'.sigs| ensures ConnsOk(s'.sigs[w].conns, w) && Home(s'.sigs[w], w) {
      TablesStayOk(s, a, w);
      RepliesStayHome(s, a, w);
    }
    forall m | m in InFlight(s') ensures m.worker < |s'.sigs| && Knows(s'.sigs[m.worker].conns, m) {
      FlightStaysKnown(s, a, m);
    }
  }

  // ---------------------------------------------------------------------------------
  // Answers on live connections are all recorded

  ghost predicate Recorded(conns: map<nat, Slot>, answered: seq<Msg>) {
    forall fd, m :: fd in conns ==> multiset(conns[fd].answered)[m] <= multiset(answered)[m]
  }

  lemma StepRecords(s: State, a: Action, w: nat)
    requires Enabled(s, a) && w < |s.sigs| == |Step(s, a).sigs| && Recorded(s.sigs[w].conns, s.answered)
    ensures Recorded(Step(s, a).sigs[w].conns, Step(s, a).answered)
  {
    hide InFlight, Step, Enabled;
    if a.SigAnswer? {
      AnswerRecords(s, a.w, a.ok, w);
    } else if a.SigTakeConn? {
      TakeConnRecords(s, a.w, a.addr, a.ok, w);
    } else {
      TablesShrink(s, a, w);
      forall m { HistoriesGrow(s, a, m); }
    }
  }

  lemma AnswerRecords(s: State, v: nat, ok: bool, w: nat)
    requires Enabled(s, SigAnswer(v, ok)) && w < |s.sigs| && Recorded(s.sigs[w].conns, s.answered)
    ensures Recorded(Step(s, SigAnswer(v, ok)).sigs[w].conns, Step(s, SigAnswer(v, ok)).answered)
  {
    hide InFlight;
  }

  lemma TakeConnRecords(s: State, v: nat, addr: nat, ok: bool, w: nat)
    requires Enabled(s, SigTakeConn(v, addr, ok)) && w < |s.sigs| && Recorded(s.sigs[w].conns, s.answered)
    ensures Recorded(Step(s, SigTakeConn(v, addr, ok)).sigs[w].conns, Step(s, SigTakeConn(v, addr, ok)).answered)
  {
    hide InFlight;
  }

  // ---------------------------------------------------------------------------------
  // All together

  ghost predicate Bounded(s: State) {
    && (s.accept.ANotify? ==> s.accept.sig < |s.sigs|)
    && (s.srv.pc.VNotify? ==> s.srv.pc.rtc < |s.rtcs|)
    && (forall i :: 0 <= i < |s.rtcs| ==> s.rtcs[i].pc.RNotify? ==> s.rtcs[i].pc.sig < |s.sigs|)
  }

  lemma StepBounded(s: State, a: Action)
    requires Bounded(s) && Enabled(s, a)
    ensures Bounded(Step(s, a))
  {
    hide InFlight, WorkerFor;
  }

  lemma StepNoCrash(s: State, a: Action)
    requires Backed(s) && !s.crashed && Enabled(s, a)
    ensures !Step(s, a).crashed
  {
    hide InFlight, Total, SigOwes, RtcOwes;
  }

  ghost predicate Inv(s: State) {
    && Conserved(s)
    && Ordered(s)
    && Backed(s)
    && Addressed(s)
    && (forall w :: 0 <= w < |s.sigs| ==> Recorded(s.sigs[w].conns, s.answered))
    && Bounded(s)
    && !s.crashed
  }

  lemma StepInv(s: State, a: Action)
    requires Inv(s) && Enabled(s, a)
    ensures Inv(Step(s, a))
  {
    hide Step, Enabled, Conserved, Ordered, Backed, Addressed, Recorded, Bounded;
    StepConserves(s, a);
    StepOrdered(s, a);
    StepBacked(s, a);
    StepAddressed(s, a);
    StepBounded(s, a);
    StepNoCrash(s, a);
    IssuedGrows(s, a);
    forall w | 0 <= w < |s.sigs| ensures Recorded(Step(s, a).sigs[w].conns, Step(s, a).answered) {
      StepRecords(s, a, w);
    }
  }

  lemma {:induction false} EmptySum(parts: seq<multiset<Msg>>)
    requires forall i :: 0 <= i < |parts| ==> parts[i] == multiset{}
    ensures SumOf(parts) == multiset{}
  {
    if parts != [] { EmptySum(parts[1..]); }
  }

  lemma {:induction false} ZeroTotal(xs: seq<nat>)
    requires forall i :: 0 <= i < |xs| ==> xs[i] == 0
    ensures Total(xs) == 0
  {
    if xs != [] { ZeroTotal(xs[1..]); }
  }

  lemma FreshBacked(s: State)
    requires Fresh(s)
    ensures Backed(s)
  {
    hide Fresh, Total, SigOwes, RtcOwes, SigTokens, RtcTokens, SrvTokens;
    FreshServer(s);
    forall i | 0 <= i < |s.rtcs| ensures RtcTokens(s.rtcs[i], One(s.srv.pc == VNotify(i))) {
      FreshRtc(s, i);
    }
    forall w | 0 <= w < |s.sigs|
      ensures SigTokens(s.sigs[w], Total(RtcOwes(s.rtcs, w)), One(s.accept == ANotify(w)))
    {
      FreshOwesNothing(s, w);
    }
  }

  lemma FreshServer(s: State)
    requires Fresh(s)
    ensures SrvTokens(s.srv, Total(SigOwes(s.sigs)))
  {
    hide Total;
    ZeroTotal(SigOwes(s.sigs));
  }

  lemma FreshRtc(s: State, i: nat)
    requires Fresh(s) && i < |s.rtcs|
    ensures RtcTokens(s.rtcs[i], One(s.srv.pc == VNotify(i)))
  {
    assert s.rtcs[i] == Rtc(RIdle, 0, [], [], 0);
  }

  lemma FreshOwesNothing(s: State, w: nat)
    requires Fresh(s) && w < |s.sigs|
    ensures SigTokens(s.sigs[w], Total(RtcOwes(s.rtcs, w)), One(s.accept == ANotify(w)))
  {
    hide Total;
    ZeroTotal(RtcOwes(s.rtcs, w));
    assert s.sigs[w] == Sig(SIdle, [], [], [], map[], 0, 0);
  }

  lemma FreshInFlight(s: State)
    requires Fresh(s)
    ensures InFlight(s) == multiset{}
  {
    EmptySum(SigParts(s.sigs));
    EmptySum(RtcParts(s.rtcs));
  }

  lemma FreshInv(s: State)
    requires Fresh(s)
    ensures Inv(s)
  {
    hide Fresh, Backed, Ordered, Conserved, Addressed, Bounded, Recorded;
    FreshBacked(s);
    FreshOrdered(s);
    FreshConserved(s);
    FreshAddressed(s);
    FreshBounded(s);
  }

  lemma FreshBounded(s: State)
    requires Fresh(s)
    ensures Bounded(s) && !s.crashed
    ensures forall w :: 0 <= w < |s.sigs| ==> Recorded(s.sigs[w].conns, s.answered)
  {
    assert forall w :: 0 <= w < |s.sigs| ==> s.sigs[w].conns == map[];
  }

  lemma FreshConserved(s: State)
    requires Fresh(s)
    ensures Conserved(s)
  {
    FreshInFlight(s);
    assert s.issued == [] && s.answered == [] && s.dropped == [];
    hide InFlight, Fresh;
  }

  lemma FreshAddressed(s: State)
    requires Fresh(s)
    ensures Addressed(s)
  {
    FreshInFlight(s);
    assert forall w :: 0 <= w < |s.sigs| ==> s.sigs[w] == Sig(SIdle, [], [], [], map[], 0, 0);
    hide InFlight, Fresh;
  }

  lemma FreshOrdered(s: State)
    requires Fresh(s)
    ensures Ordered(s)
  {
  }

  lemma {:induction false} RunInv(s: State, acts: seq<Action>)
    requires Inv(s) && Feasible(s, acts)
    ensures Inv(Run(s, acts))
    decreases |acts|
  {
    hide Inv, Step, Enabled;
    if acts == [] {
    } else {
      StepInv(s, acts[0]);
      RunInv(Step(s, acts[0]), acts[1..]);
    }
  }

  lemma ReachableInv(s: State, acts: seq<Action>)
    requires Fresh(s) && Feasible(s, acts)
    ensures Inv(Run(s, acts))
  {
    hide Inv;
    FreshInv(s);
    RunInv(s, acts);
  }

  /**
    Requests for one stream name are all taken by one rtc worker, and every worker takes its
    requests in the order in which they entered the server queue.
   */
  lemma SameStreamSameWorkerInOrder(s0: State, acts: seq<Action>)
    requires Fresh(s0) && Feasible(s0, acts)
    ensures var s := Run(s0, acts);
            && (forall i, j, k, l ::
                  0 <= i < |s.rtcs| && 0 <= j < |s.rtcs| && 0 <= k < |s.rtcs[i].handled| && 0 <= l < |s.rtcs[j].handled| ==>
                    s.rtcs[i].handled[k].stream == s.rtcs[j].handled[l].stream ==> i == j)
            && (forall i, k :: 0 <= i < |s.rtcs| && 0 <= k < |s.rtcs[i].handled| ==>
                  Issued(s.rtcs[i].handled[k], s.issued))
            && (forall i, k, l :: 0 <= i < |s.rtcs| && 0 <= k < l < |s.rtcs[i].handled| ==>
                  s.rtcs[i].handled[k].id < s.rtcs[i].handled[l].id)
  {
    hide Conserved, Backed, Addressed, Recorded, Bounded, WorkerFor, Unrouted;
    ReachableInv(s0, acts);
    var s := Run(s0, acts);
    forall i | 0 <= i < |s.rtcs|
      ensures forall k :: 0 <= k < |s.rtcs[i].handled| ==>
                Issued(s.rtcs[i].handled[k], s.issued) && WorkerFor(s.rtcs[i].handled[k].stream, |s.rtcs|) == i
      ensures forall k, l :: 0 <= k < l < |s.rtcs[i].handled| ==>
                s.rtcs[i].handled[k].id < s.rtcs[i].handled[l].id
    {
      assert LaneOk(s.rtcs[i], Unrouted(s.srv), s.issued) && RoutedTo(s.rtcs[i], i, |s.rtcs|);
      var l := Lane(s.rtcs[i], Unrouted(s.srv));
      assert forall k :: 0 <= k < |s.rtcs[i].handled| ==> l[k] == s.rtcs[i].handled[k];
    }
  }

  /** Each issued request is in exactly one place: in flight once, answered once or dropped once. */
  lemma ExactlyOnePlace(s0: State, acts: seq<Action>, m: Msg)
    requires Fresh(s0) && Feasible(s0, acts)
    ensures var s := Run(s0, acts); Places(s, m) == (if m in s.issued then 1 else 0)
  {
    hide Places, Ordered, Backed, Addressed, Recorded, Bounded;
    ReachableInv(s0, acts);
    var s := Run(s0, acts);
    NumberedOnce(s.issued, m);
  }

  lemma NumberedOnce(issued: seq<Msg>, m: Msg)
    requires forall k :: 0 <= k < |issued| ==> issued[k].id == k
    ensures multiset(issued)[m] == (if m in issued then 1 else 0)
  {
    if m in issued {
      var k :| 0 <= k < |issued| && issued[k] == m;
      assert issued == issued[..k] + [m] + issued[k + 1..];
      assert m !in issued[..k] && m !in issued[k + 1..];
    }
  }

  /**
    At most one answer per request, and every answer on a live connection was queued on the
    connection object, under the descriptor and by the worker that issued the request.
   */
  lemma AnsweredOnceWhereAsked(s0: State, acts: seq<Action>, w: nat, fd: nat, m: Msg)
    requires Fresh(s0) && Feasible(s0, acts)
    requires var s := Run(s0, acts); w < |s.sigs| && fd in s.sigs[w].conns && m in s.sigs[w].conns[fd].answered
    ensures var s := Run(s0, acts);
            && multiset(s.answered)[m] == 1
            && multiset(s.sigs[w].conns[fd].answered)[m] == 1
            && m in s.issued && m.worker == w && m.fd == fd && m.conn == s.sigs[w].conns[fd].conn
            && m !in InFlight(s) && m !in s.dropped
  {
    hide Ordered, Backed, Bounded, InFlight;
    ReachableInv(s0, acts);
    ExactlyOnePlace(s0, acts, m);
    var s := Run(s0, acts);
    assert ConnsOk(s.sigs[w].conns, w);
    assert SlotOk(s.sigs[w].conns[fd], w, fd);
    assert Recorded(s.sigs[w].conns, s.answered);
  }

  /**
    For every queue the tokens in its pipe, in its reader's hand, still owed by a thread that has
    pushed, and lost by a failed write are exactly as many as its messages: no pop on a token fails
    and the server never dereferences a null message.
   */
  lemma TokensAreBacked(s0: State, acts: seq<Action>)
    requires Fresh(s0) && Feasible(s0, acts)
    ensures var s := Run(s0, acts);
            && !s.crashed
            && SrvTokens(s.srv, Total(SigOwes(s.sigs)))
            && (forall i :: 0 <= i < |s.rtcs| ==> RtcTokens(s.rtcs[i], One(s.srv.pc == VNotify(i))))
            && (forall w :: 0 <= w < |s.sigs| ==>
                  SigTokens(s.sigs[w], Total(RtcOwes(s.rtcs, w)), One(s.accept == ANotify(w))))
            && (s.srv.pc.VToken? ==> s.srv.queue != [])
            && (forall i :: 0 <= i < |s.rtcs| && s.rtcs[i].pc.RToken? ==> s.rtcs[i].queue != [])
            && (forall w :: 0 <= w < |s.sigs| && s.sigs[w].pc == SToken(RtcMsg) ==> s.sigs[w].replies != [])
            && (forall w :: 0 <= w < |s.sigs| && s.sigs[w].pc == SToken(NewConn) ==> s.sigs[w].newConns != [])
  {
    hide Conserved, Ordered, Addressed, Recorded, Bounded, Total, SigOwes, RtcOwes;
    ReachableInv(s0, acts);
    var s := Run(s0, acts);
    forall w | 0 <= w < |s.sigs|
      ensures s.sigs[w].pc == SToken(RtcMsg) ==> s.sigs[w].replies != []
      ensures s.sigs[w].pc == SToken(NewConn) ==> s.sigs[w].newConns != []
    {
      assert SigTokens(s.sigs[w], Total(RtcOwes(s.rtcs, w)), One(s.accept == ANotify(w)));
    }
    forall i | 0 <= i < |s.rtcs| && s.rtcs[i].pc.RToken? ensures s.rtcs[i].queue != [] {
      assert RtcTokens(s.rtcs[i], One(s.srv.pc == VNotify(i)));
    }
  }

  /** No thread has anything to do: all are idle and all pipes are empty. */
  ghost predicate AtRest(s: State) {
    && s.accept.AIdle? && s.srv.pc.VIdle? && s.srv.pipe == 0
    && (forall i :: 0 <= i < |s.rtcs| ==> s.rtcs[i].pc.RIdle? && s.rtcs[i].pipe == 0)
    && (forall w :: 0 <= w < |s.sigs| ==> s.sigs[w].pc.SIdle? && s.sigs[w].pipe == [])
  }

  /** When the pipeline has come to rest, each queue holds exactly as many messages as writes to its pipe failed. */
  lemma NothingStranded(s0: State, acts: seq<Action>)
    requires Fresh(s0) && Feasible(s0, acts) && AtRest(Run(s0, acts))
    ensures var s := Run(s0, acts);
            && |s.srv.queue| == s.srv.lost
            && (forall i :: 0 <= i < |s.rtcs| ==> |s.rtcs[i].queue| == s.rtcs[i].lost)
            && (forall w :: 0 <= w < |s.sigs| ==> |s.sigs[w].replies| == s.sigs[w].lostMsgs && |s.sigs[w].newConns| == s.sigs[w].lostConns)
  {
    hide Inv, Enabled, Step;
    TokensAreBacked(s0, acts);
    var s := Run(s0, acts);
    ZeroTotal(SigOwes(s.sigs));
    forall w | 0 <= w < |s.sigs|
      ensures |s.sigs[w].replies| == s.sigs[w].lostMsgs && |s.sigs[w].newConns| == s.sigs[w].lostConns
    {
      ZeroTotal(RtcOwes(s.rtcs, w));
      assert SigTokens(s.sigs[w], Total(RtcOwes(s.rtcs, w)), One(s.accept == ANotify(w)));
    }
    forall i | 0 <= i < |s.rtcs| ensures |s.rtcs[i].queue| == s.rtcs[i].lost {
      assert RtcTokens(s.rtcs[i], One(s.srv.pc == VNotify(i)));
    }
  }

  lemma TokenHasMessage(s: State)
    requires Backed(s)
    ensures s.srv.pc.VToken? ==> s.srv.queue != []
  {
    hide Total, SigOwes, RtcOwes;
  }

  /**
    The server always finds a message behind its token, so the one it dereferences before the null
    check is never null; and the index guards in `Enabled` never block a thread that is ready to go on.
   */
  lemma GuardsHold(s0: State, acts: seq<Action>)
    requires Fresh(s0) && Feasible(s0, acts)
    ensures var s := Run(s0, acts);
            && !s.crashed && (Enabled(s, SrvTake) ==> s.srv.queue != [])
            && Bounded(s)
            && (forall i :: 0 <= i < |s.rtcs| && s.rtcs[i].pc.RHandle? ==> s.rtcs[i].pc.msg.worker < |s.sigs|)
  {
    hide Conserved, Ordered, Backed, Recorded, Knows, SumOf;
    ReachableInv(s0, acts);
    var s := Run(s0, acts);
    TokenHasMessage(s);
    forall i | 0 <= i < |s.rtcs| && s.rtcs[i].pc.RHandle? ensures s.rtcs[i].pc.msg.worker < |s.sigs| {
      SumHas(RtcParts(s.rtcs), i, s.rtcs[i].pc.msg);
      assert s.rtcs[i].pc.msg in InFlight(s);
    }
  }
}
