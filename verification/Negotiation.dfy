/**
  Whole sessions of the peer-connection shim in screen_share/static/js/adapter.js: any sequence of
  `addTrack`, `createOffer`, `createAnswer` and `setRemoteDescription`, those that throw included.
 */
module Negotiation {
  import opened Common
  import opened Transceivers

  datatype Call =
    | AddTrack(track: Track, streams: bool)
    | CreateOffer(audio: Option<int>, video: Option<int>, gen: nat -> string, codecs: nat -> bool, fault: nat -> nat)
    | CreateAnswer(hasRtx: nat -> bool, common: nat -> bool, fault: nat -> nat)
    | SetRemote(kind: SdpType, sections: seq<Section>, bundle: bool, hasRtx: nat -> bool, fault: nat -> nat)

  /** What a call returns; no sections means that it throws. */
  datatype Outcome =
    | Track(ok: bool, at: nat)
    | Made(sections: Option<seq<Section>>)
    | Set(ok: bool)

  /** The calls of a session, what they return, and the connection before, between and after them. */
  datatype Session = Session(rtxKnown: bool, maxBundle: bool, calls: seq<Call>, outcomes: seq<Outcome>, points: seq<Snapshot>)

  ghost predicate Happens(rtxKnown: bool, p: Snapshot, call: Call, r: Outcome, q: Snapshot) {
    match call
    case AddTrack(track, streams) => r.Track? && TrackAdded(p, track, streams, r.ok, r.at, q)
    case CreateOffer(audio, video, gen, codecs, fault) => r.Made? && OfferCreated(p, audio, video, gen, codecs, fault, r.sections, q)
    case CreateAnswer(hasRtx, common, fault) => r.Made? && AnswerCreated(rtxKnown, p, hasRtx, common, fault, r.sections, q)
    case SetRemote(kind, sections, bundle, hasRtx, fault) => r.Set? && RemoteSet(p, kind, sections, bundle, hasRtx, fault, r.ok, q)
  }

  ghost predicate IsSession(s: Session) {
    && |s.outcomes| == |s.calls| && |s.points| == |s.calls| + 1
    && s.points[0] == Snapshot([], s.maxBundle, [])
    && forall k :: 0 <= k < |s.calls| ==> Happens(s.rtxKnown, s.points[k], s.calls[k], s.outcomes[k], s.points[k + 1])
  }

  // What one call keeps.

  /** The call may put another transceiver at the index: its section is rejected, or the transceiver was. */
  predicate Remakes(call: Call, ts: seq<Transceiver>, i: nat) {
    call.SetRemote? && i < |call.sections| && (call.sections[i].rejected || (i < |ts| && ts[i].rejected))
  }

  /** The call may change the mid at the index: it remakes the transceiver or sets a remote offer. */
  predicate Renames(call: Call, ts: seq<Transceiver>, i: nat) {
    Remakes(call, ts, i) || (call.SetRemote? && call.kind.Offer? && i < |call.sections|)
  }

  /** The transceiver at an index is the one it was, with its kind and primary SSRC. */
  predicate Stays(a: Transceiver, b: Transceiver) {
    b.kind == a.kind && b.rejected == a.rejected && KeepsSsrc(a, b)
  }

  predicate Named(t: Transceiver) {
    t.mid.Some? && t.mid.value != []
  }

  lemma CallKeeps(rtxKnown: bool, p: Snapshot, call: Call, r: Outcome, q: Snapshot, i: nat)
    requires Happens(rtxKnown, p, call, r, q) && i < |p.ts|
    ensures Numbered(q.ts) && |p.ts| <= |q.ts|
    ensures !Remakes(call, p.ts, i) ==> Stays(p.ts[i], q.ts[i])
    ensures !Renames(call, p.ts, i) && Named(p.ts[i]) ==> q.ts[i].mid == p.ts[i].mid
  {
    hide Numbered, WithTrack, CountsFit, ListPrepared, OffersList, AnswerSections, Applied, Applicable;
  }

  lemma CallNumbers(rtxKnown: bool, p: Snapshot, call: Call, r: Outcome, q: Snapshot)
    requires Happens(rtxKnown, p, call, r, q)
    ensures Numbered(q.ts) && |p.ts| <= |q.ts|
  {
    hide Numbered;
  }

  lemma {:induction false} SessionNumbered(s: Session, k: nat)
    requires IsSession(s) && k < |s.points|
    ensures Numbered(s.points[k].ts)
  {
    if k > 0 {
      CallNumbers(s.rtxKnown, s.points[k - 1], s.calls[k - 1], s.outcomes[k - 1], s.points[k]);
    }
  }

  // Every transceiver stays at its index.

  /** No call from point `j` to point `k` may put another transceiver at the index. */
  ghost predicate Unmade(s: Session, i: nat, j: nat, k: nat)
    requires IsSession(s) && k < |s.points|
  {
    forall n :: j <= n < k ==> !Remakes(s.calls[n], s.points[n].ts, i)
  }

  /** Nor change its mid. */
  ghost predicate Unnamed(s: Session, i: nat, j: nat, k: nat)
    requires IsSession(s) && k < |s.points|
  {
    forall n :: j <= n < k ==> !Renames(s.calls[n], s.points[n].ts, i)
  }

  /** The list has not become shorter, and what stood at the index stands there, unless a call has put another there or renamed it. */
  ghost predicate IndexKept(s: Session, i: nat, j: nat, k: nat)
    requires IsSession(s) && j <= k < |s.points| && i < |s.points[j].ts|
  {
    && |s.points[j].ts| <= |s.points[k].ts|
    && (Unmade(s, i, j, k) ==> Stays(s.points[j].ts[i], s.points[k].ts[i]))
    && (Unnamed(s, i, j, k) && Named(s.points[j].ts[i]) ==> s.points[k].ts[i].mid == s.points[j].ts[i].mid)
  }

  lemma {:induction false} StaysAtIndex(s: Session, i: nat, j: nat, k: nat)
    requires IsSession(s) && j <= k < |s.points| && i < |s.points[j].ts|
    ensures IndexKept(s, i, j, k)
    decreases k - j
  {
    if j < k {
      StaysAtIndex(s, i, j, k - 1);
      CallKeeps(s.rtxKnown, s.points[k - 1], s.calls[k - 1], s.outcomes[k - 1], s.points[k], i);
      hide Happens, Remakes, Renames;
    }
  }

  /** An own offer that has been made. */
  ghost predicate MadeAt(s: Session, j: nat)
    requires IsSession(s)
  {
    j < |s.calls| && s.calls[j].CreateOffer? && s.outcomes[j].Made? && s.outcomes[j].sections.Some?
  }

  function OfferOf(s: Session, j: nat): seq<Section>
    requires IsSession(s) && MadeAt(s, j)
  {
    s.outcomes[j].sections.value
  }

  /** Section `i` of an own offer is transceiver `i` at point `k`, with its kind and mid, unless a call has put another there or renamed it. */
  ghost predicate OfferKept(s: Session, i: nat, j: nat, k: nat)
    requires IsSession(s) && j < k < |s.points| && MadeAt(s, j) && i < |OfferOf(s, j)|
  {
    && |OfferOf(s, j)| == |s.points[j + 1].ts| <= |s.points[k].ts|
    && (Unmade(s, i, j + 1, k) ==>
          s.points[k].ts[i].kind == OfferOf(s, j)[i].kind && !s.points[k].ts[i].rejected && s.points[k].ts[i].send.Some?)
    && (Unnamed(s, i, j + 1, k) && OfferOf(s, j)[i].mid != [] ==> s.points[k].ts[i].mid == Some(OfferOf(s, j)[i].mid))
  }

  lemma OwnOfferStays(s: Session, i: nat, j: nat, k: nat)
    requires IsSession(s) && j < k < |s.points| && MadeAt(s, j) && i < |OfferOf(s, j)|
    ensures OfferKept(s, i, j, k)
  {
    OfferIsHere(s, i, j);
    StaysAtIndex(s, i, j + 1, k);
    hide IsSession, Unmade, Unnamed, MadeAt;
  }

  lemma OfferIsHere(s: Session, i: nat, j: nat)
    requires IsSession(s) && MadeAt(s, j) && i < |OfferOf(s, j)|
    ensures |OfferOf(s, j)| == |s.points[j + 1].ts| && Waits(OfferOf(s, j)[i], s.points[j + 1].ts[i])
  {
    assert Happens(s.rtxKnown, s.points[j], s.calls[j], s.outcomes[j], s.points[j + 1]);
    var ts := s.points[j + 1].ts;
    assert Numbered(ts) && InPlace(ts[i], i);
    hide ListPrepared, CountsFit, Kept;
    assert Offers(OfferOf(s, j)[i], ts[i], s.calls[j].codecs(i));
  }

  // The answer of the other side.

  /** Only tracks are added and answers tried between two points. */
  ghost predicate Quiet(s: Session, j: nat, k: nat)
    requires IsSession(s) && k < |s.points|
  {
    forall n :: j <= n < k ==> s.calls[n].AddTrack? || s.calls[n].CreateAnswer?
  }

  /** The offered sections are transceivers ready for an answer; what has been added since is not. */
  predicate Offered(sections: seq<Section>, ts: seq<Transceiver>) {
    && |sections| <= |ts|
    && (forall i :: 0 <= i < |sections| ==> Waits(sections[i], ts[i]))
    && (forall i :: |sections| <= i < |ts| ==> !ts[i].localCaps)
  }

  predicate Waits(s: Section, t: Transceiver) {
    t.mid == Some(s.mid) && t.kind == s.kind && !t.rejected && t.dtls && t.localCaps && t.send.Some?
  }

  lemma QuietCall(rtxKnown: bool, p: Snapshot, call: Call, r: Outcome, q: Snapshot, sections: seq<Section>)
    requires Happens(rtxKnown, p, call, r, q) && Offered(sections, p.ts) && (call.AddTrack? || call.CreateAnswer?)
    ensures Offered(sections, q.ts)
  {
    hide Kept, AnswerSections, CanAnswer;
    if call.CreateAnswer? {
      assert forall i :: 0 <= i < |p.ts| ==> SameBut(p.ts[i], q.ts[i]);
    }
  }

  lemma {:induction false} StaysOffered(s: Session, j: nat, k: nat)
    requires IsSession(s) && j < k < |s.points| && MadeAt(s, j) && Quiet(s, j + 1, k)
    ensures Offered(OfferOf(s, j), s.points[k].ts)
    decreases k
  {
    if k == j + 1 {
      assert Happens(s.rtxKnown, s.points[j], s.calls[j], s.outcomes[j], s.points[k]);
      forall i | 0 <= i < |OfferOf(s, j)|
        ensures Waits(OfferOf(s, j)[i], s.points[k].ts[i])
      {
        OfferIsHere(s, i, j);
      }
    } else {
      StaysOffered(s, j, k - 1);
      QuietCall(s.rtxKnown, s.points[k - 1], s.calls[k - 1], s.outcomes[k - 1], s.points[k], OfferOf(s, j));
    }
  }

  /**
    An answer to the own offer is set if and only if no browser call throws and it accepts no section
    that was not offered. Each offered section then has its transceiver at its index, with the kind
    and the SSRC offered; the mid is the offered one unless the answer rejects the section under
    another, and a rejected section is a rejected transceiver.
   */
  lemma RemoteAnswerFits(s: Session, j: nat, k: nat)
    requires IsSession(s) && j < k < |s.calls| && MadeAt(s, j)
    requires Quiet(s, j + 1, k) && s.calls[k].SetRemote? && s.calls[k].kind.Answer?
    ensures AnswerFits(OfferOf(s, j), s.points[k], s.calls[k], s.outcomes[k], s.points[k + 1])
  {
    var (offer, p, call, q) := (OfferOf(s, j), s.points[k], s.calls[k], s.points[k + 1]);
    StaysOffered(s, j, k);
    assert Happens(s.rtxKnown, p, call, s.outcomes[k], q);
    hide IsSession, Quiet;
    forall i | 0 <= i < |call.sections|
      ensures Applicable(p.ts, Answer, call.sections[i], i, call.bundle, call.fault(i)) <==> Settles(offer, call.sections[i], i, call.fault(i))
    {
      assert i < |offer| ==> Waits(offer[i], p.ts[i]);
    }
    if s.outcomes[k].ok {
      forall i | 0 <= i < |call.sections| && i < |offer|
        ensures SettledAs(offer[i], call.sections[i], p.ts[i], q.ts[i])
      {
        assert Waits(offer[i], p.ts[i]);
        assert q.ts[i] == Applied(Answer, Entry(p.ts, i), First(p.ts, q.ts, i), call.sections[i], i, call.bundle, call.hasRtx(i));
      }
    }
  }

  /** Nothing throws at this section of an answer. */
  predicate Settles(offer: seq<Section>, s: Section, i: nat, fault: nat) {
    fault > (if s.rejected then 0 else 3) && (!s.rejected ==> i < |offer|)
  }

  predicate SettledAs(offered: Section, answered: Section, a: Transceiver, b: Transceiver) {
    && b.rejected == answered.rejected
    && (b.mid == Some(offered.mid) <==> !answered.rejected || answered.mid == offered.mid)
    && (!answered.rejected ==> b.kind == offered.kind && b.track == a.track && KeepsSsrc(a, b) && b.send.Some?)
  }

  ghost predicate AnswerFits(offer: seq<Section>, p: Snapshot, call: Call, r: Outcome, q: Snapshot)
    requires call.SetRemote?
  {
    && r.Set? && |offer| <= |p.ts| <= |q.ts|
    && (r.ok <==> forall i :: 0 <= i < |call.sections| ==> Settles(offer, call.sections[i], i, call.fault(i)))
    && (r.ok ==> forall i :: 0 <= i < |call.sections| && i < |offer| ==> SettledAs(offer[i], call.sections[i], p.ts[i], q.ts[i]))
  }

  // The own answer to the other side.

  /** An offer that was set whole on the list `before`, and the answer made to it. */
  datatype Exchange = Exchange(
    before: seq<Transceiver>, offer: seq<Section>, bundle: bool,
    common: nat -> bool, fault: nat -> nat, answer: Option<seq<Section>>)

  /** There is an answer if and only if no call throws and the accepted sections have transports; when it is the offer. */
  predicate Lawful(e: Exchange) {
    && (e.answer.Some? <==>
          forall i :: 0 <= i < |e.offer| && !e.offer[i].rejected ==> Transported(e.before, e.offer, e.bundle, i) && e.fault(i) > 2)
    && (e.answer.Some? ==>
          && (SameSections(e.offer, e.answer.value) <==> NothingVanishes(e.offer))
          && (NothingVanishes(e.offer) ==>
                && ((forall i :: 0 <= i < |e.offer| ==> e.answer.value[i].rejected == e.offer[i].rejected) <==> CodecsShared(e.offer, e.common))
                && ((forall i :: 0 <= i < |e.offer| ==> e.answer.value[i].kind == e.offer[i].kind) <==> KindsFit(e.before, e.offer)))
          && (e.answer.value == e.offer <==>
                NothingVanishes(e.offer) && CodecsShared(e.offer, e.common) && KindsFit(e.before, e.offer)))
  }

  /** The contract of `createAnswer` and alignment give the law. */
  lemma AnswerIsLawful(e: Exchange, ts: seq<Transceiver>)
    requires Aligned(e.before, e.offer, e.bundle, ts)
    requires e.answer.Some? <==> forall i :: 0 <= i < |e.offer| ==> CanAnswer(ts[i], e.fault(i))
    requires e.answer.Some? ==> e.answer.value == AnswerSections(ts, |e.offer|, e.common)
    ensures Lawful(e)
  {
    forall i | 0 <= i < |e.offer|
      ensures CanAnswer(ts[i], e.fault(i)) <==>
              (!e.offer[i].rejected ==> Transported(e.before, e.offer, e.bundle, i) && e.fault(i) > 2)
    {
      assert Serves(e.before, e.offer, e.bundle, ts[i], i);
    }
    AnswerMatchesIff(e.before, e.offer, e.bundle, ts, e.common);
  }

  /** No remote description is set between two points. */
  ghost predicate Undisturbed(s: Session, j: nat, k: nat)
    requires IsSession(s) && k < |s.points|
  {
    forall n :: j <= n < k ==> !s.calls[n].SetRemote?
  }

  /** A remote offer that has been set whole. */
  ghost predicate OfferedAt(s: Session, j: nat)
    requires IsSession(s)
  {
    && j < |s.calls| && s.calls[j].SetRemote? && s.calls[j].kind.Offer? && s.outcomes[j] == Set(true)
    && forall section :: section in s.calls[j].sections ==> section.mid != []
  }

  /** It is served by the transceivers at its indices until the next remote description. */
  lemma {:induction false} RemoteOfferServed(s: Session, j: nat, k: nat)
    requires IsSession(s) && j < k < |s.points| && OfferedAt(s, j) && Undisturbed(s, j + 1, k)
    ensures Aligned(s.points[j].ts, s.calls[j].sections, s.calls[j].bundle, s.points[k].ts)
    ensures s.points[k].remote == s.calls[j].sections
    decreases k
  {
    var (p, q, call) := (s.points[k - 1], s.points[k], s.calls[k - 1]);
    assert Happens(s.rtxKnown, p, call, s.outcomes[k - 1], q);
    SessionNumbered(s, j);
    if k == j + 1 {
      OfferAligns(p, call.sections, call.bundle, call.hasRtx, call.fault, q);
    } else {
      RemoteOfferServed(s, j, k - 1);
      assert Kept(p, q);
      StaysAligned(s.points[j].ts, s.calls[j].sections, s.calls[j].bundle, p.ts, q.ts);
    }
  }

  /** Every answer made to it is lawful. */
  lemma OwnAnswerIsLawful(s: Session, j: nat, k: nat)
    requires IsSession(s) && j < k < |s.calls| && OfferedAt(s, j) && Undisturbed(s, j + 1, k) && s.calls[k].CreateAnswer?
    ensures s.outcomes[k].Made?
    ensures Lawful(Exchange(s.points[j].ts, s.calls[j].sections, s.calls[j].bundle, s.calls[k].common, s.calls[k].fault, s.outcomes[k].sections))
  {
    RemoteOfferServed(s, j, k);
    assert Happens(s.rtxKnown, s.points[k], s.calls[k], s.outcomes[k], s.points[k + 1]);
    hide IsSession, Aligned, Undisturbed;
    var (p, call) := (s.points[k], s.calls[k]);
    AlignedIsLong(s.points[j].ts, s.calls[j].sections, s.calls[j].bundle, p.ts);
    AnswerIsLawful(Exchange(s.points[j].ts, s.calls[j].sections, s.calls[j].bundle, call.common, call.fault, s.outcomes[k].sections), p.ts);
  }

  lemma AlignedIsLong(before: seq<Transceiver>, remote: seq<Section>, bundle: bool, ts: seq<Transceiver>)
    requires Aligned(before, remote, bundle, ts)
    ensures |remote| <= |ts|
  {
  }

  // All together.

  /** All SSRCs are distinct at every point. */
  ghost predicate SsrcsApart(s: Session) {
    forall k :: 0 <= k < |s.points| ==> Distinct(s.points[k].ts)
  }

  ghost predicate IndicesKept(s: Session)
    requires IsSession(s)
  {
    forall i: nat, j: nat, k: nat :: j <= k < |s.points| && i < |s.points[j].ts| ==> IndexKept(s, i, j, k)
  }

  ghost predicate OwnOffersKept(s: Session)
    requires IsSession(s)
  {
    forall i: nat, j: nat, k: nat :: j < k < |s.points| && MadeAt(s, j) && i < |OfferOf(s, j)| ==> OfferKept(s, i, j, k)
  }

  ghost predicate RemoteAnswersFit(s: Session)
    requires IsSession(s)
  {
    forall j: nat, k: nat :: j < k < |s.calls| && MadeAt(s, j) && Quiet(s, j + 1, k) && s.calls[k].SetRemote? && s.calls[k].kind.Answer? ==>
      AnswerFits(OfferOf(s, j), s.points[k], s.calls[k], s.outcomes[k], s.points[k + 1])
  }

  ghost predicate RemoteOffersServed(s: Session)
    requires IsSession(s)
  {
    forall j: nat, k: nat :: j < k < |s.points| && OfferedAt(s, j) && Undisturbed(s, j + 1, k) ==>
      && Aligned(s.points[j].ts, s.calls[j].sections, s.calls[j].bundle, s.points[k].ts)
      && s.points[k].remote == s.calls[j].sections
      && (k < |s.calls| && s.calls[k].CreateAnswer? ==>
            && s.outcomes[k].Made?
            && Lawful(Exchange(s.points[j].ts, s.calls[j].sections, s.calls[j].bundle, s.calls[k].common, s.calls[k].fault, s.outcomes[k].sections)))
  }

  /** What every session keeps. */
  lemma SessionKeeps(s: Session)
    requires IsSession(s)
    ensures SsrcsApart(s) && IndicesKept(s) && OwnOffersKept(s) && RemoteAnswersFit(s) && RemoteOffersServed(s)
  {
    hide *;
    ApartInSession(s);
    IndicesInSession(s);
    OwnOffersInSession(s);
    RemoteAnswersInSession(s);
    RemoteOffersInSession(s);
  }

  lemma ApartInSession(s: Session)
    requires IsSession(s)
    ensures SsrcsApart(s)
  {
    forall k | 0 <= k < |s.points|
      ensures Distinct(s.points[k].ts)
    {
      SessionNumbered(s, k);
      AllDistinct(s.points[k].ts);
    }
  }

  lemma IndicesInSession(s: Session)
    requires IsSession(s)
    ensures IndicesKept(s)
  {
    hide IsSession, IndexKept;
    forall i: nat, j: nat, k: nat | j <= k < |s.points| && i < |s.points[j].ts|
      ensures IndexKept(s, i, j, k)
    {
      StaysAtIndex(s, i, j, k);
    }
  }

  lemma OwnOffersInSession(s: Session)
    requires IsSession(s)
    ensures OwnOffersKept(s)
  {
    LengthsFit(s);
    hide IsSession, OfferKept, MadeAt, OfferOf;
    forall i: nat, j: nat, k: nat | j < k < |s.points| && MadeAt(s, j) && i < |OfferOf(s, j)|
      ensures OfferKept(s, i, j, k)
    {
      OwnOfferStays(s, i, j, k);
    }
  }

  lemma LengthsFit(s: Session)
    requires IsSession(s)
    ensures |s.outcomes| == |s.calls| && |s.points| == |s.calls| + 1
  {
  }

  lemma RemoteAnswersInSession(s: Session)
    requires IsSession(s)
    ensures RemoteAnswersFit(s)
  {
    LengthsFit(s);
    hide IsSession, Quiet, AnswerFits;
    forall j: nat, k: nat | j < k < |s.calls| && MadeAt(s, j) && Quiet(s, j + 1, k) && s.calls[k].SetRemote? && s.calls[k].kind.Answer?
      ensures AnswerFits(OfferOf(s, j), s.points[k], s.calls[k], s.outcomes[k], s.points[k + 1])
    {
      RemoteAnswerFits(s, j, k);
    }
  }

  lemma RemoteOffersInSession(s: Session)
    requires IsSession(s)
    ensures RemoteOffersServed(s)
  {
    LengthsFit(s);
    hide IsSession, OfferedAt, Undisturbed, Aligned, Lawful;
    forall j: nat, k: nat | j < k < |s.points| && OfferedAt(s, j) && Undisturbed(s, j + 1, k)
      ensures Aligned(s.points[j].ts, s.calls[j].sections, s.calls[j].bundle, s.points[k].ts)
      ensures s.points[k].remote == s.calls[j].sections
      ensures k < |s.calls| && s.calls[k].CreateAnswer? ==>
                && s.outcomes[k].Made?
                && Lawful(Exchange(s.points[j].ts, s.calls[j].sections, s.calls[j].bundle, s.calls[k].common, s.calls[k].fault, s.outcomes[k].sections))
    {
      RemoteOfferServed(s, j, k);
      if k < |s.calls| && s.calls[k].CreateAnswer? {
        OwnAnswerIsLawful(s, j, k);
      }
    }
  }

  /** Makes the calls one after the other; what a connection does is a session, and keeps what sessions keep. */
  method Negotiate(rtxKnown: bool, maxBundle: bool, calls: seq<Call>)
    returns (c: Connection, outcomes: seq<Outcome>, ghost points: seq<Snapshot>)
    ensures fresh(c) && points != [] && points[|points| - 1] == c.Snap()
    ensures var s := Session(rtxKnown, maxBundle, calls, outcomes, points);
            IsSession(s) && SsrcsApart(s) && IndicesKept(s) && OwnOffersKept(s) && RemoteAnswersFit(s) && RemoteOffersServed(s)
  {
    c := new Connection(rtxKnown, maxBundle);
    outcomes := [];
    points := [c.Snap()];
    FirstIsNumbered();
    assert IsSession(Session(rtxKnown, maxBundle, calls[..0], outcomes, points));
    hide *;
    for k := 0 to |calls|
      invariant fresh(c) && Numbered(c.transceivers) && c.rtxKnown == rtxKnown
      invariant |points| == k + 1 && points[k] == c.Snap()
      invariant IsSession(Session(rtxKnown, maxBundle, calls[..k], outcomes, points))
    {
      var r := Perform(c, calls[k]);
      Longer(Session(rtxKnown, maxBundle, calls[..k], outcomes, points), calls[k], r, c.Snap());
      CallNumbers(rtxKnown, points[k], calls[k], r, c.Snap());
      SnapIs(c);
      assert calls[..k] + [calls[k]] == calls[..k + 1];
      outcomes := outcomes + [r];
      points := points + [c.Snap()];
    }
    assert calls[..|calls|] == calls;
    SessionKeeps(Session(rtxKnown, maxBundle, calls, outcomes, points));
  }

  lemma FirstIsNumbered()
    ensures Numbered([])
  {
  }

  lemma SnapIs(c: Connection)
    ensures c.Snap().ts == c.transceivers
  {
  }

  lemma Longer(s: Session, call: Call, r: Outcome, q: Snapshot)
    requires IsSession(s) && |s.points| > 0 && Happens(s.rtxKnown, s.points[|s.points| - 1], call, r, q)
    ensures IsSession(s.(calls := s.calls + [call], outcomes := s.outcomes + [r], points := s.points + [q]))
  {
    hide Happens;
  }

  /** One call. */
  method Perform(c: Connection, call: Call) returns (r: Outcome)
    requires Numbered(c.transceivers)
    modifies c
    ensures Happens(c.rtxKnown, old(c.Snap()), call, r, c.Snap())
  {
    match call {
      case AddTrack(track, streams) =>
        var ok, at := c.AddTrack(track, streams);
        r := Outcome.Track(ok, at);
      case CreateOffer(audio, video, gen, codecs, fault) =>
        var sections := c.CreateOffer(audio, video, gen, codecs, fault);
        r := Made(sections);
      case CreateAnswer(hasRtx, common, fault) =>
        var answer := c.CreateAnswer(hasRtx, common, fault);
        r := Made(answer);
      case SetRemote(kind, sections, bundle, hasRtx, fault) =>
        var ok := c.SetRemoteDescription(kind, sections, bundle, hasRtx, fault);
        r := Set(ok);
    }
  }

  // Offers on a new connection, with no browser call that throws.

  method FirstAnswer(offer: seq<Section>, bundle: bool, common: nat -> bool) returns (answer: Option<seq<Section>>, ghost ts: seq<Transceiver>)
    ensures Aligned([], offer, bundle, ts)
    ensures answer.Some? <==> (bundle ==> forall i :: 0 <= i < |offer| && !offer[i].rejected ==> !offer[0].rejected)
    ensures answer.Some? ==> answer.value == AnswerSections(ts, |offer|, common)
    ensures answer.Some? ==> (answer.value == offer <==> NothingVanishes(offer) && CodecsShared(offer, common))
  {
    var c := new Connection(true, false);
    ghost var p := c.Snap();
    var ok := c.SetRemoteDescription(Offer, offer, bundle, _ => true, _ => 4);
    ts := c.transceivers;
    OfferAligns(p, offer, bundle, _ => true, _ => 4, c.Snap());
    answer := c.CreateAnswer(_ => true, common, _ => 3);
    ghost var e := Exchange([], offer, bundle, common, _ => 3, answer);
    AnswerIsLawful(e, ts);
    BundleNeedsFirst(offer, bundle);
    assert KindsFit([], offer);
  }

  /** A rejected text section is missing from the answer. */
  method TextSectionIsMissing(common: nat -> bool) returns (answer: Option<seq<Section>>)
    ensures answer.Some? && |answer.value| == 1
  {
    ghost var ts;
    answer, ts := FirstAnswer([Section("audio", "0", false), Section("text", "1", true)], false, common);
    TextSectionVanishes(common);
  }

  /** Without a common codec an accepted section is answered with port 0. */
  method PortZeroComesBack() returns (answer: Option<seq<Section>>)
    ensures answer == Some([Section("audio", "0", true)])
  {
    ghost var ts;
    answer, ts := FirstAnswer([Section("audio", "0", false)], false, i => false);
    AcceptedComesBackRejected();
  }

  /** Behind a rejected first section under BUNDLE there is no answer. */
  method NoAnswerBehindRejected(common: nat -> bool) returns (answer: Option<seq<Section>>)
    ensures answer == None
  {
    ghost var ts;
    var offer := [Section("audio", "0", true), Section("video", "1", false)];
    answer, ts := FirstAnswer(offer, true, common);
    assert !offer[1].rejected;
  }

  /** Once a section has been rejected, `createOffer` throws. */
  method NoOfferAfterRejected() returns (offer: Option<seq<Section>>)
    ensures offer == None
  {
    var c := new Connection(true, false);
    ghost var p := c.Snap();
    var ok := c.SetRemoteDescription(Offer, [Section("audio", "0", true)], false, _ => true, _ => 4);
    assert c.transceivers[0] == Applied(Offer, None, None, Section("audio", "0", true), 0, false, true);
    assert c.transceivers[0] in c.transceivers && c.transceivers[0].rejected;
    offer := c.CreateOffer(None, None, _ => "1", _ => true, _ => 3);
  }

  /** An answer that rejects the only section under another mid leaves that mid. */
  method RenamedByAnswer() returns (offer: Option<seq<Section>>, c: Connection)
    ensures fresh(c) && offer == Some([Section("audio", "0", false)])
    ensures |c.transceivers| == 1 && c.transceivers[0].mid == Some("1")
  {
    c := new Connection(true, false);
    KindsDiffer();
    offer := c.CreateOffer(Some(1), Some(0), _ => "0", _ => true, _ => 3);
    CountBoth(c.transceivers);
    assert offer.value[0] == Section("audio", "0", false) by {
      assert OnlyPrepared(Fresh(c.transceivers[0].kind, true), c.transceivers[0], "0");
      assert CountKind(c.transceivers, "audio") == 1;
    }
    assert offer.value == [offer.value[0]];
    var ok := c.SetRemoteDescription(Answer, [Section("audio", "1", true)], false, _ => true, _ => 4);
    assert c.transceivers[0] == Applied(Answer, Entry(c.transceivers, 0), None, Section("audio", "1", true), 0, false, true);
  }

  /** A video section that meets an audio transceiver is answered with an audio section. */
  method OtherKindComesBack(common: nat -> bool) returns (answer: Option<seq<Section>>)
    ensures answer == Some([Section("audio", "0", !common(0))])
  {
    var c := new Connection(true, false);
    var track, offer := Track.Track(0, "audio"), [Section("video", "0", false)];
    var added, at := c.AddTrack(track, true);
    ghost var p := c.Snap();
    assert p.ts == [Fresh("audio", true).(track := Some(track), streams := true)];
    var ok := c.SetRemoteDescription(Offer, offer, false, _ => true, _ => 4);
    ghost var ts := c.transceivers;
    OfferAligns(p, offer, false, _ => true, _ => 4, c.Snap());
    answer := c.CreateAnswer(_ => true, common, _ => 3);
    AnswerIsLawful(Exchange(p.ts, offer, false, common, _ => 3, answer), ts);
    AudioServesVideo(p.ts, ts, common);
  }

  lemma AudioServesVideo(before: seq<Transceiver>, ts: seq<Transceiver>, common: nat -> bool)
    requires |before| == 1 && before[0].kind == "audio" && !before[0].rejected && before[0].dtls
    requires Aligned(before, [Section("video", "0", false)], false, ts)
    ensures AnswerSections(ts, 1, common) == [Section("audio", "0", !common(0))]
    ensures Transported(before, [Section("video", "0", false)], false, 0)
  {
    assert Serves(before, [Section("video", "0", false)], false, ts[0], 0);
    assert AnswerSections(ts, 1, common) == AnswerSections(ts, 0, common) + AnswerSection(ts[0], common(0));
  }
}
