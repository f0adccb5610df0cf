/**
  The transceiver list of the peer-connection shim in screen_share/static/js/adapter.js:
  `addTrack`, `createOffer`, `createAnswer` and `setRemoteDescription` work on one list whose
  indices are m-line indices and whose SSRCs are made from those indices.
 */
module Transceivers {

  import opened Common

  datatype Track = Track(id: nat, kind: string)

  /** `sendEncodingParameters[0]`. */
  datatype Encoding = Encoding(ssrc: nat, rtx: Option<nat>)

  /**
    `streams` tells whether the stream given with the track has a track of this kind, `gatherer`
    whether there is an ICE gatherer, and `dtls` whether there are an ICE and a DTLS transport,
    which come and go together. `localCaps` and `remoteCaps` tell whether capabilities are set.
   */
  datatype Transceiver = Transceiver(
    kind: string, mid: Option<string>, rejected: bool, track: Option<Track>, streams: bool,
    send: Option<Encoding>, wantReceive: bool, gatherer: bool, dtls: bool,
    localCaps: bool, remoteCaps: bool)

  /**
    A media section of a description, its mid made up if it has none. A remote section is rejected
    if its port is 0 without `a=bundle-only`, or if it is a data channel over SCTP; a section this
    side writes is rejected if its port is 0.
   */
  datatype Section = Section(kind: string, mid: string, rejected: bool)

  datatype SdpType = Offer | Answer

  /** What `_createTransceiver` makes, and what a rejected section leaves. */
  function Fresh(kind: string, dtls: bool): Transceiver {
    Transceiver(kind, None, false, None, false, None, true, false, dtls, false, false)
  }

  function Rejected(s: Section): Transceiver {
    Transceiver(s.kind, Some(s.mid), true, None, false, None, false, false, false, false, false)
  }

  // SSRCs.

  function OfferedSsrc(i: nat): nat { (2 * i + 1) * 1001 }
  function AnsweredSsrc(i: nat): nat { (2 * i + 2) * 1001 }

  /** The encoding of the transceiver at index `i` is one made for index `i`. */
  predicate MadeFor(e: Encoding, i: nat) {
    && (e.ssrc == OfferedSsrc(i) || e.ssrc == AnsweredSsrc(i))
    && (e.rtx.Some? ==> e.rtx.value == e.ssrc + 1)
  }

  /** SSRCs are made for the index, a rejected transceiver has no transports, and capabilities come with an encoding. */
  predicate InPlace(t: Transceiver, i: nat) {
    (t.send.Some? ==> MadeFor(t.send.value, i)) && (t.rejected ==> !t.dtls) && (t.localCaps ==> t.send.Some?)
  }

  /** No transceiver that has got SSRCs ever moves. */
  predicate Numbered(ts: seq<Transceiver>) {
    forall i :: 0 <= i < |ts| ==> InPlace(ts[i], i)
  }

  /** All SSRCs a transceiver holds. */
  function Ssrcs(t: Transceiver): set<nat> {
    if t.send.None? then {}
    else {t.send.value.ssrc} + (if t.send.value.rtx.Some? then {t.send.value.rtx.value} else {})
  }

  /** All primary and retransmission SSRCs are pairwise distinct. */
  lemma SsrcsDistinct(ts: seq<Transceiver>, i: nat, j: nat)
    requires Numbered(ts) && i < |ts| && j < |ts|
    ensures i != j ==> Ssrcs(ts[i]) !! Ssrcs(ts[j])
    ensures ts[i].send.Some? && ts[i].send.value.rtx.Some? ==> ts[i].send.value.rtx.value != ts[i].send.value.ssrc
  {
    assert InPlace(ts[i], i) && InPlace(ts[j], j);
    if i != j {
      forall x, y | x in Ssrcs(ts[i]) && y in Ssrcs(ts[j])
        ensures x != y
      {
        var (a, b) := (ts[i].send.value.ssrc / 1001, ts[j].send.value.ssrc / 1001);
        assert x / 1001 == a && y / 1001 == b;
        assert a == 2 * i + 1 || a == 2 * i + 2;
        assert b == 2 * j + 1 || b == 2 * j + 2;
      }
    }
  }

  function CountKind(ts: seq<Transceiver>, kind: string): nat {
    if ts == [] then 0 else (if ts[0].kind == kind then 1 else 0) + CountKind(ts[1..], kind)
  }

  lemma {:induction false} CountAppend(ts: seq<Transceiver>, t: Transceiver, kind: string)
    ensures CountKind(ts + [t], kind) == CountKind(ts, kind) + (if t.kind == kind then 1 else 0)
    decreases |ts|
  {
    if ts == [] {
      assert ts + [t] == [t] && [t][1..] == [];
    } else {
      CountAppend(ts[1..], t, kind);
      assert (ts + [t])[1..] == ts[1..] + [t];
    }
  }

  /** A list of audio and video is as long as there are of both. */
  lemma {:induction false} CountBoth(ts: seq<Transceiver>)
    requires forall i :: 0 <= i < |ts| ==> MediaKind(ts[i].kind)
    ensures |ts| == CountKind(ts, "audio") + CountKind(ts, "video")
  {
    KindsDiffer();
    if ts != [] {
      CountBoth(ts[1..]);
    }
  }

  lemma {:induction false} CountSame(a: seq<Transceiver>, b: seq<Transceiver>, kind: string)
    requires |a| == |b| && forall i :: 0 <= i < |a| ==> a[i].kind == b[i].kind
    ensures CountKind(a, kind) == CountKind(b, kind)
    decreases |a|
  {
    if a != [] {
      CountSame(a[1..], b[1..], kind);
    }
  }

  /** The transceiver list grows at its end only, and what is there stays where it is. */
  predicate Extends(before: seq<Transceiver>, after: seq<Transceiver>) {
    && |before| <= |after|
    && forall i :: 0 <= i < |before| ==>
         && after[i].kind == before[i].kind && after[i].rejected == before[i].rejected
         && after[i].dtls == before[i].dtls && (before[i].gatherer ==> after[i].gatherer)
         && (before[i].localCaps ==> after[i].localCaps) && after[i].remoteCaps == before[i].remoteCaps
  }

  /** An established mid is not changed. */
  predicate KeepsMids(before: seq<Transceiver>, after: seq<Transceiver>) {
    |before| <= |after| && forall i :: 0 <= i < |before| && before[i].mid.Some? && before[i].mid.value != [] ==> after[i].mid == before[i].mid
  }

  /** A primary SSRC, once made, is not changed. */
  predicate KeepsSsrc(a: Transceiver, b: Transceiver) {
    a.send.Some? ==> b.send.Some? && b.send.value.ssrc == a.send.value.ssrc
  }

  predicate KeepsSends(before: seq<Transceiver>, after: seq<Transceiver>) {
    |before| <= |after| && forall i :: 0 <= i < |before| ==> KeepsSsrc(before[i], after[i])
  }

  // What a remote offer makes of a list, said of the list before it.

  /** The kind of the transceiver that serves an accepted section: an existing one keeps its own. */
  function KindAfter(before: seq<Transceiver>, s: Section, i: nat): string {
    if i < |before| && !before[i].rejected && !s.rejected then before[i].kind else s.kind
  }

  /** Transceiver `i` has transports of its own; a recycled one asks transceiver 0, itself perhaps, for them under BUNDLE. */
  predicate OwnTransports(before: seq<Transceiver>, bundle: bool, i: nat) {
    i < |before| ==> if before[i].rejected then !bundle else before[i].dtls
  }

  /** The transceiver of accepted section `i` has transports; under BUNDLE they are those of transceiver 0. */
  predicate Transported(before: seq<Transceiver>, remote: seq<Section>, bundle: bool, i: nat)
    requires i < |remote|
  {
    if bundle && i > 0 then !remote[0].rejected && OwnTransports(before, bundle, 0)
    else OwnTransports(before, bundle, i)
  }

  /** Section `i` of a remote offer, set when the list was `before`, is transceiver `t`. */
  predicate Serves(before: seq<Transceiver>, remote: seq<Section>, bundle: bool, t: Transceiver, i: nat)
    requires i < |remote|
  {
    && t.mid == Some(remote[i].mid) && t.rejected == remote[i].rejected
    && t.kind == KindAfter(before, remote[i], i)
    && (!remote[i].rejected ==>
          && t.send.Some? && t.localCaps && t.remoteCaps
          && t.dtls == Transported(before, remote, bundle, i) && (t.dtls ==> t.gatherer))
  }

  /** Each section of the remote offer is the transceiver at its index. */
  predicate Aligned(before: seq<Transceiver>, remote: seq<Section>, bundle: bool, ts: seq<Transceiver>) {
    |remote| <= |ts| && forall i :: 0 <= i < |remote| ==> Serves(before, remote, bundle, ts[i], i)
  }

  // What one section of a remote description leaves at its index.

  function Entry(ts: seq<Transceiver>, i: nat): Option<Transceiver> {
    if i < |ts| then Some(ts[i]) else None
  }

  /**
    What works for an accepted section: the transceiver there was, or a new one in place of none or
    of a rejected one; under BUNDLE with what transceiver 0, the `first`, has for transports.
   */
  function Base(t: Option<Transceiver>, first: Option<Transceiver>, kind: string, i: nat, bundle: bool): Transceiver {
    var own := if t.Some? && !t.value.rejected then t.value else Fresh(kind, bundle && first.Some? ==> first.value.dtls);
    if bundle && i > 0 && first.Some? then own.(gatherer := first.value.gatherer, dtls := first.value.dtls) else own
  }

  /** An answer changes neither the mid nor the encoding, but for retransmission; an offer sets the mid. */
  function Applied(
    kind: SdpType, t: Option<Transceiver>, first: Option<Transceiver>, s: Section, i: nat, bundle: bool, hasRtx: bool): Transceiver
  {
    var b := Base(t, first, s.kind, i, bundle);
    if s.rejected then Rejected(s)
    else if kind.Offer? then
      b.(mid := Some(s.mid), localCaps := true, remoteCaps := true,
         gatherer := b.gatherer || (bundle && i > 0 && first.Some? ==> first.value.gatherer),
         send := Some(if b.send.Some? then b.send.value else Encoding(AnsweredSsrc(i), None)))
    else b.(remoteCaps := true, send := if hasRtx || b.send.None? then b.send else Some(b.send.value.(rtx := None)))
  }

  /** An accepted section of an answer needs a transceiver that was there, with local capabilities and, on its own, transports. */
  predicate CanApplyAnswer(ts: seq<Transceiver>, i: nat, bundle: bool) {
    i < |ts| && !ts[i].rejected && ts[i].localCaps && (!bundle || i == 0 ==> ts[i].dtls)
  }

  /** Nothing throws: `fault` says where a browser call does. */
  predicate Applicable(ts: seq<Transceiver>, kind: SdpType, s: Section, i: nat, bundle: bool, fault: nat) {
    fault > (if s.rejected then 0 else 3) && (kind.Answer? && !s.rejected ==> CanApplyAnswer(ts, i, bundle))
  }

  /** A transceiver is the object it was, with a track and a primary SSRC it keeps; an answer leaves its mid alone. */
  predicate Survives(a: Transceiver, b: Transceiver, kind: SdpType) {
    && b.kind == a.kind && b.rejected == a.rejected && b.track == a.track && b.streams == a.streams
    && KeepsSsrc(a, b) && (a.localCaps ==> b.localCaps)
    && (kind.Answer? ==> b.mid == a.mid)
  }

  /** Section `k` of an offer applied in order serves as it should. */
  lemma AppliedServes(before: seq<Transceiver>, sections: seq<Section>, bundle: bool, hasRtx: nat -> bool, ts: seq<Transceiver>, k: nat)
    requires Numbered(before) && k < |sections| && k < |ts|
    requires ts[0] == Applied(Offer, Entry(before, 0), Entry(before, 0), sections[0], 0, bundle, hasRtx(0))
    requires k > 0 ==> ts[k] == Applied(Offer, Entry(before, k), Some(ts[0]), sections[k], k, bundle, hasRtx(k))
    ensures Serves(before, sections, bundle, ts[k], k)
  {
    if before != [] {
      assert InPlace(before[0], 0);
    }
  }

  lemma StaysAligned(before: seq<Transceiver>, remote: seq<Section>, bundle: bool, was: seq<Transceiver>, now: seq<Transceiver>)
    requires Aligned(before, remote, bundle, was)
    requires Extends(was, now) && KeepsMids(was, now) && KeepsSends(was, now)
    requires forall s :: s in remote ==> s.mid != []
    ensures Aligned(before, remote, bundle, now)
  {
    forall i | 0 <= i < |remote|
      ensures Serves(before, remote, bundle, now[i], i)
    {
      assert remote[i] in remote;
      assert Serves(before, remote, bundle, was[i], i);
    }
  }

  /** On a new connection every accepted section can be answered unless, under BUNDLE, the first section is rejected and another is not. */
  lemma BundleNeedsFirst(offer: seq<Section>, bundle: bool)
    ensures (forall i :: 0 <= i < |offer| && !offer[i].rejected ==> Transported([], offer, bundle, i))
            <==> (bundle ==> forall i :: 0 <= i < |offer| && !offer[i].rejected ==> !offer[0].rejected)
  {
    forall i | 0 <= i < |offer| && !offer[i].rejected
      ensures Transported([], offer, bundle, i) <==> (bundle ==> !offer[0].rejected)
    {
    }
  }

  // What an answer says.

  /** The kinds for which a rejected section gets an m-line. */
  predicate Listed(kind: string) {
    kind == "application" || kind == "audio" || kind == "video"
  }

  /** What is printed for a mid that was never set. */
  function MidText(t: Transceiver): string {
    if t.mid.Some? then t.mid.value else "null"
  }

  /**
    What is written for one transceiver. Without an m-line the rest lands in the section before,
    after that section's own lines, and no section is added.
   */
  function AnswerSection(t: Transceiver, common: bool): seq<Section> {
    if t.rejected then if Listed(t.kind) then [Section(t.kind, MidText(t), true)] else []
    else [Section(t.kind, MidText(t), !common)]
  }

  /** The sections of an answer; `common(i)` says whether the two sides share a codec. */
  function AnswerSections(ts: seq<Transceiver>, n: nat, common: nat -> bool): seq<Section>
    requires n <= |ts|
  {
    if n == 0 then [] else AnswerSections(ts, n - 1, common) + AnswerSection(ts[n - 1], common(n - 1))
  }

  /** A rejected transceiver whose kind gets no m-line. */
  predicate Vanishes(t: Transceiver) {
    t.rejected && !Listed(t.kind)
  }

  lemma {:induction false} AnswerSectionsAt(ts: seq<Transceiver>, n: nat, common: nat -> bool)
    requires n <= |ts|
    ensures |AnswerSections(ts, n, common)| <= n
    ensures |AnswerSections(ts, n, common)| == n <==> forall i :: 0 <= i < n ==> !Vanishes(ts[i])
    ensures |AnswerSections(ts, n, common)| == n ==>
              forall i :: 0 <= i < n ==> [AnswerSections(ts, n, common)[i]] == AnswerSection(ts[i], common(i))
  {
    if n > 0 {
      AnswerSectionsAt(ts, n - 1, common);
      assert |AnswerSection(ts[n - 1], common(n - 1))| == if Vanishes(ts[n - 1]) then 0 else 1;
    }
  }

  /** Same number of sections, with the same mids in the same order. */
  predicate SameSections(offer: seq<Section>, answer: seq<Section>) {
    |answer| == |offer| && forall i :: 0 <= i < |offer| ==> answer[i].mid == offer[i].mid
  }

  /** Nothing rejected is of a kind that gets no m-line. */
  predicate NothingVanishes(offer: seq<Section>) {
    forall i :: 0 <= i < |offer| && offer[i].rejected ==> Listed(offer[i].kind)
  }

  /** Every accepted section has a common codec. */
  predicate CodecsShared(offer: seq<Section>, common: nat -> bool) {
    forall i :: 0 <= i < |offer| && !offer[i].rejected ==> common(i)
  }

  /** No accepted section meets an existing transceiver of another kind. */
  predicate KindsFit(before: seq<Transceiver>, offer: seq<Section>) {
    forall i :: 0 <= i < |offer| ==> KindAfter(before, offer[i], i) == offer[i].kind
  }

  /**
    An answer has the sections of the offer if and only if no section vanishes. Given that, they
    are rejected alike if and only if codecs are shared, and of the same kinds if and only if the
    offer met no transceiver of another kind.
   */
  lemma AnswerMatchesIff(before: seq<Transceiver>, offer: seq<Section>, bundle: bool, ts: seq<Transceiver>, common: nat -> bool)
    requires Aligned(before, offer, bundle, ts)
    ensures var answer := AnswerSections(ts, |offer|, common);
            && (SameSections(offer, answer) <==> NothingVanishes(offer))
            && (NothingVanishes(offer) ==>
                  && ((forall i :: 0 <= i < |offer| ==> answer[i].rejected == offer[i].rejected) <==> CodecsShared(offer, common))
                  && ((forall i :: 0 <= i < |offer| ==> answer[i].kind == offer[i].kind) <==> KindsFit(before, offer)))
            && (answer == offer <==> NothingVanishes(offer) && CodecsShared(offer, common) && KindsFit(before, offer))
  {
    var answer := AnswerSections(ts, |offer|, common);
    AnswerSectionsAt(ts, |offer|, common);
    forall i | 0 <= i < |offer|
      ensures Vanishes(ts[i]) <==> offer[i].rejected && !Listed(offer[i].kind)
      ensures NothingVanishes(offer) ==> |answer| == |offer| ==>
                answer[i] == Section(KindAfter(before, offer[i], i), offer[i].mid, offer[i].rejected || !common(i))
    {
      assert Serves(before, offer, bundle, ts[i], i);
      if |answer| == |offer| {
        assert [answer[i]] == AnswerSection(ts[i], common(i));
        assert [answer[i]][0] == answer[i];
      }
    }
    assert NothingVanishes(offer) <==> |answer| == |offer|;
    if NothingVanishes(offer) {
      assert forall i :: 0 <= i < |offer| ==> offer[i] == Section(offer[i].kind, offer[i].mid, offer[i].rejected);
      assert answer == offer <==> forall i :: 0 <= i < |offer| ==> answer[i] == offer[i];
    }
  }

  /** An offer of an audio section and a rejected text section is answered with one section. */
  lemma TextSectionVanishes(common: nat -> bool)
    ensures var offer := [Section("audio", "0", false), Section("text", "1", true)];
            forall ts :: Aligned([], offer, false, ts) ==> |AnswerSections(ts, 2, common)| == 1
  {
    var offer := [Section("audio", "0", false), Section("text", "1", true)];
    forall ts | Aligned([], offer, false, ts)
      ensures |AnswerSections(ts, 2, common)| == 1
    {
      assert Serves([], offer, false, ts[0], 0) && Serves([], offer, false, ts[1], 1);
      assert "text"[0] == 't' && !Listed("text");
      assert AnswerSections(ts, 1, common) == AnswerSections(ts, 0, common) + AnswerSection(ts[0], common(0));
    }
  }

  /** An accepted section comes back rejected when no codec is shared. */
  lemma AcceptedComesBackRejected()
    ensures var offer := [Section("audio", "0", false)];
            forall ts :: Aligned([], offer, false, ts) ==> AnswerSections(ts, 1, (i: nat) => false) == [Section("audio", "0", true)]
  {
    var offer := [Section("audio", "0", false)];
    forall ts | Aligned([], offer, false, ts)
      ensures AnswerSections(ts, 1, (i: nat) => false) == [Section("audio", "0", true)]
    {
      var none := (i: nat) => false;
      assert Serves([], offer, false, ts[0], 0);
      assert AnswerSections(ts, 1, none) == AnswerSections(ts, 0, none) + AnswerSection(ts[0], none(0));
    }
  }

  /** A connection at one moment; `remote` are the media sections of its last remote description. */
  datatype Snapshot = Snapshot(ts: seq<Transceiver>, usingBundle: bool, remote: seq<Section>)

  /** What a new transceiver's transports are: transceiver 0's under BUNDLE, if there is one. */
  predicate NewTransports(p: Snapshot) {
    p.usingBundle && p.ts != [] ==> p.ts[0].dtls
  }

  // What the calls do.

  ghost predicate Kept(p: Snapshot, q: Snapshot) {
    && Numbered(q.ts) && Extends(p.ts, q.ts) && KeepsMids(p.ts, q.ts) && KeepsSends(p.ts, q.ts)
    && q.usingBundle == p.usingBundle && q.remote == p.remote
  }

  function WithTrack(p: Snapshot, track: Track, streams: bool, at: nat): seq<Transceiver>
    requires at <= |p.ts|
  {
    var ts := if at == |p.ts| then p.ts + [Fresh(track.kind, NewTransports(p))] else p.ts;
    ts[at := ts[at].(track := Some(track), streams := streams)]
  }

  /** `addTrack`: a known track is refused; else the last free transceiver of the kind, or a new one at the end, gets it. */
  ghost predicate TrackAdded(p: Snapshot, track: Track, streams: bool, ok: bool, at: nat, q: Snapshot) {
    && Kept(p, q)
    && (ok <==> forall t :: t in p.ts ==> t.track != Some(track))
    && (!ok ==> q.ts == p.ts)
    && (ok ==> at == LastFree(p.ts, track.kind) <= |p.ts| && q.ts == WithTrack(p, track, streams, at) && q.ts[at].kind == track.kind)
  }

  /**
    `createOffer`: there are sections if and only if no browser call throws and every transceiver has
    transports, which a rejected one has not. Either way each kind is there as often as asked for.
   */
  ghost predicate OfferCreated(
    p: Snapshot, audio: Option<int>, video: Option<int>, gen: nat -> string, codecs: nat -> bool, fault: nat -> nat,
    sections: Option<seq<Section>>, q: Snapshot)
  {
    && Kept(p, q) && CountsFit(p.ts, q.ts, audio, video) && ListPrepared(p.ts, q.ts, q.usingBundle, gen)
    && OffersList(p.ts, q.ts, codecs, fault, sections)
  }

  ghost predicate CountsFit(a: seq<Transceiver>, b: seq<Transceiver>, audio: Option<int>, video: Option<int>) {
    && CountKind(b, "audio") == Max(CountKind(a, "audio"), Requested(audio, a, "audio"))
    && CountKind(b, "video") == Max(CountKind(a, "video"), Requested(video, a, "video"))
  }

  ghost predicate ListPrepared(a: seq<Transceiver>, b: seq<Transceiver>, bundle: bool, gen: nat -> string) {
    && |a| <= |b|
    && (forall i :: 0 <= i < |a| ==> OnlyPrepared(a[i], b[i], gen(i)))
    && (forall i :: |a| <= i < |b| ==> MediaKind(b[i].kind) && OnlyPrepared(Fresh(b[i].kind, bundle && i > 0 ==> b[0].dtls), b[i], gen(i)))
  }

  predicate MediaKind(kind: string) {
    kind == "audio" || kind == "video"
  }

  /** One section per transceiver, or none at all. */
  ghost predicate OffersList(
    a: seq<Transceiver>, b: seq<Transceiver>, codecs: nat -> bool, fault: nat -> nat, sections: Option<seq<Section>>)
  {
    && (sections.Some? <==> forall i :: 0 <= i < |b| ==> b[i].dtls && fault(i) > 2)
    && ((exists t :: t in a && t.rejected) ==> sections.None?)
    && (sections.Some? ==> |sections.value| == |b| && forall i :: 0 <= i < |b| ==> Offers(sections.value[i], b[i], codecs(i)))
  }

  /** Kind, track, transports and remote capabilities stay; the mid is the old one or the one generated. */
  predicate OnlyPrepared(a: Transceiver, b: Transceiver, id: string) {
    && b == a.(mid := b.mid, gatherer := b.gatherer, send := b.send, wantReceive := b.wantReceive, localCaps := b.localCaps)
    && (b.mid == a.mid || b.mid == Some(id))
  }

  /** A section of an own offer and its transceiver. */
  predicate Offers(s: Section, t: Transceiver, codecs: bool) {
    && t.mid == Some(s.mid) && t.kind == s.kind && s.rejected == !codecs
    && t.send.Some? && t.localCaps && t.gatherer
  }

  /** `createAnswer`, for the first as many transceivers as the remote description has sections. */
  ghost predicate AnswerCreated(
    rtxKnown: bool, p: Snapshot, hasRtx: nat -> bool, common: nat -> bool, fault: nat -> nat, answer: Option<seq<Section>>, q: Snapshot)
  {
    var n := Min(|p.remote|, |p.ts|);
    && Kept(p, q) && |q.ts| == |p.ts|
    && (forall i :: 0 <= i < |p.ts| ==> SameBut(p.ts[i], q.ts[i]) && (i >= n || q.ts[i].rejected ==> q.ts[i] == p.ts[i]))
    && (answer.Some? <==> forall i :: 0 <= i < n ==> CanAnswer(p.ts[i], fault(i)))
    && (answer.Some? ==> answer.value == AnswerSections(p.ts, n, common))
    && (answer.Some? ==> forall i :: 0 <= i < n && !q.ts[i].rejected ==>
          && p.ts[i].send.Some?
          && q.ts[i].send == Some(AnswerEncoding(p.ts[i], p.ts[i].send.value, rtxKnown, hasRtx(i))))
  }

  /**
    `setRemoteDescription`: it succeeds if and only if nothing throws at any section, and then every
    section has left its mark at its index. A throw part way leaves the old description, and
    transceivers that are neither rejected nor replaced remain what they were.
   */
  ghost predicate RemoteSet(
    p: Snapshot, kind: SdpType, sections: seq<Section>, bundle: bool, hasRtx: nat -> bool, fault: nat -> nat, ok: bool, q: Snapshot)
  {
    && Numbered(q.ts) && |p.ts| <= |q.ts| && q.usingBundle == bundle && q.remote == (if ok then sections else p.remote)
    && (forall k :: |sections| <= k < |p.ts| ==> q.ts[k] == p.ts[k])
    && (forall k :: 0 <= k < |p.ts| && k < |sections| && !sections[k].rejected && !p.ts[k].rejected ==> Survives(p.ts[k], q.ts[k], kind))
    && (ok <==> forall k :: 0 <= k < |sections| ==> Applicable(p.ts, kind, sections[k], k, bundle, fault(k)))
    && (ok ==> |q.ts| == Max(|p.ts|, |sections|) && forall k :: 0 <= k < |sections| ==>
          q.ts[k] == Applied(kind, Entry(p.ts, k), First(p.ts, q.ts, k), sections[k], k, bundle, hasRtx(k)))
  }

  /** Transceiver 0 as section `k` finds it. */
  function First(before: seq<Transceiver>, after: seq<Transceiver>, k: nat): Option<Transceiver> {
    Entry(if k == 0 then before else after, 0)
  }

  /** An offer set whole leaves every section at its index. */
  lemma OfferAligns(p: Snapshot, sections: seq<Section>, bundle: bool, hasRtx: nat -> bool, fault: nat -> nat, q: Snapshot)
    requires Numbered(p.ts) && RemoteSet(p, Offer, sections, bundle, hasRtx, fault, true, q)
    ensures Aligned(p.ts, sections, bundle, q.ts)
  {
    hide Applied, Serves;
    forall k | 0 <= k < |sections|
      ensures Serves(p.ts, sections, bundle, q.ts[k], k)
    {
      AppliedServes(p.ts, sections, bundle, hasRtx, q.ts, k);
    }
  }

  class Connection {
    /** Whether the browser knows retransmission (`edgeVersion >= 15019`). */
    const rtxKnown: bool
    var transceivers: seq<Transceiver>
    var usingBundle: bool
    /** The media sections of the last remote description. */
    var remote: seq<Section>

    /** `maxBundle` is the bundle policy `max-bundle`. */
    constructor (rtxKnown: bool, maxBundle: bool)
      ensures transceivers == [] && remote == [] && usingBundle == maxBundle && this.rtxKnown == rtxKnown
    {
      this.rtxKnown := rtxKnown;
      transceivers, remote, usingBundle := [], [], maxBundle;
    }

    function Snap(): Snapshot
      reads this
    {
      Snapshot(transceivers, usingBundle, remote)
    }

    /** `_createTransceiver`, which appends. */
    method CreateTransceiver(kind: string)
      requires Numbered(transceivers)
      modifies this`transceivers
      ensures transceivers == old(transceivers) + [Fresh(kind, NewTransports(old(Snap())))]
      ensures Numbered(transceivers) && LastFree(transceivers, kind) == |old(transceivers)|
      ensures forall k :: CountKind(transceivers, k) == CountKind(old(transceivers), k) + (if k == kind then 1 else 0)
      ensures Extends(old(transceivers), transceivers) && KeepsMids(old(transceivers), transceivers) && KeepsSends(old(transceivers), transceivers)
    {
      ghost var was := transceivers;
      transceivers := transceivers + [Fresh(kind, NewTransports(Snap()))];
      Restored(was, transceivers, |was|);
      LastFreeIs(transceivers, kind, |was|);
      forall k
        ensures CountKind(transceivers, k) == CountKind(was, k) + (if k == kind then 1 else 0)
      {
        CountAppend(was, transceivers[|was|], k);
      }
    }

    /** `addTrack`: the last free transceiver of the kind, or a new one at the end. */
    method AddTrack(track: Track, streams: bool) returns (ok: bool, at: nat)
      requires Numbered(transceivers)
      modifies this`transceivers
      ensures TrackAdded(old(Snap()), track, streams, ok, at, Snap())
    {
      ghost var p := Snap();
      at := |transceivers|;
      for i := 0 to |transceivers|
        invariant forall j :: 0 <= j < i ==> transceivers[j].track != Some(track)
      {
        if transceivers[i].track == Some(track) {
          return false, 0;
        }
      }
      ok := true;
      for i := 0 to |transceivers|
        invariant at == |transceivers| || (at < i && IsFree(transceivers[at], track.kind))
        invariant forall j :: 0 <= j < i && (at == |transceivers| || j > at) ==> !IsFree(transceivers[j], track.kind)
      {
        if IsFree(transceivers[i], track.kind) {
          at := i;
        }
      }
      LastFreeIs(transceivers, track.kind, at);
      if at == |transceivers| {
        CreateTransceiver(track.kind);
      }
      ghost var was := transceivers;
      transceivers := transceivers[at := transceivers[at].(track := Some(track), streams := streams)];
      assert forall j :: 0 <= j < |was| ==> InPlace(was[j], j);
      assert transceivers == WithTrack(p, track, streams, at);
    }

    /** The first loop of `createOffer`: more transceivers than asked for do not want to receive. */
    method LimitReceiving(audio: int, video: int) returns (moreAudio: int, moreVideo: int)
      requires Numbered(transceivers)
      modifies this`transceivers
      ensures Numbered(transceivers) && |transceivers| == |old(transceivers)|
      ensures forall i :: 0 <= i < |transceivers| ==> transceivers[i] == old(transceivers)[i].(wantReceive := transceivers[i].wantReceive)
      ensures moreAudio == audio - CountKind(old(transceivers), "audio") && moreVideo == video - CountKind(old(transceivers), "video")
    {
      moreAudio, moreVideo := audio, video;
      ghost var was := transceivers;
      for i := 0 to |transceivers|
        invariant |transceivers| == |was| && Numbered(transceivers)
        invariant forall k :: 0 <= k < |was| ==> transceivers[k] == was[k].(wantReceive := transceivers[k].wantReceive)
        invariant moreAudio == audio - CountKind(was[..i], "audio") && moreVideo == video - CountKind(was[..i], "video")
      {
        assert was[..i + 1] == was[..i] + [was[i]];
        CountAppend(was[..i], was[i], "audio");
        CountAppend(was[..i], was[i], "video");
        assert InPlace(transceivers[i], i);
        if transceivers[i].kind == "audio" {
          moreAudio := moreAudio - 1;
          if moreAudio < 0 {
            transceivers := transceivers[i := transceivers[i].(wantReceive := false)];
          }
        } else if transceivers[i].kind == "video" {
          moreVideo := moreVideo - 1;
          if moreVideo < 0 {
            transceivers := transceivers[i := transceivers[i].(wantReceive := false)];
          }
        }
      }
      assert was[..|was|] == was;
    }

    /** The second loop: new transceivers for what is still to be received. */
    method AddReceiving(audio: int, video: int)
      requires Numbered(transceivers)
      modifies this`transceivers
      ensures Numbered(transceivers) && old(transceivers) <= transceivers
      ensures forall i :: |old(transceivers)| <= i < |transceivers| ==>
                MediaKind(transceivers[i].kind) && transceivers[i] == Fresh(transceivers[i].kind, usingBundle && i > 0 ==> transceivers[0].dtls)
      ensures CountKind(transceivers, "audio") == CountKind(old(transceivers), "audio") + Max(0, audio)
      ensures CountKind(transceivers, "video") == CountKind(old(transceivers), "video") + Max(0, video)
    {
      var (a, v) := (audio, video);
      KindsDiffer();
      hide Numbered, Extends, KeepsMids, KeepsSends, LastFree, CountKind;
      while a > 0 || v > 0
        invariant Numbered(transceivers) && old(transceivers) <= transceivers
        invariant forall i :: |old(transceivers)| <= i < |transceivers| ==>
                    MediaKind(transceivers[i].kind) && transceivers[i] == Fresh(transceivers[i].kind, usingBundle && i > 0 ==> transceivers[0].dtls)
        invariant CountKind(transceivers, "audio") + Max(0, a) == CountKind(old(transceivers), "audio") + Max(0, audio)
        invariant CountKind(transceivers, "video") + Max(0, v) == CountKind(old(transceivers), "video") + Max(0, video)
        decreases Max(0, a) + Max(0, v)
      {
        if a > 0 {
          CreateTransceiver("audio");
          a := a - 1;
        }
        if v > 0 {
          CreateTransceiver("video");
          v := v - 1;
        }
      }
    }

    /** The first two loops together. */
    method FitKinds(audio: int, video: int)
      requires Numbered(transceivers)
      modifies this`transceivers
      ensures Numbered(transceivers)
      ensures Extends(old(transceivers), transceivers) && KeepsMids(old(transceivers), transceivers) && KeepsSends(old(transceivers), transceivers)
      ensures CountKind(transceivers, "audio") == Max(CountKind(old(transceivers), "audio"), audio)
      ensures CountKind(transceivers, "video") == Max(CountKind(old(transceivers), "video"), video)
      ensures forall i :: 0 <= i < |old(transceivers)| ==>
                transceivers[i] == old(transceivers)[i].(wantReceive := transceivers[i].wantReceive)
      ensures forall i :: |old(transceivers)| <= i < |transceivers| ==>
                MediaKind(transceivers[i].kind) && transceivers[i] == Fresh(transceivers[i].kind, usingBundle && i > 0 ==> transceivers[0].dtls)
    {
      ghost var was := transceivers;
      var a, v := LimitReceiving(audio, video);
      CountSame(was, transceivers, "audio");
      CountSame(was, transceivers, "video");
      ghost var limited := transceivers;
      AddReceiving(a, v);
      LimitedKeeps(was, limited, transceivers);
    }

    /**
      The third loop: a mid, a gatherer and an SSRC made from the index for every transceiver that
      lacks them. `fault` says how far each turn gets, and `done` is the number of whole turns.
     */
    method Prepare(gen: nat -> string, fault: nat -> nat) returns (done: nat)
      requires Numbered(transceivers)
      modifies this`transceivers
      ensures Numbered(transceivers) && |transceivers| == |old(transceivers)|
      ensures Extends(old(transceivers), transceivers) && KeepsMids(old(transceivers), transceivers) && KeepsSends(old(transceivers), transceivers)
      ensures done <= |transceivers| && (forall i :: 0 <= i < done ==> fault(i) > 1) && (done < |transceivers| ==> fault(done) <= 1)
      ensures forall i :: 0 <= i < |transceivers| ==>
                transceivers[i] == if i <= done then Prepared(old(transceivers)[i], i, gen(i), rtxKnown, fault(i)) else old(transceivers)[i]
    {
      ghost var was := transceivers;
      done := 0;
      while done < |transceivers| && fault(done) > 1
        invariant |transceivers| == |was| && done <= |was|
        invariant forall k :: 0 <= k < done ==> fault(k) > 1 && transceivers[k] == Prepared(was[k], k, gen(k), rtxKnown, fault(k))
        invariant forall k :: done <= k < |was| ==> transceivers[k] == was[k]
      {
        PrepareTurn(done, gen(done), fault(done));
        done := done + 1;
      }
      if done < |transceivers| {
        PrepareTurn(done, gen(done), fault(done));
      }
      PreparedKeeps(was, transceivers, done, gen, rtxKnown, fault);
    }

    /** One turn of that loop, the gatherer of transceiver 0 being there when a later one asks for it. */
    method PrepareTurn(i: nat, id: string, stage: nat)
      requires i < |transceivers| && (i > 0 ==> transceivers[0].gatherer)
      modifies this`transceivers
      ensures transceivers == old(transceivers)[i := Prepared(old(transceivers)[i], i, id, rtxKnown, stage)]
    {
      var t := PrepareOne(transceivers[i], i, usingBundle && i > 0 ==> transceivers[0].gatherer, id, stage);
      transceivers := transceivers[i := t];
    }

    method PrepareOne(transceiver: Transceiver, i: nat, gatherer: bool, id: string, stage: nat) returns (t: Transceiver)
      requires gatherer
      ensures t == Prepared(transceiver, i, id, rtxKnown, stage)
    {
      hide MidOr, Sent, Prepared;
      t := transceiver.(mid := Some(MidOr(transceiver, id)));
      if !t.gatherer {
        t := t.(gatherer := gatherer);
      }
      if stage > 0 {
        var e := Sent(t.kind, t.track.Some?, t.send, i, rtxKnown);
        if stage > 1 {
          t := t.(send := Some(e), localCaps := true);
        } else if t.send.Some? {
          t := t.(send := Some(e));
        }
      }
      PreparedIs(transceiver, t, i, id, rtxKnown, stage);
    }

    /**
      `createOffer`: one section per transceiver, in order, or a throw: `fault(i)` is 0 or 1 if a
      browser call throws while transceiver `i` is prepared and 2 if one does while its section is
      written. A transceiver without transports, as every rejected one, makes it throw. `codecs(i)`
      says whether the browser has a codec for its kind.
     */
    method CreateOffer(audio: Option<int>, video: Option<int>, gen: nat -> string, codecs: nat -> bool, fault: nat -> nat)
        returns (sections: Option<seq<Section>>)
      requires Numbered(transceivers)
      modifies this`transceivers
      ensures OfferCreated(old(Snap()), audio, video, gen, codecs, fault, sections, Snap())
    {
      hide Numbered, Extends, KeepsMids, KeepsSends, CountKind, Requested, Prepared, MidText, Kept;
      ghost var p := Snap();
      FitKinds(Requested(audio, transceivers, "audio"), Requested(video, transceivers, "video"));
      ghost var grown := transceivers;
      var done := Prepare(gen, fault);
      sections := None;
      if done == |transceivers| {
        sections := WriteOffer(codecs, fault);
      }
      OfferIsCreated(p, grown, Snap(), audio, video, done, gen, codecs, rtxKnown, fault, sections);
    }

    /** The last loop of `createOffer`, which writes the sections. */
    method WriteOffer(codecs: nat -> bool, fault: nat -> nat) returns (sections: Option<seq<Section>>)
      ensures sections.Some? <==> forall i :: 0 <= i < |transceivers| ==> transceivers[i].gatherer && transceivers[i].dtls && fault(i) != 2
      ensures sections.Some? ==> |sections.value| == |transceivers|
      ensures sections.Some? ==> forall i :: 0 <= i < |transceivers| ==>
                sections.value[i] == Section(transceivers[i].kind, MidText(transceivers[i]), !codecs(i))
    {
      var out: seq<Section> := [];
      for i := 0 to |transceivers|
        invariant |out| == i
        invariant forall k :: 0 <= k < i ==>
                    && transceivers[k].gatherer && transceivers[k].dtls && fault(k) != 2
                    && out[k] == Section(transceivers[k].kind, MidText(transceivers[k]), !codecs(k))
      {
        if !transceivers[i].gatherer || !transceivers[i].dtls || fault(i) == 2 {
          return None;
        }
        out := out + [Section(transceivers[i].kind, MidText(transceivers[i]), !codecs(i))];
      }
      sections := Some(out);
    }

    /**
      `createAnswer`, for the first as many transceivers as the remote description has sections.
      `fault(i)` is below 3 if a browser call throws for transceiver `i`: 0 at its start, 1 once
      retransmission has been added, 2 while its section is written.
     */
    method CreateAnswer(hasRtx: nat -> bool, common: nat -> bool, fault: nat -> nat) returns (answer: Option<seq<Section>>)
      requires Numbered(transceivers)
      modifies this`transceivers
      ensures AnswerCreated(rtxKnown, old(Snap()), hasRtx, common, fault, answer, Snap())
    {
      hide Numbered, Extends, KeepsMids, KeepsSends, AnswerSection, Answered, CanAnswer, SameBut, OnlyRtx, AnswerEncoding, AnswerCreated;
      ghost var p, was := Snap(), transceivers;
      var out: seq<Section> := [];
      for i := 0 to |transceivers|
        invariant |transceivers| == |was|
        invariant forall k :: 0 <= k < |was| && (i <= k || |remote| <= k) ==> transceivers[k] == was[k]
        invariant forall k :: 0 <= k < Min(i, |remote|) ==> Answered(was[k], transceivers[k], rtxKnown, hasRtx(k), fault(k))
        invariant out == AnswerSections(was, Min(i, |remote|), common)
      {
        if i + 1 <= |remote| {
          var ok, written := AnswerTurn(i, hasRtx(i), common(i), fault(i));
          if !ok {
            AnswerIsCreated(p, Snap(), i, rtxKnown, hasRtx, common, fault, None);
            return None;
          }
          out := out + written;
        }
      }
      answer := Some(out);
      AnswerIsCreated(p, Snap(), |was|, rtxKnown, hasRtx, common, fault, answer);
    }

    /** One turn of that loop, with what it writes. */
    method AnswerTurn(i: nat, hasRtx: bool, common: bool, fault: nat) returns (ok: bool, written: seq<Section>)
      requires i < |transceivers|
      modifies this`transceivers
      ensures |transceivers| == |old(transceivers)|
      ensures forall k :: 0 <= k < |transceivers| && k != i ==> transceivers[k] == old(transceivers)[k]
      ensures OnlyRtx(old(transceivers)[i], transceivers[i])
      ensures ok <==> CanAnswer(old(transceivers)[i], fault)
      ensures ok ==> written == AnswerSection(old(transceivers)[i], common)
      ensures ok ==> Answered(old(transceivers)[i], transceivers[i], rtxKnown, hasRtx, fault)
      ensures old(transceivers)[i].rejected ==> transceivers[i] == old(transceivers)[i]
    {
      var t := transceivers[i];
      if t.rejected {
        return true, if Listed(t.kind) then [Section(t.kind, MidText(t), true)] else [];
      }
      if t.send.None? || fault == 0 {
        return false, [];
      }
      var e := AddRtx(t, t.send.value, rtxKnown);
      if fault > 1 && t.localCaps && t.remoteCaps && !hasRtx {
        e := e.(rtx := None);
      }
      transceivers := transceivers[i := t.(send := Some(e))];
      if fault <= 2 || !t.localCaps || !t.remoteCaps || !t.gatherer || !t.dtls {
        return false, [];
      }
      return true, [Section(t.kind, MidText(t), !common)];
    }

    /**
      One section of a remote description. `fault` is 4 or more if no browser call throws, and else
      says where one does; without transports, candidates are such a place as well.
     */
    method ApplySection(kind: SdpType, i: nat, s: Section, hasRtx: bool, fault: nat) returns (ok: bool)
      requires Numbered(transceivers) && i <= |transceivers|
      modifies this`transceivers
      ensures Numbered(transceivers) && |old(transceivers)| <= |transceivers| <= Max(|old(transceivers)|, i + 1)
      ensures forall k :: 0 <= k < |old(transceivers)| && k != i ==> transceivers[k] == old(transceivers)[k]
      ensures ok <==> Applicable(old(transceivers), kind, s, i, usingBundle, fault)
      ensures ok ==> i < |transceivers|
                     && transceivers[i] == Applied(kind, Entry(old(transceivers), i), Entry(old(transceivers), 0), s, i, usingBundle, hasRtx)
      ensures i < |old(transceivers)| && !s.rejected && !old(transceivers)[i].rejected ==> Survives(old(transceivers)[i], transceivers[i], kind)
    {
      hide Base, Numbered;
      ghost var was := transceivers;
      if fault == 0 {
        return false;
      }
      if s.rejected {
        transceivers := if i < |transceivers| then transceivers[i := Rejected(s)] else transceivers + [Rejected(s)];
        Restored(was, transceivers, i);
        return true;
      }
      Recycle(i, s.kind);
      if fault == 1 {
        return false;
      }
      ShareTransports(i);
      ghost var ready := transceivers;
      ReadyIsBase(was, ready, s.kind, i, usingBundle);
      AppliedToBase(kind, Entry(was, i), Entry(was, 0), Entry(ready, 0), s, i, usingBundle, hasRtx);
      if kind.Offer? {
        ok := ApplyOffered(i, s, hasRtx, fault);
      } else {
        ok := ApplyAnswered(i, s, hasRtx, fault);
      }
    }

    /** A rejected transceiver makes room for a new one. */
    method Recycle(i: nat, kind: string)
      requires Numbered(transceivers)
      modifies this`transceivers
      ensures Numbered(transceivers) && |transceivers| == |old(transceivers)|
      ensures forall k :: 0 <= k < |transceivers| && k != i ==> transceivers[k] == old(transceivers)[k]
      ensures i < |transceivers| ==>
                transceivers[i] == if old(transceivers)[i].rejected then Fresh(kind, NewTransports(old(Snap()))) else old(transceivers)[i]
    {
      ghost var was := transceivers;
      if i < |transceivers| && transceivers[i].rejected {
        transceivers := transceivers[i := Fresh(kind, NewTransports(Snap()))];
        Restored(was, transceivers, i);
      }
    }

    /** Under BUNDLE all but transceiver 0 give up their transports for those of transceiver 0. */
    method ShareTransports(i: nat)
      requires Numbered(transceivers) && (i < |transceivers| ==> !transceivers[i].rejected)
      modifies this`transceivers
      ensures Numbered(transceivers) && |transceivers| == |old(transceivers)|
      ensures forall k :: 0 <= k < |transceivers| && k != i ==> transceivers[k] == old(transceivers)[k]
      ensures i < |transceivers| ==>
                transceivers[i] == if usingBundle && i > 0
                                   then old(transceivers)[i].(gatherer := transceivers[0].gatherer, dtls := transceivers[0].dtls)
                                   else old(transceivers)[i]
    {
      ghost var was := transceivers;
      if usingBundle && 0 < i < |transceivers| {
        assert InPlace(was[i], i);
        transceivers := transceivers[i := transceivers[i].(gatherer := transceivers[0].gatherer, dtls := transceivers[0].dtls)];
        Restored(was, transceivers, i);
      }
    }

    /** What remains of an accepted section of an offer. */
    method ApplyOffered(i: nat, s: Section, ghost hasRtx: bool, fault: nat) returns (ok: bool)
      requires Numbered(transceivers) && i <= |transceivers| && (i < |transceivers| ==> !transceivers[i].rejected)
      requires i < |transceivers| && usingBundle && i > 0 ==>
                 transceivers[i].gatherer == transceivers[0].gatherer && transceivers[i].dtls == transceivers[0].dtls
      requires !s.rejected && fault > 1
      modifies this`transceivers
      ensures Numbered(transceivers) && |transceivers| == Max(|old(transceivers)|, i + 1)
      ensures forall k :: 0 <= k < |old(transceivers)| && k != i ==> transceivers[k] == old(transceivers)[k]
      ensures ok <==> fault > 3
      ensures ok ==> transceivers[i] == Applied(Offer, Entry(old(transceivers), i), Entry(old(transceivers), 0), s, i, usingBundle, hasRtx)
      ensures i < |old(transceivers)| ==> Survives(old(transceivers)[i], transceivers[i], Offer)
    {
      hide Extends, KeepsMids, KeepsSends, LastFree, CountKind, Numbered, InPlace, Applied, Survives;
      ghost var was := transceivers;
      if i == |transceivers| {
        CreateTransceiver(s.kind);
      }
      var t := transceivers[i];
      ghost var made, zero := t, transceivers[0];
      InPlaceAt(transceivers, i);
      t := t.(mid := Some(s.mid));
      if !t.gatherer {
        t := t.(gatherer := if usingBundle && i > 0 then transceivers[0].gatherer else true);
      }
      if fault > 2 {
        var e := if t.send.Some? then t.send.value else Encoding(AnsweredSsrc(i), None);
        t := t.(send := Some(e), localCaps := true, remoteCaps := true);
      }
      StillInPlace(made, t, i);
      OfferedIsApplied(Entry(was, i), Entry(was, 0), made, zero, t, s, i, usingBundle, hasRtx, fault);
      ghost var last := transceivers;
      transceivers := transceivers[i := t];
      Restored(last, transceivers, i);
      ok := fault > 3;
    }

    /** What remains of an accepted section of an answer. */
    method ApplyAnswered(i: nat, ghost s: Section, hasRtx: bool, fault: nat) returns (ok: bool)
      requires Numbered(transceivers) && i <= |transceivers| && (i < |transceivers| ==> !transceivers[i].rejected)
      requires i < |transceivers| && usingBundle && i > 0 ==>
                 transceivers[i].gatherer == transceivers[0].gatherer && transceivers[i].dtls == transceivers[0].dtls
      requires !s.rejected && fault > 1
      modifies this`transceivers
      ensures Numbered(transceivers) && |transceivers| == |old(transceivers)|
      ensures forall k :: 0 <= k < |transceivers| && k != i ==> transceivers[k] == old(transceivers)[k]
      ensures ok <==> fault > 3 && CanApplyAnswer(old(transceivers), i, usingBundle)
      ensures ok ==> transceivers[i] == Applied(Answer, Entry(old(transceivers), i), Entry(old(transceivers), 0), s, i, usingBundle, hasRtx)
      ensures i < |transceivers| ==> Survives(old(transceivers)[i], transceivers[i], Answer)
    {
      if i == |transceivers| {
        return false;
      }
      ghost var was := transceivers;
      assert InPlace(was[i], i);
      transceivers := transceivers[i := transceivers[i].(remoteCaps := true)];
      Restored(was, transceivers, i);
      if fault == 2 || ((!usingBundle || i == 0) && !transceivers[i].dtls) || !transceivers[i].localCaps {
        return false;
      }
      if !hasRtx {
        transceivers := transceivers[i := transceivers[i].(send := Some(transceivers[i].send.value.(rtx := None)))];
      }
      Restored(was, transceivers, i);
      ok := fault != 3;
    }

    /** `setRemoteDescription`: section `i` works on transceiver `i`, creating it if it comes next. */
    method SetRemoteDescription(kind: SdpType, sections: seq<Section>, bundle: bool, hasRtx: nat -> bool, fault: nat -> nat) returns (ok: bool)
      requires Numbered(transceivers)
      modifies this
      ensures RemoteSet(old(Snap()), kind, sections, bundle, hasRtx, fault, ok, Snap())
    {
      hide Applied, Survives, Applicable, Numbered;
      ghost var was := transceivers;
      usingBundle := bundle;
      for i := 0 to |sections|
        invariant Numbered(transceivers) && |transceivers| == Max(|was|, i)
        invariant forall k :: i <= k < |was| ==> transceivers[k] == was[k]
        invariant forall k :: 0 <= k < i ==>
                    && Applicable(was, kind, sections[k], k, bundle, fault(k))
                    && transceivers[k] == Applied(kind, Entry(was, k), First(was, transceivers, k), sections[k], k, bundle, hasRtx(k))
        invariant forall k :: 0 <= k < |was| && k < i && !sections[k].rejected && !was[k].rejected ==> Survives(was[k], transceivers[k], kind)
        invariant remote == old(remote) && usingBundle == bundle
      {
        ApplicableThere(transceivers, was, kind, sections[i], i, bundle, fault(i));
        ghost var last := transceivers;
        ok := ApplySection(kind, i, sections[i], hasRtx(i), fault(i));
        if !ok {
          OthersSurvive(was, last, transceivers, kind, sections, i);
          return;
        }
      }
      remote := sections;
      ok := true;
    }
  }

  predicate IsFree(t: Transceiver, kind: string) {
    t.track.None? && t.kind == kind
  }

  /** The index of the last transceiver of a kind without a track, or the length. */
  function LastFree(ts: seq<Transceiver>, kind: string): nat {
    LastFreeBelow(ts, kind, |ts|)
  }

  function LastFreeBelow(ts: seq<Transceiver>, kind: string, n: nat): nat
    requires n <= |ts|
  {
    if n == 0 then |ts| else if IsFree(ts[n - 1], kind) then n - 1 else LastFreeBelow(ts, kind, n - 1)
  }

  lemma LastFreeIs(ts: seq<Transceiver>, kind: string, at: nat)
    requires at == |ts| || (at < |ts| && IsFree(ts[at], kind))
    requires forall j :: 0 <= j < |ts| && (at == |ts| || j > at) ==> !IsFree(ts[j], kind)
    ensures LastFree(ts, kind) == at
  {
    LastFreeBelowIs(ts, kind, at, |ts|);
  }

  lemma {:induction false} LastFreeBelowIs(ts: seq<Transceiver>, kind: string, at: nat, n: nat)
    requires n <= |ts| && (at == |ts| || (at < n && IsFree(ts[at], kind)))
    requires forall j :: 0 <= j < n && (at == |ts| || j > at) ==> !IsFree(ts[j], kind)
    ensures LastFreeBelow(ts, kind, n) == at
  {
    if n > 0 && !IsFree(ts[n - 1], kind) {
      LastFreeBelowIs(ts, kind, at, n - 1);
    }
  }

  lemma KindsDiffer()
    ensures "audio" != "video"
  {
    assert "audio"[0] != "video"[0];
  }

  /** How many of a kind are asked for; nothing said means as many as there are. */
  function Requested(n: Option<int>, ts: seq<Transceiver>, kind: string): int {
    if n.Some? then n.value else CountKind(ts, kind)
  }

  function MidOr(t: Transceiver, id: string): string {
    if t.mid.Some? && t.mid.value != [] then t.mid.value else id
  }

  /** Retransmission for video, if the browser knows it. */
  function VideoRtx(kind: string, e: Encoding, rtxKnown: bool): Encoding {
    if rtxKnown && kind == "video" && e.rtx.None? then e.(rtx := Some(e.ssrc + 1)) else e
  }

  /** The encoding of an offer: an old one or one made for the index, with retransmission for a video track. */
  function Sent(kind: string, track: bool, send: Option<Encoding>, i: nat, rtxKnown: bool): Encoding {
    var e := if send.Some? then send.value else Encoding(OfferedSsrc(i), None);
    if track then VideoRtx(kind, e, rtxKnown) else e
  }

  /** What an offer makes of a transceiver; a `stage` of 0 or 1 means that the turn is broken off. */
  function Prepared(t: Transceiver, i: nat, id: string, rtxKnown: bool, stage: nat): Transceiver {
    t.(mid := Some(MidOr(t, id)),
       gatherer := true,
       localCaps := t.localCaps || stage > 1,
       send := if stage > 1 || (stage == 1 && t.send.Some?) then Some(Sent(t.kind, t.track.Some?, t.send, i, rtxKnown)) else t.send)
  }

  lemma PreparedIs(a: Transceiver, r: Transceiver, i: nat, id: string, rtxKnown: bool, stage: nat)
    requires var u := a.(mid := Some(MidOr(a, id)), gatherer := true);
             var e := Some(Sent(a.kind, a.track.Some?, a.send, i, rtxKnown));
             r == if stage > 1 then u.(send := e, localCaps := true) else if stage == 1 && a.send.Some? then u.(send := e) else u
    ensures r == Prepared(a, i, id, rtxKnown, stage)
  {
    hide MidOr, Sent;
  }

  lemma LimitedKeeps(a: seq<Transceiver>, b: seq<Transceiver>, c: seq<Transceiver>)
    requires |a| == |b| && forall i :: 0 <= i < |a| ==> b[i] == a[i].(wantReceive := b[i].wantReceive)
    requires b <= c
    ensures Extends(a, c) && KeepsMids(a, c) && KeepsSends(a, c)
  {
    assert forall i :: 0 <= i < |b| ==> c[i] == b[i];
  }

  lemma OfferKeeps(a: seq<Transceiver>, b: seq<Transceiver>, c: seq<Transceiver>)
    requires Extends(a, b) && KeepsMids(a, b) && KeepsSends(a, b)
    requires Extends(b, c) && KeepsMids(b, c) && KeepsSends(b, c)
    ensures Extends(a, c) && KeepsMids(a, c) && KeepsSends(a, c)
  {
  }

  /** A rejected transceiver has no transports, and gets none from an offer. */
  lemma RejectedStays(before: seq<Transceiver>, after: seq<Transceiver>)
    requires Numbered(before) && Extends(before, after)
    ensures (exists t :: t in before && t.rejected) ==> exists i :: 0 <= i < |after| && !after[i].dtls
  {
    if t :| t in before && t.rejected {
      var i :| 0 <= i < |before| && before[i] == t;
      assert InPlace(before[i], i);
      assert !after[i].dtls;
    }
  }

  /** Applying a section finds the same whether the transceiver has been made ready before or not. */
  lemma AppliedToBase(
    kind: SdpType, t: Option<Transceiver>, first: Option<Transceiver>, now: Option<Transceiver>, s: Section, i: nat, bundle: bool, hasRtx: bool)
    requires i > 0 ==> now == first
    requires i == 0 ==> t == first
    requires t.None? && i == 0 ==> now == first
    ensures t.Some? ==> Applied(kind, Some(Base(t, first, s.kind, i, bundle)), now, s, i, bundle, hasRtx) == Applied(kind, t, first, s, i, bundle, hasRtx)
    ensures t.None? ==> Applied(kind, t, now, s, i, bundle, hasRtx) == Applied(kind, t, first, s, i, bundle, hasRtx)
  {
  }

  lemma ReadyIsBase(was: seq<Transceiver>, ready: seq<Transceiver>, kind: string, i: nat, bundle: bool)
    requires i <= |was| == |ready| && forall k :: 0 <= k < |was| && k != i ==> ready[k] == was[k]
    requires i < |was| ==>
               var t := if was[i].rejected then Fresh(kind, NewTransports(Snapshot(was, bundle, []))) else was[i];
               ready[i] == if bundle && i > 0 then t.(gatherer := was[0].gatherer, dtls := was[0].dtls) else t
    ensures i < |was| ==> ready[i] == Base(Entry(was, i), Entry(was, 0), kind, i, bundle)
    ensures i > 0 || was == [] ==> Entry(ready, 0) == Entry(was, 0)
    ensures i < |was| ==> !ready[i].rejected
    ensures CanApplyAnswer(ready, i, bundle) <==> CanApplyAnswer(was, i, bundle)
  {
  }

  /** Whether section `i` of an answer can be applied depends on transceiver `i` alone. */
  lemma ApplicableThere(a: seq<Transceiver>, b: seq<Transceiver>, kind: SdpType, s: Section, i: nat, bundle: bool, fault: nat)
    requires |a| == Max(|b|, i) && (i < |b| ==> a[i] == b[i])
    ensures Applicable(a, kind, s, i, bundle, fault) <==> Applicable(b, kind, s, i, bundle, fault)
    ensures Entry(a, i) == Entry(b, i)
  {
  }

  lemma OthersSurvive(was: seq<Transceiver>, last: seq<Transceiver>, now: seq<Transceiver>, kind: SdpType, sections: seq<Section>, i: nat)
    requires i < |sections| && |was| <= |last| <= |now| && forall k :: i <= k < |was| ==> last[k] == was[k]
    requires forall k :: 0 <= k < |was| && k < i && !sections[k].rejected && !was[k].rejected ==> Survives(was[k], last[k], kind)
    requires forall k :: 0 <= k < |last| && k != i ==> now[k] == last[k]
    requires i < |last| && !sections[i].rejected && !last[i].rejected ==> Survives(last[i], now[i], kind)
    ensures forall k :: 0 <= k < |was| && k < |sections| && !sections[k].rejected && !was[k].rejected ==> Survives(was[k], now[k], kind)
  {
    forall k | 0 <= k < |was| && k < |sections| && !sections[k].rejected && !was[k].rejected
      ensures Survives(was[k], now[k], kind)
    {
      if k > i {
        assert now[k] == was[k];
      }
    }
  }

  /** Nothing stops the section of a transceiver in an answer. */
  predicate CanAnswer(t: Transceiver, fault: nat) {
    t.rejected || (t.send.Some? && t.localCaps && t.remoteCaps && t.gatherer && t.dtls && fault > 2)
  }

  predicate SameBut(a: Transceiver, b: Transceiver) {
    b == a.(send := b.send) && (a.send.Some? <==> b.send.Some?)
  }

  /** Retransmission is added for a local video track. */
  function AddRtx(t: Transceiver, e: Encoding, rtxKnown: bool): Encoding {
    if t.streams then VideoRtx(t.kind, e, rtxKnown) else e
  }

  /** It is taken away if the other side has none. */
  function AnswerEncoding(t: Transceiver, e: Encoding, rtxKnown: bool, hasRtx: bool): Encoding {
    if hasRtx then AddRtx(t, e, rtxKnown) else AddRtx(t, e, rtxKnown).(rtx := None)
  }

  /** At most retransmission is added or taken away. */
  predicate OnlyRtx(a: Transceiver, b: Transceiver) {
    && SameBut(a, b)
    && (a.send.Some? ==>
          && b.send.value.ssrc == a.send.value.ssrc
          && (b.send.value.rtx == a.send.value.rtx || b.send.value.rtx == None || b.send.value.rtx == Some(a.send.value.ssrc + 1)))
  }

  lemma OnlyRtxStaysInPlace(a: Transceiver, b: Transceiver, i: nat)
    requires InPlace(a, i) && OnlyRtx(a, b)
    ensures InPlace(b, i)
  {
  }

  /** Turns of `createAnswer` up to and including one that is broken off keep what a connection keeps. */
  lemma AnsweredKeeps(a: seq<Transceiver>, b: seq<Transceiver>, i: nat, n: nat, rtxKnown: bool, hasRtx: nat -> bool, fault: nat -> nat)
    requires Numbered(a) && |a| == |b|
    requires forall k :: 0 <= k < |a| && k < i && k < n ==> Answered(a[k], b[k], rtxKnown, hasRtx(k), fault(k))
    requires i < |a| && i < n ==> OnlyRtx(a[i], b[i]) && (a[i].rejected ==> b[i] == a[i])
    requires forall k :: 0 <= k < |a| && (i < k || n <= k) ==> b[k] == a[k]
    ensures Numbered(b) && Extends(a, b) && KeepsMids(a, b) && KeepsSends(a, b)
    ensures forall k :: 0 <= k < |a| ==> SameBut(a[k], b[k]) && (b[k].rejected ==> b[k] == a[k])
    ensures forall k :: 0 <= k < |a| && k < i && k < n ==> CanAnswer(a[k], fault(k))
    ensures forall k :: 0 <= k < |a| && k < i && k < n && !b[k].rejected ==>
              a[k].send.Some? && b[k].send == Some(AnswerEncoding(a[k], a[k].send.value, rtxKnown, hasRtx(k)))
  {
    forall k | 0 <= k < |a|
      ensures SameBut(a[k], b[k]) && InPlace(b[k], k) && (b[k].rejected ==> b[k] == a[k])
    {
      assert InPlace(a[k], k);
      assert OnlyRtx(a[k], b[k]);
      OnlyRtxStaysInPlace(a[k], b[k], k);
    }
  }

  /** The loop of `createAnswer`, stopped at transceiver `i` or gone through to the end. */
  lemma AnswerIsCreated(
    p: Snapshot, q: Snapshot, i: nat, rtxKnown: bool, hasRtx: nat -> bool, common: nat -> bool, fault: nat -> nat, answer: Option<seq<Section>>)
    requires Numbered(p.ts) && |p.ts| == |q.ts| && q.usingBundle == p.usingBundle && q.remote == p.remote
    requires forall k :: 0 <= k < |p.ts| && k < i && k < |p.remote| ==> Answered(p.ts[k], q.ts[k], rtxKnown, hasRtx(k), fault(k))
    requires i < |p.ts| && i < |p.remote| ==> OnlyRtx(p.ts[i], q.ts[i]) && (p.ts[i].rejected ==> q.ts[i] == p.ts[i])
    requires forall k :: 0 <= k < |p.ts| && (i < k || |p.remote| <= k) ==> q.ts[k] == p.ts[k]
    requires answer.None? ==> i < |p.ts| && i < |p.remote| && !CanAnswer(p.ts[i], fault(i))
    requires answer.Some? ==> i == |p.ts| && answer.value == AnswerSections(p.ts, Min(i, |p.remote|), common)
    ensures AnswerCreated(rtxKnown, p, hasRtx, common, fault, answer, q)
  {
    AnsweredKeeps(p.ts, q.ts, i, |p.remote|, rtxKnown, hasRtx, fault);
    hide Numbered, Extends, KeepsMids, KeepsSends, Answered, CanAnswer, SameBut, OnlyRtx, AnswerEncoding, AnswerSections;
    assert Kept(p, q);
  }

  /** So do turns of `createOffer`. */
  lemma PreparedKeeps(a: seq<Transceiver>, b: seq<Transceiver>, done: nat, gen: nat -> string, rtxKnown: bool, fault: nat -> nat)
    requires Numbered(a) && |a| == |b|
    requires forall i :: 0 <= i < |a| ==> b[i] == if i <= done then Prepared(a[i], i, gen(i), rtxKnown, fault(i)) else a[i]
    ensures Numbered(b) && Extends(a, b) && KeepsMids(a, b) && KeepsSends(a, b)
  {
    forall i | 0 <= i < |a|
      ensures InPlace(b[i], i)
    {
      assert InPlace(a[i], i);
    }
  }

  /** A list prepared whole is ready but for its transports. */
  lemma PreparedIsReady(a: seq<Transceiver>, b: seq<Transceiver>, done: nat, gen: nat -> string, rtxKnown: bool, fault: nat -> nat)
    requires |a| == |b| && done <= |a| && (done < |a| ==> fault(done) <= 1) && forall i :: 0 <= i < done ==> fault(i) > 1
    requires forall i :: 0 <= i < |a| ==> b[i] == if i <= done then Prepared(a[i], i, gen(i), rtxKnown, fault(i)) else a[i]
    ensures forall i :: 0 <= i < |a| ==> b[i].dtls == a[i].dtls && b[i].kind == a[i].kind
    ensures forall i :: 0 <= i < done ==> b[i].gatherer && b[i].mid == Some(MidText(b[i])) && b[i].send.Some? && b[i].localCaps
    ensures (forall i :: 0 <= i < |b| ==> b[i].dtls && fault(i) > 2) ==> done == |b|
  {
    if done < |a| {
      assert !(fault(done) > 2);
    }
  }

  /** The three loops of `createOffer` together. */
  lemma OfferIsCreated(
    p: Snapshot, grown: seq<Transceiver>, q: Snapshot, audio: Option<int>, video: Option<int>, done: nat,
    gen: nat -> string, codecs: nat -> bool, rtxKnown: bool, fault: nat -> nat, sections: Option<seq<Section>>)
    requires Numbered(p.ts) && q.usingBundle == p.usingBundle && q.remote == p.remote
    requires Extends(p.ts, grown) && KeepsMids(p.ts, grown) && KeepsSends(p.ts, grown)
    requires CountsFit(p.ts, grown, audio, video)
    requires forall i :: 0 <= i < |p.ts| ==> grown[i] == p.ts[i].(wantReceive := grown[i].wantReceive)
    requires forall i :: |p.ts| <= i < |grown| ==> MediaKind(grown[i].kind) && grown[i] == Fresh(grown[i].kind, p.usingBundle && i > 0 ==> grown[0].dtls)
    requires Numbered(q.ts) && |q.ts| == |grown| && Extends(grown, q.ts) && KeepsMids(grown, q.ts) && KeepsSends(grown, q.ts)
    requires done <= |grown| && (forall i :: 0 <= i < done ==> fault(i) > 1) && (done < |grown| ==> fault(done) <= 1)
    requires forall i :: 0 <= i < |grown| ==> q.ts[i] == if i <= done then Prepared(grown[i], i, gen(i), rtxKnown, fault(i)) else grown[i]
    requires sections.Some? <==> done == |grown| && forall i :: 0 <= i < |grown| ==> q.ts[i].gatherer && q.ts[i].dtls && fault(i) != 2
    requires sections.Some? ==> |sections.value| == |q.ts| && forall i :: 0 <= i < |q.ts| ==>
                sections.value[i] == Section(q.ts[i].kind, MidText(q.ts[i]), !codecs(i))
    ensures OfferCreated(p, audio, video, gen, codecs, fault, sections, q)
  {
    hide *;
    OfferKeeps(p.ts, grown, q.ts);
    IsKept(p, q);
    CountsStayFit(p.ts, grown, q.ts, audio, video);
    OnlyPreparedChanges(p.ts, grown, q.ts, p.usingBundle, done, gen, rtxKnown, fault);
    PreparedIsReady(grown, q.ts, done, gen, rtxKnown, fault);
    OffersListIf(p.ts, q.ts, done, codecs, fault, sections);
    AllOfOffer(p, audio, video, gen, codecs, fault, sections, q);
  }

  lemma AllOfOffer(
    p: Snapshot, audio: Option<int>, video: Option<int>, gen: nat -> string, codecs: nat -> bool, fault: nat -> nat,
    sections: Option<seq<Section>>, q: Snapshot)
    requires Kept(p, q) && CountsFit(p.ts, q.ts, audio, video) && ListPrepared(p.ts, q.ts, q.usingBundle, gen)
    requires OffersList(p.ts, q.ts, codecs, fault, sections)
    ensures OfferCreated(p, audio, video, gen, codecs, fault, sections, q)
  {
  }

  lemma IsKept(p: Snapshot, q: Snapshot)
    requires Numbered(q.ts) && Extends(p.ts, q.ts) && KeepsMids(p.ts, q.ts) && KeepsSends(p.ts, q.ts)
    requires q.usingBundle == p.usingBundle && q.remote == p.remote
    ensures Kept(p, q)
  {
  }

  lemma CountsStayFit(a: seq<Transceiver>, b: seq<Transceiver>, c: seq<Transceiver>, audio: Option<int>, video: Option<int>)
    requires CountsFit(a, b, audio, video) && |b| == |c| && Extends(b, c)
    ensures CountsFit(a, c, audio, video)
  {
    CountSame(b, c, "audio");
    CountSame(b, c, "video");
  }

  lemma OffersListIf(
    a: seq<Transceiver>, b: seq<Transceiver>, done: nat, codecs: nat -> bool, fault: nat -> nat, sections: Option<seq<Section>>)
    requires Numbered(a) && Extends(a, b)
    requires done <= |b| && (forall i :: 0 <= i < done ==> fault(i) > 1)
    requires forall i :: 0 <= i < done ==> b[i].gatherer && b[i].mid == Some(MidText(b[i])) && b[i].send.Some? && b[i].localCaps
    requires (forall i :: 0 <= i < |b| ==> b[i].dtls && fault(i) > 2) ==> done == |b|
    requires sections.Some? <==> done == |b| && forall i :: 0 <= i < |b| ==> b[i].gatherer && b[i].dtls && fault(i) != 2
    requires sections.Some? ==> |sections.value| == |b| && forall i :: 0 <= i < |b| ==>
                sections.value[i] == Section(b[i].kind, MidText(b[i]), !codecs(i))
    ensures OffersList(a, b, codecs, fault, sections)
  {
    hide Numbered, Extends, MidText, Offers;
    RejectedStays(a, b);
    SectionsAreOffers(b, codecs, sections);
  }

  lemma SectionsAreOffers(ts: seq<Transceiver>, codecs: nat -> bool, sections: Option<seq<Section>>)
    requires sections.Some? ==> |sections.value| == |ts| && forall i :: 0 <= i < |ts| ==>
                && sections.value[i] == Section(ts[i].kind, MidText(ts[i]), !codecs(i))
                && ts[i].gatherer && ts[i].mid == Some(MidText(ts[i])) && ts[i].send.Some? && ts[i].localCaps
    ensures sections.Some? ==> forall i :: 0 <= i < |ts| ==> Offers(sections.value[i], ts[i], codecs(i))
  {
    hide MidText;
  }

  lemma OnlyPreparedChanges(
    a: seq<Transceiver>, b: seq<Transceiver>, c: seq<Transceiver>, bundle: bool, done: nat, gen: nat -> string, rtxKnown: bool, fault: nat -> nat)
    requires |a| <= |b| == |c|
    requires forall i :: 0 <= i < |a| ==> b[i] == a[i].(wantReceive := b[i].wantReceive)
    requires forall i :: |a| <= i < |b| ==> MediaKind(b[i].kind) && b[i] == Fresh(b[i].kind, bundle && i > 0 ==> b[0].dtls)
    requires forall i :: 0 <= i < |b| ==> c[i] == if i <= done then Prepared(b[i], i, gen(i), rtxKnown, fault(i)) else b[i]
    ensures ListPrepared(a, c, bundle, gen)
  {
    forall i | 0 <= i < |b|
      ensures OnlyPrepared(b[i], c[i], gen(i)) && c[i].kind == b[i].kind && c[i].dtls == b[i].dtls
    {
    }
  }

  /** What a whole turn of `createAnswer` leaves of a transceiver. */
  predicate Answered(a: Transceiver, b: Transceiver, rtxKnown: bool, hasRtx: bool, fault: nat) {
    if a.rejected then b == a
    else CanAnswer(a, fault) && b == a.(send := Some(AnswerEncoding(a, a.send.value, rtxKnown, hasRtx)))
  }

  /** Mid, gatherer, encoding and capabilities are what an offer sets. */
  lemma OfferedIsApplied(
    t: Option<Transceiver>, first: Option<Transceiver>, made: Transceiver, zero: Transceiver, r: Transceiver, s: Section, i: nat, bundle: bool,
    hasRtx: bool, fault: nat)
    requires !s.rejected && !made.rejected && (i > 0 ==> first == Some(zero))
    requires if t.Some? then t == Some(made) else made == Fresh(s.kind, bundle && first.Some? ==> first.value.dtls)
    requires t.Some? && bundle && i > 0 ==> made.gatherer == zero.gatherer && made.dtls == zero.dtls
    requires var u := made.(mid := Some(s.mid), gatherer := made.gatherer || (bundle && i > 0 ==> zero.gatherer));
             r == if fault > 2 then u.(send := Some(if u.send.Some? then u.send.value else Encoding(AnsweredSsrc(i), None)), localCaps := true, remoteCaps := true)
                  else u
    ensures fault > 3 ==> r == Applied(Offer, t, first, s, i, bundle, hasRtx)
    ensures t.Some? ==> Survives(made, r, Offer)
  {
    hide AnsweredSsrc;
  }

  lemma InPlaceAt(ts: seq<Transceiver>, i: nat)
    requires Numbered(ts) && i < |ts|
    ensures InPlace(ts[i], i)
  {
  }

  /** Setting mid and gatherer, and an answerer's encoding if there is none, keeps a transceiver in place. */
  lemma StillInPlace(a: Transceiver, b: Transceiver, i: nat)
    requires InPlace(a, i) && b.rejected == a.rejected && b.dtls == a.dtls
    requires (b.send == a.send && b.localCaps == a.localCaps)
             || b.send == Some(if a.send.Some? then a.send.value else Encoding(AnsweredSsrc(i), None))
    ensures InPlace(b, i)
  {
  }

  /** A change at one index keeps the list numbered if the new entry fits there. */
  lemma Restored(a: seq<Transceiver>, b: seq<Transceiver>, i: nat)
    requires Numbered(a) && |a| <= |b| && i <= |a| && |b| <= Max(|a|, i + 1)
    requires forall k :: 0 <= k < |a| && k != i ==> b[k] == a[k]
    requires i < |b| ==> InPlace(b[i], i)
    ensures Numbered(b)
  {
    forall k | 0 <= k < |b|
      ensures InPlace(b[k], k)
    {
      if k != i {
        assert InPlace(a[k], k);
      }
    }
  }

  // All SSRCs of a connection.

  predicate Distinct(ts: seq<Transceiver>) {
    && (forall i, j :: 0 <= i < j < |ts| ==> Ssrcs(ts[i]) !! Ssrcs(ts[j]))
    && (forall i :: 0 <= i < |ts| && ts[i].send.Some? && ts[i].send.value.rtx.Some? ==> ts[i].send.value.rtx.value != ts[i].send.value.ssrc)
  }

  lemma AllDistinct(ts: seq<Transceiver>)
    requires Numbered(ts)
    ensures Distinct(ts)
  {
    forall i, j | 0 <= i < j < |ts|
      ensures Ssrcs(ts[i]) !! Ssrcs(ts[j])
    {
      SsrcsDistinct(ts, i, j);
    }
    forall i | 0 <= i < |ts|
      ensures ts[i].send.Some? && ts[i].send.value.rtx.Some? ==> ts[i].send.value.rtx.value != ts[i].send.value.ssrc
    {
      SsrcsDistinct(ts, i, i);
    }
  }
}
