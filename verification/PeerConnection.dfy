/**
  `PeerConnection::create_offer` (xrtc_server/src/pc/peer_connection.cpp) with the codec lists
  of session_description.cpp: what the browser side reads out of every offer.
 */
module PeerConnection {
  import opened Common
  import opened SdpText
  import opened SdpSections
  import opened SdpLines
  import opened SdpTags
  import opened SessionDescription
  import opened SessionSections
  import opened SessionRoundTrip
  import opened SessionPrinter

  datatype Options = Options(
    sendAudio: bool, sendVideo: bool, recvAudio: bool, recvVideo: bool,
    useRtpMux: bool, useRtcpMux: bool, dtlsOn: bool)

  /** No certificate, one whose fingerprint cannot be made, or one with a fingerprint. */
  datatype Certificate = Absent | Broken | Usable(fingerprint: Fingerprint)

  function RtpDirection(send: bool, recv: bool): Direction {
    if send && recv then SendReceive else if send then SendOnly else if recv then ReceiveOnly else Inactive
  }

  function Opus(): Codec {
    Codec(111, "opus", 48000, 2, [Feedback("transport-cc", [])], [Param("minptime", "10"), Param("useinbandfec", "1")])
  }

  function H264(): Codec {
    Codec(107, "h264", 90000, 1,
          [Feedback("goog-remb", []), Feedback("transport-cc", []), Feedback("ccm", "fir"), Feedback("nack", []), Feedback("nack", "pli")],
          [Param("level-asymmetry-allowed", "1"), Param("packetization-mode", "1"), Param("profile-level-id", "42e01")])
  }

  function Rtx(): Codec {
    Codec(99, "rtx", 90000, 1, [], [Param("apt", "107")])
  }

  function AudioSection(o: Options): Media {
    Media(Audio, "audio", RtpDirection(o.sendAudio, o.recvAudio), o.useRtcpMux, [Opus()])
  }

  function VideoSection(o: Options): Media {
    Media(Video, "video", RtpDirection(o.sendVideo, o.recvVideo), o.useRtcpMux, [H264(), Rtx()])
  }

  /**
    `add_transport_info` of an offer. A certificate without a fingerprint adds nothing. The section's
    credentials can be looked up by its mid, unless an earlier transport has that mid; what other
    mids find stays as it was.
   */
  method AddTransportInfo(ts: seq<Transport>, mid: string, ufrag: string, password: string, c: Certificate)
    returns (r: seq<Transport>)
    ensures r == ts + TransportOf(mid, ufrag, password, c)
    ensures c.Broken? ==> r == ts
    ensures forall other :: other != mid || GetTransport(ts, mid).Some? ==> GetTransport(r, other) == GetTransport(ts, other)
    ensures GetTransport(ts, mid).None? && !c.Broken? ==>
              var t := GetTransport(r, mid);
              && t.Some? && t.value.mid == mid && t.value.ufrag == ufrag && t.value.password == password && t.value.role == ActPass
              && (t.value.fingerprint.Some? <==> c.Usable?) && (c.Usable? ==> t.value.fingerprint.value == c.fingerprint)
  {
    var fp: Option<Fingerprint> := None;
    if c.Broken? {
      assert ts + [] == ts;
      return ts;
    }
    if c.Usable? {
      fp := Some(c.fingerprint);
    }
    r := ts + [Transport(mid, ufrag, password, fp, ActPass)];
    forall other
      ensures GetTransport(r, other) ==
              if GetTransport(ts, other).Some? then GetTransport(ts, other)
              else if other == mid then Some(Transport(mid, ufrag, password, fp, ActPass)) else None
    {
      LookUpAppended(ts, Transport(mid, ufrag, password, fp, ActPass), other);
    }
  }

  lemma {:induction false} LookUpAppended(ts: seq<Transport>, t: Transport, mid: string)
    ensures GetTransport(ts + [t], mid) ==
            if GetTransport(ts, mid).Some? then GetTransport(ts, mid) else if t.mid == mid then Some(t) else None
    decreases |ts|
  {
    if ts == [] {
      assert (ts + [t])[1..] == [];
    } else {
      LookUpAppended(ts[1..], t, mid);
      assert (ts + [t])[1..] == ts[1..] + [t];
    }
  }

  function Wanted(o: Options): seq<Media> {
    (if o.recvAudio then [AudioSection(o)] else []) + (if o.recvVideo then [VideoSection(o)] else [])
  }

  function TransportOf(mid: string, ufrag: string, password: string, c: Certificate): seq<Transport> {
    if c.Broken? then [] else [Transport(mid, ufrag, password, if c.Usable? then Some(c.fingerprint) else None, ActPass)]
  }

  /** The description an offer is printed from. */
  function Offer(o: Options, ufrag: string, password: string, c: Certificate): Session {
    Session(Wanted(o),
            if o.useRtpMux && Wanted(o) != [] then [Group("BUNDLE", Map((m: Media) => m.mid, Wanted(o)))] else [],
            (if o.recvAudio then TransportOf("audio", ufrag, password, c) else [])
            + (if o.recvVideo then TransportOf("video", ufrag, password, c) else []))
  }

  /** Letters, digits and dashes, more or less: no space and no delimiter. */
  ghost predicate Plain(s: string) {
    forall c :: c in s ==> '-' <= c <= 'z' && c != '/' && c != ';' && c != '='
  }

  lemma PlainIsWord(s: string)
    requires Plain(s)
    ensures Word(s) && Free(s, "/") && Free(s, "=;") && (s != [] ==> IsLine(s))
  {
    forall c | c in s
      ensures !IsSpace(c) && c !in "/" && c !in "=;"
    {
    }
    SpaceFacts();
    hide IsSpace;
    if s != [] {
      assert s[0] in s && s[|s| - 1] in s;
    }
  }

  lemma WordsAreWords()
    ensures Word("audio") && Word("video") && Word("opus") && Word("h264") && Word("rtx")
    ensures Free("opus", "/") && Free("h264", "/") && Free("rtx", "/")
  {
    assert Plain("audio") && Plain("video") && Plain("opus") && Plain("h264") && Plain("rtx");
    hide Plain, Word, Free;
    PlainIsWord("audio");
    PlainIsWord("video");
    PlainIsWord("opus");
    PlainIsWord("h264");
    PlainIsWord("rtx");
  }

  lemma PlainFeedback(id: string, param: string)
    requires Plain(id) && Plain(param) && id != []
    ensures GoodFeedback(Feedback(id, param))
  {
    hide Plain, Word, Free;
    PlainIsWord(id);
    PlainIsWord(param);
  }

  lemma PlainParam(key: string, value: string)
    requires Plain(key) && Plain(value)
    ensures GoodParam(Param(key, value))
  {
    hide Plain, Word, Free;
    PlainIsWord(key);
    PlainIsWord(value);
  }

  lemma FeedbackIsGood()
    ensures GoodFeedback(Feedback("transport-cc", [])) && GoodFeedback(Feedback("goog-remb", [])) && GoodFeedback(Feedback("ccm", "fir"))
    ensures GoodFeedback(Feedback("nack", [])) && GoodFeedback(Feedback("nack", "pli"))
  {
    assert Plain("transport-cc") && Plain("goog-remb") && Plain("ccm") && Plain("nack") && Plain("fir") && Plain("pli") && Plain([]);
    hide Plain, GoodFeedback;
    PlainFeedback("transport-cc", []);
    PlainFeedback("goog-remb", []);
    PlainFeedback("ccm", "fir");
    PlainFeedback("nack", []);
    PlainFeedback("nack", "pli");
  }

  lemma LongKeysArePlain()
    ensures Plain("level-asymmetry-allowed") && Plain("packetization-mode") && Plain("profile-level-id")
  {
  }

  lemma ParamsAreGood()
    ensures GoodParam(Param("minptime", "10")) && GoodParam(Param("useinbandfec", "1")) && GoodParam(Param("apt", "107"))
    ensures GoodParam(Param("level-asymmetry-allowed", "1")) && GoodParam(Param("packetization-mode", "1"))
    ensures GoodParam(Param("profile-level-id", "42e01"))
  {
    assert Plain("10") && Plain("1") && Plain("107") && Plain("42e01") && Plain("apt") && Plain("minptime") && Plain("useinbandfec");
    hide Plain, GoodParam;
    LongKeysArePlain();
    PlainParam("minptime", "10");
    PlainParam("useinbandfec", "1");
    PlainParam("apt", "107");
    PlainParam("level-asymmetry-allowed", "1");
    PlainParam("packetization-mode", "1");
    PlainParam("profile-level-id", "42e01");
  }

  lemma KeysDiffer()
    ensures "minptime" != "useinbandfec" && "level-asymmetry-allowed" != "packetization-mode"
    ensures "level-asymmetry-allowed" != "profile-level-id" && "packetization-mode" != "profile-level-id"
  {
    assert "minptime"[0] != "useinbandfec"[0];
    assert "level-asymmetry-allowed"[0] == 'l' && "packetization-mode"[0] == 'p' && "packetization-mode"[1] == 'a' && "profile-level-id"[1] == 'r';
    assert "profile-level-id"[0] == 'p';
  }

  lemma CodecsAreGood()
    ensures GoodCodec(Opus()) && GoodCodec(H264()) && GoodCodec(Rtx())
  {
    WordsAreWords();
    FeedbackIsGood();
    ParamsAreGood();
    KeysDiffer();
    hide Word, Free, GoodFeedback, GoodParam;
  }

  lemma SectionsAreGood(o: Options)
    ensures GoodMedia(AudioSection(o)) && GoodMedia(VideoSection(o))
  {
    WordsAreWords();
    CodecsAreGood();
    hide Word, Free, GoodCodec;
    assert [H264(), Rtx()][0].id == 107 && [H264(), Rtx()][1].id == 99;
  }

  ghost predicate GoodCredentials(ufrag: string, password: string, c: Certificate) {
    && Word(ufrag) && Word(password)
    && (c.Usable? ==> Word(c.fingerprint.algorithm) && Word(c.fingerprint.value) && c.fingerprint.value != [])
  }

  /** Offers are within what the round trip covers. */
  lemma OfferIsGood(o: Options, ufrag: string, password: string, c: Certificate)
    requires GoodCredentials(ufrag, password, c)
    ensures Good(Offer(o, ufrag, password, c))
  {
    SectionsAreGood(o);
    BundleIsGood(o, Wanted(o));
    var s := Offer(o, ufrag, password, c);
    hide Word, GoodMedia, AudioSection, VideoSection, GetGroups;
    assert forall t :: t in s.transports ==> GoodTransport(t);
  }

  lemma BundleIsGood(o: Options, ms: seq<Media>)
    requires ms == Wanted(o)
    ensures var gs := if o.useRtpMux && ms != [] then [Group("BUNDLE", Map((m: Media) => m.mid, ms))] else [];
            |GetGroups(gs, "BUNDLE")| <= 1 && forall g, w :: g in gs && w in g.contents ==> Word(w) && w != []
  {
    WordsAreWords();
    assert forall m :: m in ms ==> m.mid == "audio" || m.mid == "video";
    hide Word, AudioSection, VideoSection;
    var mids := Map((m: Media) => m.mid, ms);
    var gs := if o.useRtpMux && ms != [] then [Group("BUNDLE", mids)] else [];
    if gs != [] {
      assert GetGroups(gs[1..], "BUNDLE") == [];
    }
    forall w | w in mids
      ensures Word(w) && w != []
    {
      var k :| 0 <= k < |mids| && mids[k] == w;
      assert ms[k] in ms;
    }
  }

  /** Every section of an offer has the transport of its own mid, unless the certificate is broken. */
  lemma OfferTransport(o: Options, ufrag: string, password: string, c: Certificate, m: Media)
    requires m in Wanted(o)
    ensures var t := GetTransport(Offer(o, ufrag, password, c).transports, m.mid);
            if c.Broken? then t.None? else t.Some? && t.value.ufrag == ufrag && t.value.password == password
  {
    assert "audio"[0] != "video"[0];
    var ts := Offer(o, ufrag, password, c).transports;
    if !c.Broken? && |ts| == 2 {
      assert ts[1..] == TransportOf("video", ufrag, password, c);
    }
  }

  /**
    `create_offer`: nothing without the certificate that DTLS needs; otherwise text in which
    the other side finds exactly the sections it may send, with direction, credentials and codecs.
   */
  method CreateOffer(o: Options, ufrag: string, password: string, c: Certificate) returns (text: string)
    requires GoodCredentials(ufrag, password, c)
    ensures o.dtlsOn && c.Absent? ==> text == []
    ensures !(o.dtlsOn && c.Absent?) ==> |MediaSections(text)| == |Wanted(o)|
    ensures !(o.dtlsOn && c.Absent?) ==> forall k :: 0 <= k < |Wanted(o)| ==>
              var (section, session, m) := (MediaSections(text)[k], Description(text), Wanted(o)[k]);
              && GetMid(section) == Some(m.mid)
              && GetDirection(section, session) == DirectionText(m.direction)
              && GetIceParameters(section, session) == (if c.Broken? then None else Some(IceParameters(ufrag, password)))
              && ParseRtpParameters(section) == Map(codec => Meaning(codec, m.kind), m.codecs)
  {
    if o.dtlsOn && c.Absent? {
      return [];
    }
    var desc := Describe(o, ufrag, password, c);
    OfferIsGood(o, ufrag, password, c);
    OneBundle(desc);
    assert desc.media == Wanted(o);
    hide *;
    text := ToString(desc);
    RoundTrip(desc);
    forall k | 0 <= k < |Wanted(o)|
      ensures var t := GetTransport(desc.transports, Wanted(o)[k].mid);
              if c.Broken? then t.None? else t.Some? && t.value.ufrag == ufrag && t.value.password == password
    {
      OfferTransport(o, ufrag, password, c, Wanted(o)[k]);
    }
  }

  lemma OneBundle(s: Session)
    requires Good(s)
    ensures |GetGroups(s.groups, "BUNDLE")| <= 1
  {
  }

  /** The description, section by section. */
  method Describe(o: Options, ufrag: string, password: string, c: Certificate) returns (desc: Session)
    ensures desc == Offer(o, ufrag, password, c)
  {
    hide AudioSection, VideoSection;
    var media: seq<Media> := [];
    var ts: seq<Transport> := [];
    if o.recvAudio {
      media := media + [AudioSection(o)];
      ts := AddTransportInfo(ts, "audio", ufrag, password, c);
    }
    if o.recvVideo {
      media := media + [VideoSection(o)];
      ts := AddTransportInfo(ts, "video", ufrag, password, c);
    }
    assert media == Wanted(o);
    assert ts == Offer(o, ufrag, password, c).transports;
    var groups := GroupMids(o, media);
    desc := Session(media, groups, ts);
  }

  /** The bundle of all sections, if there are any; `add_content` skips a mid already there. */
  method GroupMids(o: Options, media: seq<Media>) returns (groups: seq<Group>)
    requires media == Wanted(o)
    ensures groups == if o.useRtpMux && media != [] then [Group("BUNDLE", Map((m: Media) => m.mid, media))] else []
  {
    groups := [];
    if o.useRtpMux {
      var contents: seq<string> := [];
      ghost var mids := Map((m: Media) => m.mid, media);
      assert "audio"[0] != "video"[0];
      for k := 0 to |media|
        invariant contents == mids[..k]
      {
        if media[k].mid !in contents {
          contents := contents + [media[k].mid];
        }
        assert mids[..k + 1] == mids[..k] + [mids[k]];
      }
      assert mids[..|media|] == mids;
      if contents != [] {
        groups := [Group("BUNDLE", contents)];
      }
    }
  }
}
