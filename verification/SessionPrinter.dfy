/**
  `SessionDescription::to_string` and `PeerConnection::create_offer` (xrtc_server/src/pc) as
  they run: text appended to a stream in loops, a description built up step by step.
 */
module SessionPrinter {
  import opened Common
  import opened SdpText
  import opened SdpSections
  import opened SdpLines
  import opened SdpTags
  import opened SessionDescription
  import opened SessionSections
  import opened SessionRoundTrip

  lemma {:induction false} TextAppend(a: seq<string>, b: seq<string>)
    ensures Text(a + b) == Text(a) + Text(b)
    decreases |a|
  {
    if a == [] {
      assert a + b == b;
    } else {
      TextAppend(a[1..], b);
      assert (a + b)[1..] == a[1..] + b;
      assert a[0] + CRLF + (Text(a[1..]) + Text(b)) == a[0] + CRLF + Text(a[1..]) + Text(b);
    }
  }

  lemma PrintAppend(a: seq<Line>, b: seq<Line>)
    ensures PrintAll(a + b) == PrintAll(a) + PrintAll(b)
  {
    hide Text, Print;
    MapAppend(Print, a, b);
    TextAppend(Map(Print, a), Map(Print, b));
  }

  lemma PrintOne(l: Line)
    ensures PrintAll([l]) == TagText(l.tag) + l.rest + CRLF && PrintAll([]) == []
  {
    hide TagText;
    var ps := Map(Print, [l]);
    assert ps == [Print(l)] && ps[1..] == [] && Text([]) == [];
    assert Text(ps) == Print(l) + CRLF + [] == Print(l) + CRLF;
  }

  /** One more line on the stream. */
  method Put(ss: string, ghost lines: seq<Line>, l: Line) returns (r: string)
    requires ss == PrintAll(lines)
    ensures r == PrintAll(lines + [l])
  {
    PrintAppend(lines, [l]);
    PrintOne(l);
    hide PrintAll;
    r := ss + (TagText(l.tag) + l.rest + CRLF);
  }

  lemma {:induction false} JoinSnoc(xs: seq<string>, y: string, sep: string)
    requires xs != []
    ensures Join(xs + [y], sep) == Join(xs, sep) + sep + y
    decreases |xs|
  {
    if |xs| == 1 {
      assert xs + [y] == [xs[0], y];
      Join2(xs[0], y, sep);
    } else {
      JoinSnoc(xs[1..], y, sep);
      assert (xs + [y])[1..] == xs[1..] + [y];
      assert xs[0] + sep + (Join(xs[1..], sep) + sep + y) == xs[0] + sep + Join(xs[1..], sep) + sep + y;
    }
  }

  /** `add_fmtp_line`. */
  method AddFmtpLine(ss: string, ghost lines: seq<Line>, c: Codec) returns (r: string)
    requires ss == PrintAll(lines)
    ensures r == PrintAll(lines + (if c.params != [] then [FmtpLine(c)] else []))
  {
    if c.params == [] {
      assert lines + [] == lines;
      return ss;
    }
    var text: string := [];
    ghost var ts := Map(ParamText, c.params);
    for i := 0 to |c.params|
      invariant text == Join(ts[..i], ";")
    {
      assert ts[..i + 1] == ts[..i] + [ts[i]];
      if i > 0 {
        JoinSnoc(ts[..i], ts[i], ";");
        text := text + ";";
      }
      text := text + (c.params[i].key + "=" + c.params[i].value);
    }
    assert ts[..|c.params|] == ts;
    r := Put(ss, lines, Line(Fmtp, Decimal(c.id) + " " + text));
  }

  /** `add_rtcp_fb_line`. */
  method AddRtcpFbLine(ss: string, ghost lines: seq<Line>, c: Codec) returns (r: string)
    requires ss == PrintAll(lines)
    ensures r == PrintAll(lines + FeedbackLines(c))
  {
    hide PrintAll, Decimal;
    r := ss;
    ghost var fs := FeedbackLines(c);
    assert lines + fs[..0] == lines;
    for i := 0 to |c.feedback|
      invariant r == PrintAll(lines + fs[..i])
    {
      var f := c.feedback[i];
      var rest := Decimal(c.id) + " " + f.id;
      if f.param != [] {
        rest := rest + (" " + f.param);
      }
      assert rest == fs[i].rest by {
        assert Decimal(c.id) + " " + f.id + [] == Decimal(c.id) + " " + f.id;
      }
      r := Put(r, lines + fs[..i], Line(RtcpFb, rest));
      assert lines + fs[..i] + [fs[i]] == lines + fs[..i + 1];
    }
    assert fs[..|c.feedback|] == fs;
  }

  lemma {:induction false} CodecLinesSnoc(cs: seq<Codec>, c: Codec, kind: MediaType)
    ensures AllCodecLines(cs + [c], kind) == AllCodecLines(cs, kind) + CodecLines(c, kind)
    decreases |cs|
  {
    hide CodecLines;
    if cs == [] {
      assert [c][1..] == [] && cs + [c] == [c];
    } else {
      CodecLinesSnoc(cs[1..], c, kind);
      assert (cs + [c])[1..] == cs[1..] + [c];
    }
  }

  /** `build_rtp_map`. */
  method BuildRtpMap(ss: string, ghost lines: seq<Line>, m: Media) returns (r: string)
    requires ss == PrintAll(lines)
    ensures r == PrintAll(lines + AllCodecLines(m.codecs, m.kind))
  {
    hide PrintAll, FeedbackLines, FmtpLine, RtpMapLine, Decimal;
    r := ss;
    ghost var done := lines;
    assert m.codecs[..0] == [] && lines + AllCodecLines([], m.kind) == lines;
    for i := 0 to |m.codecs|
      invariant done == lines + AllCodecLines(m.codecs[..i], m.kind) && r == PrintAll(done)
    {
      var c := m.codecs[i];
      r := AddMapping(r, done, c, m.kind);
      ghost var d1 := done + [RtpMapLine(c, m.kind)];
      r := AddRtcpFbLine(r, d1, c);
      ghost var d2 := d1 + FeedbackLines(c);
      r := AddFmtpLine(r, d2, c);
      assert m.codecs[..i + 1] == m.codecs[..i] + [c];
      CodecLinesSnoc(m.codecs[..i], c, m.kind);
      var f := if c.params != [] then [FmtpLine(c)] else [];
      assert d2 + f == done + CodecLines(c, m.kind);
      done := done + CodecLines(c, m.kind);
    }
    assert m.codecs[..|m.codecs|] == m.codecs;
  }

  method AddMapping(ss: string, ghost lines: seq<Line>, c: Codec, kind: MediaType) returns (r: string)
    requires ss == PrintAll(lines)
    ensures r == PrintAll(lines + [RtpMapLine(c, kind)])
  {
    var rest := Decimal(c.id) + " " + c.name + "/" + Decimal(c.clockRate);
    if kind.Audio? {
      rest := rest + ("/" + Decimal(c.channels));
    }
    MappingText(c, kind);
    r := Put(ss, lines, Line(RtpMap, rest));
  }

  lemma MappingText(c: Codec, kind: MediaType)
    ensures RtpMapLine(c, kind).rest ==
              if kind.Audio? then Decimal(c.id) + " " + c.name + "/" + Decimal(c.clockRate) + ("/" + Decimal(c.channels))
              else Decimal(c.id) + " " + c.name + "/" + Decimal(c.clockRate)
  {
    hide Decimal;
    var (id, clock, channels) := (Decimal(c.id), Decimal(c.clockRate), Decimal(c.channels));
    Join2(c.name, clock, "/");
    Join3(c.name, clock, channels, "/");
    hide Join;
    if kind.Audio? {
      assert id + " " + (c.name + "/" + clock + "/" + channels) == id + " " + c.name + "/" + clock + ("/" + channels);
    } else {
      assert id + " " + (c.name + "/" + clock) == id + " " + c.name + "/" + clock;
    }
  }

  /** The session part; every bundle group ends a line. */
  method PrintSession(s: Session) returns (r: string)
    ensures |GetGroups(s.groups, "BUNDLE")| <= 1 ==> r == PrintAll(SessionLines(s))
  {
    var bundles := GetGroups(s.groups, "BUNDLE");
    BundlesAreBundles(s.groups, "BUNDLE");
    hide PrintAll, GetGroups;
    PrintOne(Line(Version, "0"));
    ghost var lines: seq<Line> := [];
    r := [];
    r := Put(r, lines, Line(Version, "0"));
    lines := lines + [Line(Version, "0")];
    r := Put(r, lines, Line(Origin, "- 1234567890 1234567890 IN IP4 127.0.0.1"));
    lines := lines + [Line(Origin, "- 1234567890 1234567890 IN IP4 127.0.0.1")];
    r := Put(r, lines, Line(Name, "-"));
    lines := lines + [Line(Name, "-")];
    r := Put(r, lines, Line(Time, "0 0"));
    lines := lines + [Line(Time, "0 0")];
    ghost var head, start := lines, r;
    if bundles != [] {
      r := r + (TagText(GroupTag) + bundles[0].semantic);
    }
    for g := 0 to |bundles|
      invariant g == 0 ==> r == if bundles == [] then start else start + (TagText(GroupTag) + bundles[0].semantic)
      invariant g == 1 ==> r == start + (TagText(GroupTag) + bundles[0].semantic) + Spaced(bundles[0].contents) + CRLF
    {
      var words := SpaceOut(bundles[g].contents);
      r := r + words + CRLF;
    }
    if |bundles| == 1 {
      lines := lines + [Line(GroupTag, "BUNDLE" + Spaced(bundles[0].contents))];
      GroupLine(head, start, bundles[0].contents);
    }
    PrintAppend(lines, [Line(MsidSemantic, " WMS *")]);
    PrintOne(Line(MsidSemantic, " WMS *"));
    r := r + (TagText(MsidSemantic) + " WMS *" + CRLF);
    if |bundles| <= 1 {
      SessionLinesAre(s, bundles);
      assert lines + [Line(MsidSemantic, " WMS *")] == SessionLines(s);
    }
  }

  lemma SessionLinesAre(s: Session, bundles: seq<Group>)
    requires bundles == GetGroups(s.groups, "BUNDLE")
    ensures SessionLines(s) ==
              [Line(Version, "0")] + [Line(Origin, "- 1234567890 1234567890 IN IP4 127.0.0.1")] + [Line(Name, "-")] + [Line(Time, "0 0")]
              + (if bundles == [] then [] else [Line(GroupTag, "BUNDLE" + Spaced(bundles[0].contents))]) + [Line(MsidSemantic, " WMS *")]
  {
    hide GetGroups, Spaced;
  }

  lemma GroupLine(head: seq<Line>, start: string, contents: seq<string>)
    requires start == PrintAll(head)
    ensures start + (TagText(GroupTag) + "BUNDLE") + Spaced(contents) + CRLF == PrintAll(head + [Line(GroupTag, "BUNDLE" + Spaced(contents))])
  {
    var l := Line(GroupTag, "BUNDLE" + Spaced(contents));
    PrintAppend(head, [l]);
    PrintOne(l);
    hide PrintAll, Spaced, TagText;
    var (t, w) := (TagText(GroupTag), Spaced(contents));
    assert start + (t + "BUNDLE") + w + CRLF == start + (t + ("BUNDLE" + w) + CRLF);
  }

  lemma {:induction false} BundlesAreBundles(gs: seq<Group>, name: string)
    ensures forall g :: g in GetGroups(gs, name) ==> g.semantic == name
    decreases |gs|
  {
    if gs != [] {
      BundlesAreBundles(gs[1..], name);
    }
  }

  lemma {:induction false} SpacedSnoc(ws: seq<string>, w: string)
    ensures Spaced(ws + [w]) == Spaced(ws) + (" " + w)
    decreases |ws|
  {
    if ws == [] {
      assert [w][1..] == [] && [] + [w] == [w] && " " + w + [] == " " + w;
    } else {
      SpacedSnoc(ws[1..], w);
      assert (ws + [w])[1..] == ws[1..] + [w];
      assert " " + ws[0] + (Spaced(ws[1..]) + (" " + w)) == " " + ws[0] + Spaced(ws[1..]) + (" " + w);
    }
  }

  /** A loop that puts a space before each word. */
  method SpaceOut(words: seq<string>) returns (r: string)
    ensures r == Spaced(words)
  {
    r := [];
    for i := 0 to |words|
      invariant r == Spaced(words[..i])
    {
      assert words[..i + 1] == words[..i] + [words[i]];
      SpacedSnoc(words[..i], words[i]);
      r := r + (" " + words[i]);
    }
    assert words[..|words|] == words;
  }

  /** `get_transport`. */
  method FindTransport(ts: seq<Transport>, mid: string) returns (t: Option<Transport>)
    ensures t == GetTransport(ts, mid)
  {
    for i := 0 to |ts|
      invariant GetTransport(ts, mid) == GetTransport(ts[i..], mid)
    {
      assert ts[i..][1..] == ts[i + 1..];
      if ts[i].mid == mid {
        return Some(ts[i]);
      }
    }
    assert ts[|ts|..] == [];
    return None;
  }

  /** One media section. */
  method PrintMedia(s: Session, m: Media) returns (r: string)
    ensures r == PrintAll(MediaLines(s, m))
  {
    hide PrintAll, AllCodecLines, Spaced, CodecIds, GetTransport;
    var ids := CodecIds(m.codecs);
    var fmt := SpaceOut(ids);
    ghost var lines: seq<Line> := [];
    PrintOne(Line(Mid, m.mid));
    r := Put([], lines, Line(MediaTag, m.mid + " 9 UDP/TLS/RTP/SAVPF" + fmt));
    lines := lines + [Line(MediaTag, m.mid + " 9 UDP/TLS/RTP/SAVPF" + fmt)];
    r := Put(r, lines, Line(Connection, "IN IP4 0.0.0.0"));
    lines := lines + [Line(Connection, "IN IP4 0.0.0.0")];
    r := Put(r, lines, Line(Rtcp, "9 IN IP4 0.0.0.0"));
    lines := lines + [Line(Rtcp, "9 IN IP4 0.0.0.0")];
    r := Put(r, lines, Line(Mid, m.mid));
    lines := lines + [Line(Mid, m.mid)];
    r := Put(r, lines, Line(DirectionTag(m.direction), []));
    lines := lines + [Line(DirectionTag(m.direction), [])];
    if m.rtcpMux {
      r := Put(r, lines, Line(RtcpMux, []));
      lines := lines + [Line(RtcpMux, [])];
    }
    assert lines == MediaHead(m);
    hide MediaHead;
    var t := FindTransport(s.transports, m.mid);
    r := PrintTransport(r, lines, t);
    r := BuildRtpMap(r, lines + TransportLines(t), m);
  }

  method PrintTransport(ss: string, ghost lines: seq<Line>, t: Option<Transport>) returns (r: string)
    requires ss == PrintAll(lines)
    ensures r == PrintAll(lines + TransportLines(t))
  {
    hide PrintAll, RoleText;
    r := ss;
    ghost var all := lines;
    assert t.None? ==> lines + TransportLines(t) == lines;
    if t.Some? {
      r := Put(r, all, Line(Ufrag, t.value.ufrag));
      all := all + [Line(Ufrag, t.value.ufrag)];
      r := Put(r, all, Line(Pwd, t.value.password));
      all := all + [Line(Pwd, t.value.password)];
      if t.value.fingerprint.Some? {
        var fp := t.value.fingerprint.value;
        r := Put(r, all, Line(FingerprintTag, fp.algorithm + " " + fp.value));
        all := all + [Line(FingerprintTag, fp.algorithm + " " + fp.value)];
        r := Put(r, all, Line(Setup, RoleText(t.value.role)));
        all := all + [Line(Setup, RoleText(t.value.role))];
      }
    }
    assert all == lines + TransportLines(t);
  }

  /** `to_string`. */
  method ToString(s: Session) returns (r: string)
    ensures |GetGroups(s.groups, "BUNDLE")| <= 1 ==> r == ToText(s)
  {
    SectionTextAt(s);
    ghost var secs := SectionTexts(s);
    hide PrintAll, SessionLines, MediaLines, SectionTexts, GetGroups, ToText;
    r := PrintSession(s);
    ConcatOne(secs[0]);
    for k := 0 to |s.media|
      invariant |GetGroups(s.groups, "BUNDLE")| <= 1 ==> r == Concat(secs[..k + 1])
    {
      var text := PrintMedia(s, s.media[k]);
      ConcatSnoc(secs[..k + 1], secs[k + 1]);
      assert secs[..k + 2] == secs[..k + 1] + [secs[k + 1]];
      r := r + text;
    }
    assert secs[..|s.media| + 1] == secs;
  }

  lemma ConcatOne(a: string)
    ensures Concat([a]) == a
  {
    assert [a][1..] == [] && a + [] == a;
  }

  lemma {:induction false} ConcatSnoc(xs: seq<string>, y: string)
    ensures Concat(xs + [y]) == Concat(xs) + y
    decreases |xs|
  {
    if xs == [] {
      ConcatOne(y);
      assert xs + [y] == [y];
    } else {
      ConcatSnoc(xs[1..], y);
      assert (xs + [y])[1..] == xs[1..] + [y];
    }
  }
}
