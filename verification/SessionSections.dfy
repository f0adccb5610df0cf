/**
  Why the text of a session description falls into the sections and lines it was written
  from.
 */
module SessionSections {
  import opened Common
  import opened SdpText
  import opened SdpSections
  import opened SdpLines
  import opened SdpTags
  import opened SessionDescription

  /** What may follow a tag on a line: no line feed, no space at the end. */
  predicate Tidy(rest: string) {
    '\n' !in rest && (rest == [] || !IsSpace(rest[|rest| - 1]))
  }

  lemma TidyAppend(a: string, b: string)
    requires '\n' !in a && Tidy(b) && b != []
    ensures Tidy(a + b)
  {
  }

  lemma TagIsLine(t: Tag)
    ensures IsLine(TagText(t))
  {
  }

  lemma PrintIsLine(l: Line)
    requires Tidy(l.rest)
    ensures IsLine(Print(l))
  {
    TagIsLine(l.tag);
    hide TagText, IsSpace;
    assert Print(l)[0] == TagText(l.tag)[0];
  }

  /** A line that is not the first of its section. */
  lemma NotMedia(l: Line)
    requires l.tag != MediaTag
    ensures !("m=" <= Print(l))
  {
    assert TagText(l.tag)[0] != 'm';
    TagIsLine(l.tag);
    hide TagText;
    assert Print(l)[0] == TagText(l.tag)[0];
  }

  // Texts that are one section.

  lemma {:induction false} WholeText(lines: seq<string>)
    requires forall l :: l in lines ==> IsLine(l)
    requires forall k :: 1 <= k < |lines| ==> !("m=" <= lines[k])
    ensures Whole(Text(lines))
    decreases |lines|
  {
    hide IsSpace;
    if lines != [] {
      var (a, rest, s) := (lines[0], Text(lines[1..]), Text(lines));
      var n := |a|;
      assert a in lines;
      WholeText(lines[1..]);
      assert s == a + CRLF + rest;
      assert s[n] == '\r' && s[n + 1] == '\n';
      forall j | 0 <= j && j + 3 <= |s|
        ensures !(s[j] == '\n' && s[j + 1] == 'm' && s[j + 2] == '=')
      {
        if j < n {
          assert s[j] == a[j] && a[j] in a;
        } else if j == n + 1 {
          assert s[j + 1] == rest[0] && s[j + 2] == rest[1];
          NextLine(lines);
        } else if j > n + 1 {
          assert s[j] == rest[j - n - 2] && s[j + 1] == rest[j - n - 1] && s[j + 2] == rest[j - n];
        }
      }
    }
  }

  lemma NextLine(lines: seq<string>)
    requires forall l :: l in lines ==> IsLine(l)
    requires lines != [] && forall k :: 1 <= k < |lines| ==> !("m=" <= lines[k])
    requires |Text(lines[1..])| >= 2
    ensures Text(lines[1..])[0] != 'm' || Text(lines[1..])[1] != '='
  {
    hide IsSpace;
    var rest := Text(lines[1..]);
    if |lines| > 1 {
      var b := lines[1];
      assert b in lines && rest == b + CRLF + Text(lines[1..][1..]);
      if |b| == 1 {
        assert rest[1] == '\r';
      } else {
        assert rest[0] == b[0] && rest[1] == b[1];
        assert b[0] == 'm' && b[1] == '=' ==> "m=" <= b;
      }
    }
  }

  lemma TextIsSection(lines: seq<string>)
    requires lines != [] && forall l :: l in lines ==> IsLine(l)
    requires forall k :: 1 <= k < |lines| ==> !("m=" <= lines[k])
    ensures Ended(Text(lines)) && Whole(Body(Text(lines))) && Neat(Body(Text(lines)))
    ensures lines[0] <= Body(Text(lines))
  {
    WholeText(lines);
    BodyOfText(lines);
    JoinIsNeat(lines);
    hide *;
    WholePrefix(Text(lines), Body(Text(lines)));
  }

  lemma BodyOfText(lines: seq<string>)
    requires lines != []
    ensures Ended(Text(lines)) && Body(Text(lines)) == Join(Pieces(lines), LF) && Body(Text(lines)) <= Text(lines)
  {
    TextIsJoin(lines);
    hide Text, Join, Pieces;
    var (t, j) := (Text(lines), Join(Pieces(lines), LF));
    assert t[..|j|] == j && t[|j|..] == CRLF;
  }

  lemma JoinIsNeat(lines: seq<string>)
    requires lines != [] && forall l :: l in lines ==> IsLine(l)
    ensures Neat(Join(Pieces(lines), LF)) && lines[0] <= Join(Pieces(lines), LF)
  {
    hide IsSpace;
    var (ps, n) := (Pieces(lines), |lines| - 1);
    assert lines[0] in lines && lines[n] in lines;
    JoinEnds(ps, LF);
    assert ps[0][0] == lines[0][0] && ps[n] == lines[n];
    if n > 0 {
      var rest := LF + Join(ps[1..], LF);
      assert Join(ps, LF) == ps[0] + rest == lines[0] + ("\r" + rest);
    }
  }

  lemma WholePrefix(s: string, p: string)
    requires Whole(s) && p <= s
    ensures Whole(p)
  {
    assert forall j :: 0 <= j < |p| ==> p[j] == s[j];
  }

  // Everything that is printed is a line.

  lemma WordTidy(w: string)
    requires Word(w)
    ensures Tidy(w) && '\n' !in w
  {
    SpaceFacts();
    hide IsSpace;
    if w != [] {
      assert w[|w| - 1] in w;
    }
  }

  lemma DecimalWord(n: nat)
    ensures Word(Decimal(n)) && Tidy(Decimal(n)) && '\n' !in Decimal(n)
  {
    forall c | c in Decimal(n)
      ensures !IsSpace(c)
    {
      assert IsDigit(c);
    }
    WordTidy(Decimal(n));
  }

  lemma {:induction false} SpacedTidy(words: seq<string>)
    requires forall w :: w in words ==> Word(w) && w != []
    ensures '\n' !in Spaced(words) && (words != [] ==> Tidy(Spaced(words)) && Spaced(words) != [])
    decreases |words|
  {
    hide Word, IsSpace, Tidy;
    if words != [] {
      var w := words[0];
      assert w in words;
      WordTidy(w);
      SpacedTidy(words[1..]);
      if |words| == 1 {
        TidyAppend(" ", w);
        assert Spaced(words) == " " + w + [] == " " + w;
      } else {
        TidyAppend(" " + w, Spaced(words[1..]));
      }
    }
  }

  lemma CodecIdWords(cs: seq<Codec>)
    ensures forall w :: w in CodecIds(cs) ==> Word(w) && w != []
  {
    hide Word;
    forall w | w in CodecIds(cs)
      ensures Word(w) && w != []
    {
      var k :| 0 <= k < |cs| && CodecIds(cs)[k] == w;
      DecimalWord(cs[k].id);
    }
  }

  lemma {:induction false} JoinTidy(ps: seq<string>, sep: string)
    requires ps != [] && '\n' !in sep && (forall p :: p in ps ==> '\n' !in p) && Tidy(ps[|ps| - 1]) && ps[|ps| - 1] != []
    ensures Tidy(Join(ps, sep)) && Join(ps, sep) != []
    decreases |ps|
  {
    hide IsSpace;
    if |ps| > 1 {
      JoinTidy(ps[1..], sep);
      assert ps[0] in ps;
      assert Join(ps, sep) == ps[0] + sep + Join(ps[1..], sep);
      TidyAppend(ps[0] + sep, Join(ps[1..], sep));
    }
  }

  lemma RtpMapTidy(c: Codec, kind: MediaType)
    requires Word(c.name)
    ensures Tidy(RtpMapLine(c, kind).rest)
  {
    DecimalWord(c.id);
    DecimalWord(c.clockRate);
    DecimalWord(c.channels);
    WordTidy(c.name);
    hide IsSpace, Tidy, Word, Decimal, Join;
    JoinTidy(EncodingParts(c, kind), "/");
    TidyAppend(Decimal(c.id) + " ", Encoding(c, kind));
  }

  lemma FeedbackTidy(id: nat, f: Feedback)
    requires GoodFeedback(f)
    ensures Tidy(FeedbackLine(id, f).rest)
  {
    DecimalWord(id);
    WordTidy(f.id);
    assert f.param != [] ==> Tidy(f.param);
    hide IsSpace, Tidy, Word, Decimal;
    var a := Decimal(id) + " ";
    TidyAppend(a, f.id);
    if f.param != [] {
      TidyAppend(a + f.id + " ", f.param);
      assert FeedbackLine(id, f).rest == a + f.id + " " + f.param;
    } else {
      assert FeedbackLine(id, f).rest == a + f.id;
    }
  }

  lemma ParamTidy(p: Param)
    requires GoodParam(p)
    ensures Word(ParamText(p)) && ParamText(p) != []
  {
    assert !IsSpace('=');
    hide IsSpace;
  }

  lemma {:induction false} ParamsTidy(ts: seq<string>)
    requires ts != [] && forall t :: t in ts ==> Word(t) && t != []
    ensures Word(Join(ts, ";")) && Join(ts, ";") != []
    decreases |ts|
  {
    assert !IsSpace(';');
    hide IsSpace;
    assert ts[0] in ts;
    if |ts| > 1 {
      ParamsTidy(ts[1..]);
    }
  }

  lemma FmtpTidy(c: Codec)
    requires c.params != [] && forall p :: p in c.params ==> GoodParam(p)
    ensures Tidy(FmtpLine(c).rest)
  {
    var ts := Map(ParamText, c.params);
    forall t | t in ts
      ensures Word(t) && t != []
    {
      var k :| 0 <= k < |ts| && ts[k] == t;
      assert c.params[k] in c.params;
      ParamTidy(c.params[k]);
    }
    ParamsTidy(ts);
    WordTidy(Join(ts, ";"));
    DecimalWord(c.id);
    hide IsSpace, Word, Decimal, Join;
    TidyAppend(Decimal(c.id) + " ", Join(ts, ";"));
  }

  /** Which kinds of line a codec prints. */
  predicate CodecTag(t: Tag) {
    t.RtpMap? || t.RtcpFb? || t.Fmtp?
  }

  lemma CodecTidy(c: Codec, kind: MediaType)
    requires GoodCodec(c)
    ensures forall l :: l in CodecLines(c, kind) ==> Tidy(l.rest) && CodecTag(l.tag)
  {
    hide Tidy, Word, Free, GoodFeedback, GoodParam;
    RtpMapTidy(c, kind);
    forall l | l in FeedbackLines(c)
      ensures Tidy(l.rest) && l.tag.RtcpFb?
    {
      var k :| 0 <= k < |c.feedback| && FeedbackLines(c)[k] == l;
      assert c.feedback[k] in c.feedback;
      FeedbackTidy(c.id, c.feedback[k]);
    }
    if c.params != [] {
      FmtpTidy(c);
    }
  }

  lemma {:induction false} AllCodecsTidy(cs: seq<Codec>, kind: MediaType)
    requires forall c :: c in cs ==> GoodCodec(c)
    ensures forall l :: l in AllCodecLines(cs, kind) ==> Tidy(l.rest) && CodecTag(l.tag)
    decreases |cs|
  {
    hide GoodCodec, Tidy, CodecLines, CodecTag;
    if cs != [] {
      assert cs[0] in cs;
      CodecTidy(cs[0], kind);
      AllCodecsTidy(cs[1..], kind);
    }
  }

  predicate TransportTag(t: Tag) {
    t.Ufrag? || t.Pwd? || t.FingerprintTag? || t.Setup?
  }

  lemma TransportTidy(t: Option<Transport>)
    requires t.Some? ==> GoodTransport(t.value)
    ensures forall l :: l in TransportLines(t) ==> Tidy(l.rest) && TransportTag(l.tag)
  {
    if t.Some? {
      WordTidy(t.value.ufrag);
      WordTidy(t.value.password);
      if t.value.fingerprint.Some? {
        var f := t.value.fingerprint.value;
        WordTidy(f.algorithm);
        WordTidy(f.value);
        TidyAppend(f.algorithm + " ", f.value);
        RoleTidy(t.value.role);
      }
      hide Tidy, Word;
    }
  }

  lemma RoleTidy(r: Role)
    ensures Tidy(RoleText(r))
  {
  }

  predicate HeadTag(t: Tag) {
    t.MediaTag? || t.Connection? || t.Rtcp? || t.Mid? || t.SendRecv? || t.SendOnlyTag? || t.RecvOnly? || t.InactiveTag? || t.RtcpMux?
  }

  lemma HeadTidy(m: Media)
    requires Word(m.mid)
    ensures forall l :: l in MediaHead(m) ==> Tidy(l.rest) && HeadTag(l.tag)
  {
    WordTidy(m.mid);
    CodecIdWords(m.codecs);
    ProtocolTidy(m.mid, CodecIds(m.codecs));
    FixedTidy();
    hide Tidy, Word, CodecIds, Spaced, IsSpace;
  }

  lemma FixedTidy()
    ensures Tidy("IN IP4 0.0.0.0") && Tidy("9 IN IP4 0.0.0.0") && Tidy([])
    ensures Tidy("0") && Tidy("-") && Tidy("0 0") && Tidy(" WMS *") && Tidy("- 1234567890 1234567890 IN IP4 127.0.0.1") && Tidy("BUNDLE")
  {
    AddressTidy();
    OriginTidy();
    WordsTidy();
    hide Tidy;
  }

  lemma AddressTidy()
    ensures Tidy("IN IP4 0.0.0.0") && Tidy("9 IN IP4 0.0.0.0")
  {
  }

  lemma OriginTidy()
    ensures Tidy("- 1234567890 1234567890 IN IP4 127.0.0.1")
  {
  }

  lemma WordsTidy()
    ensures Tidy([]) && Tidy("0") && Tidy("-") && Tidy("0 0") && Tidy(" WMS *") && Tidy("BUNDLE")
  {
  }

  predicate SessionTag(t: Tag) {
    t.Version? || t.Origin? || t.Name? || t.Time? || t.GroupTag? || t.MsidSemantic?
  }

  lemma SessionTidy(s: Session)
    requires Good(s)
    ensures forall l :: l in SessionLines(s) ==> Tidy(l.rest) && SessionTag(l.tag)
  {
    FixedTidy();
    var bundles := GetGroups(s.groups, "BUNDLE");
    if bundles != [] {
      assert bundles[0] in bundles;
      GroupsAreGroups(s.groups, "BUNDLE", bundles[0]);
      hide Tidy, Word, IsSpace;
      var words := bundles[0].contents;
      assert forall w :: w in words ==> Word(w) && w != [];
      SpacedTidy(words);
      if words == [] {
        assert "BUNDLE" + Spaced(words) == "BUNDLE";
      } else {
        Bundled(words);
      }
    }
    hide Tidy, Spaced;
  }

  lemma Bundled(words: seq<string>)
    requires Tidy(Spaced(words)) && Spaced(words) != []
    ensures Tidy("BUNDLE" + Spaced(words))
  {
    TidyAppend("BUNDLE", Spaced(words));
  }

  lemma {:induction false} GroupsAreGroups(gs: seq<Group>, name: string, g: Group)
    requires g in GetGroups(gs, name)
    ensures g in gs
    decreases |gs|
  {
    if gs != [] && !(g == gs[0]) {
      GroupsAreGroups(gs[1..], name, g);
    }
  }

  lemma {:induction false} TransportIsThere(ts: seq<Transport>, mid: string)
    ensures var t := GetTransport(ts, mid); t.Some? ==> t.value in ts && t.value.mid == mid
    ensures GetTransport(ts, mid).None? ==> forall t :: t in ts ==> t.mid != mid
    decreases |ts|
  {
    if ts != [] {
      TransportIsThere(ts[1..], mid);
    }
  }

  /** All lines of a media section are lines, and only the first begins a section. */
  lemma MediaTidy(s: Session, m: Media)
    requires Good(s) && m in s.media
    ensures forall l :: l in MediaLines(s, m) ==> Tidy(l.rest)
    ensures MediaLines(s, m) != [] && MediaLines(s, m)[0].tag.MediaTag?
    ensures forall l :: l in MediaLines(s, m)[1..] ==> !l.tag.MediaTag?
  {
    var t := GetTransport(s.transports, m.mid);
    assert GoodMedia(m);
    assert Word(m.mid) && forall c :: c in m.codecs ==> GoodCodec(c);
    assert MediaLines(s, m) == MediaHead(m) + TransportLines(t) + AllCodecLines(m.codecs, m.kind);
    hide *;
    if t.Some? {
      GoodTransports(s, m.mid);
    }
    TransportTidy(t);
    AllCodecsTidy(m.codecs, m.kind);
    HeadTidy(m);
    HeadShape(m);
    Assemble(MediaHead(m), TransportLines(t), AllCodecLines(m.codecs, m.kind));
  }

  lemma Assemble(h: seq<Line>, t: seq<Line>, c: seq<Line>)
    requires h != [] && h[0].tag.MediaTag? && forall l :: l in h[1..] ==> !l.tag.MediaTag?
    requires forall l :: l in h ==> Tidy(l.rest) && HeadTag(l.tag)
    requires forall l :: l in t ==> Tidy(l.rest) && TransportTag(l.tag)
    requires forall l :: l in c ==> Tidy(l.rest) && CodecTag(l.tag)
    ensures var all := h + t + c; all[0].tag.MediaTag? && (forall l :: l in all ==> Tidy(l.rest)) && forall l :: l in all[1..] ==> !l.tag.MediaTag?
  {
    hide Tidy;
    assert (h + t + c)[1..] == h[1..] + t + c;
  }

  lemma GoodTransports(s: Session, mid: string)
    requires Good(s) && GetTransport(s.transports, mid).Some?
    ensures GoodTransport(GetTransport(s.transports, mid).value)
  {
    TransportIsThere(s.transports, mid);
  }

  lemma HeadShape(m: Media)
    ensures MediaHead(m) != [] && MediaHead(m)[0].tag.MediaTag? && forall l :: l in MediaHead(m)[1..] ==> !l.tag.MediaTag?
  {
    hide CodecIds, Spaced;
  }

  /** Printed lines are read as the same lines. */
  lemma PrintedLines(lines: seq<Line>)
    requires lines != [] && forall l :: l in lines ==> Tidy(l.rest)
    ensures SplitLines(PrintAll(lines)) == Map(Print, lines)
    ensures forall p :: p in Map(Print, lines) ==> IsLine(p)
  {
    var ps := Map(Print, lines);
    hide IsLine, Tidy, Print;
    forall p | p in ps
      ensures IsLine(p)
    {
      var k :| 0 <= k < |lines| && ps[k] == p;
      assert lines[k] in lines;
      PrintIsLine(lines[k]);
    }
    LinesOfText(ps);
  }

  lemma PrintedSection(lines: seq<Line>)
    requires lines != [] && forall l :: l in lines ==> Tidy(l.rest)
    requires forall l :: l in lines[1..] ==> !l.tag.MediaTag?
    ensures var t := PrintAll(lines); Ended(t) && Whole(Body(t)) && Neat(Body(t)) && Print(lines[0]) <= Body(t)
  {
    var ps := Map(Print, lines);
    PrintedLines(lines);
    hide IsLine, Tidy, Print, Whole, Neat;
    forall k | 1 <= k < |ps|
      ensures !("m=" <= ps[k])
    {
      assert lines[1..][k - 1] == lines[k];
      NotMedia(lines[k]);
    }
    TextIsSection(ps);
  }

  /** The text of a session description is cut exactly where its sections meet. */
  lemma SectionsOfText(s: Session)
    requires Good(s)
    ensures SplitSections(ToText(s)) == SectionTexts(s)
  {
    hide *;
    var secs := SectionTexts(s);
    SectionTextAt(s);
    SessionIsHead(s);
    forall k | 1 <= k < |secs|
      ensures IsMedia(secs[k])
    {
      assert s.media[k - 1] in s.media;
      MediaIsSection(s, s.media[k - 1]);
    }
    AreSections(secs);
    ConcatResplits(secs);
  }

  lemma SectionTextAt(s: Session)
    ensures ToText(s) == Concat(SectionTexts(s)) && |SectionTexts(s)| == |s.media| + 1
    ensures SectionTexts(s)[0] == PrintAll(SessionLines(s))
    ensures forall k :: 1 <= k < |SectionTexts(s)| ==> SectionTexts(s)[k] == PrintAll(MediaLines(s, s.media[k - 1]))
  {
    hide PrintAll, MediaLines, SessionLines;
  }

  lemma AreSections(secs: seq<string>)
    requires secs != [] && IsHead(secs[0]) && forall k :: 1 <= k < |secs| ==> IsMedia(secs[k])
    ensures IsSections(secs)
  {
  }

  lemma SessionIsHead(s: Session)
    requires Good(s)
    ensures IsHead(PrintAll(SessionLines(s)))
  {
    SessionTidy(s);
    var lines := SessionLines(s);
    assert lines != [];
    hide Good, Tidy, SessionLines, PrintAll, Whole, Neat;
    assert forall l :: l in lines[1..] ==> l in lines;
    PrintedSection(lines);
  }

  lemma MediaIsSection(s: Session, m: Media)
    requires Good(s) && m in s.media
    ensures IsMedia(PrintAll(MediaLines(s, m)))
  {
    hide Good, Tidy, Whole, Neat, MediaLines;
    MediaTidy(s, m);
    var lines := MediaLines(s, m);
    PrintedSection(lines);
    BeginsMedia(lines[0], Body(PrintAll(lines)));
  }

  lemma BeginsMedia(l: Line, text: string)
    requires l.tag.MediaTag? && Print(l) <= text
    ensures "m=" <= text
  {
    assert text[0] == Print(l)[0] == 'm' && text[1] == Print(l)[1] == '=';
  }

  lemma ProtocolTidy(mid: string, words: seq<string>)
    requires Word(mid) && forall w :: w in words ==> Word(w) && w != []
    ensures Tidy(mid + " 9 UDP/TLS/RTP/SAVPF" + Spaced(words))
  {
    WordTidy(mid);
    SpacedTidy(words);
    assert Tidy(" 9 UDP/TLS/RTP/SAVPF");
    hide Word, IsSpace, Spaced;
    TidyAppend(mid, " 9 UDP/TLS/RTP/SAVPF");
    if words != [] {
      TidyAppend(mid + " 9 UDP/TLS/RTP/SAVPF", Spaced(words));
    } else {
      NothingSpaced();
      assert mid + " 9 UDP/TLS/RTP/SAVPF" + [] == mid + " 9 UDP/TLS/RTP/SAVPF";
    }
  }

  lemma NothingSpaced()
    ensures Spaced([]) == []
  {
  }
}
