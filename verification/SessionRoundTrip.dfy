/**
  Printing a session description and parsing the text recovers what was printed: the sections
  in order with their mid, direction, ICE parameters, codecs, feedback and format parameters.
 */
module SessionRoundTrip {
  import opened Common
  import opened SdpText
  import opened SdpSections
  import opened SdpLines
  import opened SdpTags
  import opened SessionDescription
  import opened SessionSections

  // Cutting single lines.

  lemma NoDelimiter(s: string, c: char)
    requires c !in s
    ensures !Contains(s, [c])
  {
    forall j: int
      ensures !At(s, [c], j)
    {
      if 0 <= j < |s| {
        assert s[j..j + 1][0] == s[j] && s[j] in s;
      }
    }
  }

  /** Splitting at a character undoes joining with it. */
  lemma SplitAt(parts: seq<string>, c: char)
    requires parts != [] && forall p :: p in parts ==> c !in p
    ensures Split(Join(parts, [c]), [c]) == parts
  {
    forall p | p in parts
      ensures !Contains(p, [c])
    {
      NoDelimiter(p, c);
    }
    SplitOfJoin(parts, [c]);
  }

  lemma Join2(a: string, b: string, sep: string)
    ensures Join([a, b], sep) == a + sep + b
  {
    assert [a, b][1..] == [b];
  }

  lemma Join3(a: string, b: string, c: string, sep: string)
    ensures Join([a, b, c], sep) == a + sep + b + sep + c
  {
    assert [a, b, c][1..] == [b, c];
    Join2(b, c, sep);
  }

  lemma WordHasNoSpace(w: string)
    requires Word(w)
    ensures ' ' !in w
  {
    SpaceFacts();
  }

  /** The text behind the number of an attribute line. */
  lemma Behind(tag: string, number: string, rest: string)
    requires ' ' !in tag && ' ' !in number
    ensures BehindSpace(tag + (number + " " + rest)) == rest
  {
    var a := tag + number;
    NoDelimiter(a, ' ');
    FirstFound(a, SPACE, rest);
    var line := a + SPACE + rest;
    assert tag + (number + " " + rest) == line;
    assert line[|a| + 1..] == rest;
  }

  lemma TagsHaveNoSpace(t: Tag)
    requires t.RtpMap? || t.RtcpFb? || t.Fmtp?
    ensures ' ' !in TagText(t)
  {
  }

  /** `parseRtpMap` reads what `build_rtp_map` wrote. */
  lemma RtpMapReadBack(c: Codec, kind: MediaType)
    requires Word(c.name) && Free(c.name, "/")
    ensures ParseRtpMap(Print(RtpMapLine(c, kind))) ==
              Some(RtpMapping(Some(c.id), c.name, Some(c.clockRate), Some(if kind.Audio? then c.channels else 1)))
  {
    assert RtpMapLine(c, kind).tag == RtpMap;
    hide Decimal, ParseInt, Print, RtpMapLine, Split, Encoding, EncodingParts, ParseNth, TagText, Word, Free;
    SlashesSplit(c, kind);
    RtpMapRest(c, kind);
    CutTag(RtpMapLine(c, kind));
    ReadEncoding(c, kind);
  }

  lemma CutTag(l: Line)
    ensures |TagText(l.tag)| <= |Print(l)| && Print(l)[|TagText(l.tag)|..] == l.rest
    ensures |TagText(RtpMap)| == 9 && |TagText(Mid)| == 6 && |TagText(Ufrag)| == 12 && |TagText(Pwd)| == 10
  {
  }

  lemma ReadEncoding(c: Codec, kind: MediaType)
    ensures ParseInt(Decimal(c.id)) == Some(c.id)
    ensures var halves := EncodingParts(c, kind);
            && halves != [] && halves[0] == c.name && ParseNth(halves, 1) == Some(c.clockRate)
            && (if |halves| == 3 then ParseInt(halves[2]) else Some(1)) == Some(if kind.Audio? then c.channels else 1)
  {
    ParseDecimal(c.id);
    ParseDecimal(c.clockRate);
    ParseDecimal(c.channels);
    hide Decimal, ParseInt;
  }

  /** The second word of a mapping and its parts. */
  lemma SlashesSplit(c: Codec, kind: MediaType)
    requires Word(c.name) && Free(c.name, "/")
    ensures Split(Encoding(c, kind), "/") == EncodingParts(c, kind) && ' ' !in Encoding(c, kind)
  {
    var (clock, channels) := (Decimal(c.clockRate), Decimal(c.channels));
    DecimalHasNo(c.clockRate);
    DecimalHasNo(c.channels);
    WordHasNoSpace(c.name);
    assert '/' !in c.name by { assert '/' in "/"; }
    hide Word, Free, Decimal;
    SplitAt(EncodingParts(c, kind), '/');
    Join2(c.name, clock, "/");
    Join3(c.name, clock, channels, "/");
  }

  lemma RtpMapRest(c: Codec, kind: MediaType)
    requires Word(c.name) && Free(c.name, "/")
    ensures Split(RtpMapLine(c, kind).rest, SPACE) == [Decimal(c.id), Encoding(c, kind)]
  {
    var (id, second) := (Decimal(c.id), Encoding(c, kind));
    SlashesSplit(c, kind);
    DecimalHasNo(c.id);
    hide Word, Free, Decimal, Encoding;
    SplitAt([id, second], ' ');
    Join2(id, second, SPACE);
  }

  lemma DecimalHasNo(n: nat)
    ensures ' ' !in Decimal(n) && '/' !in Decimal(n)
  {
    assert !IsDigit(' ') && !IsDigit('/');
  }

  /** `parseRtcpFb` reads what `add_rtcp_fb_line` wrote, spaces inside the parameter included. */
  lemma FeedbackReadBack(id: nat, f: Feedback)
    requires GoodFeedback(f)
    ensures ParseRtcpFb(Print(FeedbackLine(id, f))) == f
  {
    var rest := if f.param == [] then f.id else f.id + SPACE + f.param;
    DecimalHasNo(id);
    WordHasNoSpace(f.id);
    TagsHaveNoSpace(RtcpFb);
    assert Print(FeedbackLine(id, f)) == TagText(RtcpFb) + (Decimal(id) + " " + rest);
    Behind(TagText(RtcpFb), Decimal(id), rest);
    SplitIsClean(f.param, SPACE);
    hide Decimal, Print, FeedbackLine, TagText, BehindSpace;
    if f.param == [] {
      SplitAt([f.id], ' ');
      assert [f.id][1..] == [];
    } else {
      var words := Split(f.param, SPACE);
      assert Join([f.id] + words, SPACE) == rest by { assert ([f.id] + words)[1..] == words; }
      forall w | w in [f.id] + words
        ensures !Contains(w, SPACE)
      {
        if w == f.id {
          NoDelimiter(w, ' ');
        }
      }
      SplitOfJoin([f.id] + words, SPACE);
      assert ([f.id] + words)[1..] == words;
    }
  }

  /** One format parameter. */
  lemma ParamReadBack(p: Param)
    requires GoodParam(p)
    ensures ReadParam(ParamText(p)) == (p.key, Some(p.value)) && ';' !in ParamText(p)
  {
    ParamTidy(p);
    assert '=' !in p.key && '=' !in p.value && ';' !in p.key && ';' !in p.value by {
      assert '=' in "=;" && ';' in "=;";
    }
    WordTrims(ParamText(p));
    WordTrims(p.key);
    hide Word, Free, Trim;
    SplitAt([p.key, p.value], '=');
    Join2(p.key, p.value, "=");
  }

  lemma WordTrims(w: string)
    requires Word(w)
    ensures Trim(w) == w
  {
    hide IsSpace;
    if w != [] {
      assert w[0] in w && w[|w| - 1] in w;
    }
  }

  lemma {:induction false} ParamsReadBack(ps: seq<Param>)
    requires forall p :: p in ps ==> GoodParam(p)
    ensures ReadParams(Map(ParamText, ps)) == ParamMap(ps)
    decreases |ps|
  {
    hide GoodParam, ReadParam, ParamText;
    if ps != [] {
      var n := |ps| - 1;
      assert ps[n] in ps;
      ParamReadBack(ps[n]);
      ParamsReadBack(ps[..n]);
      assert Map(ParamText, ps)[..n] == Map(ParamText, ps[..n]);
    }
  }

  /** `parseFmtp` reads what `add_fmtp_line` wrote. */
  lemma FmtpReadBack(c: Codec)
    requires c.params != [] && forall p :: p in c.params ==> GoodParam(p)
    ensures ParseFmtp(Print(FmtpLine(c))) == ParamMap(c.params)
  {
    var ts := Map(ParamText, c.params);
    var rest := Join(ts, ";");
    DecimalHasNo(c.id);
    TagsHaveNoSpace(Fmtp);
    assert Print(FmtpLine(c)) == TagText(Fmtp) + (Decimal(c.id) + " " + rest);
    Behind(TagText(Fmtp), Decimal(c.id), rest);
    hide Decimal, Print, FmtpLine, TagText, BehindSpace, GoodParam, ParamText;
    forall t | t in ts
      ensures ';' !in t
    {
      var k :| 0 <= k < |ts| && ts[k] == t;
      assert c.params[k] in c.params;
      ParamReadBack(c.params[k]);
    }
    SplitAt(ts, ';');
    ParamsReadBack(c.params);
  }

  // Finding the lines again.

  /** The lines of one codec among all codec lines. */
  lemma SelectOwn(c: Codec, kind: MediaType, id: nat)
    ensures var pt := Decimal(id) + SPACE;
            if c.id == id then
              && Select(CodecLines(c, kind), RtpMap, pt) == [RtpMapLine(c, kind)]
              && Select(CodecLines(c, kind), RtcpFb, pt) == FeedbackLines(c)
              && Select(CodecLines(c, kind), Fmtp, pt) == (if c.params != [] then [FmtpLine(c)] else [])
            else
              && Select(CodecLines(c, kind), RtpMap, pt) == []
              && Select(CodecLines(c, kind), RtcpFb, pt) == []
              && Select(CodecLines(c, kind), Fmtp, pt) == []
  {
    var pt := Decimal(id) + SPACE;
    var (a, b, f) := ([RtpMapLine(c, kind)], FeedbackLines(c), if c.params != [] then [FmtpLine(c)] else []);
    CodecShape(c, kind, id);
    assert CodecLines(c, kind) == a + b + f;
    hide *;
    SelectThree(a, b, f, RtpMap, pt, c.id == id);
    SelectThree(a, b, f, RtcpFb, pt, c.id == id);
    SelectThree(a, b, f, Fmtp, pt, c.id == id);
  }

  /** The kinds of a codec's lines, and whose they are. */
  lemma CodecShape(c: Codec, kind: MediaType, id: nat)
    ensures var pt := Decimal(id) + SPACE;
            && (RtpMapLine(c, kind).tag == RtpMap && (pt <= RtpMapLine(c, kind).rest <==> c.id == id))
            && (forall l :: l in FeedbackLines(c) ==> l.tag == RtcpFb && (pt <= l.rest <==> c.id == id))
            && (c.params != [] ==> FmtpLine(c).tag == Fmtp && (pt <= FmtpLine(c).rest <==> c.id == id))
  {
    assert forall l :: l in FeedbackLines(c) ==> l.tag == RtcpFb;
    forall l | l in CodecLines(c, kind)
      ensures Decimal(id) + SPACE <= l.rest <==> c.id == id
    {
      NumberFirst(c, kind, l, id);
    }
    assert RtpMapLine(c, kind) in CodecLines(c, kind) && (c.params != [] ==> FmtpLine(c) in CodecLines(c, kind));
    hide Decimal, FeedbackLines, Encoding;
    assert forall l :: l in FeedbackLines(c) ==> l in CodecLines(c, kind);
  }

  lemma SelectThree(a: seq<Line>, b: seq<Line>, f: seq<Line>, tag: Tag, pt: string, own: bool)
    requires forall l :: l in a ==> l.tag == RtpMap && (pt <= l.rest <==> own)
    requires forall l :: l in b ==> l.tag == RtcpFb && (pt <= l.rest <==> own)
    requires forall l :: l in f ==> l.tag == Fmtp && (pt <= l.rest <==> own)
    ensures Select(a + b + f, tag, pt) ==
              if !own then [] else if tag == RtpMap then a else if tag == RtcpFb then b else if tag == Fmtp then f else []
  {
    hide Select;
    SelectAppend(a + b, f, tag, pt);
    SelectAppend(a, b, tag, pt);
    SelectUniform(a, RtpMap, tag, pt, own);
    SelectUniform(b, RtcpFb, tag, pt, own);
    SelectUniform(f, Fmtp, tag, pt, own);
  }

  lemma SelectUniform(a: seq<Line>, kind: Tag, tag: Tag, pt: string, own: bool)
    requires forall l :: l in a ==> l.tag == kind && (pt <= l.rest <==> own)
    ensures Select(a, tag, pt) == if own && tag == kind then a else []
  {
    hide Select;
    if own && tag == kind {
      SelectAll(a, tag, pt);
    } else {
      SelectNone(a, tag, pt);
    }
  }

  /** Every line of a codec begins with its number. */
  lemma NumberFirst(c: Codec, kind: MediaType, l: Line, id: nat)
    requires l in CodecLines(c, kind)
    ensures Decimal(id) + SPACE <= l.rest <==> c.id == id
  {
    var tail: string :| l.rest == Decimal(c.id) + " " + tail by { NumberedLine(c, kind, l); }
    SameNumber(c.id, id, tail);
  }

  lemma NumberedLine(c: Codec, kind: MediaType, l: Line)
    requires l in CodecLines(c, kind)
    ensures exists tail: string :: l.rest == Decimal(c.id) + " " + tail
  {
    hide Decimal, Encoding;
    if l == RtpMapLine(c, kind) {
      assert l.rest == Decimal(c.id) + " " + Encoding(c, kind);
    } else if l in FeedbackLines(c) {
      var k :| 0 <= k < |c.feedback| && FeedbackLines(c)[k] == l;
      var f := c.feedback[k];
      var tail := f.id + (if f.param != [] then " " + f.param else []);
      assert l.rest == Decimal(c.id) + " " + tail;
    } else {
      assert l == FmtpLine(c);
      assert l.rest == Decimal(c.id) + " " + Join(Map(ParamText, c.params), ";");
    }
  }

  /** Two numbers with a space behind agree only if they are the same number. */
  lemma SameNumber(m: nat, id: nat, tail: string)
    ensures Decimal(id) + SPACE <= Decimal(m) + " " + tail <==> m == id
  {
    DecimalHasNo(m);
    DecimalHasNo(id);
    var (a, b, s) := (Decimal(id), Decimal(m), Decimal(m) + " " + tail);
    if m == id {
      assert s == (a + SPACE) + tail;
    }
    if a + SPACE <= s {
      var rest := s[|a + SPACE|..];
      assert s == a + SPACE + rest;
      NoDelimiter(a, ' ');
      NoDelimiter(b, ' ');
      FirstFound(a, SPACE, rest);
      FirstFound(b, SPACE, tail);
      assert a == s[..|a|] == b;
      DecimalInjective(id, m);
    }
  }

  lemma {:induction false} SelectForeign(cs: seq<Codec>, kind: MediaType, tag: Tag, id: nat)
    requires CodecTag(tag) && forall c :: c in cs ==> c.id != id
    ensures Select(AllCodecLines(cs, kind), tag, Decimal(id) + SPACE) == []
    decreases |cs|
  {
    hide Select, CodecLines, Decimal;
    var pt := Decimal(id) + SPACE;
    if cs == [] {
      SelectNone([], tag, pt);
    } else {
      assert cs[0] in cs;
      SelectOwn(cs[0], kind, id);
      SelectForeign(cs[1..], kind, tag, id);
      SelectAppend(CodecLines(cs[0], kind), AllCodecLines(cs[1..], kind), tag, pt);
    }
  }

  /** With distinct payload types only a codec's own lines are found for it. */
  lemma {:induction false} SelectAmong(cs: seq<Codec>, kind: MediaType, tag: Tag, k: nat)
    requires CodecTag(tag) && k < |cs| && forall i, j :: 0 <= i < j < |cs| ==> cs[i].id != cs[j].id
    ensures var pt := Decimal(cs[k].id) + SPACE; Select(AllCodecLines(cs, kind), tag, pt) == Select(CodecLines(cs[k], kind), tag, pt)
    decreases |cs|
  {
    hide Select, CodecLines, Decimal;
    var (c, rest) := (cs[k], cs[1..]);
    var pt := Decimal(c.id) + SPACE;
    SelectAppend(CodecLines(cs[0], kind), AllCodecLines(rest, kind), tag, pt);
    SelectOwn(cs[0], kind, c.id);
    if k == 0 {
      SelectForeign(rest, kind, tag, c.id);
    } else {
      SelectAmong(rest, kind, tag, k - 1);
    }
  }

  /** The three stretches of a media section and the kinds of line in each. */
  lemma SectionShape(s: Session, m: Media)
    requires Good(s) && m in s.media
    ensures var t := TransportLines(GetTransport(s.transports, m.mid));
            && MediaLines(s, m) == MediaHead(m) + t + AllCodecLines(m.codecs, m.kind)
            && (forall l :: l in MediaHead(m) ==> HeadTag(l.tag)) && (forall l :: l in t ==> TransportTag(l.tag))
            && (forall l :: l in AllCodecLines(m.codecs, m.kind) ==> CodecTag(l.tag))
  {
    assert GoodMedia(m);
    assert Word(m.mid) && forall c :: c in m.codecs ==> GoodCodec(c);
    hide MediaHead, TransportLines, AllCodecLines, Good, Tidy, GoodCodec, Word, HeadTag, TransportTag, CodecTag, GoodTransport, GetTransport;
    HeadTidy(m);
    if GetTransport(s.transports, m.mid).Some? {
      GoodTransports(s, m.mid);
    }
    TransportTidy(GetTransport(s.transports, m.mid));
    AllCodecsTidy(m.codecs, m.kind);
  }

  lemma SelectStretch(h: seq<Line>, t: seq<Line>, c: seq<Line>, tag: Tag, sub: string)
    requires (forall l :: l in h ==> HeadTag(l.tag)) && (forall l :: l in t ==> TransportTag(l.tag)) && (forall l :: l in c ==> CodecTag(l.tag))
    ensures CodecTag(tag) ==> Select(h + t + c, tag, sub) == Select(c, tag, sub)
    ensures TransportTag(tag) ==> Select(h + t + c, tag, sub) == Select(t, tag, sub)
    ensures HeadTag(tag) ==> Select(h + t + c, tag, sub) == Select(h, tag, sub)
  {
    hide Select;
    SelectAppend(h + t, c, tag, sub);
    SelectAppend(h, t, tag, sub);
    if !HeadTag(tag) {
      SelectNone(h, tag, sub);
    }
    if !TransportTag(tag) {
      SelectNone(t, tag, sub);
    }
    if !CodecTag(tag) {
      SelectNone(c, tag, sub);
    }
  }

  /** In a whole section, too. */
  lemma SelectInSection(s: Session, m: Media, tag: Tag, sub: string)
    requires Good(s) && m in s.media
    ensures CodecTag(tag) ==> Select(MediaLines(s, m), tag, sub) == Select(AllCodecLines(m.codecs, m.kind), tag, sub)
    ensures TransportTag(tag) ==> Select(MediaLines(s, m), tag, sub) == Select(TransportLines(GetTransport(s.transports, m.mid)), tag, sub)
    ensures HeadTag(tag) ==> Select(MediaLines(s, m), tag, sub) == Select(MediaHead(m), tag, sub)
  {
    hide *;
    SectionShape(s, m);
    SelectStretch(MediaHead(m), TransportLines(GetTransport(s.transports, m.mid)), AllCodecLines(m.codecs, m.kind), tag, sub);
  }

  /** A search by prefix in the printed section finds the codec's own lines. */
  lemma FindOwn(s: Session, m: Media, k: nat, tag: Tag)
    requires Good(s) && m in s.media && k < |m.codecs| && CodecTag(tag)
    ensures var pt := Decimal(m.codecs[k].id) + SPACE;
            MatchPrefix(PrintAll(MediaLines(s, m)), TagText(tag) + pt) == Map(Print, Select(CodecLines(m.codecs[k], m.kind), tag, pt))
  {
    var pt := Decimal(m.codecs[k].id) + SPACE;
    var lines := MediaLines(s, m);
    assert GoodMedia(m);
    MediaTidy(s, m);
    hide Select, MediaLines, Decimal, Good, Tidy, TagText, PrintAll, CodecLines, AllCodecLines, GoodCodec;
    PrintedLines(lines);
    FilterPrinted(lines, tag, pt);
    SelectInSection(s, m, tag, pt);
    SelectAmong(m.codecs, m.kind, tag, k);
  }

  /** One codec is read back. */
  lemma CodecReadBack(s: Session, m: Media, k: nat)
    requires Good(s) && m in s.media && k < |m.codecs|
    ensures ParseCodec(PrintAll(MediaLines(s, m)), Decimal(m.codecs[k].id)) == Some(Meaning(m.codecs[k], m.kind))
  {
    var c := m.codecs[k];
    assert GoodMedia(m) && c in m.codecs;
    assert GoodCodec(c);
    hide Select, MediaLines, Decimal, Good, TagText, PrintAll, CodecLines, Print, MatchPrefix, Word, Free, GoodFeedback, GoodParam,
      RtpMapLine, FmtpLine, FeedbackLines, ParseRtpMap, ParseFmtp, ParseRtcpFb, ParamMap;
    FindOwn(s, m, k, RtpMap);
    FindOwn(s, m, k, RtcpFb);
    FindOwn(s, m, k, Fmtp);
    SelectOwn(c, m.kind, c.id);
    RtpMapReadBack(c, m.kind);
    if c.params != [] {
      FmtpReadBack(c);
    } else {
      NoParams();
    }
    FeedbackAllReadBack(c);
  }

  lemma NoParams()
    ensures ParamMap([]) == map[]
  {
  }

  lemma FeedbackAllReadBack(c: Codec)
    requires forall f :: f in c.feedback ==> GoodFeedback(f)
    ensures Map(ParseRtcpFb, Map(Print, FeedbackLines(c))) == c.feedback
  {
    hide ParseRtcpFb, Print, GoodFeedback, FeedbackLine;
    forall k | 0 <= k < |c.feedback|
      ensures ParseRtcpFb(Print(FeedbackLines(c)[k])) == c.feedback[k]
    {
      assert c.feedback[k] in c.feedback;
      FeedbackReadBack(c.id, c.feedback[k]);
    }
  }

  // The whole section.

  /** The words of the m-line. */
  lemma {:induction false} SpacedIsJoin(first: string, words: seq<string>)
    ensures first + Spaced(words) == Join([first] + words, SPACE)
    decreases |words|
  {
    if words == [] {
      assert first + [] == first && [first] + words == [first];
    } else {
      SpacedIsJoin(words[0], words[1..]);
      assert [words[0]] + words[1..] == words && ([first] + words)[1..] == words;
      assert first + Spaced(words) == first + SPACE + (words[0] + Spaced(words[1..]));
    }
  }

  lemma MediaLineWords(m: Media)
    requires Word(m.mid)
    ensures Split(Print(MediaHead(m)[0]), SPACE) == ["m=" + m.mid, "9", "UDP/TLS/RTP/SAVPF"] + CodecIds(m.codecs)
  {
    var ids := CodecIds(m.codecs);
    var words := ["9", "UDP/TLS/RTP/SAVPF"] + ids;
    var first := "m=" + m.mid;
    MediaLineText(m.mid, ids);
    assert Print(MediaHead(m)[0]) == first + Spaced(words);
    SpacedIsJoin(first, words);
    WordHasNoSpace(m.mid);
    CodecIdWords(m.codecs);
    hide Word, CodecIds, Spaced;
    forall w | w in [first] + words
      ensures ' ' !in w
    {
      if w in ids {
        WordHasNoSpace(w);
      }
    }
    SplitAt([first] + words, ' ');
    assert [first] + words == ["m=" + m.mid, "9", "UDP/TLS/RTP/SAVPF"] + ids;
  }

  lemma MediaLineText(mid: string, ids: seq<string>)
    ensures "m=" + (mid + " 9 UDP/TLS/RTP/SAVPF" + Spaced(ids)) == "m=" + mid + Spaced(["9", "UDP/TLS/RTP/SAVPF"] + ids)
  {
    var words := ["9", "UDP/TLS/RTP/SAVPF"] + ids;
    assert words[1..] == ["UDP/TLS/RTP/SAVPF"] + ids && words[1..][1..] == ids;
    assert Spaced(words) == " " + "9" + (" " + "UDP/TLS/RTP/SAVPF" + Spaced(ids));
    assert " 9 UDP/TLS/RTP/SAVPF" == " " + "9" + " " + "UDP/TLS/RTP/SAVPF";
  }

  lemma {:induction false} CodecsReadBack(s: Session, m: Media, k: nat)
    requires Good(s) && m in s.media && k <= |m.codecs|
    ensures ParseCodecs(PrintAll(MediaLines(s, m)), CodecIds(m.codecs)[k..]) == Map(c => Meaning(c, m.kind), m.codecs)[k..]
    decreases |m.codecs| - k
  {
    hide Good, MediaLines, PrintAll, ParseCodec, Meaning, Decimal;
    if k < |m.codecs| {
      CodecReadBack(s, m, k);
      CodecsReadBack(s, m, k + 1);
      var (ids, means) := (CodecIds(m.codecs), Map(c => Meaning(c, m.kind), m.codecs));
      assert ids[k..][0] == Decimal(m.codecs[k].id) && ids[k..][1..] == ids[k + 1..];
      assert means[k..] == [means[k]] + means[k + 1..];
    }
  }

  /** `parseRtpParameters` on a printed section gives the codecs in order. */
  lemma RtpParametersReadBack(s: Session, m: Media)
    requires Good(s) && m in s.media
    ensures ParseRtpParameters(PrintAll(MediaLines(s, m))) == Map(c => Meaning(c, m.kind), m.codecs)
  {
    var lines := MediaLines(s, m);
    assert GoodMedia(m);
    assert lines[0] == MediaHead(m)[0];
    MediaTidy(s, m);
    hide Good, MediaLines, PrintAll, Meaning, MediaHead, Tidy, Split, ParseCodecs, CodecIds, Print;
    PrintedLines(lines);
    MediaLineWords(m);
    var ids := CodecIds(m.codecs);
    assert (["m=" + m.mid, "9", "UDP/TLS/RTP/SAVPF"] + ids)[3..] == ids;
    CodecsReadBack(s, m, 0);
    assert ids[0..] == ids;
  }

  lemma FilterTag(lines: seq<Line>, tag: Tag)
    requires Sought(tag)
    ensures Filter(Map(Print, lines), TagText(tag)) == Map(Print, Select(lines, tag, []))
  {
    hide TagText, Select, Filter, Print;
    FilterPrinted(lines, tag, []);
    assert TagText(tag) + [] == TagText(tag);
  }

  /** A line that is the only one of its kind. */
  lemma SelectOnly(a: seq<Line>, l: Line, b: seq<Line>)
    requires (forall x :: x in a ==> x.tag != l.tag) && (forall x :: x in b ==> x.tag != l.tag)
    ensures Select(a + [l] + b, l.tag, []) == [l]
  {
    SelectNone(a, l.tag, []);
    SelectNone(b, l.tag, []);
    SelectAll([l], l.tag, []);
    hide Select;
    SelectAppend(a + [l], b, l.tag, []);
    SelectAppend(a, [l], l.tag, []);
  }

  lemma HeadParts(m: Media)
    ensures |MediaHead(m)| >= 5
    ensures MediaHead(m) == MediaHead(m)[..3] + [Line(Mid, m.mid)] + MediaHead(m)[4..]
    ensures forall l :: l in MediaHead(m)[..3] || l in MediaHead(m)[4..] ==> l.tag != Mid
    ensures MediaHead(m)[4] == Line(DirectionTag(m.direction), [])
    ensures forall l :: l in MediaHead(m)[..4] ==> !DirectionLike(l.tag)
  {
    hide CodecIds, Spaced;
  }

  predicate DirectionLike(t: Tag) {
    t.SendRecv? || t.SendOnlyTag? || t.RecvOnly? || t.InactiveTag?
  }

  lemma MidReadBack(s: Session, m: Media)
    requires Good(s) && m in s.media
    ensures GetMid(PrintAll(MediaLines(s, m))) == Some(m.mid)
  {
    var (lines, l) := (MediaLines(s, m), Line(Mid, m.mid));
    hide Good, MediaLines, PrintAll, MediaHead, Tidy, Select, Print, TagText, Filter, Spaced;
    MediaTidy(s, m);
    PrintedLines(lines);
    FilterTag(lines, Mid);
    SelectInSection(s, m, Mid, []);
    HeadParts(m);
    SelectOnly(MediaHead(m)[..3], l, MediaHead(m)[4..]);
    CutTag(l);
  }

  /** What the two ICE searches find in a section with the session part behind it. */
  lemma IceLines(s: Session, m: Media, tag: Tag)
    requires Good(s) && m in s.media && (tag.Ufrag? || tag.Pwd?)
    ensures var t := GetTransport(s.transports, m.mid);
            Filter(SplitLines(PrintAll(MediaLines(s, m))) + SplitLines(PrintAll(SessionLines(s))), TagText(tag)) ==
              if t.None? then [] else [Print(Line(tag, if tag.Ufrag? then t.value.ufrag else t.value.password))]
  {
    hide *;
    var (t, lines, rest) := (GetTransport(s.transports, m.mid), MediaLines(s, m), SessionLines(s));
    MediaTidy(s, m);
    IceSought(tag);
    SessionSelectsNone(s, tag);
    PrintedLines(lines);
    PrintedLines(rest);
    MapAppend(Print, lines, rest);
    FilterTag(lines + rest, tag);
    SelectAppend(lines, rest, tag, []);
    SelectInSection(s, m, tag, []);
    SelectTransport(t, tag);
    MapEmptyOrOne(Select(lines + rest, tag, []));
  }

  lemma IceSought(tag: Tag)
    requires tag.Ufrag? || tag.Pwd?
    ensures Sought(tag) && TransportTag(tag) && !SessionTag(tag)
  {
  }

  lemma MapAppend<A, B>(f: A -> B, a: seq<A>, b: seq<A>)
    ensures Map(f, a) + Map(f, b) == Map(f, a + b)
  {
  }

  lemma MapEmptyOrOne(lines: seq<Line>)
    ensures Map(Print, []) == []
    ensures |lines| == 1 ==> Map(Print, lines) == [Print(lines[0])]
  {
  }

  lemma SessionSelectsNone(s: Session, tag: Tag)
    requires Good(s) && !SessionTag(tag)
    ensures SessionLines(s) != [] && (forall l :: l in SessionLines(s) ==> Tidy(l.rest)) && Select(SessionLines(s), tag, []) == []
  {
    SessionTidy(s);
    assert SessionLines(s) != [];
    hide SessionLines, Good, Tidy;
    SelectNone(SessionLines(s), tag, []);
  }

  lemma SelectTransport(t: Option<Transport>, tag: Tag)
    requires tag.Ufrag? || tag.Pwd?
    ensures Select(TransportLines(t), tag, []) ==
              if t.None? then [] else [Line(tag, if tag.Ufrag? then t.value.ufrag else t.value.password)]
  {
    var ls := TransportLines(t);
    if t.Some? {
      var k := if tag.Ufrag? then 0 else 1;
      assert ls == ls[..k] + [ls[k]] + ls[k + 1..];
      assert forall l :: l in ls[k + 1..] || l in ls[..k] ==> l.tag != tag;
      hide Select;
      SelectOnly(ls[..k], ls[k], ls[k + 1..]);
    }
  }

  /** The ICE parameters are found exactly when the section has a transport. */
  lemma IceReadBack(s: Session, m: Media)
    requires Good(s) && m in s.media
    ensures var t := GetTransport(s.transports, m.mid);
            GetIceParameters(PrintAll(MediaLines(s, m)), PrintAll(SessionLines(s))) ==
              if t.None? then None else Some(IceParameters(t.value.ufrag, t.value.password))
  {
    var t := GetTransport(s.transports, m.mid);
    hide Good, MediaLines, SessionLines, PrintAll, Print, TagText, Filter, GetTransport;
    IceLines(s, m, Ufrag);
    IceLines(s, m, Pwd);
    if t.Some? {
      CutTag(Line(Ufrag, t.value.ufrag));
      CutTag(Line(Pwd, t.value.password));
    }
  }

  function DirectionText(d: Direction): string {
    match d
    case SendReceive => "sendrecv"
    case SendOnly => "sendonly"
    case ReceiveOnly => "recvonly"
    case Inactive => "inactive"
  }

  lemma NotDirection(l: Line, d: Tag)
    requires DirectionLike(d) && l.tag != d
    ensures Print(l) != TagText(d)
  {
    Apart(d, l.tag, l.rest);
  }

  lemma {:induction false} DirectionFound(a: seq<Line>, d: Direction, b: seq<Line>)
    requires forall l :: l in a ==> !DirectionLike(l.tag)
    ensures DirectionWord(Map(Print, a + [Line(DirectionTag(d), [])] + b)) == Some(DirectionText(d))
    decreases |a|
  {
    var l := Line(DirectionTag(d), []);
    var ps := Map(Print, a + [l] + b);
    if a == [] {
      assert ps[0] == Print(l) == TagText(DirectionTag(d)) + [] == TagText(DirectionTag(d));
      DirectionCut(d);
      hide TagText;
    } else {
      assert a[0] in a;
      hide TagText, Print;
      NotDirection(a[0], SendRecv);
      NotDirection(a[0], SendOnlyTag);
      NotDirection(a[0], RecvOnly);
      NotDirection(a[0], InactiveTag);
      assert ps[0] == Print(a[0]);
      assert ps[1..] == Map(Print, a[1..] + [l] + b);
      DirectionFound(a[1..], d, b);
    }
  }

  lemma DirectionCut(d: Direction)
    ensures TagText(DirectionTag(d)) in [TagText(SendRecv), TagText(SendOnlyTag), TagText(RecvOnly), TagText(InactiveTag)]
    ensures |TagText(DirectionTag(d))| >= 2 && TagText(DirectionTag(d))[2..] == DirectionText(d)
  {
  }

  lemma DirectionReadBack(s: Session, m: Media, session: string)
    requires Good(s) && m in s.media
    ensures GetDirection(PrintAll(MediaLines(s, m)), session) == DirectionText(m.direction)
  {
    var lines := MediaLines(s, m);
    var a := MediaHead(m)[..4];
    var b := lines[5..];
    HeadParts(m);
    assert lines == a + [Line(DirectionTag(m.direction), [])] + b;
    MediaTidy(s, m);
    hide Good, MediaLines, PrintAll, MediaHead, Tidy, Print, DirectionWord;
    PrintedLines(lines);
    DirectionFound(a, m.direction, b);
  }

  /**
    For every session description, the text of `to_string` parses into the same sections, in
    order, with the same mid, direction, ICE parameters, codecs, feedback and parameters.
   */
  lemma RoundTrip(s: Session)
    requires Good(s)
    ensures |MediaSections(ToText(s))| == |s.media|
    ensures forall k :: 0 <= k < |s.media| ==>
              var (section, session, m) := (MediaSections(ToText(s))[k], Description(ToText(s)), s.media[k]);
              var t := GetTransport(s.transports, m.mid);
              && GetMid(section) == Some(m.mid)
              && GetDirection(section, session) == DirectionText(m.direction)
              && GetIceParameters(section, session) == (if t.None? then None else Some(IceParameters(t.value.ufrag, t.value.password)))
              && ParseRtpParameters(section) == Map(c => Meaning(c, m.kind), m.codecs)
  {
    SectionsOfText(s);
    SectionTextAt(s);
    hide ToText, SectionTexts, PrintAll, MediaLines, SessionLines, GetMid, GetDirection, GetIceParameters, ParseRtpParameters, Good, Meaning, GetTransport;
    forall k | 0 <= k < |s.media|
      ensures var (section, session, m) := (MediaSections(ToText(s))[k], Description(ToText(s)), s.media[k]);
              var t := GetTransport(s.transports, m.mid);
              && GetMid(section) == Some(m.mid)
              && GetDirection(section, session) == DirectionText(m.direction)
              && GetIceParameters(section, session) == (if t.None? then None else Some(IceParameters(t.value.ufrag, t.value.password)))
              && ParseRtpParameters(section) == Map(c => Meaning(c, m.kind), m.codecs)
    {
      var m := s.media[k];
      assert m in s.media;
      assert MediaSections(ToText(s))[k] == PrintAll(MediaLines(s, m));
      MidReadBack(s, m);
      DirectionReadBack(s, m, Description(ToText(s)));
      IceReadBack(s, m);
      RtpParametersReadBack(s, m);
    }
  }
}
