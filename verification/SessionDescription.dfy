/**
  The offer the server prints (`SessionDescription` and `PeerConnection::create_offer` under
  xrtc_server/src/pc) and the parser that reads such text on the other side (`SDPUtils` in
  screen_share/static/js/adapter.js).
 */
module SessionDescription {
  import opened Common
  import opened SdpText
  import opened SdpSections
  import opened SdpLines
  import opened SdpTags

  datatype Feedback = Feedback(id: string, param: string)
  datatype Param = Param(key: string, value: string)

  /** A codec; `params` is the ordered map of format parameters. */
  datatype Codec = Codec(id: nat, name: string, clockRate: nat, channels: nat, feedback: seq<Feedback>, params: seq<Param>)

  datatype MediaType = Audio | Video
  datatype Direction = SendReceive | SendOnly | ReceiveOnly | Inactive
  datatype Media = Media(kind: MediaType, mid: string, direction: Direction, rtcpMux: bool, codecs: seq<Codec>)

  datatype Role = NoRole | Active | Passive | ActPass | HoleConn
  datatype Fingerprint = Fingerprint(algorithm: string, value: string)
  datatype Transport = Transport(mid: string, ufrag: string, password: string, fingerprint: Option<Fingerprint>, role: Role)

  datatype Group = Group(semantic: string, contents: seq<string>)
  datatype Session = Session(media: seq<Media>, groups: seq<Group>, transports: seq<Transport>)

  // What is printed, line by line.

  function GetTransport(ts: seq<Transport>, mid: string): Option<Transport> {
    if ts == [] then None else if ts[0].mid == mid then Some(ts[0]) else GetTransport(ts[1..], mid)
  }

  function GetGroups(gs: seq<Group>, name: string): seq<Group> {
    if gs == [] then [] else (if gs[0].semantic == name then [gs[0]] else []) + GetGroups(gs[1..], name)
  }

  function RoleText(r: Role): string {
    match r
    case NoRole => "none"
    case Active => "active"
    case Passive => "passive"
    case ActPass => "actpass"
    case HoleConn => "holeconn"
  }

  function DirectionTag(d: Direction): Tag {
    match d
    case SendReceive => SendRecv
    case SendOnly => SendOnlyTag
    case ReceiveOnly => RecvOnly
    case Inactive => InactiveTag
  }

  /** Each word with a space in front. */
  function Spaced(words: seq<string>): string {
    if words == [] then [] else " " + words[0] + Spaced(words[1..])
  }

  /** Name, clock rate and, for audio, channels. */
  function Encoding(c: Codec, kind: MediaType): string {
    Join(EncodingParts(c, kind), "/")
  }

  function EncodingParts(c: Codec, kind: MediaType): seq<string> {
    if kind.Audio? then [c.name, Decimal(c.clockRate), Decimal(c.channels)] else [c.name, Decimal(c.clockRate)]
  }

  function RtpMapLine(c: Codec, kind: MediaType): Line {
    Line(RtpMap, Decimal(c.id) + " " + Encoding(c, kind))
  }

  function FeedbackLine(id: nat, f: Feedback): Line {
    Line(RtcpFb, Decimal(id) + " " + f.id + (if f.param != [] then " " + f.param else []))
  }

  function ParamText(p: Param): string {
    p.key + "=" + p.value
  }

  function FmtpLine(c: Codec): Line {
    Line(Fmtp, Decimal(c.id) + " " + Join(Map(ParamText, c.params), ";"))
  }

  function FeedbackLines(c: Codec): seq<Line> {
    Map(f => FeedbackLine(c.id, f), c.feedback)
  }

  function CodecLines(c: Codec, kind: MediaType): seq<Line> {
    [RtpMapLine(c, kind)] + FeedbackLines(c) + (if c.params != [] then [FmtpLine(c)] else [])
  }

  function AllCodecLines(cs: seq<Codec>, kind: MediaType): seq<Line> {
    if cs == [] then [] else CodecLines(cs[0], kind) + AllCodecLines(cs[1..], kind)
  }

  function TransportLines(t: Option<Transport>): seq<Line> {
    if t.None? then []
    else
      [Line(Ufrag, t.value.ufrag), Line(Pwd, t.value.password)]
      + (if t.value.fingerprint.None? then []
         else [Line(FingerprintTag, t.value.fingerprint.value.algorithm + " " + t.value.fingerprint.value.value),
               Line(Setup, RoleText(t.value.role))])
  }

  function CodecIds(cs: seq<Codec>): seq<string> {
    Map((c: Codec) => Decimal(c.id), cs)
  }

  function MediaHead(m: Media): seq<Line> {
    [Line(MediaTag, m.mid + " 9 UDP/TLS/RTP/SAVPF" + Spaced(CodecIds(m.codecs))),
     Line(Connection, "IN IP4 0.0.0.0"),
     Line(Rtcp, "9 IN IP4 0.0.0.0"),
     Line(Mid, m.mid),
     Line(DirectionTag(m.direction), [])]
    + (if m.rtcpMux then [Line(RtcpMux, [])] else [])
  }

  function MediaLines(s: Session, m: Media): seq<Line> {
    MediaHead(m) + TransportLines(GetTransport(s.transports, m.mid)) + AllCodecLines(m.codecs, m.kind)
  }

  function SessionLines(s: Session): seq<Line> {
    var bundles := GetGroups(s.groups, "BUNDLE");
    [Line(Version, "0"), Line(Origin, "- 1234567890 1234567890 IN IP4 127.0.0.1"), Line(Name, "-"), Line(Time, "0 0")]
    + (if bundles == [] then [] else [Line(GroupTag, "BUNDLE" + Spaced(bundles[0].contents))])
    + [Line(MsidSemantic, " WMS *")]
  }

  function PrintAll(lines: seq<Line>): string {
    Text(Map(Print, lines))
  }

  /** The session part and the media sections as texts. */
  function SectionTexts(s: Session): seq<string> {
    [PrintAll(SessionLines(s))] + Map(m => PrintAll(MediaLines(s, m)), s.media)
  }

  /** `to_string`, for a session with at most one bundle. */
  function ToText(s: Session): string {
    Concat(SectionTexts(s))
  }

  // What is parsed.

  const SPACE: string := " "

  /** `getMediaSections` and `getDescription`. */
  function MediaSections(blob: string): seq<string> {
    SplitSections(blob)[1..]
  }

  function Description(blob: string): string {
    SplitSections(blob)[0]
  }

  function GetMid(section: string): Option<string> {
    var found := MatchPrefix(section, TagText(Mid));
    if found == [] || |found[0]| < 6 then None else Some(found[0][6..])
  }

  function DirectionWord(lines: seq<string>): Option<string> {
    if lines == [] then None
    else if lines[0] in [TagText(SendRecv), TagText(SendOnlyTag), TagText(RecvOnly), TagText(InactiveTag)] then Some(lines[0][2..])
    else DirectionWord(lines[1..])
  }

  /** `getDirection`: the section decides, then the session part, then the default. */
  function GetDirection(section: string, session: string): string {
    var d := DirectionWord(SplitLines(section));
    var e := DirectionWord(SplitLines(session));
    if d.Some? then d.value else if e.Some? then e.value else "sendrecv"
  }

  datatype IceParameters = IceParameters(usernameFragment: string, password: string)

  /** `getIceParameters`, which throws when a line is missing. */
  function GetIceParameters(section: string, session: string): Option<IceParameters> {
    var lines := SplitLines(section) + SplitLines(session);
    var (u, p) := (Filter(lines, TagText(Ufrag)), Filter(lines, TagText(Pwd)));
    if u == [] || p == [] || |u[0]| < 12 || |p[0]| < 10 then None
    else Some(IceParameters(u[0][12..], p[0][10..]))
  }

  /** What is parsed of a codec; a number that is none is `None`, as is a parameter without a value. */
  datatype ParsedCodec = ParsedCodec(
    payloadType: Option<int>, name: string, clockRate: Option<int>, channels: Option<int>,
    parameters: map<string, Option<string>>, feedback: seq<Feedback>)

  datatype RtpMapping = RtpMapping(payloadType: Option<int>, name: string, clockRate: Option<int>, channels: Option<int>)

  function Nth(parts: seq<string>, k: nat): Option<string> {
    if k < |parts| then Some(parts[k]) else None
  }

  function ParseNth(parts: seq<string>, k: nat): Option<int> {
    if k < |parts| then ParseInt(parts[k]) else None
  }

  /** `parseRtpMap`, which throws on a line without a second word. */
  function ParseRtpMap(line: string): Option<RtpMapping> {
    if |line| < 9 then None else
    var parts := Split(line[9..], SPACE);
    if |parts| < 2 then None else
    var halves := Split(parts[1], "/");
    Some(RtpMapping(ParseInt(parts[0]), halves[0], ParseNth(halves, 1), if |halves| == 3 then ParseInt(halves[2]) else Some(1)))
  }

  /** The text behind the first space, or all of it. */
  function BehindSpace(line: string): string {
    var i := Find(line, SPACE, 0);
    if i == -1 then line else line[i + 1..]
  }

  function ReadParam(part: string): (string, Option<string>) {
    var kv := Split(Trim(part), "=");
    (Trim(kv[0]), Nth(kv, 1))
  }

  const PROTO := "__proto__"

  /** A string stored in a JavaScript object: under the name of the prototype it is not kept. */
  function Store(m: map<string, Option<string>>, k: string, v: Option<string>): map<string, Option<string>> {
    if k == PROTO then m else m[k := v]
  }

  /** The loop of `parseFmtp`: later entries overwrite earlier ones. */
  function ReadParams(parts: seq<string>): map<string, Option<string>> {
    if parts == [] then map[]
    else
      var n := |parts| - 1;
      var (k, v) := ReadParam(parts[n]);
      Store(ReadParams(parts[..n]), k, v)
  }

  function ParseFmtp(line: string): map<string, Option<string>> {
    ReadParams(Split(BehindSpace(line), ";"))
  }

  function ParseRtcpFb(line: string): Feedback {
    var parts := Split(BehindSpace(line), SPACE);
    Feedback(parts[0], Join(parts[1..], SPACE))
  }

  /** One payload type of the m-line, if it has a mapping. */
  function ParseCodec(section: string, pt: string): Option<ParsedCodec> {
    var maps := MatchPrefix(section, TagText(RtpMap) + (pt + SPACE));
    if maps == [] then None else
    var r := ParseRtpMap(maps[0]);
    if r.None? then None else
    var fmtps := MatchPrefix(section, TagText(Fmtp) + (pt + SPACE));
    var fbs := MatchPrefix(section, TagText(RtcpFb) + (pt + SPACE));
    Some(ParsedCodec(r.value.payloadType, r.value.name, r.value.clockRate, r.value.channels,
                     if fmtps == [] then map[] else ParseFmtp(fmtps[0]), Map(ParseRtcpFb, fbs)))
  }

  function ParseCodecs(section: string, pts: seq<string>): seq<ParsedCodec> {
    if pts == [] then []
    else
      var c := ParseCodec(section, pts[0]);
      (if c.Some? then [c.value] else []) + ParseCodecs(section, pts[1..])
  }

  /** `parseRtpParameters`, its codecs. */
  function ParseRtpParameters(section: string): seq<ParsedCodec> {
    var mline := Split(SplitLines(section)[0], SPACE);
    ParseCodecs(section, if |mline| < 3 then [] else mline[3..])
  }

  // What the printer may be given.

  /** A word: no space of any kind. */
  ghost predicate Word(s: string) {
    forall c :: c in s ==> !IsSpace(c)
  }

  ghost predicate Free(s: string, delimiters: string) {
    forall c :: c in s ==> c !in delimiters
  }

  ghost predicate GoodFeedback(f: Feedback) {
    Word(f.id) && f.id != [] && (f.param == [] || IsLine(f.param))
  }

  ghost predicate GoodParam(p: Param) {
    Word(p.key) && Word(p.value) && Free(p.key, "=;") && Free(p.value, "=;")
  }

  ghost predicate GoodCodec(c: Codec) {
    && Word(c.name) && Free(c.name, "/")
    && (forall f :: f in c.feedback ==> GoodFeedback(f))
    && (forall p :: p in c.params ==> GoodParam(p))
    && (forall i, j :: 0 <= i < j < |c.params| ==> c.params[i].key != c.params[j].key)
  }

  ghost predicate GoodMedia(m: Media) {
    && Word(m.mid)
    && (forall c :: c in m.codecs ==> GoodCodec(c))
    && (forall i, j :: 0 <= i < j < |m.codecs| ==> m.codecs[i].id != m.codecs[j].id)
  }

  ghost predicate GoodTransport(t: Transport) {
    && Word(t.ufrag) && Word(t.password)
    && (t.fingerprint.Some? ==>
          Word(t.fingerprint.value.algorithm) && Word(t.fingerprint.value.value) && t.fingerprint.value.value != [])
  }

  /** At most one bundle, distinct payload types per section, delimiter-free tokens. */
  ghost predicate Good(s: Session) {
    && |GetGroups(s.groups, "BUNDLE")| <= 1
    && (forall g, c :: g in s.groups && c in g.contents ==> Word(c) && c != [])
    && (forall m :: m in s.media ==> GoodMedia(m))
    && (forall t :: t in s.transports ==> GoodTransport(t))
  }

  /** Format parameters as a map. */
  function ParamMap(ps: seq<Param>): map<string, Option<string>> {
    if ps == [] then map[]
    else
      var n := |ps| - 1;
      Store(ParamMap(ps[..n]), ps[n].key, Some(ps[n].value))
  }

  /** With distinct keys the map holds exactly the parameters, but for one called `__proto__`. */
  lemma {:induction false} ParamMapHolds(ps: seq<Param>)
    requires forall i, j :: 0 <= i < j < |ps| ==> ps[i].key != ps[j].key
    ensures forall k :: k in ParamMap(ps) <==> k != PROTO && exists i :: 0 <= i < |ps| && ps[i].key == k
    ensures forall i :: 0 <= i < |ps| && ps[i].key != PROTO ==>
              ps[i].key in ParamMap(ps) && ParamMap(ps)[ps[i].key] == Some(ps[i].value)
    decreases |ps|
  {
    if ps != [] {
      var n := |ps| - 1;
      var (front, last) := (ps[..n], ps[n]);
      ParamMapHolds(front);
      var m := ParamMap(front);
      assert ParamMap(ps) == Store(m, last.key, Some(last.value));
      hide ParamMap;
      forall i | 0 <= i < |ps| && ps[i].key != PROTO
        ensures ps[i].key in ParamMap(ps) && ParamMap(ps)[ps[i].key] == Some(ps[i].value)
      {
        if i < n {
          assert front[i] == ps[i];
        }
      }
      forall k | k in ParamMap(ps)
        ensures k != PROTO && exists i :: 0 <= i < |ps| && ps[i].key == k
      {
        if k != last.key {
          var i :| 0 <= i < |front| && front[i].key == k;
          assert ps[i].key == k;
        }
      }
    }
  }

  /** No parameter is lost if and only if none has that name. */
  lemma ParamsKeptIff(ps: seq<Param>)
    requires forall i, j :: 0 <= i < j < |ps| ==> ps[i].key != ps[j].key
    ensures (forall i :: 0 <= i < |ps| ==> ps[i].key in ParamMap(ps) && ParamMap(ps)[ps[i].key] == Some(ps[i].value))
            <==> (forall i :: 0 <= i < |ps| ==> ps[i].key != PROTO)
  {
    ParamMapHolds(ps);
  }

  lemma ProtoIsLost(value: string)
    ensures ParamMap([Param("__proto__", value), Param("apt", "107")]) == map["apt" := Some("107")]
  {
    var ps := [Param("__proto__", value), Param("apt", "107")];
    assert ps[..1] == [Param("__proto__", value)] && ps[..1][..0] == [];
    assert ParamMap(ps[..1]) == Store(ParamMap([]), "__proto__", Some(value));
    assert "apt"[0] != PROTO[0];
  }

  /** What a parser should say about a codec. */
  function Meaning(c: Codec, kind: MediaType): ParsedCodec {
    ParsedCodec(Some(c.id), c.name, Some(c.clockRate), Some(if kind.Audio? then c.channels else 1), ParamMap(c.params), c.feedback)
  }
}
