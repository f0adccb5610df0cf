/**
  The kinds of line that `SessionDescription::to_string`
  (xrtc_server/src/pc/session_description.cpp) writes, and why a search for one kind by its
  prefix never finds another.
 */
module SdpTags {
  import opened Common
  import opened SdpText
  import opened SdpSections
  import opened SdpLines

  datatype Tag =
    | Version | Origin | Name | Time | GroupTag | MsidSemantic
    | MediaTag | Connection | Rtcp | Mid
    | SendRecv | SendOnlyTag | RecvOnly | InactiveTag
    | RtcpMux | Ufrag | Pwd | FingerprintTag | Setup
    | RtpMap | RtcpFb | Fmtp

  function TagText(t: Tag): string {
    match t
    case Version => "v="
    case Origin => "o="
    case Name => "s="
    case Time => "t="
    case GroupTag => "a=group:"
    case MsidSemantic => "a=msid-semantic:"
    case MediaTag => "m="
    case Connection => "c="
    case Rtcp => "a=rtcp:"
    case Mid => "a=mid:"
    case SendRecv => "a=sendrecv"
    case SendOnlyTag => "a=sendonly"
    case RecvOnly => "a=recvonly"
    case InactiveTag => "a=inactive"
    case RtcpMux => "a=rtcp-mux"
    case Ufrag => "a=ice-ufrag:"
    case Pwd => "a=ice-pwd:"
    case FingerprintTag => "a=fingerprint:"
    case Setup => "a=setup:"
    case RtpMap => "a=rtpmap:"
    case RtcpFb => "a=rtcp-fb:"
    case Fmtp => "a=fmtp:"
  }

  datatype Line = Line(tag: Tag, rest: string)

  function Print(l: Line): string {
    TagText(l.tag) + l.rest
  }

  predicate IsAttribute(t: Tag) {
    !(t.Version? || t.Origin? || t.Name? || t.Time? || t.MediaTag? || t.Connection?)
  }

  /** The kinds a parser searches for. */
  predicate Sought(t: Tag) {
    || t.Mid? || t.SendRecv? || t.SendOnlyTag? || t.RecvOnly? || t.InactiveTag?
    || t.Ufrag? || t.Pwd? || t.RtpMap? || t.RtcpFb? || t.Fmtp?
  }

  /** A place where two tags differ. */
  function Place(a: Tag, b: Tag): nat
    requires Sought(a)
  {
    if !IsAttribute(b) then 0 else
    match a
    case Mid => if b.MsidSemantic? then 3 else 2
    case SendRecv => if b.Setup? then 4 else if b.SendOnlyTag? then 6 else 2
    case SendOnlyTag => if b.Setup? then 4 else if b.SendRecv? then 6 else 2
    case RecvOnly => if b.Rtcp? || b.RtcpMux? || b.RtpMap? || b.RtcpFb? then 3 else 2
    case InactiveTag => if b.Ufrag? || b.Pwd? then 3 else 2
    case Ufrag => if b.InactiveTag? then 3 else if b.Pwd? then 6 else 2
    case Pwd => if b.InactiveTag? then 3 else if b.Ufrag? then 6 else 2
    case RtpMap => if b.RecvOnly? then 3 else if b.Rtcp? || b.RtcpMux? || b.RtcpFb? then 4 else 2
    case RtcpFb => if b.RecvOnly? then 3 else if b.RtpMap? then 4 else if b.Rtcp? then 6 else if b.RtcpMux? then 7 else 2
    case Fmtp => if b.FingerprintTag? then 3 else 2
  }

  lemma Differ(p: string, q: string, rest: string, k: nat)
    requires k < |p| && k < |q| && p[k] != q[k]
    ensures !(p <= q + rest)
  {
    assert (q + rest)[k] == q[k];
  }

  /** No line of one kind begins like a line of another kind that is searched for. */
  lemma Apart(a: Tag, b: Tag, rest: string)
    requires Sought(a) && a != b
    ensures !(TagText(a) <= TagText(b) + rest)
  {
    Differ(TagText(a), TagText(b), rest, Place(a, b));
  }

  /** The lines of one kind whose remainder begins with `sub`. */
  function Select(lines: seq<Line>, tag: Tag, sub: string): seq<Line> {
    if lines == [] then []
    else (if lines[0].tag == tag && sub <= lines[0].rest then [lines[0]] else []) + Select(lines[1..], tag, sub)
  }

  lemma ShorterPrefix(t: string, sub: string, p: string)
    requires t + sub <= p
    ensures t <= p
  {
    assert t == (t + sub)[..|t|] == p[..|t|];
  }

  lemma PrefixOfPrinted(l: Line, tag: Tag, sub: string)
    requires Sought(tag)
    ensures TagText(tag) + sub <= Print(l) <==> l.tag == tag && sub <= l.rest
  {
    hide TagText;
    var (t, p) := (TagText(tag), Print(l));
    if l.tag != tag {
      if t + sub <= p {
        ShorterPrefix(t, sub, p);
        Apart(tag, l.tag, l.rest);
      }
    } else {
      if t + sub <= p {
        assert l.rest == p[|t|..];
        assert sub == (t + sub)[|t|..] == p[|t|..|t + sub|];
      }
      if sub <= l.rest {
        assert l.rest == sub + l.rest[|sub|..];
        assert p == t + sub + l.rest[|sub|..];
      }
    }
  }

  /** Searching printed lines by prefix finds exactly the lines of that kind. */
  lemma {:induction false} FilterPrinted(lines: seq<Line>, tag: Tag, sub: string)
    requires Sought(tag)
    ensures Filter(Map(Print, lines), TagText(tag) + sub) == Map(Print, Select(lines, tag, sub))
    decreases |lines|
  {
    hide TagText;
    var ps := Map(Print, lines);
    if lines != [] {
      PrefixOfPrinted(lines[0], tag, sub);
      FilterPrinted(lines[1..], tag, sub);
      assert ps[1..] == Map(Print, lines[1..]);
      var rest := Select(lines[1..], tag, sub);
      assert Map(Print, [lines[0]] + rest) == [Print(lines[0])] + Map(Print, rest);
      assert Map(Print, [] + rest) == Map(Print, rest);
    }
  }

  lemma {:induction false} SelectAppend(a: seq<Line>, b: seq<Line>, tag: Tag, sub: string)
    ensures Select(a + b, tag, sub) == Select(a, tag, sub) + Select(b, tag, sub)
    decreases |a|
  {
    if a == [] {
      assert a + b == b && Select(a, tag, sub) == [];
    } else {
      SelectAppend(a[1..], b, tag, sub);
      assert (a + b)[1..] == a[1..] + b && (a + b)[0] == a[0];
      var head := if a[0].tag == tag && sub <= a[0].rest then [a[0]] else [];
      assert Select(a, tag, sub) == head + Select(a[1..], tag, sub);
      assert Select(a + b, tag, sub) == head + (Select(a[1..], tag, sub) + Select(b, tag, sub));
    }
  }

  lemma {:induction false} SelectNone(lines: seq<Line>, tag: Tag, sub: string)
    requires forall l :: l in lines ==> l.tag != tag || !(sub <= l.rest)
    ensures Select(lines, tag, sub) == []
    decreases |lines|
  {
    if lines != [] {
      SelectNone(lines[1..], tag, sub);
    }
  }

  lemma {:induction false} SelectAll(lines: seq<Line>, tag: Tag, sub: string)
    requires forall l :: l in lines ==> l.tag == tag && sub <= l.rest
    ensures Select(lines, tag, sub) == lines
    decreases |lines|
  {
    if lines != [] {
      SelectAll(lines[1..], tag, sub);
      assert lines == [lines[0]] + lines[1..];
    }
  }
}
