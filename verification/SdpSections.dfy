/**
  Sections and lines of an SDP blob as `SDPUtils` of screen_share/static/js/adapter.js cuts
  them, and the edit that adds an attribute line to one media section.
 */
module SdpSections {
  import opened SdpText

  /** One part between section breaks, with its `m=` back in front and a clean line end. */
  function Section(part: string, index: nat): string {
    Trim(if index > 0 then "m=" + part else part) + CRLF
  }

  /** `splitSections`: the session part and the media sections. */
  function SplitSections(blob: string): (r: seq<string>)
    ensures r != []
  {
    var parts := Split(blob, MEDIA);
    seq(|parts|, k requires 0 <= k < |parts| => Section(parts[k], k))
  }

  /** `join('')`. */
  function Concat(parts: seq<string>): string {
    if parts == [] then [] else parts[0] + Concat(parts[1..])
  }

  lemma MediaAt(s: string, j: int)
    ensures At(s, MEDIA, j) <==> 0 <= j && j + 3 <= |s| && s[j] == '\n' && s[j + 1] == 'm' && s[j + 2] == '='
  {
    if 0 <= j && j + 3 <= |s| {
      assert s[j..j + 3] == [s[j], s[j + 1], s[j + 2]];
      assert MEDIA == ['\n', 'm', '='];
    }
  }

  /** No line inside the text begins a media section. */
  ghost predicate Whole(s: string) {
    forall j :: 0 <= j && j + 3 <= |s| ==> !(s[j] == '\n' && s[j + 1] == 'm' && s[j + 2] == '=')
  }

  lemma WholeIsClean(s: string)
    ensures Whole(s) <==> !Contains(s, MEDIA)
  {
    if j :| At(s, MEDIA, j) {
      MediaAt(s, j);
      assert s[j] == '\n' && s[j + 1] == 'm';
    }
    if j :| 0 <= j && j + 3 <= |s| && s[j] == '\n' && s[j + 1] == 'm' && s[j + 2] == '=' {
      MediaAt(s, j);
    }
  }

  /** A text that ends its last line, and what is in front of that line end. */
  predicate Ended(s: string) {
    |s| >= 2 && s[|s| - 2..] == CRLF
  }

  function Body(s: string): string
    requires |s| >= 2
  {
    s[..|s| - 2]
  }

  ghost predicate IsHead(s: string) {
    Ended(s) && Whole(Body(s)) && (Body(s) == [] || Neat(Body(s)))
  }

  ghost predicate IsMedia(s: string) {
    Ended(s) && Whole(Body(s)) && Neat(Body(s)) && "m=" <= Body(s)
  }

  /** What `splitSections` produces. */
  ghost predicate IsSections(secs: seq<string>) {
    secs != [] && IsHead(secs[0]) && forall k :: 1 <= k < |secs| ==> IsMedia(secs[k])
  }

  lemma SpaceFacts()
    ensures IsSpace('\r') && IsSpace('\n') && IsSpace(' ') && !IsSpace('m') && !IsSpace('=') && !IsSpace('a')
  {
  }

  lemma {:induction false} TrimEndReaches(s: string, k: nat)
    requires k < |s| && !IsSpace(s[k])
    ensures |TrimEnd(s)| > k
    decreases |s|
  {
    hide IsSpace;
    if IsSpace(s[|s| - 1]) {
      TrimEndReaches(s[..|s| - 1], k);
    }
  }

  lemma HeadOfPart(part: string)
    requires Whole(part)
    ensures IsHead(Section(part, 0))
  {
    WholeIsClean(part);
    TrimKeepsClean(part, MEDIA);
    WholeIsClean(Trim(part));
    Trimmed(part);
    assert Body(Section(part, 0)) == Trim(part);
  }

  lemma MediaOfPart(part: string, k: nat)
    requires Whole(part) && k > 0
    ensures IsMedia(Section(part, k))
  {
    SpaceFacts();
    hide IsSpace;
    var s := "m=" + part;
    forall j | 0 <= j && j + 3 <= |s|
      ensures !(s[j] == '\n' && s[j + 1] == 'm' && s[j + 2] == '=')
    {
      if j >= 2 {
        assert s[j] == part[j - 2] && s[j + 1] == part[j - 1] && s[j + 2] == part[j];
      }
    }
    assert Whole(s);
    hide Whole;
    WholeIsClean(s);
    TrimKeepsClean(s, MEDIA);
    WholeIsClean(Trim(s));
    assert s[0] == 'm' && s[1] == '=';
    assert TrimStart(s) == s;
    TrimEndReaches(s, 1);
    TrimEndIsPrefix(s);
    Trimmed(s);
    assert Body(Section(part, k)) == Trim(s);
  }

  lemma SplitGivesSections(blob: string)
    ensures IsSections(SplitSections(blob))
  {
    var parts := Split(blob, MEDIA);
    SplitIsClean(blob, MEDIA);
    forall k | 0 <= k < |parts|
      ensures k == 0 ==> IsHead(Section(parts[k], k))
      ensures k > 0 ==> IsMedia(Section(parts[k], k))
    {
      assert parts[k] in parts;
      WholeIsClean(parts[k]);
      if k == 0 {
        HeadOfPart(parts[k]);
      } else {
        MediaOfPart(parts[k], k);
      }
    }
  }

  // Putting sections together and cutting them again.

  /** A section without its `m=`, unless it is the first. */
  function Front(s: string, first: bool): string
    requires |s| >= 2
  {
    if first then s else s[2..]
  }

  function Chop(s: string): string {
    if s == [] then [] else s[..|s| - 1]
  }

  /** The parts that the section breaks of joined sections separate. */
  function Parts(secs: seq<string>, first: bool): (r: seq<string>)
    requires secs != [] && forall s :: s in secs ==> |s| >= 2
    ensures |r| == |secs|
    decreases |secs|
  {
    if |secs| == 1 then [Front(secs[0], first)] else [Chop(Front(secs[0], first))] + Parts(secs[1..], false)
  }

  lemma {:induction false} PartAt(secs: seq<string>, first: bool, k: nat)
    requires k < |secs| && forall s :: s in secs ==> |s| >= 2
    ensures var f := Front(secs[k], first && k == 0); Parts(secs, first)[k] == if k == |secs| - 1 then f else Chop(f)
    decreases |secs|
  {
    if k > 0 {
      PartAt(secs[1..], false, k - 1);
    }
  }

  ghost predicate IsSection(s: string, first: bool) {
    if first then IsHead(s) else IsMedia(s)
  }

  function Lead(first: bool): string {
    if first then [] else "m="
  }

  lemma FrontFacts(s: string, first: bool)
    requires IsSection(s, first)
    ensures |s| >= 2 && s == Lead(first) + Front(s, first) && Front(s, first) == Chop(Front(s, first)) + LF
  {
    hide Whole, IsSpace, Neat;
    assert s[|s| - 1] == s[|s| - 2..][1] == '\n';
    assert Body(s) <= s;
  }

  lemma {:induction false} JoinParts(secs: seq<string>, first: bool)
    requires secs != [] && (forall k :: 0 <= k < |secs| ==> IsSection(secs[k], first && k == 0))
    requires forall s :: s in secs ==> |s| >= 2
    ensures Lead(first) + Join(Parts(secs, first), MEDIA) == Concat(secs)
    decreases |secs|
  {
    FrontFacts(secs[0], first);
    Unfolded(secs, first);
    var c := Chop(Front(secs[0], first));
    hide *;
    if |secs| > 1 {
      JoinParts(secs[1..], false);
      Reassociate(Lead(first), c, Join(Parts(secs[1..], false), MEDIA));
    }
  }

  /** One section put down, and one part. */
  lemma Unfolded(secs: seq<string>, first: bool)
    requires secs != [] && forall s :: s in secs ==> |s| >= 2
    ensures Concat(secs) == if |secs| == 1 then secs[0] else secs[0] + Concat(secs[1..])
    ensures Join(Parts(secs, first), MEDIA) ==
              if |secs| == 1 then Front(secs[0], first) else Chop(Front(secs[0], first)) + MEDIA + Join(Parts(secs[1..], false), MEDIA)
  {
    hide Front, Chop;
    if |secs| == 1 {
      assert secs[0] + Concat(secs[1..]) == secs[0];
    } else {
      assert Parts(secs, first)[1..] == Parts(secs[1..], false);
    }
  }

  lemma Reassociate(pre: string, c: string, rest: string)
    ensures pre + (c + MEDIA + rest) == pre + (c + LF) + (Lead(false) + rest)
  {
  }

  lemma PartIsWhole(s: string, first: bool)
    requires IsSection(s, first)
    ensures Whole(Front(s, first)) && Whole(Chop(Front(s, first)))
  {
    hide Neat, IsSpace;
    var d := if first then 0 else 2;
    var f := Front(s, first);
    assert s[|s| - 2] == s[|s| - 2..][0] == '\r' && s[|s| - 1] == s[|s| - 2..][1] == '\n';
    forall j | 0 <= j && j + 3 <= |f|
      ensures !(f[j] == '\n' && f[j + 1] == 'm' && f[j + 2] == '=')
    {
      assert f[j] == s[d + j] && f[j + 1] == s[d + j + 1] && f[j + 2] == s[d + j + 2];
      if d + j + 3 <= |s| - 2 {
        assert Body(s)[d + j] == s[d + j] && Body(s)[d + j + 1] == s[d + j + 1] && Body(s)[d + j + 2] == s[d + j + 2];
      }
    }
  }

  /** Trimming a part gives back its section. */
  lemma SectionOfPart(s: string, k: nat)
    requires IsSection(s, k == 0)
    ensures Section(Front(s, k == 0), k) == s && Section(Chop(Front(s, k == 0)), k) == s
  {
    SpaceFacts();
    hide Whole, IsSpace;
    var (b, f) := (Body(s), Front(s, k == 0));
    assert s == b + CRLF;
    var t := if k > 0 then "m=" + f else f;
    assert t == b + CRLF;
    var c := if k > 0 then "m=" + Chop(f) else Chop(f);
    assert c == b + "\r";
    if b == [] {
      assert b + CRLF == CRLF && b + "\r" == "\r";
      TrimAllSpace(CRLF);
      TrimAllSpace("\r");
    } else {
      TrimNeat(b, CRLF);
      TrimNeat(b, "\r");
    }
  }

  lemma {:induction false} TrimAllSpace(s: string)
    requires forall c :: c in s ==> IsSpace(c)
    ensures Trim(s) == []
  {
    hide IsSpace;
    if s != [] {
      assert s[0] in s;
      TrimAllSpace(s[1..]);
    }
  }

  /** Joined sections are cut into the same sections. */
  lemma ConcatResplits(secs: seq<string>)
    requires IsSections(secs)
    ensures SplitSections(Concat(secs)) == secs
  {
    assert forall k :: 0 <= k < |secs| ==> IsSection(secs[k], k == 0);
    hide *;
    forall s | s in secs
      ensures |s| >= 2
    {
      var k :| 0 <= k < |secs| && secs[k] == s;
      FrontFacts(secs[k], k == 0);
    }
    var parts := Parts(secs, true);
    JoinParts(secs, true);
    NoLead(Join(parts, MEDIA));
    forall k | 0 <= k < |secs|
      ensures !Contains(parts[k], MEDIA) && Section(parts[k], k) == secs[k]
    {
      PartAt(secs, true, k);
      PartIsWhole(secs[k], k == 0);
      WholeIsClean(parts[k]);
      SectionOfPart(secs[k], k);
    }
    SplitOfJoin(parts, MEDIA);
    CutInto(Concat(secs), parts, secs);
  }

  lemma NoLead(s: string)
    ensures Lead(true) + s == s && Sharp(MEDIA)
  {
  }

  lemma CutInto(blob: string, parts: seq<string>, secs: seq<string>)
    requires Split(blob, MEDIA) == parts && |parts| == |secs|
    requires forall k :: 0 <= k < |secs| ==> Section(parts[k], k) == secs[k]
    ensures SplitSections(blob) == secs
  {
  }

  /** Splitting, joining and splitting again is splitting, whatever the blob. */
  lemma SplitJoinSplit(blob: string)
    ensures SplitSections(Concat(SplitSections(blob))) == SplitSections(blob)
  {
    SplitGivesSections(blob);
    ConcatResplits(SplitSections(blob));
  }

  /** `sections[k] += line + CRLF`, counting the session part as section 0. */
  function AppendLine(secs: seq<string>, k: nat, line: string): seq<string>
    requires k < |secs|
  {
    secs[k := secs[k] + line + CRLF]
  }

  lemma AppendedBody(s: string, line: string)
    requires IsMedia(s) && "a=" <= line
    ensures Ended(s + line + CRLF) && Body(s + line + CRLF) == s + line
    ensures IsMedia(s + line + CRLF) <==> Whole(line) && !IsSpace(line[|line| - 1])
  {
    hide IsSpace;
    var t := s + line + CRLF;
    assert Body(t) == s + line;
    assert t[|t| - 2..] == CRLF;
    var b := s + line;
    assert b[0] == Body(s)[0] && b[|b| - 1] == line[|line| - 1];
    assert "m=" <= b;
    WholeAppend(s, line);
  }

  lemma WholeAppend(s: string, line: string)
    requires Ended(s) && Whole(Body(s)) && "a=" <= line
    ensures Whole(s + line) <==> Whole(line)
  {
    var (b, n) := (s + line, |s|);
    assert s[n - 2] == s[n - 2..][0] == '\r' && s[n - 1] == s[n - 2..][1] == '\n';
    assert line[0] == 'a';
    if Whole(b) {
      forall j | 0 <= j && j + 3 <= |line|
        ensures !(line[j] == '\n' && line[j + 1] == 'm' && line[j + 2] == '=')
      {
        assert b[n + j] == line[j] && b[n + j + 1] == line[j + 1] && b[n + j + 2] == line[j + 2];
      }
    }
    if Whole(line) {
      forall j | 0 <= j && j + 3 <= |b|
        ensures !(b[j] == '\n' && b[j + 1] == 'm' && b[j + 2] == '=')
      {
        if j + 3 <= n - 2 {
          assert Body(s)[j] == b[j] && Body(s)[j + 1] == b[j + 1] && Body(s)[j + 2] == b[j + 2];
        } else if j >= n {
          assert b[j] == line[j - n] && b[j + 1] == line[j - n + 1] && b[j + 2] == line[j - n + 2];
        } else {
          assert b[n - 2] == '\r' && b[n - 1] == '\n' && b[n] == 'a';
        }
      }
    }
  }

  /**
    Adding an attribute line to one media section gives a blob whose sections are the old
    ones with exactly that line added, if and only if the line begins no media section of its
    own and does not end in space.
   */
  lemma AppendLineExactIff(blob: string, k: nat, line: string)
    requires 1 <= k < |SplitSections(blob)| && "a=" <= line
    ensures var after := AppendLine(SplitSections(blob), k, line);
            SplitSections(Concat(after)) == after <==> !Contains(line, MEDIA) && !IsSpace(line[|line| - 1])
  {
    hide *;
    var secs := SplitSections(blob);
    SplitGivesSections(blob);
    AppendedSections(secs, k, line);
    var after := AppendLine(secs, k, line);
    if IsSections(after) {
      ConcatResplits(after);
    }
    SplitGivesSections(Concat(after));
  }

  lemma AppendedSections(secs: seq<string>, k: nat, line: string)
    requires IsSections(secs) && 1 <= k < |secs| && "a=" <= line
    ensures IsSections(AppendLine(secs, k, line)) <==> !Contains(line, MEDIA) && !IsSpace(line[|line| - 1])
  {
    hide IsSpace, Whole, Neat, IsHead, IsMedia, Contains;
    AppendedBody(secs[k], line);
    WholeIsClean(line);
    assert AppendLine(secs, k, line)[k] == secs[k] + line + CRLF;
  }

  /**
    Such lines exist: a candidate text that carries a line break and `m=`, which is passed on
    unchanged, makes a section of its own out of its second half, whatever the blob.
   */
  lemma CandidateSplitsSection(blob: string, k: nat)
    requires 1 <= k < |SplitSections(blob)|
    ensures var after := AppendLine(SplitSections(blob), k, "a=candidate:1 1 udp 1 1.1.1.1 9 typ host\nm=audio 9");
            SplitSections(Concat(after)) != after
  {
    var line := "a=candidate:1 1 udp 1 1.1.1.1 9 typ host\nm=audio 9";
    assert line == "a=candidate:1 1 udp 1 1.1.1.1 9 typ host" + MEDIA + "audio 9";
    assert At(line, MEDIA, |"a=candidate:1 1 udp 1 1.1.1.1 9 typ host"|);
    AppendLineExactIff(blob, k, line);
  }

  /** So does a line that ends in a space, which trimming takes away. */
  lemma TrailingSpaceIsLost(blob: string, k: nat, text: string)
    requires 1 <= k < |SplitSections(blob)|
    ensures var after := AppendLine(SplitSections(blob), k, "a=" + text + " ");
            SplitSections(Concat(after)) != after
  {
    var line := "a=" + text + " ";
    assert line[..2] == "a=" && line[|line| - 1] == ' ';
    AppendLineExactIff(blob, k, line);
  }
}
