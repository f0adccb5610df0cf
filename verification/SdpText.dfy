/**
  The text helpers of `SDPUtils` in screen_share/static/js/adapter.js: splitting a blob into
  lines and into sections, and putting it together again.
 */
module SdpText {

  const CRLF: string := "\r\n"
  const LF: string := "\n"
  const MEDIA: string := "\nm="

  // JavaScript's `split` on a separator that is no part of a longer run of itself.

  predicate At(s: string, sep: string, j: int) {
    0 <= j && j + |sep| <= |s| && s[j..j + |sep|] == sep
  }

  ghost predicate Contains(s: string, sep: string) {
    exists j :: At(s, sep, j)
  }

  /** The first character of the separator does not come again in it. */
  predicate Sharp(sep: string) {
    sep != [] && sep[0] !in sep[1..]
  }

  /** `indexOf` from a position on. */
  function Find(s: string, sep: string, from: nat): (r: int)
    ensures r == -1 ==> forall j :: from <= j ==> !At(s, sep, j)
    ensures r != -1 ==> from <= r && At(s, sep, r) && forall j :: from <= j < r ==> !At(s, sep, j)
    decreases |s| - from
  {
    if At(s, sep, from) then from else if from >= |s| then -1 else Find(s, sep, from + 1)
  }

  function Split(s: string, sep: string): (r: seq<string>)
    requires Sharp(sep)
    ensures r != []
    decreases |s|
  {
    var i := Find(s, sep, 0);
    if i == -1 then [s] else [s[..i]] + Split(s[i + |sep|..], sep)
  }

  function Join(parts: seq<string>, sep: string): string {
    if parts == [] then [] else if |parts| == 1 then parts[0] else parts[0] + sep + Join(parts[1..], sep)
  }

  /** The first separator behind a part that has none is the one put there. */
  lemma FirstFound(part: string, sep: string, rest: string)
    requires Sharp(sep) && !Contains(part, sep)
    ensures Find(part + sep + rest, sep, 0) == |part|
  {
    var s := part + sep + rest;
    assert At(s, sep, |part|);
    forall j | 0 <= j < |part|
      ensures !At(s, sep, j)
    {
      if j + |sep| <= |part| {
        assert !At(part, sep, j) && s[j..j + |sep|] == part[j..j + |sep|];
      } else {
        var k := |part| - j;
        assert sep[1..][k - 1] == sep[k] != sep[0] == s[|part|];
        assert j + |sep| <= |s| ==> s[j..j + |sep|][k] == s[|part|];
      }
    }
  }

  /** What is in a piece of a text is in the text. */
  lemma Inner(s: string, a: nat, b: nat, sep: string, j: int)
    requires a <= b <= |s| && At(s[a..b], sep, j)
    ensures At(s, sep, a + j)
  {
    var piece := s[a..b];
    forall k | 0 <= k < |sep|
      ensures s[a + j..a + j + |sep|][k] == sep[k]
    {
      assert piece[j..j + |sep|][k] == piece[j + k];
    }
    assert s[a + j..a + j + |sep|] == sep;
  }

  lemma PieceIsClean(s: string, a: nat, b: nat, sep: string)
    requires a <= b <= |s| && !Contains(s, sep)
    ensures !Contains(s[a..b], sep)
  {
    if j :| At(s[a..b], sep, j) {
      Inner(s, a, b, sep, j);
    }
  }

  lemma CleanIsWhole(s: string, sep: string)
    requires Sharp(sep) && !Contains(s, sep)
    ensures Split(s, sep) == [s]
  {
    var i := Find(s, sep, 0);
    assert !At(s, sep, i);
  }

  lemma {:induction false} SplitOfJoin(parts: seq<string>, sep: string)
    requires Sharp(sep) && parts != [] && forall p :: p in parts ==> !Contains(p, sep)
    ensures Split(Join(parts, sep), sep) == parts
    decreases |parts|
  {
    if |parts| == 1 {
      CleanIsWhole(parts[0], sep);
    } else {
      var rest := Join(parts[1..], sep);
      FirstFound(parts[0], sep, rest);
      var s := parts[0] + sep + rest;
      assert s == parts[0] + (sep + rest);
      assert s[..|parts[0]|] == parts[0];
      assert s[|parts[0]| + |sep|..] == rest;
      SplitOfJoin(parts[1..], sep);
    }
  }

  lemma {:induction false} SplitIsClean(s: string, sep: string)
    requires Sharp(sep)
    ensures Join(Split(s, sep), sep) == s
    ensures forall p :: p in Split(s, sep) ==> !Contains(p, sep)
    decreases |s|
  {
    var i := Find(s, sep, 0);
    if i != -1 {
      var rest := s[i + |sep|..];
      SplitIsClean(rest, sep);
      assert s == s[..i] + sep + rest;
      assert s[..i] == s[0..i];
      if j :| At(s[0..i], sep, j) {
        Inner(s, 0, i, sep, j);
      }
    }
  }

  // `trim`.

  predicate IsSpace(c: char) {
    || '\t' <= c <= '\r' || c == ' ' || c == '\U{A0}' || c == '\U{1680}' || '\U{2000}' <= c <= '\U{200A}'
    || c == '\U{2028}' || c == '\U{2029}' || c == '\U{202F}' || c == '\U{205F}' || c == '\U{3000}' || c == '\U{FEFF}'
  }

  function TrimStart(s: string): string {
    if s != [] && IsSpace(s[0]) then TrimStart(s[1..]) else s
  }

  function TrimEnd(s: string): string {
    if s != [] && IsSpace(s[|s| - 1]) then TrimEnd(s[..|s| - 1]) else s
  }

  function Trim(s: string): string {
    TrimEnd(TrimStart(s))
  }

  /** Nothing to trim, and not empty. */
  predicate Neat(s: string) {
    s != [] && !IsSpace(s[0]) && !IsSpace(s[|s| - 1])
  }

  lemma {:induction false} TrimEndOnly(s: string, tail: string)
    requires s != [] ==> !IsSpace(s[|s| - 1])
    requires forall c :: c in tail ==> IsSpace(c)
    ensures TrimEnd(s + tail) == s
    decreases |tail|
  {
    hide IsSpace;
    if tail == [] {
      assert s + tail == s;
    } else {
      var t := s + tail;
      assert t[|t| - 1] == tail[|tail| - 1];
      assert t[..|t| - 1] == s + tail[..|tail| - 1];
      TrimEndOnly(s, tail[..|tail| - 1]);
    }
  }

  /** Trailing space behind something neat is all that is trimmed. */
  lemma TrimNeat(s: string, tail: string)
    requires Neat(s) && forall c :: c in tail ==> IsSpace(c)
    ensures Trim(s + tail) == s && TrimStart(s + tail) == s + tail
  {
    hide IsSpace;
    assert (s + tail)[0] == s[0];
    TrimEndOnly(s, tail);
  }

  lemma {:induction false} TrimEndIsPrefix(s: string)
    ensures TrimEnd(s) <= s
    ensures TrimEnd(s) != [] ==> !IsSpace(TrimEnd(s)[|TrimEnd(s)| - 1])
  {
    hide IsSpace;
    if s != [] && IsSpace(s[|s| - 1]) {
      TrimEndIsPrefix(s[..|s| - 1]);
    }
  }

  lemma {:induction false} TrimStartIsSuffix(s: string)
    ensures |TrimStart(s)| <= |s| && TrimStart(s) == s[|s| - |TrimStart(s)|..]
    ensures TrimStart(s) != [] ==> !IsSpace(TrimStart(s)[0])
  {
    hide IsSpace;
    if s != [] && IsSpace(s[0]) {
      TrimStartIsSuffix(s[1..]);
    }
  }

  /** A trimmed text is neat or empty. */
  lemma Trimmed(s: string)
    ensures Trim(s) == [] || Neat(Trim(s))
  {
    hide IsSpace;
    TrimStartIsSuffix(s);
    TrimEndIsPrefix(TrimStart(s));
  }

  lemma TrimKeepsClean(s: string, sep: string)
    requires !Contains(s, sep)
    ensures !Contains(Trim(s), sep)
  {
    hide IsSpace;
    TrimStartIsSuffix(s);
    var t := TrimStart(s);
    TrimEndIsPrefix(t);
    var d := |s| - |t|;
    assert Trim(s) == t[..|Trim(s)|] == s[d..d + |Trim(s)|];
    PieceIsClean(s, d, d + |Trim(s)|, sep);
  }
}
