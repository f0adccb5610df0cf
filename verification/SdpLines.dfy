/**
  Lines of a section and decimal numbers: `splitLines` and `matchPrefix` of `SDPUtils`
  (screen_share/static/js/adapter.js), and `parseInt` against decimal printing.
 */
module SdpLines {
  import opened Common
  import opened SdpText
  import opened SdpSections

  /** `splitLines`. */
  function SplitLines(blob: string): (r: seq<string>)
    ensures r != []
  {
    Map(Trim, Split(Trim(blob), LF))
  }

  /** Lines written one after the other. */
  function Text(lines: seq<string>): string {
    if lines == [] then [] else lines[0] + CRLF + Text(lines[1..])
  }

  /** A line that survives being written and split: neat, and one line. */
  predicate IsLine(s: string) {
    Neat(s) && '\n' !in s
  }

  lemma NoLineFeed(s: string)
    requires '\n' !in s
    ensures !Contains(s, LF)
  {
    forall j: int
      ensures !At(s, LF, j)
    {
      if 0 <= j < |s| {
        assert s[j..j + 1][0] == s[j] && s[j] in s && LF[0] == '\n';
      }
    }
  }

  /** What is between the line feeds: every line but the last keeps a carriage return. */
  function Pieces(lines: seq<string>): (r: seq<string>)
    ensures |r| == |lines|
  {
    seq(|lines|, k requires 0 <= k < |lines| => if k == |lines| - 1 then lines[k] else lines[k] + "\r")
  }

  lemma {:induction false} TextIsJoin(lines: seq<string>)
    requires lines != []
    ensures Text(lines) == Join(Pieces(lines), LF) + CRLF
    decreases |lines|
  {
    var ps := Pieces(lines);
    if |lines| == 1 {
      assert Text(lines[1..]) == [];
      assert lines[0] + CRLF + [] == lines[0] + CRLF;
    } else {
      TextIsJoin(lines[1..]);
      assert ps[1..] == Pieces(lines[1..]);
      var rest := Join(ps[1..], LF);
      assert ps[0] == lines[0] + "\r";
      assert CRLF == "\r" + LF;
      assert lines[0] + CRLF + (rest + CRLF) == lines[0] + "\r" + LF + rest + CRLF;
    }
  }

  lemma JoinEnds(parts: seq<string>, sep: string)
    requires parts != [] && parts[0] != [] && parts[|parts| - 1] != []
    ensures var j := Join(parts, sep); j != [] && j[0] == parts[0][0] && j[|j| - 1] == parts[|parts| - 1][|parts[|parts| - 1]| - 1]
    decreases |parts|
  {
    if |parts| == 2 {
      assert Join(parts[1..], sep) == parts[1];
    } else if |parts| > 2 {
      JoinLast(parts[1..], sep);
    }
  }

  lemma {:induction false} JoinLast(parts: seq<string>, sep: string)
    requires parts != [] && parts[|parts| - 1] != []
    ensures var j := Join(parts, sep); j != [] && j[|j| - 1] == parts[|parts| - 1][|parts[|parts| - 1]| - 1]
    decreases |parts|
  {
    if |parts| > 1 {
      JoinLast(parts[1..], sep);
    }
  }

  /** Written lines are split into the same lines. */
  lemma LinesOfText(lines: seq<string>)
    requires lines != [] && forall l :: l in lines ==> IsLine(l)
    ensures SplitLines(Text(lines)) == lines
  {
    SpaceFacts();
    hide IsSpace, Join, Split, Text, Trim, At, Contains;
    var ps := Pieces(lines);
    var n := |lines| - 1;
    TextIsJoin(lines);
    assert lines[0] in lines && lines[n] in lines;
    JoinEnds(ps, LF);
    assert ps[0][0] == lines[0][0] && ps[n] == lines[n];
    TrimNeat(Join(ps, LF), CRLF);
    forall k | 0 <= k < |ps|
      ensures !Contains(ps[k], LF) && Trim(ps[k]) == lines[k]
    {
      assert lines[k] in lines;
      PieceTrims(lines[k]);
    }
    SplitOfJoin(ps, LF);
  }

  lemma PieceTrims(line: string)
    requires IsLine(line)
    ensures !Contains(line, LF) && !Contains(line + "\r", LF)
    ensures Trim(line) == line && Trim(line + "\r") == line
  {
    SpaceFacts();
    hide IsSpace, At, Contains;
    NoLineFeed(line);
    NoLineFeed(line + "\r");
    TrimNeat(line, "\r");
    TrimNeat(line, []);
    assert line + [] == line;
  }

  function Filter(lines: seq<string>, prefix: string): seq<string> {
    if lines == [] then []
    else (if prefix <= lines[0] then [lines[0]] else []) + Filter(lines[1..], prefix)
  }

  /** `matchPrefix`. */
  function MatchPrefix(blob: string, prefix: string): seq<string> {
    Filter(SplitLines(blob), prefix)
  }

  // Numbers.

  predicate IsDigit(c: char) {
    '0' <= c <= '9'
  }

  function Decimal(n: nat): (r: string)
    ensures r != [] && forall c :: c in r ==> IsDigit(c)
  {
    if n < 10 then ['0' + n as char] else Decimal(n / 10) + ['0' + (n % 10) as char]
  }

  function Digits(s: string, acc: nat): nat
    decreases |s|
  {
    if s != [] && IsDigit(s[0]) then Digits(s[1..], acc * 10 + (s[0] - '0') as nat) else acc
  }

  /** `parseInt(s, 10)`: leading space and sign, then as many digits as there are. */
  function ParseInt(s: string): Option<int> {
    var t := TrimStart(s);
    if t != [] && t[0] == '-' then
      var r := ParseNat(t[1..]);
      if r.Some? then Some(-r.value) else None
    else if t != [] && t[0] == '+' then ParseNat(t[1..])
    else ParseNat(t)
  }

  function ParseNat(s: string): Option<int> {
    if s != [] && IsDigit(s[0]) then Some(Digits(s, 0)) else None
  }

  lemma {:induction false} DigitsOfDecimal(n: nat, rest: string)
    ensures Digits(Decimal(n) + rest, 0) == Digits(rest, n)
    decreases n
  {
    if n < 10 {
      var s := Decimal(n) + rest;
      assert s[0] == '0' + n as char && s[1..] == rest;
    } else {
      var d := '0' + (n % 10) as char;
      assert Decimal(n) + rest == Decimal(n / 10) + ([d] + rest);
      DigitsOfDecimal(n / 10, [d] + rest);
      assert ([d] + rest)[1..] == rest;
    }
  }

  /** A printed number is read back. */
  lemma ParseDecimal(n: nat)
    ensures ParseInt(Decimal(n)) == Some(n)
  {
    DigitsOfDecimal(n, []);
    assert Decimal(n) + [] == Decimal(n);
    assert Decimal(n)[0] in Decimal(n);
  }

  lemma DecimalInjective(m: nat, n: nat)
    requires Decimal(m) == Decimal(n)
    ensures m == n
  {
    ParseDecimal(m);
    ParseDecimal(n);
  }
}
