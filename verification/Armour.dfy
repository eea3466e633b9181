/** One-line and multi-line ASCII armour of a detached signature (sections 6.2 and 6.3 of RFC 4880). */
module Armour {

  const HEADER := "-----BEGIN PGP SIGNATURE-----"
  const FOOTER := "\n-----END PGP SIGNATURE-----"
  const DASHES := "\n-----"
  const WIDTH: nat := 64

  // ----- the string operations the code relies on -----

  predicate OccursAt(s: string, sub: string, i: int) {
    0 <= i && i + |sub| <= |s| && s[i..i + |sub|] == sub
  }

  lemma OccursInRest(s: string, sub: string, j: int)
    requires s != "" && j >= 1
    ensures OccursAt(s, sub, j) <==> OccursAt(s[1..], sub, j - 1)
  {
    if j + |sub| <= |s| {
      assert s[1..][j - 1..j - 1 + |sub|] == s[j..j + |sub|];
    }
  }

  /** strings.Index: the first occurrence, or -1. */
  function Index(s: string, sub: string): (i: int)
    ensures i == -1 ==> forall j :: !OccursAt(s, sub, j)
    ensures i != -1 ==> OccursAt(s, sub, i) && forall j | 0 <= j < i :: !OccursAt(s, sub, j)
  {
    if |s| < |sub| then -1
    else if s[..|sub|] == sub then 0
    else
      var rest := if s == "" then -1 else Index(s[1..], sub);
      assert s != "" ==> forall j | j >= 1 :: OccursAt(s, sub, j) <==> OccursAt(s[1..], sub, j - 1) by {
        forall j | s != "" && j >= 1 ensures OccursAt(s, sub, j) <==> OccursAt(s[1..], sub, j - 1) {
          OccursInRest(s, sub, j);
        }
      }
      if rest == -1 then -1 else rest + 1
  }

  /** strings.LastIndex for a single character. */
  function LastIndex(s: string, c: char): (i: int)
    ensures i == -1 ==> c !in s
    ensures i != -1 ==> 0 <= i < |s| && s[i] == c && c !in s[i + 1..]
  {
    if s == "" then -1
    else if s[|s| - 1] == c then |s| - 1
    else
      var i := LastIndex(s[..|s| - 1], c);
      assert i != -1 ==> s[i + 1..] == s[..|s| - 1][i + 1..] + [s[|s| - 1]];
      assert s == s[..|s| - 1] + [s[|s| - 1]];
      i
  }

  /** strings.Replace(s, "\n", "", -1) */
  function Strip(s: string): string {
    if s == "" then ""
    else (if s[0] == '\n' then "" else [s[0]]) + Strip(s[1..])
  }

  // ----- armouring -----

  /** The payload cut into lines of 64 columns. */
  function Chunks(payload: string): (lines: seq<string>)
    ensures Concat(lines) == payload
    ensures IsWrapped(lines)
  {
    if payload == "" then []
    else if |payload| <= WIDTH then
      assert [payload][1..] == [];
      [payload]
    else
      var rest := Chunks(payload[WIDTH..]);
      assert ([payload[..WIDTH]] + rest)[1..] == rest;
      [payload[..WIDTH]] + rest
  }

  function Concat(lines: seq<string>): string {
    if lines == [] then "" else lines[0] + Concat(lines[1..])
  }

  /** Full lines, save for the last, which is not empty. */
  predicate IsWrapped(lines: seq<string>) {
    forall i | 0 <= i < |lines| :: 1 <= |lines[i]| <= 64 && (i < |lines| - 1 ==> |lines[i]| == 64)
  }

  function Lines(lines: seq<string>): string {
    if lines == [] then "" else lines[0] + "\n" + Lines(lines[1..])
  }

  function Format(lines: seq<string>, crc: string): string {
    HEADER + "\n\n" + Lines(lines) + crc + FOOTER
  }

  function Armoured(line: string): string {
    var lastEq := LastIndex(line, '=');
    if lastEq == -1 then "" else Format(Chunks(line[..lastEq]), line[lastEq..])
  }

  lemma FirstChunk(payload: string, chunkLen: nat)
    requires payload != "" && chunkLen == if |payload| > WIDTH then WIDTH else |payload|
    ensures Lines(Chunks(payload)) == (payload[..chunkLen] + "\n") + Lines(Chunks(payload[chunkLen..]))
  {
    var first, rest := payload[..chunkLen], Chunks(payload[chunkLen..]);
    assert Chunks(payload) == [first] + rest;
    assert ([first] + rest)[1..] == rest;
  }

  method ReArmorSignature(line: string) returns (armour: string)
    ensures armour == Armoured(line)
  {
    var lastEq := LastIndex(line, '=');
    if lastEq == -1 {
      return "";
    }
    var buf := HEADER + "\n\n";
    var payload, crc := line[..lastEq], line[lastEq..];
    while |payload| > 0
      invariant buf + Lines(Chunks(payload)) == HEADER + "\n\n" + Lines(Chunks(line[..lastEq]))
    {
      var chunkLen := |payload|;
      if chunkLen > WIDTH {
        chunkLen := WIDTH;
      }
      FirstChunk(payload, chunkLen);
      assert buf + Lines(Chunks(payload)) == buf + (payload[..chunkLen] + "\n") + Lines(Chunks(payload[chunkLen..]));
      buf := buf + (payload[..chunkLen] + "\n");
      payload := payload[chunkLen..];
    }
    assert buf + "" == buf;
    buf := buf + crc + FOOTER;
    armour := buf;
  }

  datatype DeArmored = Line(text: string) | ParseError | SliceOutOfRange

  /** The slice expression of the code panics when the dashes come before the blank line's end. */
  function DeArmor(sig: string): DeArmored {
    var index1, index2 := Index(sig, "\n\n"), Index(sig, DASHES);
    if index1 == -1 || index2 == -1 then ParseError
    else if index2 < index1 + 2 then SliceOutOfRange
    else Line(Strip(sig[index1 + 2..index2]))
  }

  // ----- where newlines and dashes are -----

  lemma {:induction false} StripConcat(a: string, b: string)
    ensures Strip(a + b) == Strip(a) + Strip(b)
  {
    if a == "" {
      assert a + b == b;
    } else {
      assert (a + b)[1..] == a[1..] + b;
      StripConcat(a[1..], b);
    }
  }

  lemma {:induction false} StripKeepsOneLine(s: string)
    ensures '\n' !in Strip(s) && |Strip(s)| <= |s|
    ensures '\n' !in s ==> Strip(s) == s
  {
    if s != "" {
      StripKeepsOneLine(s[1..]);
      assert s == [s[0]] + s[1..];
    }
  }

  lemma StripNewline(rest: string)
    ensures Strip("\n" + rest) == Strip(rest)
  {
    assert ("\n" + rest)[1..] == rest;
  }

  lemma StripOneLine(line: string, rest: string)
    requires '\n' !in line
    ensures Strip(line + "\n" + rest) == line + Strip(rest)
  {
    StripNewline(rest);
    StripKeepsOneLine(line);
    StripConcat(line, "\n" + rest);
    Regroup(line, "\n", rest);
  }

  lemma Regroup(a: string, b: string, c: string)
    ensures a + b + c == a + (b + c)
  {
  }

  lemma {:induction false} StripLines(lines: seq<string>)
    requires forall line | line in lines :: '\n' !in line
    ensures Strip(Lines(lines)) == Concat(lines)
  {
    if lines != [] {
      StripLines(lines[1..]);
      StripOneLine(lines[0], Lines(lines[1..]));
    }
  }

  predicate StartsWithDashes(s: string) {
    |s| >= 5 && s[..5] == "-----"
  }

  predicate SomeLineOfDashes(lines: seq<string>) {
    exists i :: 0 <= i < |lines| && StartsWithDashes(lines[i])
  }

  ghost predicate DashesBefore(text: string, n: nat) {
    exists j :: j < n && OccursAt(text, DASHES, j)
  }

  /** Dashes right after the first newline are dashes at the start of the line. */
  lemma FirstLine(line: string, after: string)
    requires '\n' !in line && after != "" && after[0] == '\n'
    ensures OccursAt("\n" + line + after, DASHES, 0) <==> StartsWithDashes(line)
  {
    var text := "\n" + line + after;
    if |line| < 5 {
      var k := |line| + 1;
      assert text[k] == '\n' && DASHES[k] == '-';
      assert |text| >= 6 ==> text[0..6][k] == text[k];
    } else {
      assert text[0..6] == "\n" + line[..5];
      assert text[0..6][1..] == line[..5];
      assert DASHES == "\n" + "-----" && DASHES[1..] == "-----";
    }
  }

  /** Past the first line, an occurrence of the dashes is one in what follows. */
  lemma PastFirstLine(line: string, after: string, j: int)
    requires '\n' !in line && j > 0
    ensures OccursAt("\n" + line + after, DASHES, j) <==> OccursAt(after, DASHES, j - |line| - 1)
  {
    var text, k := "\n" + line + after, |line| + 1;
    if j + 6 <= |text| {
      if j < k {
        assert text[j..j + 6][0] == text[j] && text[j] == line[j - 1] && line[j - 1] in line;
      } else {
        assert text[j..j + 6] == after[j - k..j - k + 6];
      }
    }
  }

  lemma DashesFromLineOn(line: string, after: string, n: nat)
    requires '\n' !in line && after != "" && after[0] == '\n'
    ensures DashesBefore("\n" + line + after, |line| + 1 + n) <==> StartsWithDashes(line) || DashesBefore(after, n)
  {
    var text, k := "\n" + line + after, |line| + 1;
    FirstLine(line, after);
    if StartsWithDashes(line) {
      assert OccursAt(text, DASHES, 0);
    }
    if DashesBefore(after, n) {
      var j :| j < n && OccursAt(after, DASHES, j);
      PastFirstLine(line, after, j + k);
      assert OccursAt(text, DASHES, j + k);
    }
    if DashesBefore(text, k + n) {
      var j :| j < k + n && OccursAt(text, DASHES, j);
      if j > 0 {
        PastFirstLine(line, after, j);
        assert OccursAt(after, DASHES, j - k);
      }
    }
  }

  lemma DashesInChecksum(crc: string)
    requires crc != "" && crc[0] == '=' && '\n' !in crc
    ensures !DashesBefore("\n" + crc + FOOTER, |"\n" + crc|)
  {
    DashesFromLineOn(crc, FOOTER, 0);
    assert !StartsWithDashes(crc) by {
      assert |crc| >= 5 ==> crc[..5][0] == crc[0];
    }
  }

  lemma DashesFromFirstLine(line: string, body: string)
    requires '\n' !in line
    ensures DashesBefore("\n" + line + "\n" + body + FOOTER, |"\n" + line + "\n" + body|)
       <==> StartsWithDashes(line) || DashesBefore("\n" + body + FOOTER, |"\n" + body|)
  {
    var rest := "\n" + body;
    assert "\n" + line + "\n" + body + FOOTER == "\n" + line + (rest + FOOTER);
    DashesFromLineOn(line, rest + FOOTER, |rest|);
  }

  /** In an armour body the dashes occur before the footer iff some line starts with them. */
  lemma {:induction false} DashesAmongLines(lines: seq<string>, crc: string)
    requires forall line | line in lines :: '\n' !in line
    requires crc != "" && crc[0] == '=' && '\n' !in crc
    ensures DashesBefore("\n" + Lines(lines) + crc + FOOTER, |"\n" + Lines(lines) + crc|) <==> SomeLineOfDashes(lines)
  {
    if lines == [] {
      assert "\n" + "" + crc == "\n" + crc;
      DashesInChecksum(crc);
    } else {
      var line, body := lines[0], Lines(lines[1..]) + crc;
      assert line in lines;
      DashesAmongLines(lines[1..], crc);
      assert "\n" + Lines(lines[1..]) + crc == "\n" + body;
      DashesFromFirstLine(line, body);
      assert "\n" + Lines(lines) + crc == "\n" + line + "\n" + body;
      SomeLineCons(lines);
    }
  }

  lemma SomeLineCons(lines: seq<string>)
    requires lines != []
    ensures SomeLineOfDashes(lines) <==> StartsWithDashes(lines[0]) || SomeLineOfDashes(lines[1..])
  {
    if SomeLineOfDashes(lines[1..]) {
      var i :| 0 <= i < |lines[1..]| && StartsWithDashes(lines[1..][i]);
      assert StartsWithDashes(lines[i + 1]);
    }
    if SomeLineOfDashes(lines) {
      var i :| 0 <= i < |lines| && StartsWithDashes(lines[i]);
      assert i > 0 ==> lines[1..][i - 1] == lines[i];
    }
  }

  // ----- round trips -----

  lemma IndexIs(s: string, sub: string, i: int)
    requires OccursAt(s, sub, i)
    requires forall j | 0 <= j < i :: !OccursAt(s, sub, j)
    ensures Index(s, sub) == i
  {
  }

  /** The blank line after the header is the first one. */
  lemma BlankLine(body: string)
    ensures Index(HEADER + "\n\n" + body, "\n\n") == |HEADER|
  {
    var text := HEADER + "\n\n" + body;
    var h := |HEADER|;
    assert text[h..h + 2] == "\n\n";
    HeaderIsOneLine();
    forall j | 0 <= j < h ensures !OccursAt(text, "\n\n", j) {
      if j + 2 <= |text| {
        assert text[j..j + 2][0] == text[j] && text[j] == HEADER[j] && HEADER[j] in HEADER;
      }
    }
    IndexIs(text, "\n\n", h);
  }

  lemma HeaderIsOneLine()
    ensures '\n' !in HEADER
  {
  }

  /** Looking for the dashes after the header is looking for them from the second newline on. */
  lemma DashesAfterHeader(rest: string, j: int)
    ensures OccursAt(HEADER + "\n\n" + rest, DASHES, j) <==> OccursAt("\n" + rest, DASHES, j - |HEADER| - 1)
  {
    var text, h := HEADER + "\n\n" + rest, |HEADER|;
    var tail := "\n" + rest;
    assert text == HEADER + "\n" + tail;
    HeaderIsOneLine();
    if 0 <= j && j + 6 <= |text| {
      if j < h {
        assert text[j..j + 6][0] == text[j] && text[j] == HEADER[j] && HEADER[j] in HEADER;
      } else if j == h {
        assert text[j..j + 6][1] == text[j + 1] && text[j + 1] == '\n' && DASHES[1] == '-';
      } else {
        assert text[j..j + 6] == tail[j - h - 1..j - h - 1 + 6];
      }
    }
  }

  lemma FooterStartsWithDashes(body: string)
    ensures OccursAt(body + FOOTER, DASHES, |body|)
  {
    assert FOOTER[..6] == DASHES;
    assert (body + FOOTER)[|body|..|body| + 6] == FOOTER[..6];
  }

  /** Where the code finds the dashes, counted from the second newline after the header. */
  lemma FirstDashes(inner: string)
    ensures var text, body := HEADER + "\n\n" + inner + FOOTER, "\n" + inner;
      && Index(text, DASHES) != -1
      && (!DashesBefore(body + FOOTER, |body|) ==> Index(text, DASHES) == |HEADER| + 1 + |body|)
      && (DashesBefore(body + FOOTER, |body|) ==> |HEADER| + 1 <= Index(text, DASHES) < |HEADER| + 1 + |body|)
  {
    var text, body, h := HEADER + "\n\n" + inner + FOOTER, "\n" + inner, |HEADER|;
    assert text == HEADER + "\n\n" + (inner + FOOTER) && body + FOOTER == "\n" + (inner + FOOTER);
    forall j ensures OccursAt(text, DASHES, j) <==> OccursAt(body + FOOTER, DASHES, j - h - 1) {
      DashesAfterHeader(inner + FOOTER, j);
    }
    FooterStartsWithDashes(body);
    DashesAfterHeader(inner + FOOTER, h + 1 + |body|);
    if DashesBefore(body + FOOTER, |body|) {
      var j :| j < |body| && OccursAt(body + FOOTER, DASHES, j);
      DashesAfterHeader(inner + FOOTER, j + h + 1);
      assert OccursAt(text, DASHES, j + h + 1);
    } else {
      IndexIs(text, DASHES, h + 1 + |body|);
    }
  }

  lemma DeArmorOfText(inner: string)
    ensures var text, h := HEADER + "\n\n" + inner + FOOTER, |HEADER|;
      var index2 := Index(text, DASHES);
      && h + 1 <= index2 <= h + 2 + |inner|
      && (index2 == h + 2 + |inner| <==> !DashesBefore("\n" + inner + FOOTER, |inner| + 1))
      && DeArmor(text) == (if index2 < h + 2 then SliceOutOfRange else Line(Strip(inner[..index2 - h - 2])))
  {
    var text, h := HEADER + "\n\n" + inner + FOOTER, |HEADER|;
    assert text == HEADER + "\n\n" + (inner + FOOTER);
    BlankLine(inner + FOOTER);
    FirstDashes(inner);
    var index2 := Index(text, DASHES);
    assert index2 >= h + 2 ==> text[h + 2..index2] == inner[..index2 - h - 2];
  }

  /** De-armouring the format of some lines: the whole text when no line starts with dashes, and
      something else otherwise. */
  lemma DeArmorOfFormat(lines: seq<string>, crc: string)
    requires forall line | line in lines :: '\n' !in line
    requires crc != "" && crc[0] == '=' && '\n' !in crc
    ensures DeArmor(Format(lines, crc)) == Line(Concat(lines) + crc) <==> !SomeLineOfDashes(lines)
  {
    var inner := Lines(lines) + crc;
    FormatIs(lines, crc);
    DeArmorOfText(inner);
    DashesAmongLines(lines, crc);
    if SomeLineOfDashes(lines) {
      CutShort(lines, crc, Index(Format(lines, crc), DASHES) - |HEADER| - 2);
    } else {
      WholeBody(lines, crc);
      assert inner[..|inner|] == inner;
    }
  }

  lemma FormatIs(lines: seq<string>, crc: string)
    ensures Format(lines, crc) == HEADER + "\n\n" + (Lines(lines) + crc) + FOOTER
    ensures "\n" + Lines(lines) + crc == "\n" + (Lines(lines) + crc)
  {
  }

  lemma CutShort(lines: seq<string>, crc: string, cut: int)
    requires forall line | line in lines :: '\n' !in line
    requires crc != "" && '\n' !in crc && cut < |Lines(lines) + crc|
    ensures cut >= 0 ==> Strip((Lines(lines) + crc)[..cut]) != Concat(lines) + crc
  {
    if cut >= 0 {
      PartOfBody(lines, crc, cut);
    }
  }

  lemma WholeBody(lines: seq<string>, crc: string)
    requires forall line | line in lines :: '\n' !in line
    requires '\n' !in crc
    ensures Strip(Lines(lines) + crc) == Concat(lines) + crc
  {
    StripLines(lines);
    StripConcat(Lines(lines), crc);
    StripKeepsOneLine(crc);
  }

  /** A body cut short loses at least the last character of the checksum. */
  lemma PartOfBody(lines: seq<string>, crc: string, cut: nat)
    requires forall line | line in lines :: '\n' !in line
    requires crc != "" && '\n' !in crc && cut < |Lines(lines) + crc|
    ensures Strip((Lines(lines) + crc)[..cut]) != Concat(lines) + crc
  {
    var inner := Lines(lines) + crc;
    var front, back := inner[..cut], inner[cut..];
    WholeBody(lines, crc);
    assert inner == front + back;
    StripConcat(front, back);
    assert back[|back| - 1] == crc[|crc| - 1] && crc[|crc| - 1] in crc;
    LastIsKept(back);
    assert |Strip(inner)| == |Strip(front)| + |Strip(back)|;
  }

  lemma {:induction false} LastIsKept(s: string)
    requires s != "" && s[|s| - 1] != '\n'
    ensures Strip(s) != ""
  {
    if |s| > 1 {
      LastIsKept(s[1..]);
    }
  }

  function Payload(line: string): string
    requires '=' in line
  {
    line[..LastIndex(line, '=')]
  }

  lemma DeArmoredIsOneLine(sig: string)
    requires DeArmor(sig).Line?
    ensures '\n' !in DeArmor(sig).text
  {
    StripKeepsOneLine(sig[Index(sig, "\n\n") + 2..Index(sig, DASHES)]);
  }

  lemma OneLineRoundTrip(line: string)
    requires '=' in line && '\n' !in line
    ensures DeArmor(Armoured(line)) == Line(line) <==> !SomeLineOfDashes(Chunks(Payload(line)))
  {
    var lines, crc := Chunks(Payload(line)), line[LastIndex(line, '=')..];
    LinesOf(lines);
    assert Concat(lines) + crc == line;
    DeArmorOfFormat(lines, crc);
  }

  /** The exact condition: a line comes back unchanged iff it has a checksum, is one line, and none of
      its 64-column chunks starts with five dashes. */
  lemma ArmourRoundTrip(line: string)
    ensures DeArmor(Armoured(line)) == Line(line)
       <==> '=' in line && '\n' !in line && !SomeLineOfDashes(Chunks(Payload(line)))
  {
    if '=' !in line {
      assert DeArmor("") == ParseError;
    } else if '\n' in line {
      if DeArmor(Armoured(line)).Line? {
        DeArmoredIsOneLine(Armoured(line));
      }
    } else {
      OneLineRoundTrip(line);
    }
  }

  lemma {:induction false} LinesOf(lines: seq<string>)
    requires '\n' !in Concat(lines)
    ensures forall line | line in lines :: '\n' !in line
  {
    if lines != [] {
      assert forall c | c in lines[0] :: c in Concat(lines);
      assert forall c | c in Concat(lines[1..]) :: c in Concat(lines);
      LinesOf(lines[1..]);
    }
  }

  predicate Base64Char(c: char) {
    'A' <= c <= 'Z' || 'a' <= c <= 'z' || '0' <= c <= '9' || c == '+' || c == '/' || c == '='
  }

  /** What the signer promises: any base64 line with a checksum survives. */
  lemma Base64RoundTrip(line: string)
    requires '=' in line && forall c | c in line :: Base64Char(c)
    ensures DeArmor(Armoured(line)) == Line(line)
  {
    ArmourRoundTrip(line);
    var payload := Payload(line);
    var lines := Chunks(payload);
    forall i | 0 <= i < |lines| ensures !StartsWithDashes(lines[i]) {
      CharsOf(lines, i);
      assert lines[i] != "" && lines[i][0] in payload && lines[i][0] in line;
      assert |lines[i]| >= 5 ==> lines[i][..5][0] == lines[i][0];
    }
  }

  lemma {:induction false} CharsOf(lines: seq<string>, i: nat)
    requires i < |lines|
    ensures forall c | c in lines[i] :: c in Concat(lines)
  {
    if i > 0 {
      CharsOf(lines[1..], i - 1);
    }
  }

  lemma {:induction false} ChunksOfWrapped(lines: seq<string>)
    requires IsWrapped(lines)
    ensures Chunks(Concat(lines)) == lines
  {
    if lines != [] {
      assert IsWrapped(lines[1..]) by {
        assert forall i | 0 <= i < |lines[1..]| :: lines[1..][i] == lines[i + 1];
      }
      ChunksOfWrapped(lines[1..]);
      if |lines| > 1 {
        assert lines[1] != "" && Concat(lines[1..]) != "";
        assert Concat(lines)[..WIDTH] == lines[0] && Concat(lines)[WIDTH..] == Concat(lines[1..]);
      } else {
        assert Concat(lines[1..]) == "" && Concat(lines) == lines[0] && lines == [lines[0]];
      }
    }
  }

  /** The other way round: a canonical armour without headers, wrapped at 64 columns, is rebuilt exactly. */
  lemma CanonicalArmourRoundTrip(lines: seq<string>, crc: string)
    requires IsWrapped(lines) && forall line | line in lines :: '\n' !in line && !StartsWithDashes(line)
    requires crc != "" && crc[0] == '=' && '=' !in crc[1..] && '\n' !in crc
    ensures DeArmor(Format(lines, crc)).Line?
    ensures Armoured(DeArmor(Format(lines, crc)).text) == Format(lines, crc)
  {
    assert forall i | 0 <= i < |lines| :: lines[i] in lines;
    DeArmorOfFormat(lines, crc);
    LastEqOf(Concat(lines), crc);
    ChunksOfWrapped(lines);
  }

  /** What the armour of a line is: its payload in lines of 64 columns, and its checksum, between header and footer. */
  lemma ArmourIsWrapped(payload: string, crc: string) returns (lines: seq<string>)
    requires crc != "" && crc[0] == '=' && '=' !in crc[1..]
    ensures IsWrapped(lines) && Concat(lines) == payload
    ensures Armoured(payload + crc)
         == "-----BEGIN PGP SIGNATURE-----" + "\n\n" + Lines(lines) + crc + "\n-----END PGP SIGNATURE-----"
  {
    lines := Chunks(payload);
    LastEqOf(payload, crc);
  }

  lemma LastEqOf(payload: string, crc: string)
    requires crc != "" && crc[0] == '=' && '=' !in crc[1..]
    ensures var text := payload + crc;
      LastIndex(text, '=') == |payload| && text[..|payload|] == payload && text[|payload|..] == crc
  {
    var text, k := payload + crc, |payload|;
    var last := LastIndex(text, '=');
    assert text[k] == '=' && text[k] in text;
    assert forall i | k < i < |text| :: text[i] == crc[1..][i - k - 1];
    assert forall i | last < i < |text| :: text[i] == text[last + 1..][i - last - 1];
  }
}
