/** The line framing between the agent and its modules. */
module Framing {

  // ----- lines -----

  function NewlineAt(s: string): (k: nat)
    ensures k <= |s| && (k < |s| ==> s[k] == '\n') && forall i | 0 <= i < k :: s[i] != '\n'
  {
    if s == "" || s[0] == '\n' then 0 else 1 + NewlineAt(s[1..])
  }

  function DropReturn(s: string): string {
    if s != "" && s[|s| - 1] == '\r' then s[..|s| - 1] else s
  }

  /** The first line, without its line end, and what comes behind it. */
  function TakeLine(s: string): (string, string)
    requires '\n' in s
  {
    (DropReturn(s[..NewlineAt(s)]), s[NewlineAt(s) + 1..])
  }

  function Lines(s: string): seq<string>
    decreases |s|
  {
    if '\n' !in s then [] else [TakeLine(s).0] + Lines(TakeLine(s).1)
  }

  // ----- writing -----

  /** The writing end of a pipe; sent is what has gone through it. */
  class Pipe {
    var sent: string
    var broken: bool

    constructor ()
      ensures sent == "" && !broken
    {
      sent, broken := "", false;
    }

    /** Takes some of buf, or fails. */
    method Write(buf: string) returns (nb: nat, ok: bool)
      requires buf != ""
      modifies this
      ensures nb <= |buf| && sent == old(sent) + buf[..nb] && (ok ==> nb > 0) && (ok <==> !broken)
    {
      var n: int := *;
      nb := if 0 < n <= |buf| then n else |buf|;
      ok := *;
      broken := !ok;
      if !ok {
        nb := nb - 1;
      }
      sent := sent + buf[..nb];
    }
  }

  /** Under every schedule of short writes. */
  method WriteOutput(message: string, w: Pipe) returns (ok: bool)
    requires !w.broken
    modifies w
    ensures ok <==> !w.broken
    ensures ok ==> w.sent == old(w.sent) + message + "\n"
    ensures old(w.sent) <= w.sent <= old(w.sent) + message + "\n"
  {
    var buf := message + "\n";
    ghost var all := buf;
    var left := |buf|;
    while left > 0
      invariant left == |buf| && w.sent + buf == old(w.sent) + all && !w.broken
    {
      var nb;
      ghost var before, rest := w.sent, buf;
      nb, ok := w.Write(buf);
      assert w.sent + rest[nb..] == before + rest;
      if !ok {
        assert w.sent <= w.sent + rest[nb..];
        return;
      }
      left := left - nb;
      buf := buf[nb..];
    }
    assert w.sent == w.sent + buf && old(w.sent) + all == old(w.sent) + message + "\n";
    ok := true;
  }

  // ----- reading -----

  /** A bufio.Reader over everything the other side will write: unread is what is left. */
  class BufferedReader {
    const size: nat
    var unread: string

    constructor (size: nat, input: string)
      requires size >= 16
      ensures this.size == size && unread == input
    {
      this.size, this.unread := size, input;
    }

    /** A line, or a full buffer of one, which never ends between '\r' and '\n'. */
    method ReadLine() returns (line: string, isPrefix: bool, eof: bool)
      requires size >= 16
      modifies this
      ensures !isPrefix && !eof ==>
        if '\n' in old(unread) then (line, unread) == TakeLine(old(unread)) else line == old(unread) && unread == ""
      ensures isPrefix ==> !eof && line != "" && old(unread) == line + unread && '\n' !in line
      ensures isPrefix ==> unread != "" || line[|line| - 1] != '\r'
      ensures isPrefix && '\n' in old(unread) ==> line[|line| - 1] != '\r' || unread[0] != '\n'
      ensures eof <==> old(unread) == ""
      ensures eof ==> line == "" && unread == ""
    {
      var k := NewlineAt(unread);
      line, isPrefix, eof := "", false, false;
      if k < |unread| && k < size {
        line, unread := unread[..k], unread[k + 1..];
        if line != "" && line[|line| - 1] == '\r' {
          line := line[..|line| - 1];
        }
      } else if |unread| >= size {
        line, isPrefix := unread[..size], true;
        if line[size - 1] == '\r' {
          line := line[..size - 1];
        }
        unread := unread[|line|..];
      } else if unread == "" {
        eof := true;
      } else {
        line, unread := unread, "";
      }
    }
  }

  /** However the lines are split into prefixes. */
  method ReadInputLine(rdr: BufferedReader) returns (ret: string, eof: bool)
    requires rdr.size >= 16
    modifies rdr
    ensures '\n' in old(rdr.unread) ==> !eof && (ret, rdr.unread) == TakeLine(old(rdr.unread))
    ensures '\n' !in old(rdr.unread) ==> ret == old(rdr.unread) && rdr.unread == ""
    ensures old(rdr.unread) == "" ==> eof
  {
    ret := "";
    ghost var all := rdr.unread;
    while true
      invariant all == ret + rdr.unread && '\n' !in ret
      invariant ret != "" && rdr.unread != "" && rdr.unread[0] == '\n' ==> ret[|ret| - 1] != '\r'
      decreases |rdr.unread|
    {
      var lb, isPrefix;
      ghost var before, sofar := rdr.unread, ret;
      lb, isPrefix, eof := rdr.ReadLine();
      if eof {
        return;
      }
      ret := ret + lb;
      if !isPrefix {
        if '\n' in before {
          TakeBehind(sofar, before);
        }
        break;
      }
    }
  }

  lemma TakeBehind(a: string, b: string)
    requires '\n' !in a && '\n' in b && (a != "" && b[0] == '\n' ==> a[|a| - 1] != '\r')
    ensures TakeLine(a + b) == (a + TakeLine(b).0, TakeLine(b).1)
  {
    NewlineBehind(a, b);
    ReturnBehind(a, b[..NewlineAt(b)]);
    assert a + b[..NewlineAt(b)] == (a + b)[..|a| + NewlineAt(b)];
  }

  lemma NewlineBehind(a: string, b: string)
    requires '\n' !in a && '\n' in b
    ensures NewlineAt(a + b) == |a| + NewlineAt(b) < |a + b|
    ensures (a + b)[NewlineAt(a + b) + 1..] == b[NewlineAt(b) + 1..]
  {
    var s, k := a + b, NewlineAt(b);
    assert s[|a| + k] == '\n';
    forall i | 0 <= i < |a| + k ensures s[i] != '\n' {
      assert s[i] == if i < |a| then a[i] else b[i - |a|];
    }
  }

  lemma ReturnBehind(a: string, c: string)
    requires c != "" || a == "" || a[|a| - 1] != '\r'
    ensures DropReturn(a + c) == a + DropReturn(c)
  {
    if c == "" {
      assert a + c == a;
    } else {
      assert (a + c)[|a + c| - 1] == c[|c| - 1];
      assert (a + c)[..|a + c| - 1] == a + c[..|c| - 1];
    }
  }

  // ----- the round trip -----

  function Framed(messages: seq<string>): string {
    if messages == [] then "" else messages[0] + "\n" + Framed(messages[1..])
  }

  predicate IsFrameable(m: string) {
    '\n' !in m && (m != "" ==> m[|m| - 1] != '\r')
  }

  function Newlines(s: string): nat {
    if s == "" then 0 else (if s[0] == '\n' then 1 else 0) + Newlines(s[1..])
  }

  lemma {:induction false} NewlinesConcat(a: string, b: string)
    ensures Newlines(a + b) == Newlines(a) + Newlines(b)
  {
    if a == "" {
      assert a + b == b;
    } else {
      assert (a + b)[1..] == a[1..] + b;
      NewlinesConcat(a[1..], b);
    }
  }

  lemma {:induction false} NoNewlines(s: string)
    ensures Newlines(s) == 0 <==> '\n' !in s
  {
    if s != "" {
      NoNewlines(s[1..]);
    }
  }

  lemma FirstNewline(s: string)
    requires '\n' in s
    ensures Newlines(s) == 1 + Newlines(TakeLine(s).1)
  {
    var k := NewlineAt(s);
    var line, rest := s[..k], s[k..];
    assert s == line + rest && rest[1..] == TakeLine(s).1;
    NewlinesConcat(line, rest);
    NoNewlines(line);
  }

  lemma {:induction false} OneLineEach(s: string)
    ensures |Lines(s)| == Newlines(s)
    decreases |s|
  {
    if '\n' in s {
      FirstNewline(s);
      OneLineEach(TakeLine(s).1);
    } else {
      NoNewlines(s);
    }
  }

  lemma {:induction false} FramedNewlines(messages: seq<string>)
    ensures Newlines(Framed(messages)) >= |messages|
    ensures Newlines(Framed(messages)) == |messages| ==> forall m | m in messages :: '\n' !in m
  {
    if messages != [] {
      var m, rest := messages[0], Framed(messages[1..]);
      FramedNewlines(messages[1..]);
      assert Framed(messages) == m + ("\n" + rest) && ("\n" + rest)[1..] == rest;
      NewlinesConcat(m, "\n" + rest);
      NoNewlines(m);
      assert messages == [m] + messages[1..];
    }
  }

  function DropReturns(messages: seq<string>): seq<string> {
    seq(|messages|, i requires 0 <= i < |messages| => DropReturn(messages[i]))
  }

  lemma FirstLine(m: string, rest: string)
    requires '\n' !in m
    ensures var s := m + "\n" + rest; '\n' in s && TakeLine(s) == (DropReturn(m), rest)
  {
    var s, tail := m + "\n" + rest, "\n" + rest;
    assert s == m + tail && tail[0] == '\n' && tail[1..] == rest;
    assert NewlineAt(tail) == 0;
    NewlineBehind(m, tail);
    assert s[..|m|] == m;
  }

  lemma {:induction false} LinesOfFramed(messages: seq<string>)
    requires forall m | m in messages :: '\n' !in m
    ensures Lines(Framed(messages)) == DropReturns(messages)
  {
    if messages == [] {
      assert Lines("") == [];
    } else {
      var m, rest := messages[0], Framed(messages[1..]);
      FirstLine(m, rest);
      LinesOfFramed(messages[1..]);
      assert DropReturns(messages) == [DropReturn(m)] + DropReturns(messages[1..]);
    }
  }

  /** For every sequence of messages: what is read is what was written, exactly when no message contains a
      line feed or ends in a carriage return. */
  lemma FramingRoundTripIff(messages: seq<string>)
    ensures Lines(Framed(messages)) == messages <==> forall m | m in messages :: IsFrameable(m)
  {
    FramedNewlines(messages);
    OneLineEach(Framed(messages));
    if forall m | m in messages :: '\n' !in m {
      LinesOfFramed(messages);
      if forall m | m in messages :: IsFrameable(m) {
        forall i | 0 <= i < |messages| ensures DropReturn(messages[i]) == messages[i] {
          assert messages[i] in messages;
        }
      }
      if Lines(Framed(messages)) == messages {
        forall m | m in messages ensures IsFrameable(m) {
          var i :| 0 <= i < |messages| && messages[i] == m;
          assert DropReturns(messages)[i] == m;
        }
      }
    }
  }

  // ----- both ends -----

  /** What comes behind the last line. */
  function Tail(s: string): string
    decreases |s|
  {
    if '\n' !in s then s else Tail(TakeLine(s).1)
  }

  /** Writes until the pipe breaks. */
  method WriteAll(messages: seq<string>, w: Pipe) returns (ok: bool)
    requires !w.broken && w.sent == ""
    modifies w
    ensures ok ==> w.sent == Framed(messages)
    ensures !ok ==> IsCutShort(w.sent, messages)
  {
    for i := 0 to |messages|
      invariant !w.broken && w.sent == Framed(messages[..i])
    {
      ok := WriteOutput(messages[i], w);
      FramedSnoc(messages[..i], messages[i]);
      assert messages[..i + 1] == messages[..i] + [messages[i]];
      if !ok {
        CutShortAt(w.sent, messages, i);
        return;
      }
    }
    assert messages[..|messages|] == messages;
    ok := true;
  }

  /** Some whole messages, and some of the next. */
  ghost predicate IsCutShort(sent: string, messages: seq<string>) {
    exists i: nat, part: string :: IsCutShortAt(sent, messages, i, part)
  }

  predicate IsCutShortAt(sent: string, messages: seq<string>, i: nat, part: string) {
    i < |messages| && sent == Framed(messages[..i]) + part && part <= messages[i] + "\n"
  }

  lemma CutShortAt(sent: string, messages: seq<string>, i: nat)
    requires i < |messages| && Framed(messages[..i]) <= sent <= Framed(messages[..i]) + messages[i] + "\n"
    ensures IsCutShort(sent, messages)
  {
    var part := sent[|Framed(messages[..i])|..];
    var all := Framed(messages[..i]) + messages[i] + "\n";
    assert all[|Framed(messages[..i])|..] == messages[i] + "\n";
    assert part == all[..|sent|][|Framed(messages[..i])|..];
    assert part <= messages[i] + "\n";
    assert IsCutShortAt(sent, messages, i, part);
  }

  lemma {:induction false} FramedSnoc(messages: seq<string>, m: string)
    ensures Framed(messages + [m]) == Framed(messages) + m + "\n"
  {
    if messages == [] {
      assert [m][1..] == [];
    } else {
      assert (messages + [m])[1..] == messages[1..] + [m];
      FramedSnoc(messages[1..], m);
    }
  }

  /** Reads until the end.  A last line without a line feed may or may not be delivered. */
  method ReadAll(rdr: BufferedReader) returns (lines: seq<string>)
    requires rdr.size >= 16
    modifies rdr
    ensures var s := old(rdr.unread);
      lines == Lines(s) || (lines == Lines(s) + [Tail(s)] && Tail(s) != "")
  {
    lines := [];
    ghost var all := rdr.unread;
    while true
      invariant Progress(all, lines, rdr.unread)
      decreases |rdr.unread|
    {
      ghost var before := rdr.unread;
      var line, eof := ReadInputLine(rdr);
      if eof {
        return;
      }
      OneMoreLine(all, lines, before, line, rdr.unread);
      lines := lines + [line];
    }
  }

  /** Where reading stands. */
  predicate Progress(all: string, lines: seq<string>, unread: string) {
    || (lines + Lines(unread) == Lines(all) && Tail(unread) == Tail(all))
    || (unread == "" && Tail(all) != "" && lines == Lines(all) + [Tail(all)])
  }

  lemma OneMoreLine(all: string, lines: seq<string>, before: string, line: string, after: string)
    requires Progress(all, lines, before) && before != ""
    requires if '\n' in before then (line, after) == TakeLine(before) else line == before && after == ""
    ensures Progress(all, lines + [line], after)
  {
    if '\n' in before {
      assert Lines(before) == [line] + Lines(after);
    } else {
      assert Lines(before) == [] && lines + [] == lines;
    }
  }

  lemma {:induction false} NoTail(s: string)
    requires s != "" ==> s[|s| - 1] == '\n'
    ensures Tail(s) == ""
    decreases |s|
  {
    if '\n' in s {
      var rest := TakeLine(s).1;
      assert rest != "" ==> rest[|rest| - 1] == s[|s| - 1];
      NoTail(rest);
    }
  }

  lemma {:induction false} FramedEnds(messages: seq<string>)
    ensures Framed(messages) != "" ==> Framed(messages)[|Framed(messages)| - 1] == '\n'
  {
    if messages != [] {
      FramedEnds(messages[1..]);
    }
  }

  lemma LineThen(m: string, rest: string)
    requires IsFrameable(m)
    ensures Lines(m + "\n" + rest) == [m] + Lines(rest) && Tail(m + "\n" + rest) == Tail(rest)
  {
    FirstLine(m, rest);
  }

  lemma Regroup(m: string, rest: string, part: string)
    ensures (m + "\n" + rest) + part == m + "\n" + (rest + part)
  {
  }

  /** Whole messages and some of the next, without its line feed. */
  lemma {:induction false} LinesThenPart(messages: seq<string>, part: string)
    requires (forall m | m in messages :: IsFrameable(m)) && '\n' !in part
    ensures Lines(Framed(messages) + part) == messages && Tail(Framed(messages) + part) == part
  {
    if messages == [] {
      assert Framed(messages) + part == part;
    } else {
      var m, rest := messages[0], Framed(messages[1..]);
      assert m in messages && IsFrameable(m);
      Regroup(m, rest, part);
      LineThen(m, rest + part);
      LinesThenPart(messages[1..], part);
      assert messages == [m] + messages[1..];
    }
  }

  /** Whole messages, perhaps followed by one that is cut short. */
  ghost predicate ArePrefix(received: seq<string>, messages: seq<string>) {
    || received <= messages
    || (&& 0 < |received| <= |messages| && received[..|received| - 1] <= messages
        && received[|received| - 1] <= messages[|received| - 1])
  }

  lemma PartIsShort(m: string, part: string)
    requires part <= m + "\n" && part != m + "\n"
    ensures part <= m
  {
    assert part == (m + "\n")[..|part|];
    assert (m + "\n")[..|m|] == m;
  }

  lemma CutInside(whole: seq<string>, m: string, part: string, received: seq<string>)
    requires (forall w | w in whole :: IsFrameable(w)) && IsFrameable(m) && part <= m
    requires var sent := Framed(whole) + part;
      received == Lines(sent) || (received == Lines(sent) + [Tail(sent)] && Tail(sent) != "")
    ensures ArePrefix(received, whole + [m])
  {
    LinesThenPart(whole, part);
    assert received == whole || received == whole + [part];
  }

  lemma CutAfter(whole: seq<string>, received: seq<string>)
    requires forall w | w in whole :: IsFrameable(w)
    requires var sent := Framed(whole);
      received == Lines(sent) || (received == Lines(sent) + [Tail(sent)] && Tail(sent) != "")
    ensures received == whole
  {
    LinesThenPart(whole, "");
    assert Framed(whole) + "" == Framed(whole);
  }

  lemma PrefixOfMore(received: seq<string>, some: seq<string>, messages: seq<string>)
    requires ArePrefix(received, some) && some <= messages
    ensures ArePrefix(received, messages)
  {
  }

  lemma CutShortIsPrefix(sent: string, messages: seq<string>, received: seq<string>)
    requires (forall m | m in messages :: IsFrameable(m)) && IsCutShort(sent, messages)
    requires received == Lines(sent) || (received == Lines(sent) + [Tail(sent)] && Tail(sent) != "")
    ensures ArePrefix(received, messages)
  {
    var i: nat, part: string :| IsCutShortAt(sent, messages, i, part);
    var m, some := messages[i], messages[..i + 1];
    assert some == messages[..i] + [m] && IsFrameable(m);
    if part == m + "\n" {
      FramedSnoc(messages[..i], m);
      assert sent == Framed(messages[..i]) + m + "\n";
      CutAfter(some, received);
    } else {
      PartIsShort(m, part);
      CutInside(messages[..i], m, part, received);
      PrefixOfMore(received, some, messages);
    }
  }

  /** Messages written by one side and read by the other, under every schedule of short writes and every
      split into prefixes: unless the pipe breaks, they arrive as they were sent exactly when each can be
      framed; and if it breaks, a prefix of them arrives, the last perhaps cut short. */
  method Transfer(messages: seq<string>, size: nat) returns (received: seq<string>, ok: bool)
    requires size >= 16
    ensures ok ==> (received == messages <==> forall m | m in messages :: IsFrameable(m))
    ensures !ok && (forall m | m in messages :: IsFrameable(m)) ==> ArePrefix(received, messages)
  {
    var w := new Pipe();
    ok := WriteAll(messages, w);
    var rdr := new BufferedReader(size, w.sent);
    received := ReadAll(rdr);
    if ok {
      FramedEnds(messages);
      NoTail(Framed(messages));
      FramingRoundTripIff(messages);
    } else if forall m | m in messages :: IsFrameable(m) {
      CutShortIsPrefix(w.sent, messages, received);
    }
  }
}
