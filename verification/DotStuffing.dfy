/** POP3 multi-line responses (internal/pop3server/pop3server.go; sections 3 and 7 of RFC 1939). */
module DotStuffing {
  import opened Text

  predicate NoBreak(s: string) {
    forall i :: 0 <= i < |s| ==> !IsBreak(s[i])
  }

  // Length of the line break at i: CRLF counts as one.
  function BreakLength(data: string, i: nat): (n: nat)
    requires i < |data| && IsBreak(data[i])
    ensures 1 <= n && i + n <= |data|
  {
    if data[i] == '\r' && i + 1 < |data| && data[i + 1] == '\n' then 2 else 1
  }

  // The lines of some data, given what of the current line has been read: CR, LF and CRLF each end a line,
  // and so does the end of the data when the line is not empty.
  function LinesFrom(data: string, current: string): seq<string>
    decreases |data|
  {
    if data == "" then if current == "" then [] else [current]
    else if IsBreak(data[0]) then [current] + LinesFrom(data[BreakLength(data, 0)..], "")
    else LinesFrom(data[1..], current + [data[0]])
  }

  function Lines(data: string): seq<string> {
    LinesFrom(data, "")
  }

  function Stuffed(line: string): string {
    if line != "" && line[0] == '.' then "." + line else line
  }

  function WireLines(lines: seq<string>): string {
    if lines == [] then "" else WireLines(lines[..|lines| - 1]) + Stuffed(Last(lines)) + "\r\n"
  }

  // writeMultiline
  method WriteMultiline(data: string) returns (wire: string)
    ensures wire == WireLines(Lines(data)) + ".\r\n"
  {
    hide LinesFrom, WireLines;
    wire := "";
    assert WireLines([]) == "" by { LinesEnd([], ""); }
    var lineStart := true;
    var index := 0;
    ghost var done: seq<string>, current := [], "";
    assert data[0..] == data && [] + Lines(data) == Lines(data);
    while index < |data|
      invariant index <= |data|
      invariant lineStart <==> current == ""
      invariant wire == WireLines(done) + Stuffed(current)
      invariant Lines(data) == done + LinesFrom(data[index..], current)
    {
      var value := data[index];
      LinesStep(data, index, done, current);
      if lineStart && value == '.' {
        wire := wire + ".";
      }
      if IsBreak(value) {
        if value == '\r' && index + 1 < |data| && data[index + 1] == '\n' {
          index := index + 1;
        }
        wire := wire + "\r\n";
        done, current := done + [current], "";
        lineStart := true;
      } else {
        wire := wire + [value];
        current := current + [value];
        lineStart := false;
      }
      index := index + 1;
    }
    assert data[index..] == "";
    LinesEnd(done, current);
    if !lineStart {
      wire := wire + "\r\n";
    }
    wire := wire + ".\r\n";
  }

  lemma {:induction false} LinesStep(data: string, i: nat, done: seq<string>, current: string)
    requires i < |data|
    ensures var lines := done + LinesFrom(data[i..], current);
      if IsBreak(data[i]) then
        && lines == done + [current] + LinesFrom(data[i + BreakLength(data, i)..], "")
        && WireLines(done + [current]) == WireLines(done) + Stuffed(current) + "\r\n"
      else lines == done + LinesFrom(data[i + 1..], current + [data[i]])
  {
    var rest := data[i..];
    if IsBreak(data[i]) {
      assert BreakLength(rest, 0) == BreakLength(data, i);
      assert rest[BreakLength(rest, 0)..] == data[i + BreakLength(data, i)..];
      assert (done + [current])[..|done|] == done;
    } else {
      assert rest[1..] == data[i + 1..];
    }
  }

  lemma {:induction false} LinesEnd(done: seq<string>, current: string)
    ensures WireLines([]) == ""
    ensures WireLines(done + LinesFrom("", current)) == WireLines(done) + Stuffed(current) +
      if current == "" then "" else "\r\n"
  {
    if current == "" {
      assert done + [] == done;
    } else {
      assert (done + [current])[..|done|] == done;
    }
  }

  // Position of the first CRLF, or a negative number.
  function FindCRLF(wire: string, i: nat): (r: int)
    requires i <= |wire|
    ensures r < 0 || (i <= r <= |wire| - 2 && wire[r] == '\r' && wire[r + 1] == '\n')
    decreases |wire| - i
  {
    if i + 1 >= |wire| then -1
    else if wire[i] == '\r' && wire[i + 1] == '\n' then i
    else FindCRLF(wire, i + 1)
  }

  // A client: reads CRLF lines up to the lone dot, drops one leading dot of each, and leaves the rest unread.
  function Receive(wire: string): Option<(seq<string>, string)>
    decreases |wire|
  {
    var end := FindCRLF(wire, 0);
    if end < 0 then None
    else
      var line, rest := wire[..end], wire[end + 2..];
      if line == "." then Some(([], rest))
      else
        match Receive(rest)
        case None => None
        case Some((lines, unread)) => Some(([if line != "" && line[0] == '.' then line[1..] else line] + lines, unread))
  }

  lemma {:induction false} FirstCRLF(line: string, rest: string, i: nat)
    requires NoBreak(line) && i <= |line|
    ensures FindCRLF(line + "\r\n" + rest, i) == |line|
    decreases |line| - i
  {
    var wire := line + "\r\n" + rest;
    assert wire[|line|] == '\r' && wire[|line| + 1] == '\n';
    if i < |line| {
      assert wire[i] == line[i];
      FirstCRLF(line, rest, i + 1);
    }
  }

  // WireLines from the front.
  lemma {:induction false} WireCons(lines: seq<string>)
    requires lines != []
    ensures WireLines(lines) == Stuffed(lines[0]) + "\r\n" + WireLines(lines[1..])
  {
    if |lines| > 1 {
      var front, back := lines[..|lines| - 1], lines[1..];
      WireCons(front);
      assert front[1..] == back[..|back| - 1] && Last(back) == Last(lines) && front[0] == lines[0];
      assert WireLines(lines) == WireLines(front) + Stuffed(Last(lines)) + "\r\n";
      assert WireLines(back) == WireLines(front[1..]) + Stuffed(Last(lines)) + "\r\n";
      hide *;
      Regroup(Stuffed(lines[0]) + "\r\n", WireLines(front[1..]), Stuffed(Last(lines)));
      Regroup(Stuffed(lines[0]) + "\r\n", WireLines(front[1..]) + Stuffed(Last(lines)), "\r\n");
    } else {
      assert lines[..0] == [] && lines[1..] == [];
      assert WireLines(lines[..0]) == "" && "" + Stuffed(lines[0]) == Stuffed(lines[0]);
      assert Stuffed(lines[0]) + "\r\n" + "" == Stuffed(lines[0]) + "\r\n";
    }
  }

  lemma {:induction false} ReceiveStep(line: string, tail: string)
    requires NoBreak(line)
    ensures Receive(Stuffed(line) + "\r\n" + tail) ==
      match Receive(tail)
      case None => None
      case Some((lines, unread)) => Some(([line] + lines, unread))
  {
    var sent := Stuffed(line);
    var wire := sent + "\r\n" + tail;
    FirstCRLF(sent, tail, 0);
    assert wire[..|sent|] == sent && wire[|sent| + 2..] == tail;
    assert sent != "." && (if sent != "" && sent[0] == '.' then sent[1..] else sent) == line;
  }

  predicate AllNoBreak(lines: seq<string>) {
    forall line :: line in lines ==> NoBreak(line)
  }

  lemma {:induction false} StuffedIsNoDot(line: string)
    ensures Stuffed(line) != "."
  {
  }

  // Round trip: the client recovers the lines, stops right behind the terminator, and only there meets a lone dot.
  lemma {:induction false} ReceiveWire(lines: seq<string>, rest: string)
    requires AllNoBreak(lines)
    ensures Receive(WireLines(lines) + ".\r\n" + rest) == Some((lines, rest))
    ensures forall line :: line in lines ==> Stuffed(line) != "."
  {
    hide Receive, FindCRLF, Stuffed;
    if lines == [] {
      ReceiveEnd(rest);
      assert "" + ".\r\n" == ".\r\n";
    } else {
      var first, wire := lines[0], WireLines(lines[1..]);
      ReceiveWire(lines[1..], rest);
      WireCons(lines);
      ReceiveStep(first, wire + ".\r\n" + rest);
      StuffedIsNoDot(first);
      hide *;
      Regroup(Stuffed(first) + "\r\n", wire, ".\r\n");
      Regroup(Stuffed(first) + "\r\n", wire + ".\r\n", rest);
      assert lines == [first] + lines[1..];
    }
  }

  lemma {:induction false} ReceiveEnd(rest: string)
    ensures Receive(".\r\n" + rest) == Some(([], rest))
  {
    var wire := ".\r\n" + rest;
    FirstCRLF(".", rest, 0);
    assert wire == "." + "\r\n" + rest;
    assert wire[..1] == "." && wire[3..] == rest;
  }

  lemma {:induction false} LinesNoBreak(data: string, current: string)
    requires NoBreak(current)
    ensures AllNoBreak(LinesFrom(data, current))
    decreases |data|
  {
    if data != "" {
      if IsBreak(data[0]) {
        LinesNoBreak(data[BreakLength(data, 0)..], "");
      } else {
        LinesNoBreak(data[1..], current + [data[0]]);
      }
    }
  }

  // Every CR, LF or CRLF as CRLF, and a final CRLF if missing.
  function Canonical(data: string, midLine: bool): string
    decreases |data|
  {
    if data == "" then if midLine then "\r\n" else ""
    else if IsBreak(data[0]) then "\r\n" + Canonical(data[BreakLength(data, 0)..], false)
    else [data[0]] + Canonical(data[1..], true)
  }

  function JoinLines(lines: seq<string>): string {
    if lines == [] then "" else lines[0] + "\r\n" + JoinLines(lines[1..])
  }

  lemma {:induction false} LinesAreCanonical(data: string, current: string)
    ensures JoinLines(LinesFrom(data, current)) == current + Canonical(data, current != "")
    decreases |data|
  {
    if data == "" {
      assert current != "" ==> [current][1..] == [];
    } else if IsBreak(data[0]) {
      var after := data[BreakLength(data, 0)..];
      var rest := LinesFrom(after, "");
      LinesAreCanonical(after, "");
      assert LinesFrom(data, current) == [current] + rest
        && Canonical(data, current != "") == "\r\n" + Canonical(after, false);
      hide LinesFrom, Canonical, BreakLength;
      assert ([current] + rest)[1..] == rest;
      Regroup(current, "\r\n", Canonical(after, false));
    } else {
      LinesAreCanonical(data[1..], current + [data[0]]);
      hide LinesFrom, JoinLines;
      Regroup(current, [data[0]], Canonical(data[1..], true));
    }
  }

  // What a RETR client gets back from a response, whatever follows it on the connection.
  lemma {:induction false} RetrieveRoundTrip(data: string, rest: string)
    ensures var received := Receive(WireLines(Lines(data)) + ".\r\n" + rest);
      received.Some? && received.value.1 == rest && JoinLines(received.value.0) == Canonical(data, false)
  {
    LinesNoBreak(data, "");
    ReceiveWire(Lines(data), rest);
    LinesAreCanonical(data, "");
  }

  // headerBoundary: offset and length of the empty line that ends the header.
  function HeaderBoundary(raw: string): (r: (int, nat))
    ensures r.0 < 0 || (r.1 >= 2 && r.0 + r.1 <= |raw| && raw[r.0 + r.1 - 1] == '\n')
  {
    var crlf, lf := IndexOf(raw, "\r\n\r\n", 0), IndexOf(raw, "\n\n", 0);
    assert crlf >= 0 ==> raw[crlf..crlf + 4][3] == raw[crlf + 3];
    assert lf >= 0 ==> raw[lf..lf + 2][1] == raw[lf + 1];
    if crlf >= 0 && (lf < 0 || crlf < lf) then (crlf, 4)
    else if lf >= 0 then (lf, 2)
    else (-1, 0)
  }

  // One past the line at i, with its line break.
  function LineEnd(data: string, i: nat): (r: nat)
    requires i < |data|
    ensures i < r <= |data|
    decreases |data| - i
  {
    if IsBreak(data[i]) then i + BreakLength(data, i)
    else if i + 1 == |data| then |data|
    else LineEnd(data, i + 1)
  }

  // One past the n lines from i on.
  function After(data: string, i: nat, n: nat): (r: nat)
    requires i <= |data|
    ensures i <= r <= |data|
    decreases n
  {
    if n == 0 || i == |data| then i else After(data, LineEnd(data, i), n - 1)
  }

  function TopLength(raw: string, n: nat): (r: nat)
    ensures r <= |raw|
  {
    var (end, separator) := HeaderBoundary(raw);
    if end < 0 then |raw| else After(raw, end + separator, n)
  }

  // topBytes: header, empty line, and the first lines of the body.
  method TopBytes(raw: string, bodyLines: nat) returns (result: string)
    ensures result == raw[..TopLength(raw, bodyLines)]
  {
    var (headerEnd, separatorLength) := HeaderBoundary(raw);
    if headerEnd < 0 {
      return raw;
    }
    var position, line := headerEnd + separatorLength, 0;
    result := raw[..position];
    ghost var start := position;
    while line < bodyLines && position < |raw|
      invariant line <= bodyLines && start <= position <= |raw|
      invariant result == raw[..position]
      invariant After(raw, start, bodyLines) == After(raw, position, bodyLines - line)
    {
      var end := ScanLine(raw, position);
      result := result + raw[position..end];
      position, line := end, line + 1;
    }
  }

  // The byte loop of topBytes.
  method ScanLine(data: string, position: nat) returns (end: nat)
    requires position < |data|
    ensures end == LineEnd(data, position)
  {
    end := position;
    while end < |data|
      invariant position <= end <= |data|
      invariant LineEnd(data, position) == if end < |data| then LineEnd(data, end) else |data|
    {
      if data[end] == '\r' {
        end := end + 1;
        if end < |data| && data[end] == '\n' {
          end := end + 1;
        }
        return;
      } else if data[end] == '\n' {
        return end + 1;
      }
      end := end + 1;
    }
  }

  // Between lines: behind a break, and not inside a CRLF.
  predicate LineBoundary(p: string, q: string) {
    p == "" || Last(p) == '\n' || (Last(p) == '\r' && (q == "" || q[0] != '\n'))
  }

  lemma {:induction false} LinesSplit(p: string, q: string, current: string)
    requires p != "" && LineBoundary(p, q)
    ensures LinesFrom(p + q, current) == LinesFrom(p, current) + LinesFrom(q, "")
    decreases |p|
  {
    if IsBreak(p[0]) {
      var n := BreakLength(p, 0);
      assert BreakLength(p + q, 0) == n;
      assert (p + q)[n..] == p[n..] + q;
      if p[n..] == "" {
        assert p[n..] + q == q;
      } else {
        LinesSplit(p[n..], q, "");
      }
    } else {
      assert |p| > 1;
      assert (p + q)[1..] == p[1..] + q;
      LinesSplit(p[1..], q, current + [p[0]]);
    }
  }

  lemma {:induction false} OneLine(data: string, i: nat, current: string)
    requires i < |data|
    ensures var end := LineEnd(data, i);
      && (end < |data| ==> LineBoundary(data[i..end], data[end..]))
      && |LinesFrom(data[i..end], current)| == 1
    decreases |data| - i
  {
    var end := LineEnd(data, i);
    var text := data[i..end];
    if IsBreak(data[i]) {
      assert BreakLength(text, 0) == BreakLength(data, i) && text[BreakLength(text, 0)..] == "";
    } else {
      assert text[1..] == data[i + 1..end];
      if i + 1 < |data| {
        OneLine(data, i + 1, current + [data[i]]);
        assert end < |data| ==> Last(text) == Last(data[i + 1..end]);
      }
    }
  }

  lemma {:induction false} SplitAt(data: string, i: nat, j: nat)
    requires i <= j <= |data| && (i < j < |data| ==> LineBoundary(data[i..j], data[j..]))
    ensures Lines(data[i..]) == Lines(data[i..j]) + Lines(data[j..])
  {
    assert data[i..] == data[i..j] + data[j..];
    if i == j || j == |data| {
      assert data[i..j] == "" || data[j..] == "";
      assert i < j ==> data[i..] == data[i..j];
    } else {
      LinesSplit(data[i..j], data[j..], "");
    }
  }

  // Cutting after some lines: a line boundary, behind exactly that many lines or behind all of them.
  lemma {:induction false} AfterLines(data: string, i: nat, n: nat)
    requires i <= |data|
    ensures var r := After(data, i, n);
      && (i < r < |data| ==> LineBoundary(data[i..r], data[r..]))
      && |Lines(data[i..r])| == (if n <= |Lines(data[i..])| then n else |Lines(data[i..])|)
    decreases n
  {
    hide LineEnd, BreakLength;
    var r := After(data, i, n);
    if n == 0 || i == |data| {
      assert data[i..r] == "" && Lines("") == [];
      assert i == |data| ==> data[i..] == "";
    } else {
      var end := LineEnd(data, i);
      OneLine(data, i, "");
      AfterLines(data, end, n - 1);
      hide LinesFrom;
      SplitAt(data, i, end);
      var text := data[..r];
      assert text[i..end] == data[i..end] && text[end..] == data[end..r] && text[i..] == data[i..r];
      assert end < r ==> text[end..][0] == data[end..][0];
      SplitAt(text, i, end);
      assert end < r < |data| ==> Last(data[i..r]) == Last(data[end..r]);
    }
  }

  // TOP's payload is a line-prefix of RETR's: the header block and min(n, all) lines of the body.
  lemma {:induction false} TopIsPrefix(raw: string, n: nat)
    ensures Lines(raw[..TopLength(raw, n)]) <= Lines(raw)
    ensures var (end, separator) := HeaderBoundary(raw);
      end >= 0 ==>
        var header, body := Lines(raw[..end + separator]), Lines(raw[end + separator..]);
        && Lines(raw) == header + body
        && Lines(raw[..TopLength(raw, n)]) == header + body[..if n <= |body| then n else |body|]
  {
    hide LinesFrom, HeaderBoundary, IndexOf, After;
    var (end, separator) := HeaderBoundary(raw);
    if end < 0 {
      assert raw[..|raw|] == raw;
    } else {
      var at, r := end + separator, TopLength(raw, n);
      var top := raw[..r];
      AfterLines(raw, at, n);
      SplitAt(raw, at, r);
      assert raw[0..] == raw && top[0..] == top && raw[0..at] == raw[..at] == top[0..at] && top[at..] == raw[at..r];
      assert Last(raw[0..at]) == '\n';
      SplitAt(raw, 0, at);
      SplitAt(top, 0, at);
      assert Lines(raw[at..])[..|Lines(raw[at..r])|] == Lines(raw[at..r]);
    }
  }
}
