/** Physical lines of a raw message (internal/mimeparse/index.go): LF ends a line, CR only as part of CRLF. */
module MimeLines {
  datatype Range = Range(start: nat, end: nat)

  datatype Terminator = LF | CRLF | EOF {
    function Bytes(): (r: string)
      ensures |r| == Length()
    {
      match this
      case LF => "\n"
      case CRLF => "\r\n"
      case EOF => ""
    }

    function Length(): nat {
      match this
      case LF => 1
      case CRLF => 2
      case EOF => 0
    }
  }

  datatype Line = Line(raw: Range, terminator: Terminator) {
    // One past the terminator, where the next line starts.
    function Next(): nat {
      raw.end + terminator.Length()
    }
  }

  predicate LineOk(raw: string, line: Line) {
    var Range(start, end) := line.raw;
    && start <= end
    && start < line.Next() <= |raw|
    && (forall i :: start <= i < end ==> raw[i] != '\n')
    && match line.terminator
       case LF => raw[end] == '\n' && (start < end ==> raw[end - 1] != '\r')
       case CRLF => raw[end] == '\r' && raw[end + 1] == '\n'
       case EOF => end == |raw|
  }

  // Line i ends where line i + 1 starts.
  predicate Linked(lines: seq<Line>, i: nat)
    requires i + 1 < |lines|
  {
    lines[i].terminator != EOF && lines[i].Next() == lines[i + 1].raw.start
  }

  // Back to back from offset `from`; only the last line may lack a terminator.
  predicate Contiguous(raw: string, lines: seq<Line>, from: nat) {
    && (lines != [] ==> lines[0].raw.start == from)
    && (forall i {:trigger LineOk(raw, lines[i])} :: 0 <= i < |lines| ==> LineOk(raw, lines[i]))
    && (forall i {:trigger Linked(lines, i)} :: 0 <= i < |lines| - 1 ==> Linked(lines, i))
  }

  predicate Ascending(lines: seq<Line>) {
    forall i, j :: 0 <= i < j < |lines| ==> lines[i].raw.start < lines[j].raw.start
  }

  function EndOf(lines: seq<Line>): nat {
    if lines == [] then 0 else lines[|lines| - 1].Next()
  }

  function NextLF(raw: string, position: nat, end: nat): (r: nat)
    requires position <= end <= |raw|
    ensures position <= r <= end
    ensures forall i :: position <= i < r ==> raw[i] != '\n'
    ensures r < end ==> raw[r] == '\n'
    decreases end - position
  {
    if position == end || raw[position] == '\n' then position else NextLF(raw, position + 1, end)
  }

  function LineEndingAt(raw: string, start: nat, lf: nat): Line
    requires start <= lf < |raw|
  {
    if lf > start && raw[lf - 1] == '\r' then Line(Range(start, lf - 1), CRLF) else Line(Range(start, lf), LF)
  }

  // Every line of raw[position..end]; an unterminated rest is a line only when it is known to end the input.
  function AllLines(raw: string, position: nat, end: nat, eof: bool): (r: seq<Line>)
    requires position <= end <= |raw|
    decreases end - position
  {
    if position == end then []
    else
      var lf := NextLF(raw, position, end);
      if lf == end then if eof then [Line(Range(position, end), EOF)] else []
      else [LineEndingAt(raw, position, lf)] + AllLines(raw, lf + 1, end, eof)
  }

  lemma {:induction false} AllLinesContiguous(raw: string, position: nat, end: nat, eof: bool)
    requires position <= end <= |raw| && (eof ==> end == |raw|)
    ensures var lines := AllLines(raw, position, end, eof);
      Contiguous(raw, lines, position) && EndOf(lines) <= end
    decreases end - position
  {
    if position < end {
      var lf := NextLF(raw, position, end);
      if lf < end {
        AllLinesContiguous(raw, lf + 1, end, eof);
        var first, rest := LineEndingAt(raw, position, lf), AllLines(raw, lf + 1, end, eof);
        Prepend(raw, first, rest, position);
      }
    }
  }

  lemma {:induction false} Prepend(raw: string, first: Line, rest: seq<Line>, from: nat)
    requires LineOk(raw, first) && first.terminator != EOF && first.raw.start == from
    requires Contiguous(raw, rest, first.Next())
    ensures Contiguous(raw, [first] + rest, from)
  {
    var lines := [first] + rest;
    forall i | 0 <= i < |lines| ensures LineOk(raw, lines[i]) {
      assert i > 0 ==> lines[i] == rest[i - 1] && LineOk(raw, rest[i - 1]);
    }
    forall i | 0 <= i < |lines| - 1 ensures Linked(lines, i) {
      assert i > 0 ==> Linked(rest, i - 1);
    }
  }

  lemma {:induction false} Prefix(raw: string, lines: seq<Line>, k: nat)
    requires Contiguous(raw, lines, 0) && k <= |lines|
    ensures Contiguous(raw, lines[..k], 0)
  {
    forall i | 0 <= i < k ensures LineOk(raw, lines[..k][i]) { assert LineOk(raw, lines[i]); }
    forall i | 0 <= i < k - 1 ensures Linked(lines[..k], i) { assert Linked(lines, i); }
  }

  // With the end of input known nothing is left over: the lines cover every byte.
  lemma {:induction false} AllLinesCover(raw: string, position: nat)
    requires position < |raw|
    ensures var lines := AllLines(raw, position, |raw|, true); lines != [] && EndOf(lines) == |raw|
    decreases |raw| - position
  {
    var lf := NextLF(raw, position, |raw|);
    if lf + 1 < |raw| {
      AllLinesCover(raw, lf + 1);
    }
  }

  function Rebuild(raw: string, lines: seq<Line>): string
    requires forall i {:trigger LineOk(raw, lines[i])} :: 0 <= i < |lines| ==> LineOk(raw, lines[i])
  {
    if lines == [] then ""
    else
      var line := lines[|lines| - 1];
      assert LineOk(raw, line);
      var front := lines[..|lines| - 1];
      assert forall i {:trigger LineOk(raw, front[i])} :: 0 <= i < |front| ==> LineOk(raw, lines[i]);
      Rebuild(raw, front) + (raw[line.raw.start..line.raw.end] + line.terminator.Bytes())
  }

  // Contents plus terminators, in order, are exactly the indexed bytes.
  lemma {:induction false} LinesReproduceBytes(raw: string, lines: seq<Line>)
    requires Contiguous(raw, lines, 0)
    ensures EndOf(lines) <= |raw| && Rebuild(raw, lines) == raw[..EndOf(lines)]
  {
    if lines != [] {
      var front, line := lines[..|lines| - 1], lines[|lines| - 1];
      Prefix(raw, lines, |lines| - 1);
      LinesReproduceBytes(raw, front);
      assert LineOk(raw, line);
      assert front != [] ==> Linked(lines, |lines| - 2);
      LineBytes(raw, line);
      assert raw[..line.Next()] == raw[..line.raw.start] + raw[line.raw.start..line.Next()];
    }
  }

  lemma {:induction false} LineBytes(raw: string, line: Line)
    requires LineOk(raw, line)
    ensures raw[line.raw.start..line.raw.end] + line.terminator.Bytes() == raw[line.raw.start..line.Next()]
  {
  }

  // The scan is determined by the bytes: of two contiguous line lists one is a prefix of the other.
  lemma {:induction false} LinesUnique(raw: string, a: seq<Line>, b: seq<Line>, k: nat)
    requires Contiguous(raw, a, 0) && Contiguous(raw, b, 0) && k < |a| && k < |b|
    ensures a[k] == b[k]
  {
    assert LineOk(raw, a[k]) && LineOk(raw, b[k]);
    if k > 0 {
      LinesUnique(raw, a, b, k - 1);
      assert Linked(a, k - 1) && Linked(b, k - 1);
    }
    NoEarlierNext(raw, a[k], b[k]);
    NoEarlierNext(raw, b[k], a[k]);
  }

  lemma {:induction false} NoEarlierNext(raw: string, x: Line, y: Line)
    requires LineOk(raw, x) && LineOk(raw, y) && x.raw.start == y.raw.start
    ensures x.Next() >= y.Next()
  {
    assert x.terminator != EOF ==> raw[x.Next() - 1] == '\n';
  }

  lemma {:induction false} StartsAscend(raw: string, lines: seq<Line>, from: nat, i: nat, j: nat)
    requires Contiguous(raw, lines, from) && i < j < |lines|
    ensures lines[i].Next() <= lines[j].raw.start
    decreases j - i
  {
    assert Linked(lines, i);
    if i + 1 < j {
      assert LineOk(raw, lines[i + 1]);
      StartsAscend(raw, lines, from, i + 1, j);
    }
  }

  lemma {:induction false} ContiguousAscends(raw: string, lines: seq<Line>)
    requires Contiguous(raw, lines, 0)
    ensures Ascending(lines)
  {
    forall i, j | 0 <= i < j < |lines| ensures lines[i].raw.start < lines[j].raw.start {
      assert LineOk(raw, lines[i]);
      StartsAscend(raw, lines, 0, i, j);
    }
  }

  // The first line, from line i on, that starts at or after an offset: the plain scan.
  function FirstFrom(lines: seq<Line>, i: nat, offset: nat): (r: nat)
    requires i <= |lines|
    ensures i <= r <= |lines|
    ensures forall k :: i <= k < r ==> lines[k].raw.start < offset
    ensures r < |lines| ==> lines[r].raw.start >= offset
    decreases |lines| - i
  {
    if i == |lines| || lines[i].raw.start >= offset then i else FirstFrom(lines, i + 1, offset)
  }

  lemma {:induction false} FirstFromIs(lines: seq<Line>, i: nat, offset: nat, r: nat)
    requires i <= r <= |lines|
    requires forall k :: i <= k < r ==> lines[k].raw.start < offset
    requires r < |lines| ==> lines[r].raw.start >= offset
    ensures FirstFrom(lines, i, offset) == r
    decreases r - i
  {
    if i < r {
      FirstFromIs(lines, i + 1, offset, r);
    }
  }

  // lineAtOrAfter: the binary search refines the plain scan.
  method LineAtOrAfter(lines: seq<Line>, offset: nat) returns (low: nat)
    requires Ascending(lines)
    ensures low == FirstFrom(lines, 0, offset)
  {
    var high := |lines|;
    low := 0;
    while low < high
      invariant low <= high <= |lines|
      invariant forall k :: 0 <= k < low ==> lines[k].raw.start < offset
      invariant forall k :: high <= k < |lines| ==> lines[k].raw.start >= offset
    {
      var middle := low + (high - low) / 2;
      if lines[middle].raw.start < offset {
        low := middle + 1;
      } else {
        high := middle;
      }
    }
    FirstFromIs(lines, 0, offset, low);
  }

  // trimBoundaryPrefix: drops one CRLF, or one CR or LF, before a boundary line.
  function TrimBoundaryPrefix(raw: string, start: nat, end: nat): (r: nat)
    requires end <= |raw|
    ensures r <= end
  {
    if end >= start + 2 && raw[end - 2] == '\r' && raw[end - 1] == '\n' then end - 2
    else if end > start && (raw[end - 1] == '\r' || raw[end - 1] == '\n') then end - 1
    else end
  }

  // Between line starts it removes precisely the terminator of the line before the boundary.
  lemma {:induction false} TrimRemovesOneTerminator(raw: string, lines: seq<Line>, i: nat, j: nat)
    requires Contiguous(raw, lines, 0) && i < j < |lines|
    ensures LineOk(raw, lines[j])
    ensures TrimBoundaryPrefix(raw, lines[i].raw.start, lines[j].raw.start) == lines[j - 1].raw.end
  {
    var line := lines[j - 1];
    assert Linked(lines, j - 1) && LineOk(raw, line) && LineOk(raw, lines[i]);
    if i < j - 1 {
      StartsAscend(raw, lines, 0, i, j - 1);
      assert Linked(lines, j - 2) && LineOk(raw, lines[j - 2]);
    }
  }
}
