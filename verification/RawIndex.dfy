/** The raw MIME indexer: limited, in-place parsing of a message and of its decoded messages
    (internal/mimeparse/index.go). */
module RawIndex {
  import opened Text
  import opened MimeLines
  import opened MimeTree
  import opened MimeLimits
  import opened MimeSound

  // `found` are the lines before `position`.
  predicate Scanned(raw: string, end: nat, eof: bool, found: seq<Line>, position: nat) {
    && EndOf(found) == position <= end <= |raw|
    && AllLines(raw, 0, end, eof) == found + AllLines(raw, position, end, eof)
  }

  lemma {:induction false} ScannedLine(raw: string, end: nat, eof: bool, found: seq<Line>, start: nat, lf: nat)
    requires Scanned(raw, end, eof, found, start) && start < end && lf == NextLF(raw, start, end)
    ensures lf < end ==> Scanned(raw, end, eof, found + [LineEndingAt(raw, start, lf)], lf + 1)
    ensures lf == end && eof ==> Scanned(raw, end, eof, found + [Line(Range(start, end), EOF)], end)
    ensures lf == end && !eof ==> AllLines(raw, 0, end, eof) == found
  {
  }

  // The scan up to a line limit: the first lines, and whether bytes are left over.
  function FirstLines(raw: string, end: nat, eof: bool, limit: int): seq<Line>
    requires end <= |raw|
  {
    var all := AllLines(raw, 0, end, eof);
    if Over(limit, |all|) then all[..limit] else all
  }

  predicate LinesCut(limits: Limits, lines: seq<Line>, end: nat) {
    limits.physicalLines > 0 && |lines| == limits.physicalLines && EndOf(lines) < end
  }

  lemma {:induction false} ScannedFirst(raw: string, end: nat, eof: bool, found: seq<Line>, position: nat, limit: int)
    requires Scanned(raw, end, eof, found, position)
    requires position == end || (limit > 0 && |found| == limit)
    requires limit > 0 ==> |found| <= limit
    ensures found == FirstLines(raw, end, eof, limit)
  {
  }

  // Before the first part.
  lemma {:induction false} NothingYet(limits: Limits, rank: int, c: Counters, path: seq<nat>)
    ensures AllFit(limits, rank, c, PreorderAll([]), c) && Numbered(path, [], 1) && Seen(None) == {}
  {
  }

  // One line of a header, and the end of the header.
  lemma {:induction false} FieldsStep(scan: Scan, i: nat, headerEnd: nat, found: seq<Field>)
    requires i < |scan.lines| && scan.lines[i].raw.start < headerEnd
    ensures scan.FieldsFrom(i, headerEnd, found) == scan.FieldsFrom(i + 1, headerEnd, scan.FieldsWith(i, found))
  {
    hide Scan.FieldsWith;
  }

  lemma {:induction false} FieldsEnd(scan: Scan, i: nat, headerEnd: nat, found: seq<Field>)
    requires i <= |scan.lines| && (i < |scan.lines| ==> scan.lines[i].raw.start >= headerEnd)
    ensures scan.FieldsFrom(i, headerEnd, found) == found
  {
  }

  lemma {:induction false} DelimitersEnd(scan: Scan, i: nat, end: nat, boundary: string)
    requires i <= |scan.lines| && (i < |scan.lines| ==> scan.lines[i].raw.start >= end)
    ensures scan.DelimitersFrom(i, end, boundary) == []
  {
  }

  lemma {:induction false} DelimiterStep(scan: Scan, found: seq<Delimiter>, i: nat, end: nat, boundary: string)
    requires i < |scan.lines| && scan.lines[i].raw.start < end
    ensures var d := scan.BoundaryLine(i, boundary);
      found + scan.DelimitersFrom(i, end, boundary) ==
        (if d.Some? then found + [d.value] else found) + scan.DelimitersFrom(i + 1, end, boundary)
  {
  }

  function Seen(hit: Option<Cause>): set<Cause> {
    if hit.Some? then {hit.value} else {}
  }

  lemma {:induction false} EmptyContiguous(raw: string)
    ensures Contiguous(raw, [], 0)
  {
  }

  lemma {:induction false} FirstLinesContiguous(raw: string, end: nat, eof: bool, limit: int)
    requires end <= |raw| && (eof ==> end == |raw|)
    ensures var lines := FirstLines(raw, end, eof, limit);
      && Contiguous(raw, lines, 0) && !Over(limit, |lines|) && EndOf(lines) <= end
      && (eof && EndOf(lines) != |raw| ==> LinesCut(Limits(0, 0, 0, 0, 0, limit), lines, end))
  {
    AllLinesContiguous(raw, 0, end, eof);
    var all := AllLines(raw, 0, end, eof);
    if Over(limit, |all|) {
      Prefix(raw, all, limit);
      FullLineEndIs(Scan(raw, all, false, MediaParser(_ => MediaType(true, "", map[]), s => s)), limit - 1);
    } else if eof && |raw| > 0 {
      AllLinesCover(raw, 0);
    }
  }

  // What indexing a scanned message yields: nothing without lines, else the cut of the unlimited tree.
  ghost predicate Indexed(scan: Scan, limits: Limits, path: seq<nat>, depth: nat, before: Counters,
    root: Option<Node>, after: Counters, hit: Option<Cause>)
    requires scan.Valid()
  {
    if scan.IndexedEnd() == 0 then root == None && after == before && hit == None
    else
      && Outcome(limits, depth - |path|, Full(scan, 0, scan.IndexedEnd(), path, false), before,
           (root, root.Some? && root.value.complete), after, hit)
      && (root.Some? ==> root.value.head.path == path && NumberedNode(root.value))
  }

  // The line limit plays no part in refusing entities, and a cut keeps within the budget.
  lemma {:induction false} SameRefusals(limits: Limits, other: Limits, rank: int, full: (Option<Node>, bool),
                                        before: Counters, got: (Option<Node>, bool), after: Counters,
                                        hit: Option<Cause>)
    requires other == limits.(physicalLines := other.physicalLines)
    requires Outcome(limits, rank, full, before, got, after, hit) && Within(limits, before)
    ensures Outcome(other, rank, full, before, got, after, hit)
    ensures Within(other, after) && after == ChargeAll(before, PreorderOf(got.0))
  {
    SameRoom(limits, other, rank, before, PreorderOf(full.0));
    CutStaysWithin(limits, rank, before, PreorderOf(full.0));
  }

  lemma {:induction false} SameRoom(limits: Limits, other: Limits, rank: int, c: Counters, hs: seq<Head>)
    requires other == limits.(physicalLines := other.physicalLines)
    ensures Room(limits, rank, c, hs) == Room(other, rank, c, hs)
    decreases |hs|
  {
    if hs != [] {
      SameRoom(limits, other, rank, Charge(c, hs[0]), hs[1..]);
    }
  }

  // The causes of truncation, shared by an index and the decoded indexes below it.
  class Causes {
    var seen: set<Cause>

    constructor ()
      ensures seen == {}
    {
      seen := {};
    }
  }

  class Index {
    const raw: string
    const parser: MediaParser
    const causes: Causes
    const budget: Index
    var limits: Limits
    var lines: seq<Line>
    var complete: bool
    var headerFields: nat
    var headerBytes: int
    var parts: nat
    var decodedLines: nat
    var root: Option<Node>

    constructor (raw: string, parser: MediaParser, limits: Limits)
      ensures this.raw == raw && this.parser == parser && this.limits == limits && budget == this
      ensures fresh(causes) && causes.seen == {}
      ensures lines == [] && !complete && Spent() == Counters(0, 0, 0) && decodedLines == 0 && root == None
    {
      this.raw, this.parser, this.limits, this.budget := raw, parser, limits, this;
      lines, complete, headerFields, headerBytes, parts, decodedLines, root := [], false, 0, 0, 0, 0, None;
      this.causes := new Causes();
    }

    constructor Decoded(raw: string, budget: Index)
      ensures this.raw == raw && parser == budget.parser && limits == budget.limits && this.budget == budget
      ensures causes == budget.causes
      ensures lines == [] && !complete && Spent() == budget.Spent() && decodedLines == 0 && root == None
    {
      this.raw, this.budget := raw, budget;
      parser, causes, limits := budget.parser, budget.causes, budget.limits;
      headerFields, headerBytes, parts := budget.headerFields, budget.headerBytes, budget.parts;
      lines, complete, decodedLines, root := [], false, 0, None;
    }

    function View(): Scan
      reads this
    {
      Scan(raw, lines, complete, parser)
    }

    ghost function Spent(): Counters
      reads this
    {
      Counters(parts, headerBytes, headerFields)
    }

    // The inner loop of scanLines.
    method LineFeed(start: nat, end: nat) returns (position: nat)
      requires start <= end <= |raw|
      ensures position == NextLF(raw, start, end)
    {
      position := start;
      while position < end && raw[position] != '\n'
        invariant start <= position <= end
        invariant NextLF(raw, start, end) == NextLF(raw, position, end)
      {
        position := position + 1;
      }
    }

    method ScanLines(end: nat, eof: bool)
      requires end <= |raw| && (eof ==> end == |raw|) && lines == []
      modifies this`lines, causes
      ensures lines == FirstLines(raw, end, eof, limits.physicalLines)
      ensures causes.seen == old(causes.seen) + (if LinesCut(limits, lines, end) then {PhysicalLines} else {})
    {
      var position := 0;
      assert Scanned(raw, end, eof, [], 0);
      hide AllLines, NextLF, EndOf;
      while position < end
        invariant Scanned(raw, end, eof, lines, position)
        invariant limits.physicalLines > 0 ==> |lines| <= limits.physicalLines
        invariant causes.seen == old(causes.seen)
        decreases end - position
      {
        if limits.physicalLines > 0 && |lines| >= limits.physicalLines {
          causes.seen := causes.seen + {PhysicalLines};
          ScannedFirst(raw, end, eof, lines, position, limits.physicalLines);
          return;
        }
        var start := position;
        var lineEnd := LineFeed(start, end);
        ScannedLine(raw, end, eof, lines, start, lineEnd);
        position := lineEnd;
        var terminator := EOF;
        if position < end {
          position := position + 1;
          terminator := LF;
          if lineEnd > start && raw[lineEnd - 1] == '\r' {
            lineEnd := lineEnd - 1;
            terminator := CRLF;
          }
        } else if !eof {
          return;
        }
        lines := lines + [Line(Range(start, lineEnd), terminator)];
      }
      ScannedFirst(raw, end, eof, lines, position, limits.physicalLines);
    }

    lemma {:induction false} ViewAscends()
      requires View().Valid()
      ensures View().lines == lines && Ascending(lines)
    {
      ContiguousAscends(raw, lines);
    }

    // One round of the loop below.
    method HeaderLine(lineNumber: nat, found: seq<Field>) returns (fields: seq<Field>)
      requires lineNumber < |lines|
      ensures fields == View().FieldsWith(lineNumber, found)
    {
      fields := found;
      var content := View().Content(lineNumber);
      if content != "" && (content[0] == ' ' || content[0] == '\t') {
        if fields != [] {
          fields := ExtendLast(fields, View().FullLineEnd(lineNumber), lineNumber);
        }
      } else {
        var colon := IndexByte(content, ':', 0);
        if colon >= 0 {
          fields := fields + [View().NewField(lineNumber, content, colon)];
        }
      }
    }

    method HeaderFieldsIn(start: nat, headerEnd: nat) returns (fields: seq<Field>)
      requires View().Valid()
      ensures fields == View().FieldsFrom(FirstFrom(lines, 0, start), headerEnd, [])
    {
      hide *;
      ViewAscends();
      fields := [];
      ghost var scan, all := View(), View().FieldsFrom(FirstFrom(lines, 0, start), headerEnd, []);
      var lineNumber := LineAtOrAfter(lines, start);
      while lineNumber < |lines| && lines[lineNumber].raw.start < headerEnd
        invariant lineNumber <= |lines|
        invariant all == scan.FieldsFrom(lineNumber, headerEnd, fields)
      {
        FieldsStep(scan, lineNumber, headerEnd, fields);
        fields := HeaderLine(lineNumber, fields);
        lineNumber := lineNumber + 1;
      }
      FieldsEnd(scan, lineNumber, headerEnd, fields);
    }

    method BoundaryLines(start: nat, end: nat, boundary: string) returns (result: seq<Delimiter>)
      requires View().Valid()
      ensures result == View().DelimitersFrom(FirstFrom(lines, 0, start), end, boundary)
    {
      hide *;
      ViewAscends();
      result := [];
      ghost var scan := View();
      var lineNumber := LineAtOrAfter(lines, start);
      ghost var all := scan.DelimitersFrom(lineNumber, end, boundary);
      assert all == [] + all;
      while lineNumber < |lines| && lines[lineNumber].raw.start < end
        invariant lineNumber <= |lines|
        invariant all == result + scan.DelimitersFrom(lineNumber, end, boundary)
      {
        var delimiter := View().BoundaryLine(lineNumber, boundary);
        DelimiterStep(scan, result, lineNumber, end, boundary);
        if delimiter.Some? {
          result := result + [delimiter.value];
        }
        lineNumber := lineNumber + 1;
      }
      DelimitersEnd(scan, lineNumber, end, boundary);
      assert result + [] == result;
    }

    // The loop that decodes each parameter of a content type.
    method DecodeParams(params: map<string, string>) returns (decoded: map<string, string>)
      ensures decoded == parser.DecodedParams(params)
    {
      decoded := params;
      var names := params.Keys;
      while names != {}
        invariant names <= params.Keys && decoded.Keys == params.Keys
        invariant forall name ::
                    name in params ==>
                    decoded[name] == if name in names then params[name] else parser.decode(params[name])
        decreases names
      {
        var name :| name in names;
        decoded := decoded[name := parser.decode(params[name])];
        names := names - {name};
      }
    }

    // One pass for three names; the first field of each counts.
    method EntityHeaderValues(fields: seq<Field>)
      returns (kind: Option<string>, disposition: Option<string>, encoding: Option<string>)
      ensures kind == View().HeaderValue(fields, "content-type")
      ensures disposition == View().HeaderValue(fields, "content-disposition")
      ensures encoding == View().HeaderValue(fields, "content-transfer-encoding")
    {
      kind, disposition, encoding := None, None, None;
      var i := 0;
      while i < |fields| && (kind.None? || disposition.None? || encoding.None?)
        invariant i <= |fields|
        invariant View().HeaderValue(fields, "content-type") ==
          (if kind.Some? then kind else View().HeaderValue(fields[i..], "content-type"))
        invariant View().HeaderValue(fields, "content-disposition") ==
          (if disposition.Some? then disposition else View().HeaderValue(fields[i..], "content-disposition"))
        invariant View().HeaderValue(fields, "content-transfer-encoding") ==
          (if encoding.Some? then encoding else View().HeaderValue(fields[i..], "content-transfer-encoding"))
      {
        var name := Lower(Trim(fields[i].name));
        assert fields[i..][0] == fields[i] && fields[i..][1..] == fields[i + 1..];
        if kind.None? && name == "content-type" {
          kind := Some(View().UnfoldedValue(fields[i]));
        } else if disposition.None? && name == "content-disposition" {
          disposition := Some(View().UnfoldedValue(fields[i]));
        } else if encoding.None? && name == "content-transfer-encoding" {
          encoding := Some(View().UnfoldedValue(fields[i]));
        }
        i := i + 1;
      }
    }

    // The media types of an entity.
    method EntityMedia(fields: seq<Field>, digestChild: bool) returns (media: Media)
      ensures media == View().MediaOf(fields, digestChild)
    {
      var kind, disposition, encoding := EntityHeaderValues(fields);
      var mediaType, params, malformedType := (if digestChild then "message/rfc822" else "text/plain"), map[], false;
      if kind.Some? {
        var parsed := parser.parse(kind.value);
        if parsed.malformed {
          malformedType := true;
        } else {
          mediaType := Lower(parsed.value);
          params := DecodeParams(parsed.params);
        }
      }
      var dispositionValue, dispositionParams, malformedDisposition := "", map[], false;
      if disposition.Some? {
        var parsed := parser.parse(disposition.value);
        dispositionValue := Lower(parsed.value);
        if parsed.malformed {
          malformedDisposition := true;
        } else {
          dispositionParams := parsed.params;
        }
      }
      var transferEncoding := if encoding.Some? then Lower(Trim(encoding.value)) else "";
      media := Media(mediaType, params, malformedType, dispositionValue, dispositionParams, malformedDisposition,
        transferEncoding);
    }

    // The checks made before anything is read.
    method EntryRefusal(depth: nat) returns (refusal: Option<Cause>)
      modifies causes
      ensures refusal ==
        if Over(limits.depth, depth) then Some(Depth) else if Over(limits.parts, parts + 1) then Some(Parts) else None
      ensures causes.seen == old(causes.seen) + Seen(refusal)
    {
      refusal := None;
      if limits.depth > 0 && depth > limits.depth {
        causes.seen := causes.seen + {Depth};
        return Some(Depth);
      }
      if limits.parts > 0 && parts >= limits.parts {
        causes.seen := causes.seen + {Parts};
        return Some(Parts);
      }
    }

    // The checks on a header block, made before its cost is charged.
    method HeaderRefusal(blockBytes: int, fieldCount: nat) returns (refusal: Option<Cause>)
      modifies causes
      ensures refusal ==
        if Over(limits.headerBytes, headerBytes + blockBytes) then Some(HeaderBytes)
        else if Over(limits.headerFields, headerFields + fieldCount) then Some(HeaderFields) else None
      ensures causes.seen == old(causes.seen) + Seen(refusal)
    {
      refusal := None;
      if limits.headerBytes > 0 && headerBytes + blockBytes > limits.headerBytes {
        causes.seen := causes.seen + {HeaderBytes};
        return Some(HeaderBytes);
      }
      if limits.headerFields > 0 && headerFields + fieldCount > limits.headerFields {
        causes.seen := causes.seen + {HeaderFields};
        return Some(HeaderFields);
      }
    }

    // parseEntity: what the unlimited parse gives, cut at the first limit that is hit, which is recorded.
    method ParseEntity(start: nat, end: nat, path: seq<nat>, depth: nat, digestChild: bool)
      returns (node: Option<Node>, nodeComplete: bool, ghost hit: Option<Cause>)
      requires View().Valid()
      modifies this`headerFields, this`headerBytes, this`parts, causes
      ensures Outcome(limits, depth - |path|, old(Full(View(), start, end, path, digestChild)), old(Spent()),
        (node, nodeComplete), Spent(), hit)
      ensures nodeComplete == (node.Some? && node.value.complete)
      ensures node.Some? ==> node.value.head.path == path && NumberedNode(node.value)
      ensures causes.seen == old(causes.seen) + Seen(hit)
      decreases end - start, 1, 0
    {
      hide Full, FullKids, FullParts, PartAt, Outcome, Outcomes, Contiguous, Scan.HeadOf, Scan.FieldsFrom, Scan.MediaOf,
        Scan.HeaderBlock, Scan.DelimitersOf, Scan.EndsIndexed, FirstFrom, HasBoundary;
      ghost var scan, rank, before := View(), depth - |path|, Spent();
      FullIs(scan, start, end, path, digestChild);
      ghost var full := Full(scan, start, end, path, digestChild);
      var refusal := EntryRefusal(depth);
      if refusal.Some? {
        OutcomeRefused(limits, rank, full, before, refusal.value);
        return None, false, refusal;
      }
      var headerEnd, bodyStart := FindHeader(start, end);
      if headerEnd < 0 || bodyStart > end {
        OutcomeNothing(limits, rank, before);
        return None, false, None;
      }
      HeaderBlockRange(scan, start, end);
      ghost var head := scan.HeadOf(start, end, (headerEnd, bodyStart), path, digestChild);
      var blockBytes := bodyStart - start;
      var fields := HeaderFieldsIn(start, headerEnd);
      refusal := HeaderRefusal(blockBytes, |fields|);
      if refusal.Some? {
        OutcomeRefused(limits, rank, full, before, refusal.value);
        return None, false, refusal;
      }
      headerBytes := headerBytes + blockBytes;
      headerFields := headerFields + |fields|;
      parts := parts + 1;
      assert Refusal(limits, before, head, depth).None? && Spent() == Charge(before, head) && View() == scan;
      var h, ds := ReadHead(start, end, headerEnd, bodyStart, fields, path, digestChild);
      ghost var charged, kids := Spent(), FullKids(scan, start, h, digestChild);
      nodeComplete := View().EndsIndexed(end);
      assert full == (Some(Node(h, kids.0, nodeComplete && kids.1)), nodeComplete && kids.1);
      hide *;
      var children, childrenComplete;
      children, childrenComplete, hit := ParseChildren(start, h, ds, depth, digestChild);
      OutcomeNode(limits, rank, h, nodeComplete, kids, before, (children, childrenComplete), Spent(), hit);
      nodeComplete := nodeComplete && childrenComplete;
      node := Some(Node(h, children, nodeComplete));
    }

    // The node's own data, and the delimiter lines of its body.
    method ReadHead(start: nat, end: nat, headerEnd: nat, bodyStart: nat, fields: seq<Field>, path: seq<nat>,
                    digestChild: bool)
      returns (h: Head, ds: seq<Delimiter>)
      requires View().Valid() && fields == View().FieldsFrom(FirstFrom(lines, 0, start), headerEnd, [])
      ensures h == View().HeadOf(start, end, (headerEnd, bodyStart), path, digestChild)
      ensures ds == View().DelimitersOf(h.media, bodyStart, end)
    {
      hide Scan.HeadOf, Scan.FieldsFrom, Scan.MediaOf, Scan.DelimitersFrom, Contiguous;
      var media := EntityMedia(fields, digestChild);
      ds := [];
      if HasBoundary(media) {
        ds := BoundaryLines(bodyStart, end, media.params["boundary"]);
      }
      var ranges, closed := DelimiterRanges(ds);
      h := Head(path, fields, Range(start, headerEnd), Range(bodyStart, end), media, ranges, closed);
      HeadIs(View(), start, end, (headerEnd, bodyStart), path, digestChild, ds, ranges, closed);
    }

    // The blank line of the header block, or a negative offset.
    method FindHeader(start: nat, end: nat) returns (headerEnd: int, bodyStart: int)
      requires View().Valid()
      ensures var block := View().HeaderBlock(start, end);
        if headerEnd < 0 || bodyStart > end then block.None?
        else bodyStart >= 0 && block == Some((headerEnd, bodyStart))
    {
      headerEnd, bodyStart := -1, -1;
      ContiguousAscends(raw, lines);
      var lineNumber := LineAtOrAfter(lines, start);
      while lineNumber < |lines| && lines[lineNumber].raw.start < end
        invariant lineNumber <= |lines|
        invariant View().BlankLine(FirstFrom(lines, 0, start), end) == View().BlankLine(lineNumber, end)
      {
        if lines[lineNumber].raw.end == lines[lineNumber].raw.start {
          return lines[lineNumber].raw.start, View().FullLineEnd(lineNumber);
        }
        lineNumber := lineNumber + 1;
      }
    }

    method DelimiterRanges(ds: seq<Delimiter>) returns (ranges: seq<Range>, closed: bool)
      requires forall i :: 0 <= i < |ds| ==> ds[i].line < |lines|
      ensures |ranges| == |ds| && forall i :: 0 <= i < |ds| ==> ranges[i] == View().DelimiterRange(ds[i])
      ensures closed <==> exists d :: d in ds && d.closing
    {
      ranges, closed := [], false;
      for i := 0 to |ds|
        invariant |ranges| == i && forall j :: 0 <= j < i ==> ranges[j] == View().DelimiterRange(ds[j])
        invariant closed <==> exists j :: 0 <= j < i && ds[j].closing
      {
        ranges := ranges + [View().DelimiterRange(ds[i])];
        if ds[i].closing {
          closed := true;
        }
      }
    }

    method ParseChildren(start: nat, head: Head, ds: seq<Delimiter>, depth: nat, digestChild: bool)
      returns (children: seq<Node>, ok: bool, ghost hit: Option<Cause>)
      requires View().Valid() && start < head.body.start <= head.body.end
      requires ds == View().DelimitersOf(head.media, head.body.start, head.body.end)
      modifies this`headerFields, this`headerBytes, this`parts, causes
      ensures Outcomes(limits, depth - |head.path|, old(FullKids(View(), start, head, digestChild)), old(Spent()),
        (children, ok), Spent(), hit)
      ensures Numbered(head.path, children, 1)
      ensures causes.seen == old(causes.seen) + Seen(hit)
      decreases head.body.end - start, 0, 0
    {
      hide Full, FullParts, PartAt, Outcome, Outcomes, Contiguous;
      children, ok, hit := [], true, None;
      ghost var scan, rank, before := View(), depth - |head.path|, Spent();
      if HasBoundary(head.media) {
        DelimitersInBody(scan, head.media, head.body.start, head.body.end);
        children, ok, hit := ParseParts(head, ds, depth);
        OutcomeClosed(limits, rank, FullParts(scan, head, ds, 0), before, (children, ok), Spent(), hit, head.closed);
        ok := ok && head.closed;
      } else if HoldsMessage(head.media) {
        ghost var full := Full(scan, head.body.start, head.body.end, head.path + [1], false);
        var child, childComplete;
        child, childComplete, hit := ParseEntity(head.body.start, head.body.end, head.path + [1], depth + 1, false);
        OutcomeChild(limits, rank, full, before, (child, childComplete), Spent(), hit);
        children, ok := ListOf(child), childComplete;
      } else {
        OutcomeKept(limits, rank, [], before, before);
      }
    }

    // The loop over the parts between delimiter lines.
    method ParseParts(head: Head, ds: seq<Delimiter>, depth: nat)
      returns (children: seq<Node>, ok: bool, ghost hit: Option<Cause>)
      requires View().Valid() && DelimitersAfter(View(), ds, head.body.start, head.body.end)
      modifies this`headerFields, this`headerBytes, this`parts, causes
      ensures Outcomes(limits, depth - |head.path|, old(FullParts(View(), head, ds, 0)), old(Spent()), (children, ok),
        Spent(), hit)
      ensures Numbered(head.path, children, 1)
      ensures causes.seen == old(causes.seen) + Seen(hit)
      decreases head.body.end - head.body.start, 0, 0
    {
      hide Full, FullKids, FullParts, PartAt, Outcome, Outcomes, Contiguous, Linked, LineOk, Scan.Valid,
        Scan.DelimitersFrom;
      hide AllFit, PreorderAll, Preorder, Numbered, AddPart, ListOf, Seen, Spent, CutAt, Restrict, RestrictAll;
      children, ok, hit := [], true, None;
      ghost var scan, rank, before := View(), depth - |head.path|, Spent();
      NothingYet(limits, rank, before, head.path);
      ghost var full := FullParts(scan, head, ds, 0);
      assert [] + full.0 == full.0;
      var k := 0;
      while k < |ds| && !ds[k].closing
        invariant k == |children| <= |ds| && ok && hit == None && View() == scan
        invariant Numbered(head.path, children, 1)
        invariant (children + FullParts(scan, head, ds, k).0, FullParts(scan, head, ds, k).1) == full
        invariant AllFit(limits, rank, before, PreorderAll(children), Spent())
        invariant causes.seen == old(causes.seen)
      {
        FullLineEndIs(scan, ds[k].line);
        FullPartsIs(scan, head, ds, k);
        var childStart := View().FullLineEnd(ds[k].line);
        var childEnd := View().ChildEnd(ds, k, head.body.end);
        ghost var mid, part := Spent(), PartAt(scan, head, ds, k);
        ghost var rest := if part.1 then FullParts(scan, head, ds, k + 1) else ([], false);
        var child, childComplete;
        child, childComplete, hit :=
          ParseEntity(childStart, childEnd, head.path + [k + 1], depth + 1, head.media.mediaType == "multipart/digest");
        if !childComplete {
          OutcomeLast(limits, rank, part, rest, mid, (child, false), Spent(), hit);
          OutcomeConcat(limits, rank, children, AddPart(part, rest), before, mid, (ListOf(child), false), Spent(), hit);
          NumberedAdd(head.path, children, child);
          children, ok := children + ListOf(child), false;
          return;
        }
        OutcomeComplete(limits, rank, children, part, rest, before, mid, (child, childComplete), Spent(), hit);
        NumberedAdd(head.path, children, child);
        children := children + [child.value];
        k := k + 1;
      }
      FullPartsIs(scan, head, ds, k);
      OutcomeKept(limits, rank, children, before, Spent());
      assert children + [] == children;
    }

    // The budgets shared with every decoded index: none is overrun.
    ghost predicate BudgetKept()
      reads this
    {
      Within(limits, Spent()) && !Over(limits.physicalLines, |lines| + decodedLines)
    }

    // An index charges the root index, which charges itself.
    ghost predicate Shares()
      reads this
    {
      budget.budget == budget && causes == budget.causes && parser == budget.parser
    }

    // How many lines a decoded message may still have; zero or less when lines are not limited.
    ghost function LineBudget(): int
      reads this
    {
      if limits.physicalLines > 0 then limits.physicalLines - |lines| - decodedLines else 0
    }

    ghost predicate LinesExhausted()
      reads this
    {
      limits.physicalLines > 0 && LineBudget() <= 0
    }

    // indexDecodedMessage: an index of decoded bytes with local ranges, charged to the shared budget.
    method IndexDecodedMessage(decodedRaw: string, path: seq<nat>, depth: nat)
      returns (decoded: Index, ghost hit: Option<Cause>)
      requires Shares() && budget.BudgetKept()
      modifies budget`headerFields, budget`headerBytes, budget`parts, budget`decodedLines, causes
      ensures fresh(decoded) && decoded.raw == decodedRaw && decoded.budget == budget && decoded.Shares()
      ensures budget.BudgetKept() && decoded.View().Valid()
      ensures budget.Spent() == ChargeAll(old(budget.Spent()), PreorderOf(decoded.root))
      ensures budget.decodedLines == old(budget.decodedLines) + |decoded.lines|
      ensures if old(budget.LinesExhausted()) then
          decoded.lines == [] && decoded.root == None && causes.seen == old(causes.seen) + {PhysicalLines}
        else
          && decoded.lines == FirstLines(decodedRaw, |decodedRaw|, true, old(budget.LineBudget()))
          && decoded.complete == (EndOf(decoded.lines) == |decodedRaw|)
          && Indexed(decoded.View(), budget.limits, path, depth, old(budget.Spent()), decoded.root, budget.Spent(), hit)
          && causes.seen == old(causes.seen) + Seen(hit) +
               (if decoded.complete then {} else {PhysicalLines})
    {
      hide Outcome, Full, Contiguous, AllLines, Room, Refusal, Preorder;
      decoded := new Index.Decoded(decodedRaw, budget);
      hit := None;
      if budget.limits.physicalLines > 0 {
        var remaining := budget.limits.physicalLines - |budget.lines| - budget.decodedLines;
        if remaining <= 0 {
          causes.seen := causes.seen + {PhysicalLines};
          assert Contiguous(decodedRaw, [], 0) by { EmptyContiguous(decodedRaw); }
          return;
        }
        decoded.limits := decoded.limits.(physicalLines := remaining);
      }
      decoded.ScanLines(|decodedRaw|, true);
      FirstLinesContiguous(decodedRaw, |decodedRaw|, true, decoded.limits.physicalLines);
      decoded.complete := EndOf(decoded.lines) == |decodedRaw|;
      if EndOf(decoded.lines) != 0 {
        ghost var scan := decoded.View();
        var root, rootComplete;
        root, rootComplete, hit := decoded.ParseEntity(0, EndOf(decoded.lines), path, depth, false);
        SameRefusals(decoded.limits, budget.limits, depth - |path|, Full(scan, 0, EndOf(scan.lines), path, false),
          budget.Spent(), (root, rootComplete), decoded.Spent(), hit);
        decoded.root := root;
      }
      budget.headerFields, budget.headerBytes, budget.parts := decoded.headerFields, decoded.headerBytes, decoded.parts;
      budget.decodedLines := budget.decodedLines + |decoded.lines|;
    }
  }

  // buildRawIndex: the index of a whole message; past the byte limit only whole lines are listed.
  method Build(raw: string, parser: MediaParser, limits: Limits) returns (index: Index, ghost hit: Option<Cause>)
    ensures fresh(index) && fresh(index.causes) && index.raw == raw && index.budget == index && index.Shares()
      && index.limits == limits
    ensures index.BudgetKept() && index.View().Valid()
    ensures index.Spent() == ChargeAll(Counters(0, 0, 0), PreorderOf(index.root))
    ensures if Over(limits.rawBytes, |raw|) then
        && index.root == None && RawBytes in index.causes.seen && !index.complete
        && index.lines == FirstLines(raw, limits.rawBytes, false, limits.physicalLines)
      else
        && index.lines == FirstLines(raw, |raw|, true, limits.physicalLines)
        && index.complete == (EndOf(index.lines) == |raw|)
        && Indexed(index.View(), limits, [1], 1, Counters(0, 0, 0), index.root, index.Spent(), hit)
        && index.causes.seen == Seen(hit) + if index.complete then {} else {PhysicalLines}
  {
    hide Outcome, Full, Contiguous, AllLines, Room, Refusal, Preorder;
    index := new Index(raw, parser, limits);
    hit := None;
    var end, prefixComplete := |raw|, true;
    if limits.rawBytes > 0 && end > limits.rawBytes {
      end, prefixComplete := limits.rawBytes, false;
      index.causes.seen := index.causes.seen + {RawBytes};
    }
    index.ScanLines(end, prefixComplete);
    FirstLinesContiguous(raw, end, prefixComplete, limits.physicalLines);
    if !prefixComplete {
      return;
    }
    index.complete := EndOf(index.lines) == |raw|;
    if |raw| == 0 || EndOf(index.lines) == 0 {
      return;
    }
    ghost var scan := index.View();
    var root, rootComplete;
    root, rootComplete, hit := index.ParseEntity(0, EndOf(index.lines), [1], 1, false);
    SameRefusals(limits, limits, 0, Full(scan, 0, EndOf(scan.lines), [1], false), Counters(0, 0, 0),
      (root, rootComplete), index.Spent(), hit);
    index.root := root;
  }

  // Limits only cut: the tree is the unlimited one restricted to its first nodes, each range sound,
  // and the two are equal unless a limit was hit.
  lemma {:induction false} IndexedTree(scan: Scan, limits: Limits, path: seq<nat>, depth: nat, before: Counters,
    root: Option<Node>, after: Counters, hit: Option<Cause>)
    requires scan.Valid() && Indexed(scan, limits, path, depth, before, root, after, hit) && scan.IndexedEnd() > 0
    ensures var full := Full(scan, 0, scan.IndexedEnd(), path, false).0;
      && (hit.None? ==> root == full)
      && (root.Some? ==>
         Sound(scan, root.value) && full.Some? && SameShape(root.value, Restrict(full.value, |Preorder(root.value)|)))
  {
    hide Outcome, Full;
    if hit.None? {
      SameResult(limits, depth - |path|, Full(scan, 0, scan.IndexedEnd(), path, false), before,
        (root, root.Some? && root.value.complete), after, hit);
    }
    if root.Some? {
      LimitedTree(scan, limits, depth - |path|, scan.IndexedEnd(), path, before, (root, root.value.complete), after,
        hit);
    }
  }

  lemma {:induction false} SameResult(limits: Limits, rank: int, full: (Option<Node>, bool), before: Counters,
    got: (Option<Node>, bool), after: Counters, hit: Option<Cause>)
    requires Outcome(limits, rank, full, before, got, after, hit) && hit.None?
    ensures got == full
  {
  }

  // Any nesting of decoded messages: each is indexed from its enclosing index, as the semantic pass does.
  datatype Plan = Plan(raw: string, path: seq<nat>, depth: nat, inner: seq<Plan>)

  // Over every such run the budgets are kept, and charged with exactly the nodes and lines of all indexes together.
  method IndexAll(index: Index, plans: seq<Plan>) returns (trees: seq<Node>, lineCount: nat)
    requires index.Shares() && index.budget.BudgetKept()
    modifies index.budget`headerFields, index.budget`headerBytes, index.budget`parts, index.budget`decodedLines,
      index.causes
    ensures index.budget.BudgetKept() && old(index.causes.seen) <= index.causes.seen
    ensures index.budget.Spent() == ChargeAll(old(index.budget.Spent()), PreorderAll(trees))
    ensures index.budget.decodedLines == old(index.budget.decodedLines) + lineCount
    decreases plans
  {
    hide Indexed, Within;
    trees, lineCount := [], 0;
    var i := 0;
    while i < |plans|
      invariant i <= |plans| && index.budget.BudgetKept() && old(index.causes.seen) <= index.causes.seen
      invariant index.budget.Spent() == ChargeAll(old(index.budget.Spent()), PreorderAll(trees))
      invariant index.budget.decodedLines == old(index.budget.decodedLines) + lineCount
    {
      ghost var before := index.budget.Spent();
      var Plan(raw, path, depth, inner) := plans[i];
      var decoded, _ := index.IndexDecodedMessage(raw, path, depth);
      var below, count := IndexAll(decoded, inner);
      ChargeMore(old(index.budget.Spent()), trees, before, ListOf(decoded.root), below);
      PreorderOne(decoded.root);
      trees := trees + ListOf(decoded.root) + below;
      lineCount := lineCount + |decoded.lines| + count;
      i := i + 1;
    }
  }

  lemma {:induction false} ChargeMore(start: Counters, trees: seq<Node>, mid: Counters, one: seq<Node>,
                                      below: seq<Node>)
    requires mid == ChargeAll(start, PreorderAll(trees))
    ensures ChargeAll(start, PreorderAll(trees + one + below)) ==
      ChargeAll(ChargeAll(mid, PreorderAll(one)), PreorderAll(below))
  {
    PreorderConcat(trees, one);
    PreorderConcat(trees + one, below);
    ChargeAllConcat(start, PreorderAll(trees), PreorderAll(one));
    ChargeAllConcat(start, PreorderAll(trees + one), PreorderAll(below));
  }
}
