/** The unlimited parse: the tree of byte ranges that a scanned message denotes (internal/mimeparse/index.go). */
module MimeTree {
  import opened Text
  import opened MimeLines

  datatype Field = Field(name: string, rawField: Range, rawValue: Range, firstLine: nat, lastLine: nat)

  // What mime.ParseMediaType returns; a malformed value may still have a type.
  datatype MediaType = MediaType(malformed: bool, value: string, params: map<string, string>)

  // mime.ParseMediaType, and the decoding of encoded words in a parameter.
  datatype MediaParser = MediaParser(parse: string -> MediaType, decode: string -> string) {
    function DecodedParams(params: map<string, string>): map<string, string> {
      map name | name in params :: decode(params[name])
    }
  }

  datatype Media = Media(
    mediaType: string, params: map<string, string>, malformedType: bool,
    disposition: string, dispositionParams: map<string, string>, malformedDisposition: bool,
    transferEncoding: string)

  // Everything a Node holds apart from its children and its completeness mark.
  datatype Head = Head(
    path: seq<nat>, fields: seq<Field>, header: Range, body: Range, media: Media,
    delimiters: seq<Range>, closed: bool)

  datatype Node = Node(head: Head, children: seq<Node>, complete: bool)

  datatype Delimiter = Delimiter(line: nat, closing: bool)

  // What parsing reads: the bytes, their lines, and whether the lines reach the end of the input.
  datatype Scan = Scan(raw: string, lines: seq<Line>, complete: bool, parser: MediaParser) {
    ghost predicate Valid() {
      Contiguous(raw, lines, 0)
    }

    function IndexedEnd(): nat {
      EndOf(lines)
    }

    function FullLineEnd(i: nat): nat
      requires i < |lines|
    {
      if i + 1 < |lines| then lines[i + 1].raw.start else IndexedEnd()
    }

    // First empty line from i on that starts before `end`.
    function BlankLine(i: nat, end: nat): (r: Option<nat>)
      requires i <= |lines|
      ensures r.Some? ==> i <= r.value < |lines| && lines[r.value].raw.start == lines[r.value].raw.end < end
      decreases |lines| - i
    {
      if i == |lines| || lines[i].raw.start >= end then None
      else if lines[i].raw.end == lines[i].raw.start then Some(i)
      else BlankLine(i + 1, end)
    }

    function Content(i: nat): string
      requires i < |lines|
    {
      var Range(start, end) := lines[i].raw;
      if start <= end <= |raw| then raw[start..end] else ""
    }

    // The header fields of the lines from i up to offset headerEnd, after the fields already found.
    function FieldsFrom(i: nat, headerEnd: nat, found: seq<Field>): seq<Field>
      requires i <= |lines|
      decreases |lines| - i
    {
      if i == |lines| || lines[i].raw.start >= headerEnd then found
      else FieldsFrom(i + 1, headerEnd, FieldsWith(i, found))
    }

    // One header line: a continuation of the last field, a new field, or neither.
    function FieldsWith(i: nat, found: seq<Field>): seq<Field>
      requires i < |lines|
    {
      var content := Content(i);
      var colon := IndexByte(content, ':', 0);
      if content != "" && (content[0] == ' ' || content[0] == '\t') then
        if found == [] then found else ExtendLast(found, FullLineEnd(i), i)
      else if colon < 0 then found
      else found + [NewField(i, content, colon)]
    }

    function NewField(i: nat, content: string, colon: nat): Field
      requires i < |lines| && colon < |content|
    {
      var start, end := lines[i].raw.start, FullLineEnd(i);
      Field(content[..colon], Range(start, end), Range(start + colon + 1, end), i + 1, i + 1)
    }

    function BoundaryLine(i: nat, boundary: string): Option<Delimiter>
      requires i < |lines|
    {
      var prefix := "--" + boundary;
      var content := Content(i);
      if !(prefix <= content) then None
      else
        var rest := content[|prefix|..];
        var closing := "--" <= rest;
        if forall k :: (if closing then 2 else 0) <= k < |rest| ==> rest[k] == ' ' || rest[k] == '\t'
        then Some(Delimiter(i, closing)) else None
    }

    // boundaryLines: the delimiter lines from line i up to offset `end`, in order.
    function DelimitersFrom(i: nat, end: nat, boundary: string): (r: seq<Delimiter>)
      requires i <= |lines|
      ensures forall k :: 0 <= k < |r| ==> i <= r[k].line < |lines| && lines[r[k].line].raw.start < end
      ensures forall j, k :: 0 <= j < k < |r| ==> r[j].line < r[k].line
      decreases |lines| - i
    {
      if i == |lines| || lines[i].raw.start >= end then []
      else
        var rest := DelimitersFrom(i + 1, end, boundary);
        match BoundaryLine(i, boundary)
        case None => rest
        case Some(d) => [d] + rest
    }

    function DelimiterRange(d: Delimiter): Range
      requires d.line < |lines|
    {
      Range(lines[d.line].raw.start, FullLineEnd(d.line))
    }

    // Where the part opened by delimiter k ends: before the next delimiter's line break, or with the body.
    function ChildEnd(ds: seq<Delimiter>, k: nat, end: nat): (r: nat)
      requires k < |ds| && forall d :: d in ds ==> d.line < |lines|
    {
      if k + 1 == |ds| then end
      else
        var next := lines[ds[k + 1].line].raw.start;
        if next <= |raw| then TrimBoundaryPrefix(raw, FullLineEnd(ds[k].line), next) else next
    }

    function UnfoldedValue(field: Field): string {
      var Range(start, end) := field.rawValue;
      if start <= end <= |raw| then Trim(FoldBreaks(TrimBreaks(raw[start..end]), "")) else ""
    }

    // The unfolded value of the first field with this name.
    function HeaderValue(fields: seq<Field>, name: string): Option<string> {
      if fields == [] then None
      else if Lower(Trim(fields[0].name)) == name then Some(UnfoldedValue(fields[0]))
      else HeaderValue(fields[1..], name)
    }

    // The parameters of a content type are decoded, those of a disposition are not.
    function MediaOf(fields: seq<Field>, digestChild: bool): Media {
      var defaultType := if digestChild then "message/rfc822" else "text/plain";
      var kind := HeaderValue(fields, "content-type");
      var disposition := HeaderValue(fields, "content-disposition");
      var encoding := HeaderValue(fields, "content-transfer-encoding");
      var (mediaType, params, malformedType) :=
        match kind
        case None => (defaultType, map[], false)
        case Some(value) =>
          var parsed := parser.parse(value);
          if parsed.malformed then (defaultType, map[], true)
          else (Lower(parsed.value), parser.DecodedParams(parsed.params), false);
      var (dispositionValue, dispositionParams, malformedDisposition) :=
        match disposition
        case None => ("", map[], false)
        case Some(value) =>
          var parsed := parser.parse(value);
          (Lower(parsed.value), if parsed.malformed then map[] else parsed.params, parsed.malformed);
      Media(mediaType, params, malformedType, dispositionValue, dispositionParams, malformedDisposition,
            if encoding.Some? then Lower(Trim(encoding.value)) else "")
    }

    // Header block of the entity at `start`: the offset of its blank line and of its body.
    function HeaderBlock(start: nat, end: nat): (r: Option<(nat, nat)>) {
      match BlankLine(FirstFrom(lines, 0, start), end)
      case None => None
      case Some(i) => if FullLineEnd(i) > end then None else Some((lines[i].raw.start, FullLineEnd(i)))
    }

    function HeadOf(start: nat, end: nat, block: (nat, nat), path: seq<nat>, digestChild: bool): Head {
      var fields := FieldsFrom(FirstFrom(lines, 0, start), block.0, []);
      var media := MediaOf(fields, digestChild);
      var ds := DelimitersOf(media, block.1, end);
      Head(path, fields, Range(start, block.0), Range(block.1, end), media,
        seq(|ds|, i requires 0 <= i < |ds| => DelimiterRange(ds[i])),
        exists d :: d in ds && d.closing)
    }

    function DelimitersOf(media: Media, bodyStart: nat, end: nat): (r: seq<Delimiter>)
      ensures forall k :: 0 <= k < |r| ==> r[k].line < |lines| && lines[r[k].line].raw.start < end
      ensures forall j, k :: 0 <= j < k < |r| ==> r[j].line < r[k].line
    {
      if HasBoundary(media) then
        DelimitersFrom(FirstFrom(lines, 0, bodyStart), end, media.params["boundary"])
      else []
    }

    // The range ends inside the indexed bytes, and at their end only when nothing was left unscanned.
    predicate EndsIndexed(end: nat) {
      end <= IndexedEnd() && (complete || end < IndexedEnd())
    }
  }

  function ExtendLast(fields: seq<Field>, end: nat, line: nat): seq<Field>
    requires fields != []
  {
    var last := fields[|fields| - 1];
    fields[|fields| - 1 :=
      last.(rawField := last.rawField.(end := end), rawValue := last.rawValue.(end := end), lastLine := line + 1)]
  }

  function TrimBreaks(s: string): string {
    if s != "" && IsBreak(s[|s| - 1]) then TrimBreaks(s[..|s| - 1]) else s
  }

  // Each run of line breaks becomes one space, unless a space already precedes it.
  function FoldBreaks(s: string, folded: string): string
    decreases |s|
  {
    if s == "" then folded
    else if !IsBreak(s[0]) then FoldBreaks(s[1..], folded + [s[0]])
    else FoldBreaks(s[1..], if folded == "" || folded[|folded| - 1] != ' ' then folded + " " else folded)
  }

  predicate IsMultipart(media: Media) {
    "multipart/" <= media.mediaType
  }

  predicate HasBoundary(media: Media) {
    IsMultipart(media) && "boundary" in media.params && media.params["boundary"] != ""
  }

  // isIdentityTransferEncoding on a value that is already trimmed and lower-case.
  predicate IsIdentityEncoding(encoding: string) {
    Lower(Trim(encoding)) in {"", "7bit", "8bit", "binary"}
  }

  predicate HoldsMessage(media: Media) {
    IsEncapsulated(media.mediaType) && IsIdentityEncoding(media.transferEncoding)
  }

  ghost predicate DelimitersAfter(scan: Scan, ds: seq<Delimiter>, bodyStart: nat, end: nat) {
    && (forall k :: 0 <= k < |ds| ==> ds[k].line < |scan.lines| && bodyStart <= scan.lines[ds[k].line].raw.start < end)
    && (forall j, k :: 0 <= j < k < |ds| ==> ds[j].line < ds[k].line)
  }

  lemma {:induction false} DelimitersInBody(scan: Scan, media: Media, bodyStart: nat, end: nat)
    requires scan.Valid()
    ensures DelimitersAfter(scan, scan.DelimitersOf(media, bodyStart, end), bodyStart, end)
  {
    ContiguousAscends(scan.raw, scan.lines);
    var first := FirstFrom(scan.lines, 0, bodyStart);
    var ds := scan.DelimitersOf(media, bodyStart, end);
    if HasBoundary(media) {
      forall k | 0 <= k < |ds| ensures bodyStart <= scan.lines[ds[k].line].raw.start {
        assert first <= ds[k].line;
      }
    }
  }

  // A line's end is the next line's start, and lies past its own start.
  lemma {:induction false} FullLineEndIs(scan: Scan, i: nat)
    requires scan.Valid() && i < |scan.lines|
    ensures scan.FullLineEnd(i) == scan.lines[i].Next() && LineOk(scan.raw, scan.lines[i])
    ensures scan.FullLineEnd(i) <= scan.IndexedEnd() <= |scan.raw|
  {
    var lines := scan.lines;
    assert LineOk(scan.raw, lines[i]) && LineOk(scan.raw, lines[|lines| - 1]);
    if i + 1 < |lines| {
      assert Linked(lines, i);
      if i + 1 < |lines| - 1 {
        StartsAscend(scan.raw, lines, 0, i + 1, |lines| - 1);
        assert LineOk(scan.raw, lines[i + 1]);
      }
    }
  }

  lemma {:induction false} HeaderBlockRange(scan: Scan, start: nat, end: nat)
    requires scan.Valid()
    ensures var block := scan.HeaderBlock(start, end);
      block.Some? ==> start <= block.value.0 < block.value.1 <= end
  {
    var first := FirstFrom(scan.lines, 0, start);
    var blank := scan.BlankLine(first, end);
    if blank.Some? {
      ContiguousAscends(scan.raw, scan.lines);
      FullLineEndIs(scan, blank.value);
    }
  }

  // parseEntity without limits: the node of the range, and whether it was complete.
  function Full(scan: Scan, start: nat, end: nat, path: seq<nat>, digestChild: bool): (r: (Option<Node>, bool))
    requires scan.Valid()
    ensures r.0.None? ==> !r.1
    ensures r.0.Some? ==> r.0.value.complete == r.1
    decreases end - start, 1, 0
  {
    match scan.HeaderBlock(start, end)
    case None => (None, false)
    case Some(block) =>
      HeaderBlockRange(scan, start, end);
      var head := scan.HeadOf(start, end, block, path, digestChild);
      var kids := FullKids(scan, start, head, digestChild);
      var complete := scan.EndsIndexed(end) && kids.1;
      (Some(Node(head, kids.0, complete)), complete)
  }

  // The children of an entity, and whether nothing of them is missing.
  function FullKids(scan: Scan, start: nat, head: Head, digestChild: bool): (r: (seq<Node>, bool))
    requires scan.Valid()
    requires start < head.body.start <= head.body.end
    decreases head.body.end - start, 0, 0
  {
    if HasBoundary(head.media) then
      var ds := scan.DelimitersOf(head.media, head.body.start, head.body.end);
      DelimitersInBody(scan, head.media, head.body.start, head.body.end);
      var parts := FullParts(scan, head, ds, 0);
      (parts.0, parts.1 && head.closed)
    else if HoldsMessage(head.media) then
      var child := Full(scan, head.body.start, head.body.end, head.path + [1], false);
      (ListOf(child.0), child.1)
    else ([], true)
  }

  // The parts opened by delimiters k, k + 1, ... up to a closing one; the first missing or incomplete part is the last.
  function FullParts(scan: Scan, head: Head, ds: seq<Delimiter>, k: nat): (r: (seq<Node>, bool))
    requires scan.Valid() && k <= |ds|
    requires DelimitersAfter(scan, ds, head.body.start, head.body.end)
    decreases head.body.end - head.body.start, 0, |ds| - k
  {
    if k == |ds| || ds[k].closing then ([], true)
    else
      var part := PartAt(scan, head, ds, k);
      if part.1 then AddPart(part, FullParts(scan, head, ds, k + 1)) else AddPart(part, ([], false))
  }

  function ListOf(n: Option<Node>): seq<Node> {
    if n.None? then [] else [n.value]
  }

  // A missing or incomplete part hides the rest.
  function AddPart(part: (Option<Node>, bool), rest: (seq<Node>, bool)): (seq<Node>, bool) {
    if part.0.None? then ([], false)
    else if !part.1 then ([part.0.value], false)
    else ([part.0.value] + rest.0, rest.1)
  }

  function PartAt(scan: Scan, head: Head, ds: seq<Delimiter>, k: nat): (r: (Option<Node>, bool))
    requires scan.Valid() && k < |ds|
    requires DelimitersAfter(scan, ds, head.body.start, head.body.end)
    ensures r.0.None? ==> !r.1
    decreases head.body.end - head.body.start, 0, 0
  {
    FullLineEndIs(scan, ds[k].line);
    ChildEndBound(scan, ds, k, head.body.start, head.body.end);
    Full(scan, scan.FullLineEnd(ds[k].line), scan.ChildEnd(ds, k, head.body.end), head.path + [k + 1],
      head.media.mediaType == "multipart/digest")
  }

  lemma {:induction false} ChildEndBound(scan: Scan, ds: seq<Delimiter>, k: nat, bodyStart: nat, end: nat)
    requires scan.Valid() && k < |ds| && DelimitersAfter(scan, ds, bodyStart, end)
    ensures scan.ChildEnd(ds, k, end) <= end
  {
  }

  // The defining equations, for proofs that keep the definitions themselves hidden.
  lemma {:induction false} FullIs(scan: Scan, start: nat, end: nat, path: seq<nat>, digestChild: bool)
    requires scan.Valid()
    ensures var block := scan.HeaderBlock(start, end);
      var full := Full(scan, start, end, path, digestChild);
      if block.None? then full == (None, false)
      else
        var head := scan.HeadOf(start, end, block.value, path, digestChild);
        && start < head.body.start <= head.body.end == end
        && head.path == path && head.header.start == start && head.body.start == block.value.1
        && head.fields == scan.FieldsFrom(FirstFrom(scan.lines, 0, start), block.value.0, [])
        && var kids := FullKids(scan, start, head, digestChild);
           var complete := scan.EndsIndexed(end) && kids.1;
           full == (Some(Node(head, kids.0, complete)), complete)
  {
    HeaderBlockRange(scan, start, end);
  }

  lemma {:induction false} FullPartsIs(scan: Scan, head: Head, ds: seq<Delimiter>, k: nat)
    requires scan.Valid() && k <= |ds| && DelimitersAfter(scan, ds, head.body.start, head.body.end)
    ensures var parts := FullParts(scan, head, ds, k);
      if k == |ds| || ds[k].closing then parts == ([], true)
      else
        var part := PartAt(scan, head, ds, k);
        && (part.0.None? ==> !part.1)
        && part == Full(scan, scan.FullLineEnd(ds[k].line), scan.ChildEnd(ds, k, head.body.end), head.path + [k + 1],
             head.media.mediaType == "multipart/digest")
        && parts == AddPart(part, if part.1 then FullParts(scan, head, ds, k + 1) else ([], false))
  {
  }

  lemma {:induction false} HeadIs(scan: Scan, start: nat, end: nat, block: (nat, nat), path: seq<nat>,
                                  digestChild: bool, ds: seq<Delimiter>, ranges: seq<Range>, closed: bool)
    requires var fields := scan.FieldsFrom(FirstFrom(scan.lines, 0, start), block.0, []);
      ds == scan.DelimitersOf(scan.MediaOf(fields, digestChild), block.1, end)
    requires |ranges| == |ds| && forall i :: 0 <= i < |ds| ==> ranges[i] == scan.DelimiterRange(ds[i])
    requires closed <==> exists d :: d in ds && d.closing
    ensures var fields := scan.FieldsFrom(FirstFrom(scan.lines, 0, start), block.0, []);
      scan.HeadOf(start, end, block, path, digestChild) ==
        Head(path, fields, Range(start, block.0), Range(block.1, end), scan.MediaOf(fields, digestChild), ranges,
          closed)
  {
    hide Scan.FieldsFrom, Scan.MediaOf, Scan.DelimiterRange, Scan.DelimitersFrom, Scan.DelimitersOf, FirstFrom,
      HasBoundary;
    assert ranges == seq(|ds|, i requires 0 <= i < |ds| => scan.DelimiterRange(ds[i]));
  }
}
