/** Range soundness of the MIME tree: every node's ranges nest, in order, for every input. */
module MimeSound {
  import opened Text
  import opened MimeLines
  import opened MimeTree
  import opened MimeLimits

  // A field is its name, a colon and a value that runs to the end of its last line.
  predicate FieldOk(scan: Scan, f: Field, low: nat, high: nat) {
    var start, end, colon := f.rawField.start, f.rawField.end, f.rawField.start + |f.name|;
    && low <= start && colon + 1 == f.rawValue.start <= end == f.rawValue.end <= high <= |scan.raw|
    && scan.raw[start..colon] == f.name && ':' !in f.name && scan.raw[colon] == ':'
    && 1 <= f.firstLine <= f.lastLine <= |scan.lines|
    && scan.lines[f.firstLine - 1].raw.start == start && scan.FullLineEnd(f.lastLine - 1) == end
  }

  // Every field lies in the block, and the fields follow one another.
  predicate FieldsOk(scan: Scan, fields: seq<Field>, low: nat, high: nat) {
    && (forall f :: f in fields ==> FieldOk(scan, f, low, high))
    && (forall j, k :: 0 <= j < k < |fields| ==> fields[j].lastLine < fields[k].firstLine)
  }

  lemma {:induction false} FieldsFromOk(scan: Scan, i: nat, low: nat, blank: nat, found: seq<Field>)
    requires scan.Valid() && i <= blank < |scan.lines|
    requires i < |scan.lines| ==> low <= scan.lines[i].raw.start
    requires FieldsOk(scan, found, low, scan.lines[blank].raw.start)
    requires found != [] ==> Last(found).lastLine <= i
    ensures FieldsOk(scan, scan.FieldsFrom(i, scan.lines[blank].raw.start, found), low, scan.lines[blank].raw.start)
    decreases |scan.lines| - i
  {
    var high := scan.lines[blank].raw.start;
    FullLineEndIs(scan, blank);
    if scan.lines[i].raw.start < high {
      FullLineEndIs(scan, i);
      LineBeforeBlank(scan, i, blank);
      var content := scan.Content(i);
      if content != "" && (content[0] == ' ' || content[0] == '\t') {
        if found == [] {
          FieldsFromOk(scan, i + 1, low, blank, found);
        } else {
          ExtendedOk(scan, i, low, high, found);
          FieldsFromOk(scan, i + 1, low, blank, ExtendLast(found, scan.FullLineEnd(i), i));
        }
      } else {
        var colon := IndexByte(content, ':', 0);
        if colon < 0 {
          FieldsFromOk(scan, i + 1, low, blank, found);
        } else {
          FirstColon(content, 0);
          NewFieldOk(scan, i, low, high, colon);
          AppendedOk(scan, low, high, found, scan.NewField(i, content, colon));
          FieldsFromOk(scan, i + 1, low, blank, found + [scan.NewField(i, content, colon)]);
        }
      }
    }
  }

  lemma {:induction false} LineBeforeBlank(scan: Scan, i: nat, blank: nat)
    requires scan.Valid() && i <= blank < |scan.lines| && scan.lines[i].raw.start < scan.lines[blank].raw.start
    ensures i < blank && scan.FullLineEnd(i) == scan.lines[i + 1].raw.start <= scan.lines[blank].raw.start
    ensures scan.lines[i].raw.start < scan.lines[i + 1].raw.start
  {
    ContiguousAscends(scan.raw, scan.lines);
  }

  lemma {:induction false} ExtendedOk(scan: Scan, i: nat, low: nat, high: nat, found: seq<Field>)
    requires scan.Valid() && i < |scan.lines| && found != [] && FieldsOk(scan, found, low, high)
    requires Last(found).lastLine <= i && scan.FullLineEnd(i) <= high
    ensures FieldsOk(scan, ExtendLast(found, scan.FullLineEnd(i), i), low, high)
  {
    var extended := ExtendLast(found, scan.FullLineEnd(i), i);
    assert FieldOk(scan, Last(found), low, high);
    FullLineEndIs(scan, i);
    ContiguousAscends(scan.raw, scan.lines);
    assert FieldOk(scan, Last(extended), low, high);
    forall k | 0 <= k < |extended| ensures FieldOk(scan, extended[k], low, high) {
      assert k < |extended| - 1 ==> extended[k] == found[k];
    }
  }

  lemma {:induction false} AppendedOk(scan: Scan, low: nat, high: nat, found: seq<Field>, f: Field)
    requires FieldsOk(scan, found, low, high) && FieldOk(scan, f, low, high)
    requires found != [] ==> Last(found).lastLine < f.firstLine
    ensures FieldsOk(scan, found + [f], low, high)
  {
    assert found != [] ==> FieldOk(scan, Last(found), low, high);
  }

  lemma {:induction false} FirstColon(s: string, i: nat)
    requires i <= |s|
    ensures var r := IndexByte(s, ':', i); r >= 0 ==> s[r] == ':' && ':' !in s[i..r]
    decreases |s| - i
  {
    if i < |s| && s[i] != ':' {
      FirstColon(s, i + 1);
      var r := IndexByte(s, ':', i + 1);
      assert r >= 0 ==> s[i..r] == [s[i]] + s[i + 1..r];
    }
  }

  lemma {:induction false} NewFieldOk(scan: Scan, i: nat, low: nat, high: nat, colon: nat)
    requires scan.Valid() && i < |scan.lines| && colon < |scan.Content(i)|
    requires scan.Content(i)[colon] == ':' && ':' !in scan.Content(i)[..colon]
    requires low <= scan.lines[i].raw.start && scan.FullLineEnd(i) <= high <= |scan.raw|
    ensures FieldOk(scan, scan.NewField(i, scan.Content(i), colon), low, high)
  {
    FullLineEndIs(scan, i);
    var Range(start, end) := scan.lines[i].raw;
    assert scan.raw[start..end][..colon] == scan.raw[start..start + colon];
  }

  // A node's own ranges: header, then body, inside the indexed bytes; delimiter lines start in the body.
  ghost predicate HeadSound(scan: Scan, head: Head) {
    && head.header.start <= head.header.end < head.body.start <= head.body.end <= scan.IndexedEnd()
    && FieldsOk(scan, head.fields, head.header.start, head.header.end)
    && (forall d :: d in head.delimiters ==> head.body.start <= d.start < d.end && d.start < head.body.end)
  }

  // Children are numbered from 1, lie in the body in order and disjoint, and touch no delimiter line.
  predicate KidsPlaced(head: Head, kids: seq<Node>) {
    && (forall k :: 0 <= k < |kids| ==> kids[k].head.path == head.path + [k + 1] && InBody(head, kids[k].head))
    && (forall j, k :: 0 <= j < k < |kids| ==> kids[j].head.body.end <= kids[k].head.header.start)
  }

  predicate InBody(head: Head, child: Head) {
    && head.body.start <= child.header.start && child.body.end <= head.body.end
    && forall d :: d in head.delimiters ==> child.body.end <= d.start || d.end <= child.header.start
  }

  ghost predicate Sound(scan: Scan, n: Node) {
    HeadSound(scan, n.head) && KidsPlaced(n.head, n.children) && AllSound(scan, n.children)
  }

  ghost predicate AllSound(scan: Scan, kids: seq<Node>) {
    forall c :: c in kids ==> Sound(scan, c)
  }

  lemma {:induction false} FullSound(scan: Scan, start: nat, end: nat, path: seq<nat>, digestChild: bool)
    requires scan.Valid() && end <= scan.IndexedEnd()
    ensures var node := Full(scan, start, end, path, digestChild).0;
      node.Some? ==>
        && Sound(scan, node.value) && node.value.head.path == path
        && node.value.head.header.start == start && node.value.head.body.end == end
    decreases end - start, 1, 0
  {
    var block := scan.HeaderBlock(start, end);
    if block.Some? {
      HeaderBlockRange(scan, start, end);
      var head := scan.HeadOf(start, end, block.value, path, digestChild);
      HeadOfSound(scan, start, end, path, digestChild);
      KidsSound(scan, start, head, digestChild);
    }
  }

  lemma {:induction false} HeadOfSound(scan: Scan, start: nat, end: nat, path: seq<nat>, digestChild: bool)
    requires scan.Valid() && end <= scan.IndexedEnd() && scan.HeaderBlock(start, end).Some?
    ensures HeadSound(scan, scan.HeadOf(start, end, scan.HeaderBlock(start, end).value, path, digestChild))
  {
    var block := scan.HeaderBlock(start, end).value;
    HeaderBlockRange(scan, start, end);
    var first := FirstFrom(scan.lines, 0, start);
    FieldsFromOk(scan, first, start, scan.BlankLine(first, end).value, []);
    DelimiterRanges(scan, scan.HeadOf(start, end, block, path, digestChild));
  }

  lemma {:induction false} KidsSound(scan: Scan, start: nat, head: Head, digestChild: bool)
    requires scan.Valid() && start < head.body.start <= head.body.end <= scan.IndexedEnd()
    requires head.delimiters == RangesOf(scan, scan.DelimitersOf(head.media, head.body.start, head.body.end))
    ensures var kids := FullKids(scan, start, head, digestChild).0;
      KidsPlaced(head, kids) && AllSound(scan, kids)
    decreases head.body.end - start, 0, 0
  {
    hide FullParts, Full, Contiguous, Scan.Valid, HeadSound, Scan.DelimitersFrom, Scan.BoundaryLine;
    if HasBoundary(head.media) {
      var ds := scan.DelimitersOf(head.media, head.body.start, head.body.end);
      DelimitersInBody(scan, head.media, head.body.start, head.body.end);
      PartsSound(scan, head, ds);
    } else if HoldsMessage(head.media) {
      FullSound(scan, head.body.start, head.body.end, head.path + [1], false);
      var child := Full(scan, head.body.start, head.body.end, head.path + [1], false).0;
      assert head.delimiters == [];
      assert child.Some? ==> KidsPlaced(head, [child.value]);
    }
  }

  function RangesOf(scan: Scan, ds: seq<Delimiter>): seq<Range>
    requires forall i :: 0 <= i < |ds| ==> ds[i].line < |scan.lines|
  {
    seq(|ds|, i requires 0 <= i < |ds| => scan.DelimiterRange(ds[i]))
  }

  lemma {:induction false} DelimiterRanges(scan: Scan, head: Head)
    requires scan.Valid()
    requires head.delimiters == RangesOf(scan, scan.DelimitersOf(head.media, head.body.start, head.body.end))
    ensures forall d :: d in head.delimiters ==> head.body.start <= d.start < d.end && d.start < head.body.end
  {
    var ds := scan.DelimitersOf(head.media, head.body.start, head.body.end);
    DelimitersInBody(scan, head.media, head.body.start, head.body.end);
    forall d | d in head.delimiters ensures head.body.start <= d.start < d.end && d.start < head.body.end {
      var i :| 0 <= i < |ds| && d == scan.DelimiterRange(ds[i]);
      FullLineEndIs(scan, ds[i].line);
    }
  }

  // The place of the part that delimiter k opens: after its line, before the line of delimiter k + 1.
  ghost predicate PartPlaced(scan: Scan, head: Head, ds: seq<Delimiter>, k: nat, child: Head)
    requires k < |ds| && forall i :: 0 <= i < |ds| ==> ds[i].line < |scan.lines|
  {
    && child.path == head.path + [k + 1]
    && child.header.start == scan.FullLineEnd(ds[k].line)
    && child.header.start <= child.body.end <= head.body.end
    && (k + 1 < |ds| ==> child.body.end <= scan.lines[ds[k + 1].line].raw.start)
  }

  ghost predicate AllPlaced(scan: Scan, head: Head, ds: seq<Delimiter>, k: nat, kids: seq<Node>)
    requires forall i :: 0 <= i < |ds| ==> ds[i].line < |scan.lines|
  {
    && k + |kids| <= |ds|
    && (forall i :: 0 <= i < |kids| ==> PartPlaced(scan, head, ds, k + i, kids[i].head))
  }

  // The children are the first parts, one for each delimiter.
  lemma {:induction false} PartsAre(scan: Scan, head: Head, ds: seq<Delimiter>, k: nat)
    requires scan.Valid() && k <= |ds| && DelimitersAfter(scan, ds, head.body.start, head.body.end)
    ensures var kids := FullParts(scan, head, ds, k).0;
      k + |kids| <= |ds| && forall i :: k <= i < k + |kids| ==> PartAt(scan, head, ds, i).0 == Some(kids[i - k])
    decreases |ds| - k
  {
    hide Full, PartAt, DelimitersAfter, Scan.Valid;
    FullPartsIs(scan, head, ds, k);
    if k < |ds| && !ds[k].closing {
      PartsAre(scan, head, ds, k + 1);
    }
  }

  lemma {:induction false} PartsSound(scan: Scan, head: Head, ds: seq<Delimiter>)
    requires scan.Valid() && head.body.start <= head.body.end <= scan.IndexedEnd()
    requires DelimitersAfter(scan, ds, head.body.start, head.body.end) && head.delimiters == RangesOf(scan, ds)
    ensures var kids := FullParts(scan, head, ds, 0).0; KidsPlaced(head, kids) && AllSound(scan, kids)
    decreases head.body.end - head.body.start, 0, 1
  {
    var kids := FullParts(scan, head, ds, 0).0;
    PartsAre(scan, head, ds, 0);
    forall i | 0 <= i < |kids| ensures PartPlaced(scan, head, ds, i, kids[i].head) && Sound(scan, kids[i]) {
      PartSound(scan, head, ds, i);
    }
    PartsPlaced(scan, head, ds, kids);
  }

  lemma {:induction false} PartSound(scan: Scan, head: Head, ds: seq<Delimiter>, k: nat)
    requires scan.Valid() && k < |ds| && head.body.start <= head.body.end <= scan.IndexedEnd()
    requires DelimitersAfter(scan, ds, head.body.start, head.body.end)
    ensures var child := PartAt(scan, head, ds, k).0;
      child.Some? ==> PartPlaced(scan, head, ds, k, child.value.head) && Sound(scan, child.value)
    decreases head.body.end - head.body.start, 0, 0
  {
    FullLineEndIs(scan, ds[k].line);
    var start, end := scan.FullLineEnd(ds[k].line), scan.ChildEnd(ds, k, head.body.end);
    FullSound(scan, start, end, head.path + [k + 1], head.media.mediaType == "multipart/digest");
  }

  lemma {:induction false} PartsPlaced(scan: Scan, head: Head, ds: seq<Delimiter>, kids: seq<Node>)
    requires scan.Valid() && DelimitersAfter(scan, ds, head.body.start, head.body.end)
    requires head.delimiters == RangesOf(scan, ds) && AllPlaced(scan, head, ds, 0, kids)
    ensures KidsPlaced(head, kids)
  {
    forall k | 0 <= k < |kids| ensures kids[k].head.path == head.path + [k + 1] && InBody(head, kids[k].head) {
      assert PartPlaced(scan, head, ds, 0 + k, kids[k].head);
      PartInBody(scan, head, ds, k, kids[k].head);
    }
    forall j, k | 0 <= j < k < |kids| ensures kids[j].head.body.end <= kids[k].head.header.start {
      assert PartPlaced(scan, head, ds, 0 + j, kids[j].head) && PartPlaced(scan, head, ds, 0 + k, kids[k].head);
      DelimiterOrder(scan, head, ds, j + 1, k);
      FullLineEndIs(scan, ds[k].line);
    }
  }

  lemma {:induction false} PartInBody(scan: Scan, head: Head, ds: seq<Delimiter>, k: nat, child: Head)
    requires scan.Valid() && DelimitersAfter(scan, ds, head.body.start, head.body.end)
    requires head.delimiters == RangesOf(scan, ds) && k < |ds| && PartPlaced(scan, head, ds, k, child)
    ensures InBody(head, child)
  {
    FullLineEndIs(scan, ds[k].line);
    forall d | d in head.delimiters ensures child.body.end <= d.start || d.end <= child.header.start {
      var i :| 0 <= i < |ds| && d == scan.DelimiterRange(ds[i]);
      if i <= k {
        DelimiterOrder(scan, head, ds, i, k);
      } else {
        DelimiterOrder(scan, head, ds, k + 1, i);
      }
    }
  }

  lemma {:induction false} DelimiterOrder(scan: Scan, head: Head, ds: seq<Delimiter>, j: nat, k: nat)
    requires scan.Valid() && DelimitersAfter(scan, ds, head.body.start, head.body.end) && j <= k < |ds|
    ensures scan.lines[ds[j].line].raw.start <= scan.lines[ds[k].line].raw.start
    ensures scan.FullLineEnd(ds[j].line) <= scan.FullLineEnd(ds[k].line)
  {
    if j < k {
      ContiguousAscends(scan.raw, scan.lines);
      StartsAscend(scan.raw, scan.lines, 0, ds[j].line, ds[k].line);
      FullLineEndIs(scan, ds[j].line);
      FullLineEndIs(scan, ds[k].line);
    }
  }

  lemma {:induction false} SoundNumbered(scan: Scan, n: Node)
    requires Sound(scan, n)
    ensures NumberedNode(n)
    decreases n, 1, 0
  {
    SoundNumberedFrom(scan, n, 0);
    assert n.children[0..] == n.children;
  }

  lemma {:induction false} SoundNumberedFrom(scan: Scan, n: Node, i: nat)
    requires Sound(scan, n) && i <= |n.children|
    ensures Numbered(n.head.path, n.children[i..], i + 1)
    decreases n, 0, |n.children| - i
  {
    if i < |n.children| {
      assert n.children[i] in n.children;
      SoundNumbered(scan, n.children[i]);
      SoundNumberedFrom(scan, n, i + 1);
      assert n.children[i..][1..] == n.children[i + 1..];
    }
  }

  ghost predicate IsRestriction(a: Node, b: Node) {
    exists j: nat :: j > 0 && a == Restrict(b, j)
  }

  lemma {:induction false} RestrictHeads(ns: seq<Node>, k: nat)
    ensures var rs := RestrictAll(ns, k);
      |rs| <= |ns| && forall i :: 0 <= i < |rs| ==> IsRestriction(rs[i], ns[i])
    decreases ns
  {
    if ns != [] && k > 0 {
      var size := |Preorder(ns[0])|;
      assert IsRestriction(Restrict(ns[0], k), ns[0]);
      if k > size {
        RestrictHeads(ns[1..], k - size);
      }
    }
  }

  lemma {:induction false} SameShapesAt(a: seq<Node>, b: seq<Node>, i: nat)
    requires SameShapes(a, b) && i < |a|
    ensures i < |b| && SameShape(a[i], b[i])
  {
    if i > 0 {
      SameShapesAt(a[1..], b[1..], i - 1);
    }
  }

  lemma {:induction false} RestrictIs(a: Node, b: Node, k: nat)
    requires k > 0 && SameShape(a, Restrict(b, k))
    ensures a.head == b.head && |a.children| == |RestrictAll(b.children, k - 1)|
    ensures SameShapes(a.children, RestrictAll(b.children, k - 1))
  {
  }

  // The first children of a sound node, sound themselves, make it sound.
  lemma {:induction false} FirstKidsSound(scan: Scan, a: Node, b: Node)
    requires Sound(scan, b) && a.head == b.head && |a.children| <= |b.children|
    requires forall i :: 0 <= i < |a.children| ==>
      a.children[i].head == b.children[i].head && Sound(scan, a.children[i])
    ensures Sound(scan, a)
  {
    hide HeadSound, InBody;
  }

  // Restricting a sound tree to its first nodes leaves it sound.
  lemma {:induction false} RestrictionSound(scan: Scan, a: Node, b: Node, k: nat)
    requires k > 0 && Sound(scan, b) && SameShape(a, Restrict(b, k))
    ensures Sound(scan, a)
    decreases a
  {
    hide HeadSound, KidsPlaced, RestrictAll, Restrict, Preorder;
    var rs := RestrictAll(b.children, k - 1);
    RestrictHeads(b.children, k - 1);
    RestrictIs(a, b, k);
    forall i | 0 <= i < |a.children| ensures a.children[i].head == b.children[i].head && Sound(scan, a.children[i]) {
      SameShapesAt(a.children, rs, i);
      assert IsRestriction(rs[i], b.children[i]);
      var j: nat :| j > 0 && rs[i] == Restrict(b.children[i], j);
      assert b.children[i] in b.children;
      RestrictionSound(scan, a.children[i], b.children[i], j);
      RestrictIs(a.children[i], b.children[i], j);
    }
    FirstKidsSound(scan, a, b);
  }

  // Every limited tree is the unlimited one restricted to its first nodes, so its ranges are sound too.
  lemma {:induction false} LimitedTree(scan: Scan, limits: Limits, rank: int, end: nat, path: seq<nat>,
    before: Counters, got: (Option<Node>, bool), after: Counters, hit: Option<Cause>)
    requires scan.Valid() && end <= scan.IndexedEnd() && got.0.Some? && NumberedNode(got.0.value)
    requires Outcome(limits, rank, Full(scan, 0, end, path, false), before, got, after, hit)
    ensures Sound(scan, got.0.value)
    ensures var full := Full(scan, 0, end, path, false).0;
      full.Some? && SameShape(got.0.value, Restrict(full.value, |Preorder(got.0.value)|))
  {
    hide Full, Sound;
    var full := Full(scan, 0, end, path, false).0;
    assert Preorder(got.0.value) != [];
    assert PreorderOf(full) != [];
    FullSound(scan, 0, end, path, false);
    SoundNumbered(scan, full.value);
    PrefixIsRestriction(got.0.value, full.value);
    RestrictionSound(scan, got.0.value, full.value, |Preorder(got.0.value)|);
  }
}
