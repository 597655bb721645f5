/** What resource limits may do to a MIME tree: keep a prefix of its nodes, never change one. */
module MimeLimits {
  import opened Text
  import opened MimeTree

  // A limit of zero or less does not apply.
  datatype Limits = Limits(
    rawBytes: int, depth: int, parts: int, headerFields: int, headerBytes: int, physicalLines: int)

  datatype Cause = RawBytes | Depth | Parts | HeaderFields | HeaderBytes | PhysicalLines

  datatype Counters = Counters(parts: nat, headerBytes: int, headerFields: nat)

  function Preorder(n: Node): (r: seq<Head>)
    ensures r != [] && r[0] == n.head
  {
    [n.head] + PreorderAll(n.children)
  }

  function PreorderAll(ns: seq<Node>): seq<Head> {
    if ns == [] then [] else Preorder(ns[0]) + PreorderAll(ns[1..])
  }

  function PreorderOf(n: Option<Node>): seq<Head> {
    if n.None? then [] else Preorder(n.value)
  }

  function BlockBytes(h: Head): int {
    h.body.start - h.header.start
  }

  predicate Over(limit: int, total: int) {
    limit > 0 && total > limit
  }

  // The first check that turns an entity away once `c` has been spent.
  function Refusal(limits: Limits, c: Counters, h: Head, depth: int): Option<Cause> {
    if Over(limits.depth, depth) then Some(Depth)
    else if Over(limits.parts, c.parts + 1) then Some(Parts)
    else if Over(limits.headerBytes, c.headerBytes + BlockBytes(h)) then Some(HeaderBytes)
    else if Over(limits.headerFields, c.headerFields + |h.fields|) then Some(HeaderFields)
    else None
  }

  function Charge(c: Counters, h: Head): Counters {
    Counters(c.parts + 1, c.headerBytes + BlockBytes(h), c.headerFields + |h.fields|)
  }

  function ChargeAll(c: Counters, hs: seq<Head>): Counters
    decreases |hs|
  {
    if hs == [] then c else ChargeAll(Charge(c, hs[0]), hs[1..])
  }

  // How many of the nodes, in order, fit: up to the first one that is turned away.
  // `rank` is the depth of a node minus the length of its path.
  function Room(limits: Limits, rank: int, c: Counters, hs: seq<Head>): (r: nat)
    ensures r <= |hs|
    decreases |hs|
  {
    if hs == [] || Refusal(limits, c, hs[0], rank + |hs[0].path|).Some? then 0
    else 1 + Room(limits, rank, Charge(c, hs[0]), hs[1..])
  }

  // `got` is the longest prefix of `all` that fits; `hit` is the limit that ended it.
  ghost predicate CutAt(limits: Limits, rank: int, before: Counters, all: seq<Head>, got: seq<Head>, after: Counters,
                        hit: Option<Cause>) {
    && got == all[..Room(limits, rank, before, all)]
    && after == ChargeAll(before, got)
    && (|got| < |all| ==> hit.Some? && hit == Refusal(limits, after, all[|got|], rank + |all[|got|].path|))
  }

  // All of `hs` fit.
  ghost predicate AllFit(limits: Limits, rank: int, before: Counters, hs: seq<Head>, after: Counters) {
    Room(limits, rank, before, hs) == |hs| && after == ChargeAll(before, hs)
  }

  lemma {:induction false} ChargeAllConcat(c: Counters, a: seq<Head>, b: seq<Head>)
    ensures ChargeAll(c, a + b) == ChargeAll(ChargeAll(c, a), b)
    decreases |a|
  {
    if a == [] {
      assert a + b == b;
    } else {
      ChargeAllConcat(Charge(c, a[0]), a[1..], b);
      assert (a + b)[1..] == a[1..] + b;
    }
  }

  lemma {:induction false} RoomConcat(limits: Limits, rank: int, c: Counters, a: seq<Head>, b: seq<Head>)
    ensures var fit := Room(limits, rank, c, a);
      Room(limits, rank, c, a + b) == if fit < |a| then fit else |a| + Room(limits, rank, ChargeAll(c, a), b)
    decreases |a|
  {
    if a == [] {
      assert a + b == b;
    } else {
      RoomConcat(limits, rank, Charge(c, a[0]), a[1..], b);
      assert (a + b)[1..] == a[1..] + b;
    }
  }

  // Cutting a list that fits, then cutting what follows it.
  lemma {:induction false} CutConcat(limits: Limits, rank: int, c: Counters, a: seq<Head>, b: seq<Head>, mid: Counters,
                                     got: seq<Head>, after: Counters, hit: Option<Cause>)
    requires AllFit(limits, rank, c, a, mid) && CutAt(limits, rank, mid, b, got, after, hit)
    ensures CutAt(limits, rank, c, a + b, a + got, after, hit)
  {
    RoomConcat(limits, rank, c, a, b);
    ChargeAllConcat(c, a, got);
    var fit := Room(limits, rank, c, a + b);
    assert (a + b)[..fit] == a + got;
    if |got| < |b| {
      assert (a + b)[|a + got|] == b[|got|];
    }
  }

  // Once a node is turned away, whatever would follow it is irrelevant.
  lemma {:induction false} CutExtend(limits: Limits, rank: int, c: Counters, a: seq<Head>, b: seq<Head>, got: seq<Head>,
                                     after: Counters, hit: Option<Cause>)
    requires CutAt(limits, rank, c, a, got, after, hit)
    requires |got| < |a| || b == []
    ensures CutAt(limits, rank, c, a + b, got, after, hit)
  {
    RoomConcat(limits, rank, c, a, b);
    if b == [] {
      assert a + b == a;
    } else {
      assert (a + b)[..|got|] == a[..|got|];
      assert (a + b)[|got|] == a[|got|];
    }
  }

  lemma {:induction false} CutOne(limits: Limits, rank: int, c: Counters, h: Head)
    ensures var refusal := Refusal(limits, c, h, rank + |h.path|);
      if refusal.Some? then CutAt(limits, rank, c, [h], [], c, refusal)
      else AllFit(limits, rank, c, [h], Charge(c, h))
  {
    assert [h][1..] == [];
    assert Room(limits, rank, Charge(c, h), []) == 0;
    assert [h][..1] == [h];
  }

  lemma {:induction false} PreorderConcat(a: seq<Node>, b: seq<Node>)
    ensures PreorderAll(a + b) == PreorderAll(a) + PreorderAll(b)
  {
    if a == [] {
      assert a + b == b;
    } else {
      PreorderConcat(a[1..], b);
      assert (a + b)[1..] == a[1..] + b && (a + b)[0] == a[0];
      assert PreorderAll(a + b) == Preorder(a[0]) + PreorderAll(a[1..] + b);
      hide Preorder;
      Regroup(Preorder(a[0]), PreorderAll(a[1..]), PreorderAll(b));
    }
  }

  // A budget that is respected stays respected by whatever a cut keeps.
  predicate Within(limits: Limits, c: Counters) {
    !Over(limits.parts, c.parts) && !Over(limits.headerBytes, c.headerBytes)
      && !Over(limits.headerFields, c.headerFields)
  }

  lemma {:induction false} CutStaysWithin(limits: Limits, rank: int, c: Counters, hs: seq<Head>)
    requires Within(limits, c)
    ensures Within(limits, ChargeAll(c, hs[..Room(limits, rank, c, hs)]))
    decreases |hs|
  {
    var fit := Room(limits, rank, c, hs);
    if fit > 0 {
      CutStaysWithin(limits, rank, Charge(c, hs[0]), hs[1..]);
      assert hs[..fit][1..] == hs[1..][..fit - 1];
    }
  }

  // How a limited parse relates to the unlimited one: cut at `hit`, or the very same result.
  ghost predicate Outcome(limits: Limits, rank: int, full: (Option<Node>, bool), before: Counters,
    got: (Option<Node>, bool), after: Counters, hit: Option<Cause>)
  {
    && CutAt(limits, rank, before, PreorderOf(full.0), PreorderOf(got.0), after, hit)
    && (hit.None? ==> got == full)
    && (hit.Some? ==> !got.1 && (PreorderOf(got.0) == PreorderOf(full.0) ==> !full.1))
  }

  ghost predicate Outcomes(limits: Limits, rank: int, full: (seq<Node>, bool), before: Counters,
    got: (seq<Node>, bool), after: Counters, hit: Option<Cause>)
  {
    && CutAt(limits, rank, before, PreorderAll(full.0), PreorderAll(got.0), after, hit)
    && (hit.None? ==> got == full)
    && (hit.Some? ==> !got.1 && (PreorderAll(got.0) == PreorderAll(full.0) ==> !full.1))
  }

  lemma {:induction false} PreorderOne(n: Option<Node>)
    ensures PreorderAll(ListOf(n)) == PreorderOf(n)
  {
    assert n.Some? ==> PreorderAll([n.value][1..]) == [];
  }

  // A part that was cut, or that the unlimited parse also stops at, ends the list of children.
  lemma {:induction false} OutcomeLast(limits: Limits, rank: int, part: (Option<Node>, bool), rest: (seq<Node>, bool),
                                       before: Counters, got: (Option<Node>, bool), after: Counters, hit: Option<Cause>)
    requires Outcome(limits, rank, part, before, got, after, hit) && !got.1 && (part.0.None? ==> !part.1)
    ensures Outcomes(limits, rank, AddPart(part, rest), before, (ListOf(got.0), false), after, hit)
  {
    PreorderOne(part.0);
    PreorderOne(got.0);
    if hit.Some? && part.1 {
      var one := [part.0.value];
      PreorderConcat(one, rest.0);
      CutExtend(limits, rank, before, PreorderAll(one), PreorderAll(rest.0), PreorderOf(got.0), after, hit);
    }
  }

  // A list of children all of which were kept, followed by the outcome of the others.
  lemma {:induction false} OutcomeConcat(limits: Limits, rank: int, kept: seq<Node>, full: (seq<Node>, bool),
                                         before: Counters, mid: Counters, got: (seq<Node>, bool), after: Counters,
                                         hit: Option<Cause>)
    requires AllFit(limits, rank, before, PreorderAll(kept), mid)
    requires Outcomes(limits, rank, full, mid, got, after, hit)
    ensures Outcomes(limits, rank, (kept + full.0, full.1), before, (kept + got.0, got.1), after, hit)
  {
    PreorderConcat(kept, full.0);
    PreorderConcat(kept, got.0);
    CutConcat(limits, rank, before, PreorderAll(kept), PreorderAll(full.0), mid, PreorderAll(got.0), after, hit);
  }

  // A complete part was kept whole: it joins the children, and the others follow it.
  lemma {:induction false} OutcomeComplete(limits: Limits, rank: int, kept: seq<Node>, part: (Option<Node>, bool),
                                           rest: (seq<Node>, bool), before: Counters, mid: Counters,
                                           got: (Option<Node>, bool), after: Counters, hit: Option<Cause>)
    requires AllFit(limits, rank, before, PreorderAll(kept), mid)
    requires Outcome(limits, rank, part, mid, got, after, hit) && got.1 && (part.0.None? ==> !part.1)
    ensures hit == None && got == part && got.0.Some?
    ensures AllFit(limits, rank, before, PreorderAll(kept + [got.0.value]), after)
    ensures (kept + AddPart(part, rest).0, AddPart(part, rest).1) == (kept + [got.0.value] + rest.0, rest.1)
  {
    hide *;
    CompleteIsWhole(limits, rank, part, mid, got, after, hit);
    FitGrows(limits, rank, kept, got.0.value, before, mid, after);
    AddConcat(kept, part, rest);
  }

  lemma {:induction false} CompleteIsWhole(limits: Limits, rank: int, part: (Option<Node>, bool), before: Counters,
                                           got: (Option<Node>, bool), after: Counters, hit: Option<Cause>)
    requires Outcome(limits, rank, part, before, got, after, hit) && got.1 && (part.0.None? ==> !part.1)
    ensures hit == None && got == part && got.0.Some?
    ensures AllFit(limits, rank, before, Preorder(got.0.value), after)
  {
    hide Preorder, Room, ChargeAll, Refusal;
    assert Preorder(got.0.value)[..|Preorder(got.0.value)|] == Preorder(got.0.value);
  }

  lemma {:induction false} FitGrows(limits: Limits, rank: int, kept: seq<Node>, n: Node, before: Counters,
                                    mid: Counters, after: Counters)
    requires AllFit(limits, rank, before, PreorderAll(kept), mid) && AllFit(limits, rank, mid, Preorder(n), after)
    ensures AllFit(limits, rank, before, PreorderAll(kept + [n]), after)
  {
    hide Preorder, PreorderAll, Room, ChargeAll;
    PreorderOne(Some(n));
    PreorderConcat(kept, [n]);
    RoomConcat(limits, rank, before, PreorderAll(kept), Preorder(n));
    ChargeAllConcat(before, PreorderAll(kept), Preorder(n));
  }

  lemma {:induction false} AddConcat(kept: seq<Node>, part: (Option<Node>, bool), rest: (seq<Node>, bool))
    requires part.0.Some? && part.1
    ensures (kept + AddPart(part, rest).0, AddPart(part, rest).1) == (kept + [part.0.value] + rest.0, rest.1)
  {
    Regroup(kept, [part.0.value], rest.0);
  }

  lemma {:induction false} OutcomeKept(limits: Limits, rank: int, kept: seq<Node>, before: Counters, after: Counters)
    requires AllFit(limits, rank, before, PreorderAll(kept), after)
    ensures Outcomes(limits, rank, (kept, true), before, (kept, true), after, None)
  {
    var hs := PreorderAll(kept);
    assert hs[..|hs|] == hs;
  }

  lemma {:induction false} OutcomeChild(limits: Limits, rank: int, full: (Option<Node>, bool), before: Counters,
    got: (Option<Node>, bool), after: Counters, hit: Option<Cause>)
    requires Outcome(limits, rank, full, before, got, after, hit)
    ensures Outcomes(limits, rank, (ListOf(full.0), full.1), before, (ListOf(got.0), got.1), after, hit)
  {
    PreorderOne(full.0);
    PreorderOne(got.0);
  }

  // An unclosed multipart is incomplete either way.
  lemma {:induction false} OutcomeClosed(limits: Limits, rank: int, full: (seq<Node>, bool), before: Counters,
    got: (seq<Node>, bool), after: Counters, hit: Option<Cause>, closed: bool)
    requires Outcomes(limits, rank, full, before, got, after, hit)
    ensures Outcomes(limits, rank, (full.0, full.1 && closed), before, (got.0, got.1 && closed), after, hit)
  {
  }

  // An admitted entity with the outcome of its children.
  lemma {:induction false} OutcomeNode(limits: Limits, rank: int, head: Head, complete: bool, full: (seq<Node>, bool),
                                       before: Counters, got: (seq<Node>, bool), after: Counters, hit: Option<Cause>)
    requires Refusal(limits, before, head, rank + |head.path|).None?
    requires Outcomes(limits, rank, full, Charge(before, head), got, after, hit)
    ensures var all, ok := complete && full.1, complete && got.1;
      Outcome(limits, rank, (Some(Node(head, full.0, all)), all), before, (Some(Node(head, got.0, ok)), ok), after, hit)
  {
    CutOne(limits, rank, before, head);
    CutConcat(limits, rank, before, [head], PreorderAll(full.0), Charge(before, head), PreorderAll(got.0), after, hit);
  }

  // An entity turned away by its own checks.
  lemma {:induction false} OutcomeRefused(limits: Limits, rank: int, full: (Option<Node>, bool), c: Counters,
                                          hit: Cause)
    requires full.0.None? ==> !full.1
    requires full.0.Some? ==> Refusal(limits, c, full.0.value.head, rank + |full.0.value.head.path|) == Some(hit)
    ensures Outcome(limits, rank, full, c, (None, false), c, Some(hit))
  {
  }

  // Neither parse finds an entity.
  lemma {:induction false} OutcomeNothing(limits: Limits, rank: int, c: Counters)
    ensures Outcome(limits, rank, (None, false), c, (None, false), c, None)
  {
  }

  // The unlimited tree restricted to its first k nodes in preorder.
  function Restrict(n: Node, k: nat): Node
    requires k > 0
  {
    n.(children := RestrictAll(n.children, k - 1))
  }

  function RestrictAll(ns: seq<Node>, k: nat): seq<Node> {
    if ns == [] || k == 0 then []
    else
      var size := |Preorder(ns[0])|;
      [Restrict(ns[0], k)] + if k <= size then [] else RestrictAll(ns[1..], k - size)
  }

  // The same tree up to the completeness marks.
  predicate SameShape(a: Node, b: Node) {
    a.head == b.head && SameShapes(a.children, b.children)
  }

  predicate SameShapes(a: seq<Node>, b: seq<Node>) {
    |a| == |b| && (a != [] ==> SameShape(a[0], b[0]) && SameShapes(a[1..], b[1..]))
  }

  // Children are numbered from `first` below the parent's path.
  predicate Numbered(path: seq<nat>, ns: seq<Node>, first: nat)
    decreases ns
  {
    ns != [] ==>
      && ns[0].head.path == path + [first]
      && Numbered(ns[0].head.path, ns[0].children, 1)
      && Numbered(path, ns[1..], first + 1)
  }

  predicate NumberedNode(n: Node) {
    Numbered(n.head.path, n.children, 1)
  }

  lemma {:induction false} NumberedAppend(path: seq<nat>, ns: seq<Node>, first: nat, n: Node)
    requires Numbered(path, ns, first) && n.head.path == path + [first + |ns|] && NumberedNode(n)
    ensures Numbered(path, ns + [n], first)
    decreases |ns|
  {
    if ns == [] {
      assert (ns + [n])[1..] == [];
    } else {
      NumberedAppend(path, ns[1..], first + 1, n);
      assert (ns + [n])[1..] == ns[1..] + [n];
    }
  }

  lemma {:induction false} NumberedAdd(path: seq<nat>, ns: seq<Node>, n: Option<Node>)
    requires Numbered(path, ns, 1)
    requires n.Some? ==> n.value.head.path == path + [|ns| + 1] && NumberedNode(n.value)
    ensures Numbered(path, ns + ListOf(n), 1)
    ensures n.Some? ==> Numbered(path, ns + [n.value], 1)
  {
    if n.Some? {
      NumberedAppend(path, ns, 1, n.value);
    } else {
      assert ns + [] == ns;
    }
  }

  // Every node below n carries n's path as a prefix of its own; later siblings do not.
  lemma {:induction false} PathsBelow(n: Node)
    requires NumberedNode(n)
    ensures forall h :: h in Preorder(n) ==> n.head.path <= h.path
    decreases n
  {
    PathsBelowAll(n.head.path, n.children, 1);
    forall h | h in Preorder(n) ensures n.head.path <= h.path {
      if h in PreorderAll(n.children) {
        assert n.head.path <= h.path;
      }
    }
  }

  lemma {:induction false} PathsBelowAll(path: seq<nat>, ns: seq<Node>, first: nat)
    requires Numbered(path, ns, first)
    ensures forall h :: h in PreorderAll(ns) ==> |path| < |h.path| && path <= h.path && first <= h.path[|path|]
    decreases ns
  {
    if ns != [] {
      PathsBelow(ns[0]);
      PathsBelowAll(path, ns[1..], first + 1);
      forall h | h in PreorderAll(ns) ensures |path| < |h.path| && path <= h.path && first <= h.path[|path|] {
        if h in Preorder(ns[0]) {
          assert h.path[|path|] == ns[0].head.path[|path|];
        } else {
          assert h in PreorderAll(ns[1..]);
        }
      }
    }
  }

  // Numbered trees are determined by their preorder: a tree that lists a prefix is the restriction to it.
  lemma {:induction false} PrefixIsRestriction(a: Node, b: Node)
    requires NumberedNode(a) && NumberedNode(b) && Preorder(a) <= Preorder(b)
    ensures SameShape(a, Restrict(b, |Preorder(a)|))
    decreases a, 0
  {
    assert Preorder(a)[1..] == PreorderAll(a.children) && Preorder(b)[1..] == PreorderAll(b.children);
    assert a.head == Preorder(b)[0];
    PrefixIsRestrictions(a.head.path, a.children, b.children, 1);
  }

  lemma {:induction false} PrefixIsRestrictions(path: seq<nat>, a: seq<Node>, b: seq<Node>, first: nat)
    requires Numbered(path, a, first) && Numbered(path, b, first) && PreorderAll(a) <= PreorderAll(b)
    ensures SameShapes(a, RestrictAll(b, |PreorderAll(a)|))
    decreases a, 1
  {
    if a != [] {
      assert b != [];
      var x, y, xs, ys := Preorder(a[0]), Preorder(b[0]), PreorderAll(a[1..]), PreorderAll(b[1..]);
      SubtreesAlign(path, a, b, first);
      assert x <= y by {
        forall i | 0 <= i < |x| ensures x[i] == y[i] {
          assert x[i] == (x + xs)[i] == (y + ys)[i];
        }
      }
      PrefixIsRestriction(a[0], b[0]);
      if xs != [] {
        forall i | 0 <= i < |xs| ensures i < |ys| && xs[i] == ys[i] {
          assert xs[i] == (x + xs)[|x| + i] == (y + ys)[|x| + i];
        }
        PrefixIsRestrictions(path, a[1..], b[1..], first + 1);
        assert Restrict(b[0], |x + xs|) == Restrict(b[0], |x|) by {
          RestrictWhole(b[0], |x|);
          RestrictWhole(b[0], |x + xs|);
        }
      } else {
        assert a[1..] == [];
      }
    }
  }

  // The first subtrees of two such lists are aligned: neither reaches into the next sibling of the other.
  lemma {:induction false} SubtreesAlign(path: seq<nat>, a: seq<Node>, b: seq<Node>, first: nat)
    requires a != [] && b != [] && Numbered(path, a, first) && Numbered(path, b, first)
      && PreorderAll(a) <= PreorderAll(b)
    ensures |Preorder(a[0])| <= |Preorder(b[0])|
    ensures PreorderAll(a[1..]) != [] ==> |Preorder(a[0])| == |Preorder(b[0])|
  {
    var x, y, xs, ys := Preorder(a[0]), Preorder(b[0]), PreorderAll(a[1..]), PreorderAll(b[1..]);
    PathsBelow(a[0]);
    PathsBelow(b[0]);
    PathsBelowAll(path, a[1..], first + 1);
    PathsBelowAll(path, b[1..], first + 1);
    if |y| < |x| {
      SameSubtree(x, xs, y, ys, |path|, first, |y|);
    }
    if xs != [] && |x| < |y| {
      SameSubtree(x, xs, y, ys, |path|, first, |x|);
    }
  }

  // An element tells by its path whether it belongs to the first subtree, in either list.
  lemma {:induction false} SameSubtree(x: seq<Head>, xs: seq<Head>, y: seq<Head>, ys: seq<Head>, d: nat, first: nat,
                                       i: nat)
    requires x + xs <= y + ys && i < |x + xs|
    requires forall h :: h in x || h in y ==> d < |h.path| && h.path[d] == first
    requires forall h :: h in xs || h in ys ==> d < |h.path| && h.path[d] > first
    ensures i < |x| <==> i < |y|
  {
    var h := (x + xs)[i];
    assert h == (y + ys)[i];
    assert h == if i < |x| then x[i] else xs[i - |x|];
    assert h == if i < |y| then y[i] else ys[i - |y|];
  }

  lemma {:induction false} RestrictWhole(n: Node, k: nat)
    requires k >= |Preorder(n)|
    ensures Restrict(n, k) == n
    decreases n, 0
  {
    RestrictWholeAll(n.children, k - 1);
  }

  lemma {:induction false} RestrictWholeAll(ns: seq<Node>, k: nat)
    requires k >= |PreorderAll(ns)|
    ensures RestrictAll(ns, k) == ns
    decreases ns, 1
  {
    if ns != [] {
      RestrictWhole(ns[0], k);
      if k > |Preorder(ns[0])| {
        RestrictWholeAll(ns[1..], k - |Preorder(ns[0])|);
      } else {
        assert PreorderAll(ns[1..]) == [] && ns[1..] == [];
      }
    }
  }
}
