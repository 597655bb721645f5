/** The indexed open-element stack of the HTML analysis (internal/inspect/html_analysis.go). */
module OpenTags {
  import opened Text

  const MAX_HTML_NODES: nat := 100000

  // What the loop reads of a token: lower-cased names, whether the attributes hide the element, an image's alt text
  // and a text run, both normalised.
  datatype Token =
    | StartTag(name: string, hides: bool, alt: string, selfClosing: bool)
    | EndTag(name: string)
    | TextRun(text: string)

  // An open element. Anchors are numbered in order of appearance.
  datatype Element = Element(name: string, hidden: bool, anchor: Option<nat>)

  // What an anchor was given as its label.
  datatype Label = Label(anchor: nat, text: string)

  // The plain machine: a stack, the labels given and the anchors judged so far, and how many anchors were seen.
  datatype Plain = Plain(stack: seq<Element>, labels: seq<Label>, pending: seq<nat>, anchors: nat)

  // Top-down search for the open element an end tag closes.
  function FindOpen(stack: seq<Element>, name: string, n: nat): (r: Option<nat>)
    requires n <= |stack|
    ensures r.Some? ==>
      r.value < n && stack[r.value].name == name && forall k :: r.value < k < n ==> stack[k].name != name
    ensures r.None? ==> forall k :: 0 <= k < n ==> stack[k].name != name
  {
    if n == 0 then None else if stack[n - 1].name == name then Some(n - 1) else FindOpen(stack, name, n - 1)
  }

  // Top-down search for the innermost open anchor.
  function InnermostAnchor(stack: seq<Element>, n: nat): (r: Option<nat>)
    requires n <= |stack|
  {
    if n == 0 then None else if stack[n - 1].anchor.Some? then stack[n - 1].anchor else InnermostAnchor(stack, n - 1)
  }

  function AnchorOf(e: Element): seq<nat> {
    if e.anchor.Some? then [e.anchor.value] else []
  }

  // The anchors among stack[low..high], topmost first.
  function AnchorsDown(stack: seq<Element>, low: nat, high: nat): seq<nat>
    requires low <= high <= |stack|
    decreases high - low
  {
    if low == high then [] else AnchorOf(stack[high - 1]) + AnchorsDown(stack, low, high - 1)
  }

  // ... bottommost first.
  function AnchorsUp(stack: seq<Element>, n: nat): seq<nat>
    requires n <= |stack|
  {
    if n == 0 then [] else AnchorsUp(stack, n - 1) + AnchorOf(stack[n - 1])
  }

  predicate TopHidden(stack: seq<Element>) {
    stack != [] && Last(stack).hidden
  }

  // Text for the innermost open anchor, if there is one.
  function Labelled(stack: seq<Element>, text: string): seq<Label> {
    match InnermostAnchor(stack, |stack|)
    case None => []
    case Some(a) => [Label(a, text)]
  }

  function PlainClose(p: Plain, name: string): Plain {
    match FindOpen(p.stack, name, |p.stack|)
    case None => p
    case Some(i) => p.(stack := p.stack[..i], pending := p.pending + AnchorsDown(p.stack, i, |p.stack|))
  }

  // An opened element, or one that is empty and closes at once.
  function PlainOpen(p: Plain, e: Element, stays: bool): Plain {
    var q := p.(anchors := p.anchors + |AnchorOf(e)|);
    if stays then q.(stack := q.stack + [e]) else q.(pending := q.pending + AnchorOf(e))
  }

  function PlainText(p: Plain, text: string): Plain {
    p.(labels := p.labels + Labelled(p.stack, text))
  }

  function PlainStep(isVoid: string -> bool, p: Plain, token: Token): Plain {
    match token
    case TextRun(text) => if text == "" || TopHidden(p.stack) then p else PlainText(p, text)
    case EndTag(name) => PlainClose(p, name)
    case StartTag(name, hides, alt, selfClosing) =>
      var hidden := hides || TopHidden(p.stack);
      var q := if name == "img" && !hidden then PlainText(p, alt) else p;
      PlainOpen(q, Element(name, hidden, if name == "a" then Some(q.anchors) else None), !selfClosing && !isVoid(name))
  }

  function PlainRun(isVoid: string -> bool, tokens: seq<Token>): Plain {
    if tokens == [] then Plain([], [], [], 0)
    else PlainStep(isVoid, PlainRun(isVoid, tokens[..|tokens| - 1]), Last(tokens))
  }

  // Elements still open at the end are judged too.
  function Judged(p: Plain): seq<nat> {
    p.pending + AnchorsUp(p.stack, |p.stack|)
  }

  lemma {:induction false} UpOfPrefix(stack: seq<Element>, other: seq<Element>, n: nat)
    requires n <= |stack| && n <= |other| && stack[..n] == other[..n]
    ensures AnchorsUp(stack, n) == AnchorsUp(other, n)
  {
    if n > 0 {
      assert stack[..n][..n - 1] == stack[..n - 1] && other[..n][..n - 1] == other[..n - 1];
      assert stack[n - 1] == stack[..n][n - 1] == other[n - 1];
      UpOfPrefix(stack, other, n - 1);
    }
  }

  lemma {:induction false} NoneDown(stack: seq<Element>)
    ensures AnchorsDown(stack, |stack|, |stack|) == []
  {
  }

  lemma {:induction false} DownGrows(stack: seq<Element>, low: nat, high: nat)
    requires low < high <= |stack|
    ensures var above, anchor := AnchorsDown(stack, low + 1, high), stack[low].anchor;
      AnchorsDown(stack, low, high) == if anchor.Some? then above + [anchor.value] else above
    decreases high
  {
    if low + 1 < high {
      DownGrows(stack, low, high - 1);
      var top, above, anchor := AnchorOf(stack[high - 1]), AnchorsDown(stack, low + 1, high - 1), stack[low].anchor;
      assert AnchorsDown(stack, low, high) == top + AnchorsDown(stack, low, high - 1);
      assert AnchorsDown(stack, low + 1, high) == top + above;
      hide *;
      if anchor.Some? {
        Regroup(top, above, [anchor.value]);
      }
    } else {
      assert AnchorsDown(stack, high, high) == [] && AnchorsDown(stack, low, low) == [];
    }
  }

  lemma {:induction false} AnchorsStep(stack: seq<Element>, low: nat, high: nat)
    requires low < high <= |stack|
    ensures AnchorsUp(stack, high) == AnchorsUp(stack, high - 1) + AnchorOf(stack[high - 1])
    ensures AnchorsDown(stack, low, high) == AnchorOf(stack[high - 1]) + AnchorsDown(stack, low, high - 1)
  {
  }

  lemma {:induction false} NoAnchors(stack: seq<Element>, low: nat)
    requires low <= |stack|
    ensures AnchorsDown(stack, low, low) == []
  {
  }

  lemma {:induction false} DownAndUp(stack: seq<Element>, low: nat, high: nat)
    requires low <= high <= |stack|
    ensures multiset(AnchorsUp(stack, high)) ==
      multiset(AnchorsUp(stack, low)) + multiset(AnchorsDown(stack, low, high))
    decreases high - low
  {
    hide *;
    if low < high {
      DownAndUp(stack, low, high - 1);
      AnchorsStep(stack, low, high);
      var up, down, top := AnchorsUp(stack, high - 1), AnchorsDown(stack, low, high - 1), AnchorOf(stack[high - 1]);
      Together(up, top);
      Together(top, down);
    } else {
      NoAnchors(stack, low);
    }
  }

  // 0, ..., n - 1, each once.
  function FirstNumbers(n: nat): (m: multiset<nat>)
    ensures forall a: nat :: m[a] == if a < n then 1 else 0
  {
    if n == 0 then multiset{} else FirstNumbers(n - 1) + multiset{n - 1}
  }

  lemma {:induction false} CloseJudges(p: Plain, name: string)
    ensures multiset(Judged(PlainClose(p, name))) == multiset(Judged(p))
  {
    var found := FindOpen(p.stack, name, |p.stack|);
    if found.Some? {
      DownAndUp(p.stack, found.value, |p.stack|);
      UpOfPrefix(p.stack, p.stack[..found.value], found.value);
      hide AnchorsUp, AnchorsDown, FindOpen;
    }
  }

  lemma {:induction false} Together<T>(a: seq<T>, b: seq<T>)
    ensures multiset(a + b) == multiset(a) + multiset(b)
  {
  }

  lemma {:induction false} Inserted<T>(x: seq<T>, a: seq<T>, y: seq<T>)
    ensures multiset(x + a + y) == multiset(x + y) + multiset(a)
  {
  }

  lemma {:induction false} OpenAdds(p: Plain, e: Element, stays: bool)
    ensures var q := PlainOpen(p, e, stays);
      multiset(Judged(q)) == multiset(Judged(p)) + multiset(AnchorOf(e)) && q.anchors == p.anchors + |AnchorOf(e)|
  {
    var n, a := |p.stack|, AnchorOf(e);
    var ups := AnchorsUp(p.stack, n);
    UpOfPrefix(p.stack + [e], p.stack, n);
    assert AnchorsUp(p.stack + [e], n + 1) == ups + a && Judged(p) == p.pending + ups;
    assert Judged(PlainOpen(p, e, stays)) == if stays then p.pending + (ups + a) else p.pending + a + ups;
    assert PlainOpen(p, e, stays).anchors == p.anchors + |a|;
    hide *;
    if stays {
      Regroup(p.pending, ups, a);
      Together(p.pending + ups, a);
    } else {
      Inserted(p.pending, a, ups);
    }
  }

  lemma {:induction false} OpenJudges(p: Plain, e: Element, stays: bool)
    requires multiset(Judged(p)) == FirstNumbers(p.anchors) && (e.anchor.Some? ==> e.anchor.value == p.anchors)
    ensures var q := PlainOpen(p, e, stays); multiset(Judged(q)) == FirstNumbers(q.anchors)
  {
    OpenAdds(p, e, stays);
    hide PlainOpen, Judged;
    assert multiset(AnchorOf(e)) == if e.anchor.Some? then multiset{p.anchors} else multiset{};
  }

  lemma {:induction false} TextJudges(p: Plain, text: string)
    ensures Judged(PlainText(p, text)) == Judged(p) && PlainText(p, text).anchors == p.anchors
  {
  }

  lemma {:induction false} SameAnchors(p: Plain, name: string)
    ensures PlainClose(p, name).anchors == p.anchors
  {
  }

  lemma {:induction false} StepJudges(isVoid: string -> bool, p: Plain, token: Token)
    requires multiset(Judged(p)) == FirstNumbers(p.anchors)
    ensures var q := PlainStep(isVoid, p, token); multiset(Judged(q)) == FirstNumbers(q.anchors)
  {
    hide Judged, FirstNumbers, PlainText, PlainOpen, PlainClose;
    match token {
      case TextRun(text) => TextJudges(p, text);
      case EndTag(name) =>
        CloseJudges(p, name);
        SameAnchors(p, name);
      case StartTag(name, hides, alt, selfClosing) =>
        var hidden := hides || TopHidden(p.stack);
        var q := if name == "img" && !hidden then PlainText(p, alt) else p;
        TextJudges(p, alt);
        var e := Element(name, hidden, if name == "a" then Some(q.anchors) else None);
        OpenJudges(q, e, !selfClosing && !isVoid(name));
    }
  }

  // In a whole run every anchor is judged exactly once, however badly the tags nest.
  lemma {:induction false} JudgedOnce(isVoid: string -> bool, tokens: seq<Token>)
    ensures var p := PlainRun(isVoid, tokens); multiset(Judged(p)) == FirstNumbers(p.anchors)
  {
    if tokens != [] {
      var before := PlainRun(isVoid, tokens[..|tokens| - 1]);
      JudgedOnce(isVoid, tokens[..|tokens| - 1]);
      StepJudges(isVoid, before, Last(tokens));
      hide PlainStep, Judged, FirstNumbers;
    }
  }

  function Nodes(tokens: seq<Token>): nat {
    if tokens == [] then 0
    else Nodes(tokens[..|tokens| - 1]) + if Last(tokens).StartTag? then 1 else 0
  }

  // Ascending positions, among the first n, of the elements with a name.
  function Positions(stack: seq<Element>, name: string, n: nat): seq<nat>
    requires n <= |stack|
  {
    if n == 0 then [] else Positions(stack, name, n - 1) + if stack[n - 1].name == name then [n - 1] else []
  }

  function AnchorPositions(stack: seq<Element>, n: nat): seq<nat>
    requires n <= |stack|
  {
    if n == 0 then [] else AnchorPositions(stack, n - 1) + if stack[n - 1].anchor.Some? then [n - 1] else []
  }

  ghost predicate Ascending(positions: seq<nat>) {
    forall j, k :: 0 <= j < k < |positions| ==> positions[j] < positions[k]
  }

  // The index lists exactly the open elements of a name, in stack order.
  lemma {:induction false} PositionsAre(stack: seq<Element>, name: string, n: nat)
    requires n <= |stack|
    ensures Ascending(Positions(stack, name, n))
    ensures forall i :: i in Positions(stack, name, n) <==> 0 <= i < n && stack[i].name == name
  {
    if n > 0 {
      PositionsAre(stack, name, n - 1);
      var before := Positions(stack, name, n - 1);
      assert forall k :: 0 <= k < |before| ==> before[k] in before;
    }
  }

  function Owned(openTags: map<string, seq<nat>>, name: string): seq<nat> {
    if name in openTags then openTags[name] else []
  }

  // A closing element gives up its position, if it is still the last one of its name.
  function Disowned(openTags: map<string, seq<nat>>, name: string, position: nat): map<string, seq<nat>> {
    var owned := Owned(openTags, name);
    if |owned| != 0 && Last(owned) == position then openTags[name := owned[..|owned| - 1]] else openTags
  }

  // The index over the stack: per name its positions, the anchors' positions, and the topmost anchor.
  ghost predicate Indexed(stack: seq<Element>, openTags: map<string, seq<nat>>, anchorHistory: seq<nat>,
                          nearestAnchor: int) {
    && (forall name {:trigger Owned(openTags, name)} :: Owned(openTags, name) == Positions(stack, name, |stack|))
    && anchorHistory == AnchorPositions(stack, |stack|)
    && nearestAnchor == if anchorHistory == [] then -1 else Last(anchorHistory)
  }

  // The nearest anchor is the innermost open one.
  lemma {:induction false} NearestIsInnermost(stack: seq<Element>, n: nat)
    requires n <= |stack|
    ensures var ps := AnchorPositions(stack, n);
      if ps == [] then InnermostAnchor(stack, n) == None
      else Last(ps) < n && stack[Last(ps)].anchor.Some? && InnermostAnchor(stack, n) == stack[Last(ps)].anchor
           && ps[..|ps| - 1] == AnchorPositions(stack, Last(ps))
  {
    if n > 0 {
      NearestIsInnermost(stack, n - 1);
    }
  }

  lemma {:induction false} NearestAnchor(stack: seq<Element>, openTags: map<string, seq<nat>>, anchorHistory: seq<nat>,
                                         nearestAnchor: int)
    requires Indexed(stack, openTags, anchorHistory, nearestAnchor)
    ensures
      if nearestAnchor < 0 then InnermostAnchor(stack, |stack|) == None
      else
        && nearestAnchor < |stack| && stack[nearestAnchor].anchor.Some?
        && InnermostAnchor(stack, |stack|) == stack[nearestAnchor].anchor
  {
    NearestIsInnermost(stack, |stack|);
  }

  // The last indexed position of a name is where the top-down search ends.
  lemma {:induction false} LastPosition(stack: seq<Element>, name: string, n: nat)
    requires n <= |stack|
    ensures var ps := Positions(stack, name, n);
      if ps == [] then FindOpen(stack, name, n) == None
      else
        && FindOpen(stack, name, n) == Some(Last(ps)) && Last(ps) < n
        && ps[..|ps| - 1] == Positions(stack, name, Last(ps))
  {
    if n > 0 {
      LastPosition(stack, name, n - 1);
    }
  }

  lemma {:induction false} PositionsOfPrefix(stack: seq<Element>, other: seq<Element>, name: string, n: nat)
    requires n <= |stack| && n <= |other| && stack[..n] == other[..n]
    ensures Positions(stack, name, n) == Positions(other, name, n)
    ensures AnchorPositions(stack, n) == AnchorPositions(other, n)
  {
    if n > 0 {
      assert stack[..n][..n - 1] == stack[..n - 1] && other[..n][..n - 1] == other[..n - 1];
      assert stack[n - 1] == stack[..n][n - 1] == other[n - 1];
      PositionsOfPrefix(stack, other, name, n - 1);
    }
  }

  // Once no indexed anchor is at or above an index, the anchors below it are left.
  lemma {:induction false} AnchorsBelow(stack: seq<Element>, index: nat, n: nat)
    requires index <= n <= |stack|
    requires var ps := AnchorPositions(stack, n); ps == [] || Last(ps) < index
    ensures AnchorPositions(stack, n) == AnchorPositions(stack, index)
  {
    if index < n {
      AnchorsBelow(stack, index, n - 1);
    }
  }

  lemma {:induction false} RunStep(isVoid: string -> bool, tokens: seq<Token>, t: nat)
    requires t < |tokens|
    ensures PlainRun(isVoid, tokens[..t + 1]) == PlainStep(isVoid, PlainRun(isVoid, tokens[..t]), tokens[t])
    ensures Nodes(tokens[..t + 1]) == Nodes(tokens[..t]) + if tokens[t].StartTag? then 1 else 0
  {
    assert tokens[..t + 1][..t] == tokens[..t];
  }

  method LabelNearest(stack: seq<Element>, openTags: map<string, seq<nat>>, anchorHistory: seq<nat>, nearestAnchor: int,
                      labels: seq<Label>, text: string) returns (labels': seq<Label>)
    requires Indexed(stack, openTags, anchorHistory, nearestAnchor)
    ensures labels' == labels + Labelled(stack, text)
  {
    NearestAnchor(stack, openTags, anchorHistory, nearestAnchor);
    labels' := labels;
    if nearestAnchor >= 0 {
      labels' := labels + [Label(stack[nearestAnchor].anchor.value, text)];
    }
  }

  method PushElement(e: Element, stack: seq<Element>, openTags: map<string, seq<nat>>, anchorHistory: seq<nat>,
                     nearestAnchor: int)
    returns (stack': seq<Element>, openTags': map<string, seq<nat>>, anchorHistory': seq<nat>, nearestAnchor': int)
    requires Indexed(stack, openTags, anchorHistory, nearestAnchor)
    ensures Indexed(stack', openTags', anchorHistory', nearestAnchor')
    ensures stack' == stack + [e]
  {
    PushIndexed(stack, openTags, anchorHistory, nearestAnchor, e);
    hide Indexed;
    stack', anchorHistory', nearestAnchor' := stack + [e], anchorHistory, nearestAnchor;
    openTags' := openTags[e.name := Owned(openTags, e.name) + [|stack|]];
    if e.anchor.Some? {
      nearestAnchor', anchorHistory' := |stack|, anchorHistory + [|stack|];
    }
  }

  lemma {:induction false} StartIndexed()
    ensures Indexed([], map[], [], -1)
  {
  }

  // One token of the loop below.
  method Advance(isVoid: string -> bool, token: Token, stack: seq<Element>, openTags: map<string, seq<nat>>,
                 anchorHistory: seq<nat>, nearestAnchor: int, labels: seq<Label>, pending: seq<nat>, anchorCount: nat)
    returns (stack': seq<Element>, openTags': map<string, seq<nat>>, anchorHistory': seq<nat>, nearestAnchor': int,
             labels': seq<Label>, pending': seq<nat>, anchorCount': nat)
    requires Indexed(stack, openTags, anchorHistory, nearestAnchor)
    ensures Plain(stack', labels', pending', anchorCount') ==
      PlainStep(isVoid, Plain(stack, labels, pending, anchorCount), token)
    ensures Indexed(stack', openTags', anchorHistory', nearestAnchor')
  {
    hide AnchorPositions, InnermostAnchor, Positions, FindOpen, AnchorsDown, Indexed, Labelled;
    stack', openTags', anchorHistory', nearestAnchor' := stack, openTags, anchorHistory, nearestAnchor;
    labels', pending', anchorCount' := labels, pending, anchorCount;
    match token {
      case StartTag(name, hides, alt, selfClosing) =>
        var hidden := hides || TopHidden(stack);
        var anchor: Option<nat> := None;
        if name == "a" {
          anchor := Some(anchorCount);
          anchorCount' := anchorCount + 1;
        }
        if name == "img" && !hidden {
          labels' := LabelNearest(stack, openTags, anchorHistory, nearestAnchor, labels, alt);
        }
        if !selfClosing && !isVoid(name) {
          stack', openTags', anchorHistory', nearestAnchor' :=
            PushElement(Element(name, hidden, anchor), stack, openTags, anchorHistory, nearestAnchor);
        } else if anchor.Some? {
          pending' := pending + [anchor.value];
        }
      case TextRun(text) =>
        if text != "" && !TopHidden(stack) {
          labels' := LabelNearest(stack, openTags, anchorHistory, nearestAnchor, labels, text);
        }
      case EndTag(name) =>
        stack', openTags', anchorHistory', nearestAnchor', pending' :=
          CloseTag(name, stack, openTags, anchorHistory, nearestAnchor, pending);
    }
  }

  // The token loop of analyzeHTML: the indexed stack behaves as the plain one.
  method AnalyzeHTML(isVoid: string -> bool, tokens: seq<Token>)
    returns (judged: seq<nat>, labels: seq<Label>, anchorCount: nat, truncated: bool)
    ensures truncated <==> Nodes(tokens) > MAX_HTML_NODES
    ensures !truncated ==> var p := PlainRun(isVoid, tokens);
      judged == Judged(p) && labels == p.labels && anchorCount == p.anchors
        && multiset(judged) == FirstNumbers(anchorCount)
  {
    hide AnchorPositions, InnermostAnchor, Positions, FindOpen, AnchorsDown, FirstNumbers, Labelled;
    var stack: seq<Element> := [];
    var openTags: map<string, seq<nat>> := map[];
    var anchorHistory: seq<nat> := [];
    var nearestAnchor := -1;
    var pending: seq<nat> := [];
    var nodes := 0;
    anchorCount, labels := 0, [];
    StartIndexed();
    assert tokens[..0] == [] && PlainRun(isVoid, []) == Plain([], [], [], 0) && Nodes([]) == 0;
    for t := 0 to |tokens|
      invariant PlainRun(isVoid, tokens[..t]) == Plain(stack, labels, pending, anchorCount)
      invariant nodes == Nodes(tokens[..t]) <= MAX_HTML_NODES
      invariant Indexed(stack, openTags, anchorHistory, nearestAnchor)
    {
      hide *;
      RunStep(isVoid, tokens, t);
      if tokens[t].StartTag? {
        nodes := nodes + 1;
        if nodes > MAX_HTML_NODES {
          NodesGrow(tokens, t + 1);
          return [], [], anchorCount, true;
        }
      }
      stack, openTags, anchorHistory, nearestAnchor, labels, pending, anchorCount :=
        Advance(isVoid, tokens[t], stack, openTags, anchorHistory, nearestAnchor, labels, pending, anchorCount);
    }
    hide *;
    assert tokens[..|tokens|] == tokens;
    JudgedOnce(isVoid, tokens);
    truncated := false;
    judged := JudgeOpen(stack, pending);
  }

  method JudgeOpen(stack: seq<Element>, pending: seq<nat>) returns (judged: seq<nat>)
    ensures judged == pending + AnchorsUp(stack, |stack|)
  {
    judged := pending;
    for i := 0 to |stack|
      invariant judged == pending + AnchorsUp(stack, i)
    {
      if stack[i].anchor.Some? {
        judged := judged + [stack[i].anchor.value];
      }
    }
  }

  lemma {:induction false} NodesGrow(tokens: seq<Token>, t: nat)
    requires t <= |tokens|
    ensures Nodes(tokens[..t]) <= Nodes(tokens)
    decreases |tokens| - t
  {
    if t < |tokens| {
      assert tokens[..t + 1][..t] == tokens[..t];
      NodesGrow(tokens, t + 1);
    } else {
      assert tokens[..t] == tokens;
    }
  }

  lemma {:induction false} PushPositions(stack: seq<Element>, e: Element, name: string)
    ensures Positions(stack + [e], name, |stack| + 1) == Positions(stack, name, |stack|) +
      if e.name == name then [|stack|] else []
    ensures AnchorPositions(stack + [e], |stack| + 1) == AnchorPositions(stack, |stack|) +
      if e.anchor.Some? then [|stack|] else []
  {
    PositionsOfPrefix(stack + [e], stack, name, |stack|);
  }

  lemma {:induction false} PushIndexed(stack: seq<Element>, openTags: map<string, seq<nat>>, anchorHistory: seq<nat>,
                                       nearestAnchor: int, e: Element)
    requires Indexed(stack, openTags, anchorHistory, nearestAnchor)
    ensures Indexed(stack + [e], openTags[e.name := Owned(openTags, e.name) + [|stack|]],
                    if e.anchor.Some? then anchorHistory + [|stack|] else anchorHistory,
                    if e.anchor.Some? then |stack| else nearestAnchor)
  {
    var tags := openTags[e.name := Owned(openTags, e.name) + [|stack|]];
    PushPositions(stack, e, e.name);
    forall name ensures Owned(tags, name) == Positions(stack + [e], name, |stack + [e]|) {
      PushPositions(stack, e, name);
      assert Owned(openTags, name) == Positions(stack, name, |stack|);
      hide Positions, AnchorPositions;
    }
    hide Positions, AnchorPositions, Owned;
  }

  ghost predicate Topmost(stack: seq<Element>, name: string, index: nat) {
    index < |stack| && stack[index].name == name && forall k :: index < k < |stack| ==> stack[k].name != name
  }

  // The index agrees with the stack up to a height, except that one name is already cut lower.
  ghost predicate IndexedBelow(stack: seq<Element>, openTags: map<string, seq<nat>>, name: string, index: nat,
                               height: nat)
    requires index <= height <= |stack|
  {
    forall other {:trigger Owned(openTags, other)} ::
      Owned(openTags, other) == Positions(stack, other, if other == name then index else height)
  }

  // Closes the elements from the top down to an index.
  method CloseDownTo(name: string, index: nat, stack: seq<Element>, openTags: map<string, seq<nat>>)
    returns (openTags': map<string, seq<nat>>, closed: seq<nat>)
    requires index < |stack| && Topmost(stack, name, index)
    requires IndexedBelow(stack, openTags, name, index, |stack|)
    ensures IndexedBelow(stack, openTags', name, index, index)
    ensures closed == AnchorsDown(stack, index, |stack|)
  {
    hide *;
    openTags', closed := openTags, [];
    var candidate := |stack|;
    NoneDown(stack);
    while candidate > index
      invariant index <= candidate <= |stack|
      invariant IndexedBelow(stack, openTags', name, index, candidate)
      invariant closed == AnchorsDown(stack, candidate, |stack|)
    {
      candidate := candidate - 1;
      var element := stack[candidate];
      CloseIndexed(stack, openTags', name, index, candidate);
      openTags' := Disowned(openTags', element.name, candidate);
      if element.anchor.Some? {
        closed := closed + [element.anchor.value];
      }
      DownGrows(stack, candidate, |stack|);
    }
  }

  // Taking one element off the top: its own position goes, unless the end tag already took it.
  lemma {:induction false} CloseIndexed(stack: seq<Element>, openTags: map<string, seq<nat>>, name: string, index: nat,
                                        candidate: nat)
    requires index <= candidate < |stack| && Topmost(stack, name, index)
    requires IndexedBelow(stack, openTags, name, index, candidate + 1)
    ensures IndexedBelow(stack, Disowned(openTags, stack[candidate].name, candidate), name, index, candidate)
  {
    var own := stack[candidate].name;
    var owned := Owned(openTags, own);
    assert owned == Positions(stack, own, if own == name then index else candidate + 1);
    if own == name {
      PositionsAre(stack, own, index);
      assert owned != [] ==> Last(owned) in Positions(stack, own, index);
    }
    var tags := Disowned(openTags, own, candidate);
    forall other ensures Owned(tags, other) == Positions(stack, other, if other == name then index else candidate) {
      assert Owned(openTags, other) == Positions(stack, other, if other == name then index else candidate + 1);
      CloseOne(stack, other, candidate);
      hide Positions;
    }
  }

  lemma {:induction false} CloseOne(stack: seq<Element>, name: string, candidate: nat)
    requires candidate < |stack|
    ensures var ps := Positions(stack, name, candidate + 1);
      if stack[candidate].name == name
        then ps != [] && Last(ps) == candidate && ps[..|ps| - 1] == Positions(stack, name, candidate)
      else ps == Positions(stack, name, candidate)
  {
  }

  method PopAnchors(stack: seq<Element>, index: nat, anchorHistory: seq<nat>) returns (kept: seq<nat>)
    requires index <= |stack| && anchorHistory == AnchorPositions(stack, |stack|)
    ensures kept == AnchorPositions(stack, index)
  {
    kept := anchorHistory;
    ghost var n := |stack|;
    while |kept| != 0 && Last(kept) >= index
      invariant index <= n <= |stack| && kept == AnchorPositions(stack, n)
      decreases |kept|
    {
      NearestIsInnermost(stack, n);
      n := Last(kept);
      kept := kept[..|kept| - 1];
    }
    AnchorsBelow(stack, index, n);
  }

  // An end tag: the index finds the element, and everything above it is closed with it.
  method CloseTag(name: string, stack: seq<Element>, openTags: map<string, seq<nat>>, anchorHistory: seq<nat>,
                  nearestAnchor: int, pending: seq<nat>)
    returns (stack': seq<Element>, openTags': map<string, seq<nat>>, anchorHistory': seq<nat>, nearestAnchor': int,
      pending': seq<nat>)
    requires Indexed(stack, openTags, anchorHistory, nearestAnchor)
    ensures Indexed(stack', openTags', anchorHistory', nearestAnchor')
    ensures match FindOpen(stack, name, |stack|)
      case None => stack' == stack && pending' == pending
      case Some(i) => stack' == stack[..i] && pending' == pending + AnchorsDown(stack, i, |stack|)
  {
    stack', openTags', anchorHistory', nearestAnchor', pending' :=
      stack, openTags, anchorHistory, nearestAnchor, pending;
    var positions := Owned(openTags, name);
    LastPosition(stack, name, |stack|);
    if |positions| == 0 {
      return;
    }
    var index := Last(positions);
    openTags' := openTags'[name := positions[..|positions| - 1]];
    forall other ensures Owned(openTags', other) == Positions(stack, other, if other == name then index else |stack|) {
      assert Owned(openTags, other) == Positions(stack, other, |stack|);
    }
    var closed;
    openTags', closed := CloseDownTo(name, index, stack, openTags');
    pending' := pending + closed;
    stack' := stack[..index];
    anchorHistory' := PopAnchors(stack, index, anchorHistory);
    nearestAnchor' := if |anchorHistory'| == 0 then -1 else Last(anchorHistory');
    CutIndexed(stack, openTags', name, index);
  }

  lemma {:induction false} CutIndexed(stack: seq<Element>, openTags: map<string, seq<nat>>, name: string, index: nat)
    requires index <= |stack| && IndexedBelow(stack, openTags, name, index, index)
    ensures var anchors := AnchorPositions(stack, index);
      Indexed(stack[..index], openTags, anchors, if anchors == [] then -1 else Last(anchors))
  {
    PositionsOfPrefix(stack, stack[..index], name, index);
    forall other ensures Owned(openTags, other) == Positions(stack[..index], other, index) {
      PositionsOfPrefix(stack, stack[..index], other, index);
    }
  }
}
