/** SVG sanitising by depth counters (internal/inspect/svg.go). */
module Svg {
  import opened Text

  const SVG_NAMESPACE := "http://www.w3.org/2000/svg"
  const XLINK_NAMESPACE := "http://www.w3.org/1999/xlink"

  datatype Name = Name(space: string, local: string)

  datatype Attr = Attr(name: Name, value: string)

  // What the XML decoder delivers.
  datatype Token =
    | Start(name: Name, attrs: seq<Attr>)
    | End(name: Name)
    | CharData(text: string)
    | Comment(text: string)
    | ProcInst(target: string, inst: string)
    | Directive(text: string)

  // The allow-lists, and the three regular expressions as tests.
  datatype Policy = Policy(
    elements: set<string>, attributes: set<string>,
    isDeclaration: string -> bool, isFragment: string -> bool, isFragmentUrl: string -> bool)

  // The tree a well-nested token stream denotes. A Leaf holds a token that is neither Start nor End.
  datatype Tree = Element(name: Name, attrs: seq<Attr>, children: seq<Tree>) | Leaf(token: Token)

  function Tokens(t: Tree): seq<Token> {
    match t
    case Element(name, attrs, children) => [Start(name, attrs)] + AllTokens(children) + [End(name)]
    case Leaf(token) => [token]
  }

  function AllTokens(ts: seq<Tree>): seq<Token> {
    if ts == [] then [] else Tokens(ts[0]) + AllTokens(ts[1..])
  }

  predicate WellFormed(ts: seq<Tree>) {
    ts != [] ==>
      && (match ts[0]
          case Element(_, _, children) => WellFormed(children)
          case Leaf(token) => !token.Start? && !token.End?)
      && WellFormed(ts[1..])
  }

  // The value of an attribute is harmless once trimmed.
  predicate SafeValue(policy: Policy, name: string, value: string) {
    && value != "" && '\0' !in value && '\r' !in value && '\n' !in value && '\\' !in value
    && !Contains(value, "/*") && !Contains(value, "*/")
    && (name == "href" ==> policy.isFragment(value))
    && (Contains(Lower(value), "url(") ==> policy.isFragmentUrl(value))
  }

  function CleanAttr(policy: Policy, a: Attr): Option<Attr> {
    var name := a.name.local;
    var lowerName := Lower(name);
    var value := Trim(a.value);
    if "on" <= lowerName || lowerName == "style" || name !in policy.attributes then None
    else if a.name.space != "" && (a.name.space != XLINK_NAMESPACE || name != "href") then None
    else if !SafeValue(policy, name, value) then None
    else Some(Attr(Name("", name), value))
  }

  // sanitizeSVGAttributes
  function CleanAttrs(policy: Policy, attrs: seq<Attr>): seq<Attr> {
    if attrs == [] then []
    else
      var rest := CleanAttrs(policy, attrs[1..]);
      match CleanAttr(policy, attrs[0])
      case None => rest
      case Some(a) => [a] + rest
  }

  predicate SafeSpace(name: Name) {
    name.space == "" || name.space == SVG_NAMESPACE
  }

  predicate SafeElement(policy: Policy, name: Name, depth: int, seenRoot: bool) {
    SafeSpace(name) && if depth == 1 then !seenRoot && name.local == "svg" else name.local in policy.elements
  }

  const XMLNS := Attr(Name("", "xmlns"), SVG_NAMESPACE)

  // The variables of SanitizeSVG between two tokens.
  datatype State = State(depth: int, droppedDepth: int, seenRoot: bool, closedRoot: bool, output: seq<Token>) {
    function Emit(token: Token): State {
      this.(output := output + [token])
    }
  }

  const INITIAL := State(0, 0, false, false, [])

  // One token; None is an error.
  function Step(policy: Policy, s: State, token: Token): Option<State> {
    match token
    case Directive(_) => None
    case ProcInst(target, inst) =>
      if target != "xml" || s.seenRoot || s.closedRoot || s.depth != 0 || !policy.isDeclaration(inst) then None
      else Some(s)
    case Start(name, attrs) =>
      var depth := s.depth + 1;
      var t := s.(depth := depth);
      if s.droppedDepth != 0 then Some(t)
      else if s.closedRoot || !SafeElement(policy, name, depth, s.seenRoot) then
        if depth == 1 then None else Some(t.(droppedDepth := depth))
      else if depth == 1 then
        Some(t.(seenRoot := true).Emit(Start(Name("", name.local), CleanAttrs(policy, attrs) + [XMLNS])))
      else Some(t.Emit(Start(Name("", name.local), CleanAttrs(policy, attrs))))
    case End(name) =>
      if s.droppedDepth != 0 then
        Some(s.(droppedDepth := if s.depth == s.droppedDepth then 0 else s.droppedDepth, depth := s.depth - 1))
      else if s.depth == 0 then None
      else
        var t := s.Emit(End(Name("", name.local))).(depth := s.depth - 1);
        Some(if t.depth == 0 then t.(closedRoot := true) else t)
    case CharData(_) => Some(if s.droppedDepth == 0 && s.depth > 0 then s.Emit(token) else s)
    case Comment(_) => Some(s)
  }

  function Run(policy: Policy, s: State, tokens: seq<Token>): Option<State>
    decreases |tokens|
  {
    if tokens == [] then Some(s)
    else
      match Step(policy, s, tokens[0])
      case None => None
      case Some(t) => Run(policy, t, tokens[1..])
  }

  function Finish(s: Option<State>): Option<seq<Token>> {
    if s.None? || !s.value.seenRoot || !s.value.closedRoot || s.value.depth != 0 then None else Some(s.value.output)
  }

  // SanitizeSVG: the token loop with its two depth counters.
  method SanitizeSVG(policy: Policy, tokens: seq<Token>) returns (result: Option<seq<Token>>)
    ensures result == Finish(Run(policy, INITIAL, tokens))
  {
    hide CleanAttrs, SafeElement;
    var depth, droppedDepth, seenRoot, closedRoot := 0, 0, false, false;
    var output: seq<Token> := [];
    var i := 0;
    assert tokens[0..] == tokens;
    while i < |tokens|
      invariant i <= |tokens|
      decreases |tokens| - i
      invariant Run(policy, INITIAL, tokens) ==
        Run(policy, State(depth, droppedDepth, seenRoot, closedRoot, output), tokens[i..])
    {
      var token := tokens[i];
      assert tokens[i..][0] == token && tokens[i..][1..] == tokens[i + 1..];
      match token {
        case Directive(_) => return None;
        case ProcInst(target, inst) =>
          if target != "xml" || seenRoot || closedRoot || depth != 0 || !policy.isDeclaration(inst) {
            return None;
          }
        case Start(name, attrs) =>
          depth := depth + 1;
          if droppedDepth == 0 {
            if closedRoot || !SafeElement(policy, name, depth, seenRoot) {
              if depth == 1 {
                return None;
              }
              droppedDepth := depth;
            } else {
              var clean := CleanAttrs(policy, attrs);
              if depth == 1 {
                seenRoot := true;
                clean := clean + [XMLNS];
              }
              output := output + [Start(Name("", name.local), clean)];
            }
          }
        case End(name) =>
          if droppedDepth != 0 {
            if depth == droppedDepth {
              droppedDepth := 0;
            }
            depth := depth - 1;
          } else {
            if depth == 0 {
              return None;
            }
            output := output + [End(Name("", name.local))];
            depth := depth - 1;
            if depth == 0 {
              closedRoot := true;
            }
          }
        case CharData(_) =>
          if droppedDepth == 0 && depth > 0 {
            output := output + [token];
          }
        case Comment(_) =>
      }
      i := i + 1;
    }
    assert tokens[i..] == [];
    if !seenRoot || !closedRoot || depth != 0 {
      return None;
    }
    return Some(output);
  }

  // No directive or processing instruction anywhere, kept or dropped.
  predicate Clean(ts: seq<Tree>) {
    ts != [] ==>
      && (match ts[0]
          case Element(_, _, children) => Clean(children)
          case Leaf(token) => !token.Directive? && !token.ProcInst?)
      && Clean(ts[1..])
  }

  // Tree pruning below the root: a disallowed element goes with its whole subtree, a comment goes.
  function Pruned(policy: Policy, ts: seq<Tree>): seq<Tree> {
    if ts == [] then []
    else
      (match ts[0]
       case Element(name, attrs, children) =>
         if SafeSpace(name) && name.local in policy.elements
         then [Element(Name("", name.local), CleanAttrs(policy, attrs), Pruned(policy, children))]
         else []
       case Leaf(token) => if token.CharData? then [ts[0]] else [])
      + Pruned(policy, ts[1..])
  }

  function PrunedRoot(policy: Policy, root: Tree): Tree
    requires root.Element?
  {
    Element(Name("", root.name.local), CleanAttrs(policy, root.attrs) + [XMLNS], Pruned(policy, root.children))
  }

  predicate MiscOne(policy: Policy, t: Tree, beforeRoot: bool) {
    && t.Leaf?
    && (t.token.CharData? || t.token.Comment? ||
        (beforeRoot && t.token.ProcInst? && t.token.target == "xml" && policy.isDeclaration(t.token.inst)))
  }

  // Before the root: text, comments and acceptable XML declarations. After it: text and comments.
  predicate Misc(policy: Policy, ts: seq<Tree>, beforeRoot: bool) {
    forall t :: t in ts ==> MiscOne(policy, t, beforeRoot)
  }

  // Position of the first top-level element.
  function RootIndex(ts: seq<Tree>): (i: nat)
    ensures i <= |ts|
  {
    if ts == [] || ts[0].Element? then 0 else 1 + RootIndex(ts[1..])
  }

  // The documents that pass: one svg root, clean inside, with nothing but miscellany around it.
  predicate Accepted(policy: Policy, ts: seq<Tree>) {
    var i := RootIndex(ts);
    && i < |ts| && Misc(policy, ts[..i], true) && Misc(policy, ts[i + 1..], false)
    && ts[i].Element? && SafeSpace(ts[i].name) && ts[i].name.local == "svg" && Clean(ts[i].children)
  }

  lemma {:induction false} RunConcat(policy: Policy, s: State, a: seq<Token>, b: seq<Token>)
    ensures Run(policy, s, a + b) == match Run(policy, s, a) case None => None case Some(t) => Run(policy, t, b)
    decreases |a|
  {
    if a == [] {
      assert a + b == b;
    } else {
      assert (a + b)[1..] == a[1..] + b;
      match Step(policy, s, a[0])
      case None =>
      case Some(t) => RunConcat(policy, t, a[1..], b);
    }
  }

  lemma {:induction false} RunOne(policy: Policy, s: State, token: Token)
    ensures Run(policy, s, [token]) == Step(policy, s, token)
  {
    assert [token][1..] == [];
  }

  // Inside a dropped element nothing is emitted, and the counters come back to where they were.
  lemma {:induction false} RunDropped(policy: Policy, s: State, ts: seq<Tree>)
    requires WellFormed(ts) && 0 < s.droppedDepth <= s.depth
    ensures Run(policy, s, AllTokens(ts)) == if Clean(ts) then Some(s) else None
    decreases ts
  {
    if ts != [] {
      RunConcat(policy, s, Tokens(ts[0]), AllTokens(ts[1..]));
      RunDropped(policy, s, ts[1..]);
      match ts[0]
      case Leaf(token) => RunOne(policy, s, token);
      case Element(name, attrs, children) =>
        var inner := s.(depth := s.depth + 1);
        RunElement(policy, s, inner, name, attrs, children);
        RunDropped(policy, inner, children);
    }
  }

  // An element's tokens: its start, its content, its end.
  lemma {:induction false} RunElement(policy: Policy, s: State, inner: State, name: Name, attrs: seq<Attr>,
                                      children: seq<Tree>)
    requires Step(policy, s, Start(name, attrs)) == Some(inner)
    ensures Run(policy, s, Tokens(Element(name, attrs, children))) ==
      match Run(policy, inner, AllTokens(children))
      case None => None
      case Some(t) => Step(policy, t, End(name))
  {
    var tokens := Tokens(Element(name, attrs, children));
    assert tokens[1..] == AllTokens(children) + [End(name)];
    RunConcat(policy, inner, AllTokens(children), [End(name)]);
    match Run(policy, inner, AllTokens(children))
    case None =>
    case Some(t) => RunOne(policy, t, End(name));
  }

  // Inside the root the loop emits the pruned trees.
  lemma {:induction false} RunInside(policy: Policy, s: State, ts: seq<Tree>)
    requires WellFormed(ts) && s.droppedDepth == 0 && s.depth > 0 && s.seenRoot && !s.closedRoot
    ensures Run(policy, s, AllTokens(ts)) ==
      if Clean(ts) then Some(s.(output := s.output + AllTokens(Pruned(policy, ts)))) else None
    decreases ts, 2
  {
    if ts == [] {
      assert s.output + [] == s.output;
    } else {
      RunConcat(policy, s, Tokens(ts[0]), AllTokens(ts[1..]));
      RunInsideOne(policy, s, ts);
      var first := Pruned(policy, [ts[0]]);
      PrunedCons(policy, ts);
      var t := s.(output := s.output + AllTokens(first));
      RunInside(policy, t, ts[1..]);
      AllTokensConcat(first, Pruned(policy, ts[1..]));
      assert s.output + AllTokens(first) + AllTokens(Pruned(policy, ts[1..])) ==
        s.output + (AllTokens(first) + AllTokens(Pruned(policy, ts[1..])));
    }
  }

  lemma {:induction false} PrunedCons(policy: Policy, ts: seq<Tree>)
    requires ts != []
    ensures Pruned(policy, ts) == Pruned(policy, [ts[0]]) + Pruned(policy, ts[1..])
  {
    assert [ts[0]][1..] == [];
  }

  lemma {:induction false} AllTokensConcat(a: seq<Tree>, b: seq<Tree>)
    ensures AllTokens(a + b) == AllTokens(a) + AllTokens(b)
  {
    if a == [] {
      assert a + b == b;
    } else {
      assert (a + b)[1..] == a[1..] + b;
      AllTokensConcat(a[1..], b);
    }
  }

  lemma {:induction false} AllTokensOne(t: Tree)
    ensures AllTokens([t]) == Tokens(t)
  {
    assert [t][1..] == [];
  }

  // One child of an open element.
  lemma {:induction false} RunInsideOne(policy: Policy, s: State, ts: seq<Tree>)
    requires ts != [] && WellFormed(ts) && s.droppedDepth == 0 && s.depth > 0 && s.seenRoot && !s.closedRoot
    ensures Run(policy, s, Tokens(ts[0])) ==
      if Clean([ts[0]]) then Some(s.(output := s.output + AllTokens(Pruned(policy, [ts[0]])))) else None
    ensures Clean(ts) <==> Clean([ts[0]]) && Clean(ts[1..])
    decreases ts, 1
  {
    assert [ts[0]][1..] == [];
    match ts[0]
    case Leaf(token) =>
      RunOne(policy, s, token);
      AllTokensOne(ts[0]);
      assert s.output + [] == s.output;
    case Element(name, attrs, children) =>
      RunInsideElement(policy, s, ts, name, attrs, children);
  }

  lemma {:induction false} RunInsideElement(policy: Policy, s: State, ts: seq<Tree>, name: Name, attrs: seq<Attr>,
                                            children: seq<Tree>)
    requires ts != [] && ts[0] == Element(name, attrs, children) && WellFormed(children)
    requires s.droppedDepth == 0 && s.depth > 0 && s.seenRoot && !s.closedRoot
    ensures Run(policy, s, Tokens(ts[0])) ==
      if Clean(children) then Some(s.(output := s.output + AllTokens(Pruned(policy, [ts[0]])))) else None
    decreases ts, 0
  {
    assert [ts[0]][1..] == [];
    if SafeSpace(name) && name.local in policy.elements {
      var start := Start(Name("", name.local), CleanAttrs(policy, attrs));
      var inner := s.(depth := s.depth + 1, output := s.output + [start]);
      var kept := Element(Name("", name.local), CleanAttrs(policy, attrs), Pruned(policy, children));
      assert Pruned(policy, [ts[0]]) == [kept];
      AllTokensOne(kept);
      RunElement(policy, s, inner, name, attrs, children);
      RunInside(policy, inner, children);
      assert s.output + [start] + AllTokens(Pruned(policy, children)) + [End(Name("", name.local))] ==
        s.output + Tokens(kept);
    } else {
      var inner := s.(depth := s.depth + 1, droppedDepth := s.depth + 1);
      assert Pruned(policy, [ts[0]]) == [] && s.output + [] == s.output;
      RunElement(policy, s, inner, name, attrs, children);
      RunDropped(policy, inner, children);
    }
  }

  // Behind the root only text and comments pass.
  lemma {:induction false} RunAfter(policy: Policy, s: State, ts: seq<Tree>)
    requires WellFormed(ts) && s.droppedDepth == 0 && s.depth == 0 && s.seenRoot && s.closedRoot
    ensures Run(policy, s, AllTokens(ts)) == if Misc(policy, ts, false) then Some(s) else None
    decreases ts
  {
    if ts != [] {
      RunConcat(policy, s, Tokens(ts[0]), AllTokens(ts[1..]));
      RunAfter(policy, s, ts[1..]);
      assert Misc(policy, ts, false) <==> MiscOne(policy, ts[0], false) && Misc(policy, ts[1..], false) by {
        assert ts == [ts[0]] + ts[1..];
      }
      match ts[0]
      case Leaf(token) => RunOne(policy, s, token);
      case Element(name, attrs, children) =>
        assert Tokens(ts[0])[0] == Start(name, attrs);
    }
  }

  lemma {:induction false} RunRoot(policy: Policy, root: Tree)
    requires root.Element? && WellFormed([root])
    ensures Run(policy, INITIAL, Tokens(root)) ==
      if SafeSpace(root.name) && root.name.local == "svg" && Clean(root.children)
      then Some(State(0, 0, true, true, Tokens(PrunedRoot(policy, root)))) else None
  {
    assert [root][1..] == [];
    var Element(name, attrs, children) := root;
    if SafeSpace(name) && name.local == "svg" {
      var start := Start(Name("", "svg"), CleanAttrs(policy, attrs) + [XMLNS]);
      var inner := State(1, 0, true, false, [start]);
      assert [] + [start] == [start];
      RunElement(policy, INITIAL, inner, name, attrs, children);
      RunInside(policy, inner, children);
    } else {
      assert Tokens(root)[0] == Start(name, attrs);
    }
  }

  // The two counters compute tree pruning: a well-nested stream is refused, or its tree comes out with every
  // disallowed element's subtree and every comment removed; and it is refused exactly when it is not Accepted.
  lemma {:induction false} SanitizePrunes(policy: Policy, ts: seq<Tree>)
    requires WellFormed(ts)
    ensures Finish(Run(policy, INITIAL, AllTokens(ts))) ==
      if Accepted(policy, ts) then Some(Tokens(PrunedRoot(policy, ts[RootIndex(ts)]))) else None
    decreases ts
  {
    if ts != [] {
      RunConcat(policy, INITIAL, Tokens(ts[0]), AllTokens(ts[1..]));
      match ts[0]
      case Leaf(token) =>
        RunOne(policy, INITIAL, token);
        SanitizePrunes(policy, ts[1..]);
        AcceptedTail(policy, ts);
      case Element(name, attrs, children) =>
        assert [ts[0]][1..] == [];
        RunRoot(policy, ts[0]);
        assert ts[..0] == [] && Misc(policy, ts[..0], true);
        if SafeSpace(name) && name.local == "svg" && Clean(children) {
          RunAfter(policy, State(0, 0, true, true, Tokens(PrunedRoot(policy, ts[0]))), ts[1..]);
        }
    }
  }

  lemma {:induction false} AcceptedTail(policy: Policy, ts: seq<Tree>)
    requires ts != [] && ts[0].Leaf?
    ensures Accepted(policy, ts) <==> MiscOne(policy, ts[0], true) && Accepted(policy, ts[1..])
  {
    var i := RootIndex(ts);
    assert ts[..i] == [ts[0]] + ts[1..][..i - 1];
    assert i < |ts| ==> ts[i + 1..] == ts[1..][i..];
  }

  // What an XML parser reads back: every element in the default namespace, adjacent text joined, empty text gone.
  function WithSpace(ts: seq<Tree>): seq<Tree> {
    if ts == [] then []
    else
      [match ts[0]
       case Element(name, attrs, children) => Element(Name(SVG_NAMESPACE, name.local), attrs, WithSpace(children))
       case Leaf(_) => ts[0]] + WithSpace(ts[1..])
  }

  function Joined(ts: seq<Tree>): seq<Tree> {
    if ts == [] then []
    else
      var rest := Joined(ts[1..]);
      match ts[0]
      case Element(name, attrs, children) => [Element(name, attrs, Joined(children))] + rest
      case Leaf(token) =>
        if !token.CharData? then [ts[0]] + rest
        else if token.text == "" then rest
        else if rest != [] && rest[0].Leaf? && rest[0].token.CharData? then
          [Leaf(CharData(token.text + rest[0].token.text))] + rest[1..]
        else [ts[0]] + rest
  }

  function Reread(ts: seq<Tree>): seq<Tree> {
    WithSpace(Joined(ts))
  }

  // Fixed points of pruning: allowed elements with clean attributes, and text.
  predicate IsPruned(policy: Policy, ts: seq<Tree>) {
    ts != [] ==>
      && (match ts[0]
          case Element(name, attrs, children) =>
            name.space == "" && name.local in policy.elements && CleanAttrs(policy, attrs) == attrs
              && IsPruned(policy, children)
          case Leaf(token) => token.CharData?)
      && IsPruned(policy, ts[1..])
  }

  lemma {:induction false} TrimIdempotent(s: string)
    ensures Trim(Trim(s)) == Trim(s)
  {
    TrimLeftEnds(s);
    TrimRightEnds(TrimLeft(s));
  }

  lemma {:induction false} TrimLeftEnds(s: string)
    ensures var r := TrimLeft(s); r != "" ==> !IsSpace(r[0])
  {
    if s != "" && IsSpace(s[0]) {
      TrimLeftEnds(s[1..]);
    }
  }

  lemma {:induction false} TrimRightEnds(s: string)
    ensures var r := TrimRight(s); r <= s && (r != "" ==> !IsSpace(r[|r| - 1]))
  {
    if s != "" && IsSpace(s[|s| - 1]) {
      TrimRightEnds(s[..|s| - 1]);
    }
  }

  lemma {:induction false} CleanAttrIdempotent(policy: Policy, a: Attr)
    ensures var clean := CleanAttr(policy, a); clean.Some? ==> CleanAttr(policy, clean.value) == clean
  {
    TrimIdempotent(a.value);
  }

  // Cleaning cleaned attributes changes nothing, and the declaration added to the root is dropped by it.
  lemma {:induction false} CleanAttrsIdempotent(policy: Policy, attrs: seq<Attr>)
    ensures var clean := CleanAttrs(policy, attrs);
      && CleanAttrs(policy, clean) == clean
      && ("xmlns" !in policy.attributes ==> CleanAttrs(policy, clean + [XMLNS]) == clean)
  {
    var clean := CleanAttrs(policy, attrs);
    if attrs == [] {
      assert clean + [XMLNS] == [XMLNS] && [XMLNS][1..] == [];
    } else {
      CleanAttrsIdempotent(policy, attrs[1..]);
      CleanAttrIdempotent(policy, attrs[0]);
      var first, rest := CleanAttr(policy, attrs[0]), CleanAttrs(policy, attrs[1..]);
      if first.Some? {
        assert clean[1..] == rest && (clean + [XMLNS])[1..] == rest + [XMLNS];
      }
    }
  }

  lemma {:induction false} PrunedIsPruned(policy: Policy, ts: seq<Tree>)
    ensures IsPruned(policy, Pruned(policy, ts))
    decreases ts
  {
    if ts != [] {
      PrunedIsPruned(policy, ts[1..]);
      match ts[0]
      case Element(name, attrs, children) =>
        PrunedIsPruned(policy, children);
        CleanAttrsIdempotent(policy, attrs);
        if SafeSpace(name) && name.local in policy.elements {
          assert Pruned(policy, ts)[1..] == Pruned(policy, ts[1..]);
        } else {
          assert Pruned(policy, ts) == Pruned(policy, ts[1..]);
        }
      case Leaf(token) =>
        if token.CharData? {
          assert Pruned(policy, ts)[1..] == Pruned(policy, ts[1..]);
        } else {
          assert Pruned(policy, ts) == Pruned(policy, ts[1..]);
        }
    }
  }

  lemma {:induction false} JoinedIsPruned(policy: Policy, ts: seq<Tree>)
    requires IsPruned(policy, ts)
    ensures IsPruned(policy, Joined(ts))
    decreases ts
  {
    if ts != [] {
      JoinedIsPruned(policy, ts[1..]);
      match ts[0]
      case Element(name, attrs, children) => JoinedIsPruned(policy, children);
      case Leaf(_) =>
    }
  }

  // Pruning what was read back from a pruned forest gives that forest.
  lemma {:induction false} PrunedWithSpace(policy: Policy, ts: seq<Tree>)
    requires IsPruned(policy, ts)
    ensures Pruned(policy, WithSpace(ts)) == ts && Clean(WithSpace(ts)) && WellFormed(WithSpace(ts))
    decreases ts
  {
    if ts != [] {
      PrunedWithSpace(policy, ts[1..]);
      var read := WithSpace(ts);
      assert read[1..] == WithSpace(ts[1..]);
      match ts[0]
      case Element(name, attrs, children) => PrunedWithSpace(policy, children);
      case Leaf(_) =>
    }
  }

  // Sanitising the result again changes nothing at tree level.
  lemma {:induction false} SanitizeIdempotent(policy: Policy, ts: seq<Tree>)
    requires WellFormed(ts) && Accepted(policy, ts) && "xmlns" !in policy.attributes
    ensures var once := PrunedRoot(policy, ts[RootIndex(ts)]);
      Finish(Run(policy, INITIAL, AllTokens(Reread([once])))) == Some(AllTokens(Joined([once])))
  {
    var root := ts[RootIndex(ts)];
    var once := PrunedRoot(policy, root);
    assert [once][1..] == [];
    PrunedIsPruned(policy, root.children);
    JoinedIsPruned(policy, once.children);
    var joined := Element(once.name, once.attrs, Joined(once.children));
    assert Joined([once]) == [joined] && [joined][1..] == [];
    var read := Element(Name(SVG_NAMESPACE, "svg"), once.attrs, WithSpace(joined.children));
    assert WithSpace([]) == [] && WithSpace([joined]) == [read];
    assert Reread([once]) == [read] && [read][1..] == [] && [read][..0] == [];
    PrunedWithSpace(policy, joined.children);
    CleanAttrsIdempotent(policy, root.attrs);
    SanitizePrunes(policy, [read]);
    assert PrunedRoot(policy, read) == joined;
    AllTokensOne(joined);
  }
}
