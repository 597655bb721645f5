/** The calendar parser's stack accepts exactly a recursive grammar (internal/calendar/calendar.go). */
module CalendarGrammar {
  import opened Text
  import opened Calendar

  // A property, or a component around its items.
  datatype Item = Leaf(line: Line) | Component(name: string, items: seq<Item>)

  function Written(item: Item): seq<Token> {
    match item
    case Leaf(line) => [Property(line)]
    case Component(name, items) => [Begin(name)] + WrittenAll(items) + [End(name)]
  }

  function WrittenAll(items: seq<Item>): seq<Token> {
    if items == [] then [] else Written(items[0]) + WrittenAll(items[1..])
  }

  // A document is one VCALENDAR.
  function Document(items: seq<Item>): seq<Token> {
    Written(Component("VCALENDAR", items))
  }

  // Inside a component of the calendar there is no calendar and no event.
  predicate Inert(item: Item) {
    item.Component? ==> item.name != "VCALENDAR" && item.name != "VEVENT" && AllInert(item.items)
  }

  predicate AllInert(items: seq<Item>) {
    forall item <- items :: Inert(item)
  }

  predicate Child(item: Item) {
    item.Component? ==> item.name != "VCALENDAR" && AllInert(item.items)
  }

  predicate IsMethod(item: Item) {
    item.Leaf? && item.line.name == "METHOD"
  }

  predicate HasComponent(items: seq<Item>) {
    exists item <- items :: item.Component?
  }

  // METHOD comes before any component, and the last one that says something counts.
  predicate MethodFirst(items: seq<Item>) {
    forall i, j :: 0 <= i < j < |items| && items[i].Component? ==> !IsMethod(items[j])
  }

  function MethodOf(items: seq<Item>): string {
    if items == [] then "PUBLISH"
    else if IsMethod(Last(items)) && Upper(Last(items).line.value) != "" then Upper(Last(items).line.value)
    else MethodOf(items[..|items| - 1])
  }

  // The direct properties of an event; what nested components hold is not among them.
  function BuilderOf(items: seq<Item>): Builder {
    if items == [] then NO_PROPERTIES
    else
      var before := BuilderOf(items[..|items| - 1]);
      if Last(items).Leaf? then Added(before, Last(items).line) else before
  }

  predicate IsEvent(item: Item) {
    item.Component? && item.name == "VEVENT"
  }

  function EventCount(items: seq<Item>): nat {
    if items == [] then 0 else EventCount(items[..|items| - 1]) + if IsEvent(Last(items)) then 1 else 0
  }

  // The events of the direct VEVENTs in order, or None if one cannot be built.
  function EventsOf(clock: Clock, calendarMethod: string, items: seq<Item>): Option<seq<Event>> {
    if items == [] then Some([])
    else
      match EventsOf(clock, calendarMethod, items[..|items| - 1])
      case None => None
      case Some(before) =>
        if !IsEvent(Last(items)) then Some(before)
        else
          match Build(clock, BuilderOf(Last(items).items), calendarMethod)
          case Invalid => None
          case Skipped => Some(before)
          case Made(event) => Some(before + [event])
  }

  // What a calendar must obey beyond nesting.
  predicate Legal(clock: Clock, items: seq<Item>) {
    && MethodFirst(items)
    && (forall item <- items :: Child(item))
    && EventCount(items) <= MAX_EVENTS
    && EventsOf(clock, MethodOf(items), items).Some?
  }

  lemma {:induction false} RunJoin(clock: Clock, s: Option<State>, a: seq<Token>, b: seq<Token>)
    ensures Run(clock, s, a + b) == Run(clock, Run(clock, s, a), b)
    decreases |a|
  {
    if a == [] {
      assert a + b == b;
    } else if s.Some? {
      assert (a + b)[1..] == a[1..] + b;
      RunJoin(clock, Step(clock, s.value, a[0]), a[1..], b);
    }
  }

  lemma {:induction false} RunOne(clock: Clock, s: Option<State>, token: Token)
    ensures Run(clock, s, [token]) == if s.None? then None else Step(clock, s.value, token)
  {
  }

  lemma {:induction false} WrittenJoin(a: seq<Item>, b: seq<Item>)
    ensures WrittenAll(a + b) == WrittenAll(a) + WrittenAll(b)
  {
    if a == [] {
      assert a + b == b;
    } else {
      assert (a + b)[1..] == a[1..] + b;
      WrittenJoin(a[1..], b);
    }
  }

  // A written component runs as its opening, its items and its closing.
  lemma {:induction false} RunComponent(clock: Clock, s: Option<State>, name: string, items: seq<Item>)
    ensures var open := if s.None? then None else Opened(s.value, name);
      var filled := Run(clock, open, WrittenAll(items));
      Run(clock, s, Written(Component(name, items))) == if filled.None? then None else Closed(clock, filled.value, name)
  {
    RunJoin(clock, s, [Begin(name)] + WrittenAll(items), [End(name)]);
    RunJoin(clock, s, [Begin(name)], WrittenAll(items));
    RunOne(clock, s, Begin(name));
    var open := if s.None? then None else Opened(s.value, name);
    RunOne(clock, Run(clock, open, WrittenAll(items)), End(name));
    hide Opened, Closed, Run;
    assert s.None? ==> Run(clock, s, [Begin(name)]) == None;
  }

  lemma {:induction false} RunFirst(clock: Clock, s: Option<State>, items: seq<Item>)
    requires items != []
    ensures Run(clock, s, WrittenAll(items)) == Run(clock, Run(clock, s, Written(items[0])), WrittenAll(items[1..]))
  {
    RunJoin(clock, s, Written(items[0]), WrittenAll(items[1..]));
  }

  lemma {:induction false} RunNone(clock: Clock, tokens: seq<Token>)
    ensures Run(clock, None, tokens) == None
  {
  }

  // The properties an open event takes from items.
  function Fed(b: Builder, items: seq<Item>): Builder
    decreases |items|
  {
    if items == [] then b else Fed(if items[0].Leaf? then Added(b, items[0].line) else b, items[1..])
  }

  lemma {:induction false} FedIsBuilder(before: seq<Item>, items: seq<Item>)
    ensures Fed(BuilderOf(before), items) == BuilderOf(before + items)
    decreases |items|
  {
    if items == [] {
      assert before + items == before;
    } else {
      assert (before + [items[0]])[..|before|] == before;
      FedIsBuilder(before + [items[0]], items[1..]);
      assert before + [items[0]] + items[1..] == before + items;
    }
  }

  // Deep inside the calendar: inert items only feed the event they are direct properties of, others are refused.
  lemma {:induction false} Inside(clock: Clock, s: State, items: seq<Item>)
    requires |s.stack| >= 2 && s.seenComponent
    ensures Run(clock, Some(s), WrittenAll(items)) ==
      if !AllInert(items) then None
      else if s.current.Some? && Last(s.stack) == "VEVENT" then Some(s.(current := Some(Fed(s.current.value, items))))
      else Some(s)
    decreases items
  {
    if items != [] {
      var first, rest := items[0], items[1..];
      hide Build;
      assert AllInert(items) <==> Inert(first) && AllInert(rest) by {
        assert items == [first] + rest;
      }
      RunFirst(clock, Some(s), items);
      RunNone(clock, WrittenAll(rest));
      match first {
        case Leaf(line) =>
          RunOne(clock, Some(s), Property(line));
          Inside(clock, Kept(s, line).value, rest);
        case Component(name, inner) =>
          RunComponent(clock, Some(s), name, inner);
          if Opened(s, name).Some? {
            Inside(clock, Opened(s, name).value, inner);
            assert (s.stack + [name])[..|s.stack|] == s.stack;
            Inside(clock, s, rest);
          } else {
            RunNone(clock, WrittenAll(inner));
          }
      }
    }
  }

  // The state after the items of a legal calendar.
  function TopState(clock: Clock, items: seq<Item>): State
    requires Legal(clock, items)
  {
    State(["VCALENDAR"], MethodOf(items), EventsOf(clock, MethodOf(items), items).value, None, true, false,
      HasComponent(items), EventCount(items))
  }

  lemma {:induction false} NoEvents(clock: Clock, calendarMethod: string, items: seq<Item>)
    requires !HasComponent(items)
    ensures EventsOf(clock, calendarMethod, items) == Some([])
  {
    if items != [] {
      assert Last(items) in items;
      NoEvents(clock, calendarMethod, items[..|items| - 1]);
    }
  }

  // What one more item asks of a legal calendar.
  predicate Extends(clock: Clock, items: seq<Item>, item: Item) {
    && (IsMethod(item) ==> !HasComponent(items))
    && Child(item)
    && (IsEvent(item) ==>
       EventCount(items) < MAX_EVENTS && !Build(clock, BuilderOf(item.items), MethodOf(items)).Invalid?)
  }

  lemma {:induction false} MethodFirstGrows(items: seq<Item>, item: Item)
    ensures MethodFirst(items + [item]) <==> MethodFirst(items) && (IsMethod(item) ==> !HasComponent(items))
  {
    var more := items + [item];
    assert forall i :: 0 <= i < |items| ==> more[i] == items[i];
    if MethodFirst(more) && IsMethod(item) {
      forall i | 0 <= i < |items| ensures !items[i].Component? {
        assert IsMethod(more[|items|]);
      }
    }
  }

  lemma {:induction false} ChildrenGrow(items: seq<Item>, item: Item)
    ensures (forall x <- items + [item] :: Child(x)) <==> (forall x <- items :: Child(x)) && Child(item)
  {
  }

  // METHOD lines come when there are no events yet, so the events do not depend on which one is in force.
  lemma {:induction false} MethodSettled(clock: Clock, items: seq<Item>, item: Item)
    requires MethodFirst(items + [item])
    ensures var m := MethodOf(items + [item]);
      EventsOf(clock, m, items) == EventsOf(clock, MethodOf(items), items) && (item.Component? ==> m == MethodOf(items))
  {
    assert (items + [item])[..|items|] == items;
    MethodFirstGrows(items, item);
    if IsMethod(item) {
      NoEvents(clock, MethodOf(items), items);
      NoEvents(clock, MethodOf(items + [item]), items);
    }
    hide EventsOf, MethodFirst, HasComponent;
  }

  lemma {:induction false} LegalGrows(clock: Clock, items: seq<Item>, item: Item)
    ensures Legal(clock, items + [item]) <==> Legal(clock, items) && Extends(clock, items, item)
    ensures Legal(clock, items + [item]) ==>
      var m := MethodOf(items + [item]);
      EventsOf(clock, m, items) == EventsOf(clock, MethodOf(items), items) && (item.Component? ==> m == MethodOf(items))
  {
    var more := items + [item];
    assert more[..|items|] == items && Last(more) == item;
    MethodFirstGrows(items, item);
    ChildrenGrow(items, item);
    if MethodFirst(more) {
      MethodSettled(clock, items, item);
    }
    assert EventCount(more) == EventCount(items) + if IsEvent(item) then 1 else 0;
    hide MethodFirst, Child, HasComponent, Build, BuilderOf, MethodOf, EventCount;
  }

  // What one more item makes of the state.
  function TopStep(clock: Clock, s: State, item: Item): State {
    match item
    case Leaf(line) => if IsMethod(item) && Upper(line.value) != "" then s.(calendarMethod := Upper(line.value)) else s
    case Component(name, inner) =>
      var seen := s.(seenComponent := true);
      if !IsEvent(item) then seen
      else
        match Build(clock, BuilderOf(inner), s.calendarMethod)
        case Made(event) => seen.(eventCount := s.eventCount + 1, events := s.events + [event])
        case _ => seen.(eventCount := s.eventCount + 1)
  }

  lemma {:induction false} TopItem(clock: Clock, items: seq<Item>, item: Item)
    requires Legal(clock, items)
    ensures var s := TopState(clock, items);
      Run(clock, Some(s), Written(item)) == if Extends(clock, items, item) then Some(TopStep(clock, s, item)) else None
  {
    var s := TopState(clock, items);
    if item.Leaf? {
      RunOne(clock, Some(s), Property(item.line));
      hide Run, Build, HasComponent, EventsOf, MethodOf, EventCount, Legal;
    } else {
      TopComponent(clock, s, item.name, item.items);
      hide Run, Build, HasComponent, EventsOf, MethodOf, EventCount, Legal, BuilderOf, Written;
    }
  }

  lemma {:induction false} TopOther(clock: Clock, s: State, name: string, inner: seq<Item>)
    requires s.stack == ["VCALENDAR"] && s.current == None && name != "VCALENDAR" && name != "VEVENT"
    ensures Run(clock, Some(s), Written(Component(name, inner))) ==
      if AllInert(inner) then Some(s.(seenComponent := true)) else None
  {
    hide Run, Fed, AllInert, Written, WrittenAll, Build;
    RunComponent(clock, Some(s), name, inner);
    RunNone(clock, WrittenAll(inner));
    Inside(clock, Opened(s, name).value, inner);
    assert (s.stack + [name])[..1] == s.stack;
  }

  // The state inside the next event, when its builder holds b.
  function InEvent(s: State, b: Builder): State {
    s.(stack := ["VCALENDAR", "VEVENT"], seenComponent := true, eventCount := s.eventCount + 1, current := Some(b))
  }

  lemma {:induction false} EventOpens(s: State)
    requires s.stack == ["VCALENDAR"] && s.eventCount < MAX_EVENTS
    ensures Opened(s, "VEVENT") == Some(InEvent(s, NO_PROPERTIES))
    ensures forall b: Builder :: InEvent(s, NO_PROPERTIES).(current := Some(b)) == InEvent(s, b)
    ensures var t := InEvent(s, NO_PROPERTIES);
      |t.stack| == 2 && Last(t.stack) == "VEVENT" && t.seenComponent && t.current == Some(NO_PROPERTIES)
  {
    assert ["VCALENDAR"] + ["VEVENT"] == ["VCALENDAR", "VEVENT"];
  }

  lemma {:induction false} EventCloses(clock: Clock, s: State, inner: seq<Item>)
    requires s.stack == ["VCALENDAR"] && s.current == None && !s.closedCalendar
    ensures Closed(clock, InEvent(s, BuilderOf(inner)), "VEVENT") ==
      if Build(clock, BuilderOf(inner), s.calendarMethod).Invalid? then None
      else Some(TopStep(clock, s, Component("VEVENT", inner)))
  {
    hide Build, BuilderOf;
    assert ["VCALENDAR", "VEVENT"][..1] == ["VCALENDAR"];
  }

  lemma {:induction false} FedAll(inner: seq<Item>)
    ensures Fed(NO_PROPERTIES, inner) == BuilderOf(inner)
  {
    FedIsBuilder([], inner);
    assert [] + inner == inner;
  }

  lemma {:induction false} TopEvent(clock: Clock, s: State, inner: seq<Item>)
    requires s.stack == ["VCALENDAR"] && s.current == None && !s.closedCalendar && s.eventCount < MAX_EVENTS
    ensures var built := Build(clock, BuilderOf(inner), s.calendarMethod);
      Run(clock, Some(s), Written(Component("VEVENT", inner))) ==
        if AllInert(inner) && !built.Invalid? then Some(TopStep(clock, s, Component("VEVENT", inner))) else None
  {
    hide *;
    EventOpens(s);
    RunComponent(clock, Some(s), "VEVENT", inner);
    RunNone(clock, WrittenAll(inner));
    FedAll(inner);
    Inside(clock, Opened(s, "VEVENT").value, inner);
    EventCloses(clock, s, inner);
  }

  lemma {:induction false} TopComponent(clock: Clock, s: State, name: string, inner: seq<Item>)
    requires s.stack == ["VCALENDAR"] && s.current == None && !s.closedCalendar
    ensures var item := Component(name, inner);
      Run(clock, Some(s), Written(item)) ==
        if Child(item)
          && (IsEvent(item) ==> s.eventCount < MAX_EVENTS && !Build(clock, BuilderOf(inner), s.calendarMethod).Invalid?)
        then Some(TopStep(clock, s, item)) else None
  {
    hide Run, AllInert, BuilderOf, Written, WrittenAll, Build;
    if name == "VCALENDAR" || (name == "VEVENT" && s.eventCount >= MAX_EVENTS) {
      RunComponent(clock, Some(s), name, inner);
      RunNone(clock, WrittenAll(inner));
      hide Closed, TopStep;
    } else if name == "VEVENT" {
      TopEvent(clock, s, inner);
      hide Opened, Closed, TopStep;
    } else {
      TopOther(clock, s, name, inner);
      hide Opened, Closed;
    }
  }

  lemma {:induction false} EventsGrow(clock: Clock, m: string, items: seq<Item>, item: Item)
    requires EventsOf(clock, m, items).Some?
    ensures var before := EventsOf(clock, m, items).value;
      EventsOf(clock, m, items + [item]) ==
        if !IsEvent(item) then Some(before)
        else match Build(clock, BuilderOf(item.items), m)
          case Invalid => None
          case Skipped => Some(before)
          case Made(event) => Some(before + [event])
    ensures EventCount(items + [item]) == EventCount(items) + if IsEvent(item) then 1 else 0
    ensures HasComponent(items + [item]) == (HasComponent(items) || item.Component?)
  {
    var more := items + [item];
    assert more[..|items|] == items && Last(more) == item;
    assert more[|items|] == item && forall i :: 0 <= i < |items| ==> more[i] == items[i];
  }

  lemma {:induction false} MethodGrows(items: seq<Item>, item: Item)
    ensures MethodOf(items + [item]) ==
      if IsMethod(item) && Upper(item.line.value) != "" then Upper(item.line.value) else MethodOf(items)
  {
    assert (items + [item])[..|items|] == items;
  }

  lemma {:induction false} StateGrows(clock: Clock, items: seq<Item>, item: Item)
    requires Legal(clock, items) && Legal(clock, items + [item])
    ensures TopStep(clock, TopState(clock, items), item) == TopState(clock, items + [item])
  {
    assert EventsOf(clock, MethodOf(items), items).Some?;
    LegalGrows(clock, items, item);
    hide Legal, HasComponent, BuilderOf, Build, Extends, MethodFirst, Child, MethodOf, EventCount, EventsOf;
    EventsGrow(clock, MethodOf(items + [item]), items, item);
    MethodGrows(items, item);
  }

  lemma {:induction false} TopGrows(clock: Clock, items: seq<Item>, item: Item)
    requires Legal(clock, items) && Legal(clock, items + [item])
    ensures Run(clock, Some(TopState(clock, items)), Written(item)) == Some(TopState(clock, items + [item]))
  {
    hide *;
    LegalGrows(clock, items, item);
    TopItem(clock, items, item);
    StateGrows(clock, items, item);
  }

  // The items of a calendar run through exactly when they are legal.
  lemma {:induction false} TopRun(clock: Clock, items: seq<Item>)
    ensures Legal(clock, [])
    ensures Run(clock, Some(TopState(clock, [])), WrittenAll(items)) ==
      if Legal(clock, items) then Some(TopState(clock, items)) else None
  {
    if items != [] {
      var before, item := items[..|items| - 1], Last(items);
      assert items == before + [item];
      TopRun(clock, before);
      WrittenJoin(before, [item]);
      assert WrittenAll([item]) == Written(item);
      RunJoin(clock, Some(TopState(clock, [])), WrittenAll(before), Written(item));
      LegalGrows(clock, before, item);
      RunNone(clock, Written(item));
      if Legal(clock, before) {
        TopItem(clock, before, item);
        if Legal(clock, items) {
          TopGrows(clock, before, item);
        }
      }
      hide Run, Legal, Written, WrittenAll, TopState, Extends;
    }
  }

  predicate Completed(end: Option<State>) {
    end.Some? && end.value.seenCalendar && end.value.closedCalendar && end.value.stack == []
  }

  lemma {:induction false} DocumentRun(clock: Clock, items: seq<Item>)
    ensures var end := Run(clock, Some(INITIAL), Document(items));
      Completed(end) == Legal(clock, items) &&
      (Legal(clock, items) ==> end.value.events == EventsOf(clock, MethodOf(items), items).value)
  {
    TopRun(clock, []);
    TopRun(clock, items);
    RunComponent(clock, Some(INITIAL), "VCALENDAR", items);
    assert Opened(INITIAL, "VCALENDAR") == Some(TopState(clock, []));
    hide Run, WrittenAll, Written;
  }

  // Recursive descent: items up to an unmatched END or the end of input, and the tokens left; None if components cross.
  datatype Parsed = Parsed(items: seq<Item>, rest: seq<Token>)

  function ParseItems(tokens: seq<Token>): (r: Option<Parsed>)
    ensures r.Some? ==> |r.value.rest| <= |tokens|
    decreases |tokens|
  {
    if tokens == [] || tokens[0].End? then Some(Parsed([], tokens))
    else if tokens[0].Property? then Before(Leaf(tokens[0].line), ParseItems(tokens[1..]))
    else
      match ParseItems(tokens[1..])
      case None => None
      case Some(inner) =>
        if inner.rest == [] || inner.rest[0] != End(tokens[0].component) then None
        else Before(Component(tokens[0].component, inner.items), ParseItems(inner.rest[1..]))
  }

  function Before(item: Item, after: Option<Parsed>): Option<Parsed> {
    match after case None => None case Some(p) => Some(Parsed([item] + p.items, p.rest))
  }

  lemma {:induction false} WrittenFirst(item: Item, p: Parsed)
    ensures WrittenAll([item] + p.items) + p.rest == Written(item) + (WrittenAll(p.items) + p.rest)
  {
    assert ([item] + p.items)[1..] == p.items;
  }

  predicate Ends(rest: seq<Token>) {
    rest == [] || rest[0].End?
  }

  lemma {:induction false} ParseSound(tokens: seq<Token>)
    ensures var p := ParseItems(tokens);
      p.Some? ==> tokens == WrittenAll(p.value.items) + p.value.rest && Ends(p.value.rest)
    decreases |tokens|
  {
    if tokens != [] && !tokens[0].End? && ParseItems(tokens).Some? {
      ParseSound(tokens[1..]);
      if tokens[0].Property? {
        WrittenFirst(Leaf(tokens[0].line), ParseItems(tokens[1..]).value);
      } else {
        ParseSound(ParseItems(tokens[1..]).value.rest[1..]);
        ParseSoundComponent(tokens);
      }
    }
  }

  lemma {:induction false} ParseSoundComponent(tokens: seq<Token>)
    requires tokens != [] && tokens[0].Begin? && ParseItems(tokens).Some?
    requires var inner := ParseItems(tokens[1..]).value; tokens[1..] == WrittenAll(inner.items) + inner.rest
    requires var p := ParseItems(ParseItems(tokens[1..]).value.rest[1..]).value;
      ParseItems(tokens[1..]).value.rest[1..] == WrittenAll(p.items) + p.rest && Ends(p.rest)
    ensures var p := ParseItems(tokens).value; tokens == WrittenAll(p.items) + p.rest && Ends(p.rest)
  {
    var name, inner := tokens[0].component, ParseItems(tokens[1..]).value;
    var after := inner.rest[1..];
    var p := ParseItems(after).value;
    WrittenFirst(Component(name, inner.items), p);
    assert ParseItems(tokens) == Some(Parsed([Component(name, inner.items)] + p.items, p.rest))
      && inner.rest[0] == End(name);
    Bracketed(tokens, WrittenAll(inner.items), inner.rest, after);
  }

  lemma {:induction false} Bracketed(tokens: seq<Token>, w: seq<Token>, rest: seq<Token>, after: seq<Token>)
    requires tokens != [] && tokens[1..] == w + rest && rest != [] && rest[1..] == after
    ensures tokens == [tokens[0]] + w + [rest[0]] + after
  {
    assert tokens == [tokens[0]] + tokens[1..] && rest == [rest[0]] + rest[1..];
  }

  // Same stack, and a calendar once seen stays seen.
  predicate Kin(s: State, end: State) {
    end.stack == s.stack && (s.seenCalendar ==> end.seenCalendar)
  }

  // Items leave the stack as they found it.
  lemma {:induction false} Balanced(clock: Clock, s: State, items: seq<Item>)
    requires s.stack != []
    ensures var end := Run(clock, Some(s), WrittenAll(items)); end.None? || Kin(s, end.value)
    decreases items, 0
  {
    if items != [] {
      RunFirst(clock, Some(s), items);
      RunNone(clock, WrittenAll(items[1..]));
      match items[0] {
        case Leaf(line) =>
          RunOne(clock, Some(s), Property(line));
          if Kept(s, line).Some? {
            Balanced(clock, Kept(s, line).value, items[1..]);
          }
        case Component(name, inner) =>
          BalancedComponent(clock, s, name, inner);
          var end := Run(clock, Some(s), Written(items[0]));
          if end.Some? {
            Balanced(clock, end.value, items[1..]);
          }
      }
    }
  }

  lemma {:induction false} BalancedComponent(clock: Clock, s: State, name: string, inner: seq<Item>)
    requires s.stack != []
    ensures var end := Run(clock, Some(s), Written(Component(name, inner))); end.None? || Kin(s, end.value)
    decreases inner, 1
  {
    RunComponent(clock, Some(s), name, inner);
    RunNone(clock, WrittenAll(inner));
    var open := Opened(s, name);
    hide Run, Build, WrittenAll, Written;
    if open.Some? {
      Balanced(clock, open.value, inner);
      assert (s.stack + [name])[..|s.stack|] == s.stack;
    }
  }

  // Crossing components never let the run come to an empty stack.
  lemma {:induction false} CrossingNeverEnds(clock: Clock, s: State, tokens: seq<Token>)
    requires s.stack != [] && ParseItems(tokens).None?
    ensures var end := Run(clock, Some(s), tokens); end.None? || end.value.stack != []
    decreases |tokens|, 1
  {
    var next := Step(clock, s, tokens[0]);
    RunNone(clock, tokens[1..]);
    if next.None? {
    } else if tokens[0].Property? || ParseItems(tokens[1..]).None? {
      CrossingNeverEnds(clock, next.value, tokens[1..]);
    } else {
      CrossingComponent(clock, s, tokens);
    }
  }

  lemma {:induction false} CrossingComponent(clock: Clock, s: State, tokens: seq<Token>)
    requires s.stack != [] && tokens != [] && tokens[0].Begin? && Step(clock, s, tokens[0]).Some?
    requires ParseItems(tokens).None? && ParseItems(tokens[1..]).Some?
    ensures var end := Run(clock, Some(s), tokens); end.None? || end.value.stack != []
    decreases |tokens|, 0
  {
    var inner := ParseItems(tokens[1..]).value;
    OpenRun(clock, s, tokens);
    var filled := Run(clock, Step(clock, s, tokens[0]), WrittenAll(inner.items));
    RunNone(clock, inner.rest);
    assert inner.rest != [] && inner.rest[0] == End(tokens[0].component) ==> ParseItems(inner.rest[1..]).None?;
    hide Run, WrittenAll, ParseItems, Step;
    if filled.Some? && inner.rest != [] {
      CloseRun(clock, filled.value, inner.rest);
      var closed := Step(clock, filled.value, inner.rest[0]);
      if closed.Some? {
        CrossingNeverEnds(clock, closed.value, inner.rest[1..]);
      }
    }
  }

  // An opened component runs through its items and back to its own stack.
  lemma {:induction false} OpenRun(clock: Clock, s: State, tokens: seq<Token>)
    requires tokens != [] && tokens[0].Begin? && Step(clock, s, tokens[0]).Some? && ParseItems(tokens[1..]).Some?
    ensures var inner := ParseItems(tokens[1..]).value;
      var filled := Run(clock, Step(clock, s, tokens[0]), WrittenAll(inner.items));
      && Run(clock, Some(s), tokens) == Run(clock, filled, inner.rest)
      && Ends(inner.rest) && (filled.Some? ==> filled.value.stack == s.stack + [tokens[0].component])
  {
    var inner, next := ParseItems(tokens[1..]).value, Step(clock, s, tokens[0]);
    ParseSound(tokens[1..]);
    RunJoin(clock, next, WrittenAll(inner.items), inner.rest);
    Balanced(clock, next.value, inner.items);
    hide WrittenAll, ParseItems;
  }

  // What closes a component is its own END.
  lemma {:induction false} CloseRun(clock: Clock, s: State, rest: seq<Token>)
    requires s.stack != [] && rest != [] && Ends(rest)
    ensures var closed := Step(clock, s, rest[0]);
      && Run(clock, Some(s), rest) == Run(clock, closed, rest[1..])
      && (if closed.Some? then rest[0] == End(Last(s.stack)) && closed.value.stack == s.stack[..|s.stack| - 1]
          else Run(clock, Some(s), rest) == None)
  {
    RunNone(clock, rest[1..]);
    hide Build;
  }

  // All or nothing.
  function Meaning(clock: Clock, items: seq<Item>): seq<Event> {
    if Legal(clock, items) then EventsOf(clock, MethodOf(items), items).value else []
  }

  ghost predicate Derives(tokens: seq<Token>, items: seq<Item>) {
    tokens == Document(items)
  }

  lemma {:induction false} StartsOpen(clock: Clock, tokens: seq<Token>)
    requires Completed(Run(clock, Some(INITIAL), tokens))
    ensures tokens != [] && tokens[0] == Begin("VCALENDAR")
    ensures var open := Opened(INITIAL, "VCALENDAR");
      && open.Some? && open.value.stack == ["VCALENDAR"] && open.value.seenCalendar
      && Run(clock, Some(INITIAL), tokens) == Run(clock, open, tokens[1..])
  {
    RunNone(clock, tokens[1..]);
  }

  lemma {:induction false} RunEnds(clock: Clock, s: Option<State>)
    ensures Run(clock, s, []) == s
  {
  }

  lemma {:induction false} DocumentIs(items: seq<Item>)
    ensures Document(items) == [Begin("VCALENDAR")] + (WrittenAll(items) + [End("VCALENDAR")])
    ensures forall tokens :: Derives(tokens, items) <==> tokens == Document(items)
  {
    hide WrittenAll;
  }

  // Whatever runs to completion is a document.
  lemma {:induction false} CompletedIsDocument(clock: Clock, tokens: seq<Token>) returns (items: seq<Item>)
    requires Completed(Run(clock, Some(INITIAL), tokens))
    ensures Derives(tokens, items)
  {
    hide Run, Step, Opened, ParseItems, WrittenAll;
    StartsOpen(clock, tokens);
    var open := Opened(INITIAL, "VCALENDAR").value;
    var parsed := ParseItems(tokens[1..]);
    if parsed.None? {
      CrossingNeverEnds(clock, open, tokens[1..]);
    }
    var rest := parsed.value.rest;
    items := parsed.value.items;
    ParseSound(tokens[1..]);
    RunJoin(clock, Some(open), WrittenAll(items), rest);
    Balanced(clock, open, items);
    RunNone(clock, rest);
    RunEnds(clock, Run(clock, Some(open), WrittenAll(items)));
    NothingFollows(clock, Run(clock, Some(open), WrittenAll(items)).value, rest);
    hide *;
    assert tokens == [tokens[0]] + tokens[1..];
    DocumentIs(items);
  }

  lemma {:induction false} NothingFollows(clock: Clock, s: State, rest: seq<Token>)
    requires s.stack == ["VCALENDAR"] && s.seenCalendar && rest != [] && rest[0].End?
      && Completed(Run(clock, Some(s), rest))
    ensures rest == [End("VCALENDAR")]
  {
    CloseRun(clock, s, rest);
    if |rest| > 1 {
      AfterCalendar(clock, Step(clock, s, rest[0]).value, rest[1..]);
    } else {
      assert rest == [rest[0]];
    }
  }

  // A closed calendar takes no further line.
  lemma {:induction false} AfterCalendar(clock: Clock, s: State, rest: seq<Token>)
    requires s.stack == [] && s.seenCalendar && rest != []
    ensures Run(clock, Some(s), rest) == None
  {
    RunNone(clock, rest[1..]);
  }

  // The stack machine is the grammar: it completes exactly on the legal documents, and gives their events.
  lemma {:induction false} StackIsGrammar(clock: Clock, tokens: seq<Token>)
    ensures Completed(Run(clock, Some(INITIAL), tokens)) <==>
      exists items :: Derives(tokens, items) && Legal(clock, items)
    ensures forall items | Derives(tokens, items) :: Result(Run(clock, Some(INITIAL), tokens)) == Meaning(clock, items)
  {
    if Completed(Run(clock, Some(INITIAL), tokens)) {
      var items := CompletedIsDocument(clock, tokens);
      DocumentRun(clock, items);
      assert Derives(tokens, items) && Legal(clock, items);
    }
    forall items | Derives(tokens, items) ensures Result(Run(clock, Some(INITIAL), tokens)) == Meaning(clock, items) {
      DocumentRun(clock, items);
      hide Run, Legal, EventsOf, Document;
    }
    forall items | Derives(tokens, items) && Legal(clock, items) ensures Completed(Run(clock, Some(INITIAL), tokens)) {
      DocumentRun(clock, items);
    }
  }

  // A builder holds the first property of each name, and every ATTENDEE in order; nested items are not in it.
  lemma {:induction false} FirstPropertyWins(items: seq<Item>, name: string)
    requires name != "ATTENDEE"
    ensures var b := BuilderOf(items).properties;
      match FirstNamed(items, name) case None => name !in b case Some(line) => name in b && b[name] == line
  {
    if items != [] {
      FirstPropertyWins(items[..|items| - 1], name);
    }
  }

  function FirstNamed(items: seq<Item>, name: string): Option<Line> {
    if items == [] then None
    else
      match FirstNamed(items[..|items| - 1], name)
      case Some(line) => Some(line)
      case None => if Last(items).Leaf? && Last(items).line.name == name then Some(Last(items).line) else None
  }
}
