/** The iCalendar parser (internal/calendar/calendar.go). Times and durations are read by a Clock that stays a
    parameter. */
module Calendar {
  import opened Text
  import opened ContentLines

  const MAX_EVENTS: nat := 1000

  // A content line: upper-case name, value, and the values of each parameter.
  datatype Line = Line(name: string, value: string, params: map<string, seq<string>>)

  // strings.ReplaceAll of a two-byte pattern that starts with a backslash
  function Unslash(s: string, second: char): string {
    if s == "" then ""
    else if |s| >= 2 && s[0] == '\\' && s[1] == second then [second] + Unslash(s[2..], second)
    else [s[0]] + Unslash(s[1..], second)
  }

  function DecodedParameter(s: string): string {
    var bare := if |s| >= 2 && s[0] == '"' && Last(s) == '"' then s[1..|s| - 1] else s;
    Unslash(Unslash(bare, '"'), '\\')
  }

  function DecodedParameters(values: seq<string>): seq<string> {
    seq(|values|, i requires 0 <= i < |values| => DecodedParameter(values[i]))
  }

  // One parameter, or None if it has no name.
  function WithParameter(params: map<string, seq<string>>, part: string): Option<map<string, seq<string>>> {
    match Find(part, '=', PLAIN)
    case None => None
    case Some(equals) =>
      if equals == 0 then None
      else Some(params[Upper(part[..equals]) := DecodedParameters(Pieces(part[equals + 1..], ',', PLAIN))])
  }

  function WithParameters(params: map<string, seq<string>>, parts: seq<string>): Option<map<string, seq<string>>>
    decreases |parts|
  {
    if parts == [] then Some(params)
    else match WithParameter(params, parts[0]) case None => None case Some(next) => WithParameters(next, parts[1..])
  }

  function ParsedLine(raw: string): Option<Line> {
    match Find(raw, ':', PLAIN)
    case None => None
    case Some(colon) =>
      var parts := Pieces(raw[..colon], ';', PLAIN);
      if colon == 0 || parts[0] == "" then None
      else
        match WithParameters(map[], parts[1..])
        case None => None
        case Some(params) => Some(Line(Upper(parts[0]), raw[colon + 1..], params))
  }

  method ParseContentLine(raw: string) returns (line: Option<Line>)
    ensures line == ParsedLine(raw)
  {
    var colon := SeparatorIndex(raw, ':');
    if colon <= 0 {
      return None;
    }
    var parts := SplitOutsideQuotes(raw[..colon], ';');
    var name := Upper(parts[0]);
    if name == "" {
      return None;
    }
    var params: map<string, seq<string>> := map[];
    for i := 1 to |parts|
      invariant WithParameters(map[], parts[1..]) == WithParameters(params, parts[i..])
    {
      assert parts[i..][0] == parts[i] && parts[i..][1..] == parts[i + 1..];
      var equals := SeparatorIndex(parts[i], '=');
      if equals <= 0 {
        return None;
      }
      var values := SplitOutsideQuotes(parts[i][equals + 1..], ',');
      params := params[Upper(parts[i][..equals]) := DecodedParameters(values)];
    }
    line := Some(Line(name, raw[colon + 1..], params));
  }

  // Text values: a backslash escapes a newline, a backslash, a comma or a semicolon, and nothing else.
  function Unescaped(c: char): Option<char> {
    if c == 'n' || c == 'N' then Some('\n') else if c == '\\' || c == ',' || c == ';' then Some(c) else None
  }

  function Prefixed(prefix: string, rest: Option<string>): Option<string> {
    if rest.None? then None else Some(prefix + rest.value)
  }

  lemma {:induction false} PrefixedTwice(p: string, q: string, rest: Option<string>)
    ensures Prefixed(p, Prefixed(q, rest)) == Prefixed(p + q, rest) && Prefixed("", rest) == rest
  {
    if rest.Some? {
      assert p + (q + rest.value) == p + q + rest.value && "" + rest.value == rest.value;
    }
  }

  function Decoded(s: string): Option<string> {
    if s == "" then Some("")
    else if s[0] != '\\' then Prefixed([s[0]], Decoded(s[1..]))
    else if |s| == 1 || Unescaped(s[1]).None? then None
    else Prefixed([Unescaped(s[1]).value], Decoded(s[2..]))
  }

  method DecodeText(value: string) returns (decoded: Option<string>)
    ensures decoded == Decoded(value)
  {
    var text, index := "", 0;
    PrefixedTwice("", "", Decoded(value));
    while index < |value|
      invariant index <= |value|
      invariant Decoded(value) == Prefixed(text, Decoded(value[index..]))
    {
      assert value[index..][1..] == value[index + 1..];
      PrefixedTwice(text, [value[index]], Decoded(value[index + 1..]));
      if value[index] != '\\' {
        text := text + [value[index]];
      } else {
        if index + 1 >= |value| {
          return None;
        }
        assert value[index..][2..] == value[index + 2..];
        index := index + 1;
        var c := Unescaped(value[index]);
        if c.None? {
          return None;
        }
        PrefixedTwice(text, [c.value], Decoded(value[index + 1..]));
        text := text + [c.value];
      }
      index := index + 1;
    }
    assert value[index..] == "" && text + "" == text;
    decoded := Some(text);
  }

  // The properties of an event: the first of each name, and every attendee.
  datatype Builder = Builder(properties: map<string, Line>, attendees: seq<Line>)

  const NO_PROPERTIES := Builder(map[], [])

  function Added(b: Builder, line: Line): Builder {
    if line.name == "ATTENDEE" then b.(attendees := b.attendees + [line])
    else if line.name in b.properties then b
    else b.(properties := b.properties[line.name := line])
  }

  class EventBuilder {
    var properties: map<string, Line>
    var attendees: seq<Line>

    constructor ()
      ensures Contents() == NO_PROPERTIES
    {
      properties, attendees := map[], [];
    }

    function Contents(): Builder
      reads this
    {
      Builder(properties, attendees)
    }

    method Add(line: Line)
      modifies this
      ensures Contents() == Added(old(Contents()), line)
    {
      if line.name == "ATTENDEE" {
        attendees := attendees + [line];
      } else if line.name !in properties {
        properties := properties[line.name := line];
      }
    }
  }

  datatype Attendee = Attendee(address: string, name: Option<string>, partstat: Option<string>, role: Option<string>)

  datatype Event = Event(
    method_: string, uid: string, sequence: nat, summary: Option<string>, description: Option<string>,
    location: Option<string>, status: Option<string>, organizerAddress: Option<string>, organizerName: Option<string>,
    attendees: seq<Attendee>, start: int, end: Option<int>, allDay: bool)

  // A point in time, in milliseconds, and whether it names a whole day.
  datatype Moment = Moment(millis: int, allDay: bool)

  // Reading a time property, the end of a DURATION after a start, and the day after.
  datatype Clock = Clock(parse: Line -> Option<Moment>, after: (Moment, string) -> Option<int>, dayAfter: Moment -> int)

  function ValueOf(b: Builder, name: string): string {
    if name in b.properties then b.properties[name].value else ""
  }

  function NonEmpty(s: string): Option<string> {
    if s == "" then None else Some(s)
  }

  function Mailto(value: string): Option<string> {
    NonEmpty(Lower(if |value| >= 7 && Lower(value[..7]) == "mailto:" then value[7..] else value))
  }

  function Parameter(line: Line, name: string, upper: bool): Option<string> {
    if name !in line.params || line.params[name] == [] then None
    else NonEmpty(if upper then Upper(line.params[name][0]) else line.params[name][0])
  }

  function Sequence(value: string): nat {
    match Atoi(value) case None => 0 case Some(n) => if n < 0 then 0 else n
  }

  // Attendees with an address.
  function Attendees(lines: seq<Line>): seq<Attendee> {
    if lines == [] then []
    else
      (match Mailto(lines[0].value)
       case None => []
       case Some(address) =>
         [Attendee(address, Parameter(lines[0], "CN", false), Parameter(lines[0], "PARTSTAT", true),
           Parameter(lines[0], "ROLE", true))])
      + Attendees(lines[1..])
  }

  // An event without UID or DTSTART is left out; one with a malformed value spoils the calendar.
  datatype Built = Skipped | Invalid | Made(event: Event)

  // The end of an event: its DTEND, else its DURATION after the start, else the next day if it lasts a day.
  function EndOf(clock: Clock, b: Builder, start: Moment): Option<Option<int>> {
    if "DTEND" in b.properties then
      (match clock.parse(b.properties["DTEND"]) case None => None case Some(end) => Some(Some(end.millis)))
    else if "DURATION" in b.properties then
      (match clock.after(start, ValueOf(b, "DURATION")) case None => None case Some(end) => Some(Some(end)))
    else Some(if start.allDay then Some(clock.dayAfter(start)) else None)
  }

  function Build(clock: Clock, b: Builder, calendarMethod: string): Built {
    if "UID" !in b.properties || "DTSTART" !in b.properties then Skipped
    else
      match Decoded(ValueOf(b, "UID"))
      case None => Invalid
      case Some(uid) =>
        if uid == "" then Skipped
        else
          match clock.parse(b.properties["DTSTART"])
          case None => Invalid
          case Some(start) =>
            match EndOf(clock, b, start)
            case None => Invalid
            case Some(end) =>
              var summary, description, location :=
                Decoded(ValueOf(b, "SUMMARY")), Decoded(ValueOf(b, "DESCRIPTION")), Decoded(ValueOf(b, "LOCATION"));
              if summary.None? || description.None? || location.None? then Invalid
              else
                var organizer := if "ORGANIZER" in b.properties then Some(b.properties["ORGANIZER"]) else None;
                Made(Event(Upper(calendarMethod), uid, Sequence(ValueOf(b, "SEQUENCE")),
                           NonEmpty(summary.value), NonEmpty(description.value), NonEmpty(location.value),
                           NonEmpty(Upper(ValueOf(b, "STATUS"))),
                           if organizer.Some? then Mailto(organizer.value.value) else None,
                           if organizer.Some? then Parameter(organizer.value, "CN", false) else None,
                           Attendees(b.attendees), start.millis, end, start.allDay))
  }

  // What the loop sees of a line.
  datatype Token = Begin(component: string) | End(component: string) | Property(line: Line)

  function TokenOf(line: Line): Token {
    if line.name == "BEGIN" then Begin(Upper(line.value))
    else if line.name == "END" then End(Upper(line.value))
    else Property(line)
  }

  datatype State = State(stack: seq<string>, calendarMethod: string, events: seq<Event>, current: Option<Builder>,
                         seenCalendar: bool, closedCalendar: bool, seenComponent: bool, eventCount: nat)

  const INITIAL := State([], "PUBLISH", [], None, false, false, false, 0)

  function Opened(s: State, component: string): Option<State> {
    var pushed := s.(stack := s.stack + [component], seenComponent := s.seenComponent || s.stack != []);
    if s.stack == [] then
      if component != "VCALENDAR" || s.seenCalendar then None else Some(pushed.(seenCalendar := true))
    else if component == "VCALENDAR" then None
    else if component == "VEVENT" then
      if s.stack != ["VCALENDAR"] || s.eventCount + 1 > MAX_EVENTS then None
      else Some(pushed.(eventCount := s.eventCount + 1, current := Some(NO_PROPERTIES)))
    else Some(pushed)
  }

  function Closed(clock: Clock, s: State, component: string): Option<State> {
    if s.stack == [] || Last(s.stack) != component then None
    else
      var popped :=
        s.(stack := s.stack[..|s.stack| - 1], closedCalendar := s.closedCalendar || component == "VCALENDAR");
      if component == "VEVENT" && s.current.Some? then
        match Build(clock, s.current.value, s.calendarMethod)
        case Invalid => None
        case Skipped => Some(popped.(current := None))
        case Made(event) => Some(popped.(current := None, events := s.events + [event]))
      else Some(popped)
  }

  function Kept(s: State, line: Line): Option<State> {
    if s.stack == [] then None
    else if s.stack == ["VCALENDAR"] && line.name == "METHOD" then
      if s.seenComponent then None
      else Some(if Upper(line.value) == "" then s else s.(calendarMethod := Upper(line.value)))
    else if s.current.Some? && Last(s.stack) == "VEVENT" then Some(s.(current := Some(Added(s.current.value, line))))
    else Some(s)
  }

  function Step(clock: Clock, s: State, token: Token): Option<State> {
    match token
    case Begin(component) => Opened(s, component)
    case End(component) => Closed(clock, s, component)
    case Property(line) => Kept(s, line)
  }

  function Run(clock: Clock, s: Option<State>, tokens: seq<Token>): Option<State>
    decreases |tokens|
  {
    if s.None? || tokens == [] then s else Run(clock, Step(clock, s.value, tokens[0]), tokens[1..])
  }

  // The events of a complete calendar; a run that failed or did not finish has none.
  function Result(end: Option<State>): seq<Event> {
    if end.Some? && end.value.seenCalendar && end.value.closedCalendar && end.value.stack == [] then end.value.events
    else []
  }

  // The tokens of unfolded lines, or None if one is malformed.
  function Tokens(lines: seq<string>): Option<seq<Token>> {
    if lines == [] then Some([])
    else if lines[0] == "" then Tokens(lines[1..])
    else
      match ParsedLine(lines[0])
      case None => None
      case Some(line) => match Tokens(lines[1..]) case None => None case Some(rest) => Some([TokenOf(line)] + rest)
  }

  function TokensOfText(text: string): Option<seq<Token>> {
    match Unfolded(text) case None => None case Some(lines) => Tokens(lines)
  }

  function ParsedICS(clock: Clock, text: string): seq<Event> {
    match TokensOfText(text) case None => [] case Some(tokens) => Result(Run(clock, Some(INITIAL), tokens))
  }

  // One physical step of the loop, which stops at the first malformed line.
  function Advanced(clock: Clock, s: State, raw: string): Option<State> {
    if raw == "" then Some(s)
    else match ParsedLine(raw) case None => None case Some(line) => Step(clock, s, TokenOf(line))
  }

  function RunLines(clock: Clock, s: Option<State>, lines: seq<string>): Option<State>
    decreases |lines|
  {
    if s.None? || lines == [] then s else RunLines(clock, Advanced(clock, s.value, lines[0]), lines[1..])
  }

  lemma {:induction false} RunLinesIsRun(clock: Clock, s: Option<State>, lines: seq<string>)
    ensures Tokens(lines).Some? ==> RunLines(clock, s, lines) == Run(clock, s, Tokens(lines).value)
    ensures Tokens(lines).None? ==> RunLines(clock, s, lines) == None
    decreases |lines|
  {
    if s.Some? && lines != [] {
      RunLinesIsRun(clock, Advanced(clock, s.value, lines[0]), lines[1..]);
      hide Step, Unfolded, ParsedLine;
    }
  }

  lemma {:induction false} RunLinesStep(clock: Clock, s: State, lines: seq<string>, i: nat)
    requires i < |lines|
    ensures RunLines(clock, Some(s), lines[i..]) == RunLines(clock, Advanced(clock, s, lines[i]), lines[i + 1..])
    ensures RunLines(clock, None, lines[i + 1..]) == None
  {
    assert lines[i..][1..] == lines[i + 1..];
  }

  // The variables of the parsing loop and its three cases. A case that fails ends the parse.
  class Parser {
    var stack: seq<string>
    var calendarMethod: string
    var events: seq<Event>
    var current: EventBuilder?
    var seenCalendar: bool
    var closedCalendar: bool
    var seenComponent: bool
    var eventCount: nat

    constructor ()
      ensures View() == INITIAL && current == null
    {
      stack, calendarMethod, events, current := [], "PUBLISH", [], null;
      seenCalendar, closedCalendar, seenComponent, eventCount := false, false, false, 0;
    }

    function View(): State
      reads this, current
    {
      State(stack, calendarMethod, events, if current == null then None else Some(current.Contents()),
            seenCalendar, closedCalendar, seenComponent, eventCount)
    }

    method Begin(component: string) returns (ok: bool)
      modifies this
      ensures current == old(current) || fresh(current)
      ensures Opened(old(View()), component) == if ok then Some(View()) else None
    {
      if |stack| == 0 {
        if component != "VCALENDAR" || seenCalendar {
          return false;
        }
        seenCalendar := true;
      } else if component == "VCALENDAR" {
        return false;
      } else if component == "VEVENT" {
        if |stack| != 1 || stack[0] != "VCALENDAR" {
          return false;
        }
        eventCount := eventCount + 1;
        if eventCount > MAX_EVENTS {
          return false;
        }
        current := new EventBuilder();
      }
      if |stack| > 0 {
        seenComponent := true;
      }
      stack := stack + [component];
      ok := true;
    }

    method End(clock: Clock, component: string) returns (ok: bool)
      modifies this
      ensures current == old(current) || current == null
      ensures Closed(clock, old(View()), component) == if ok then Some(View()) else None
    {
      if |stack| == 0 || Last(stack) != component {
        return false;
      }
      if component == "VEVENT" && current != null {
        match Build(clock, current.Contents(), calendarMethod) {
          case Invalid => return false;
          case Skipped =>
          case Made(event) => events := events + [event];
        }
        current := null;
      }
      stack := stack[..|stack| - 1];
      if component == "VCALENDAR" {
        closedCalendar := true;
      }
      ok := true;
    }

    method Keep(line: Line) returns (ok: bool)
      modifies this, current
      ensures current == old(current)
      ensures Kept(old(View()), line) == if ok then Some(View()) else None
    {
      if |stack| == 0 {
        return false;
      }
      if |stack| == 1 && stack[0] == "VCALENDAR" && line.name == "METHOD" {
        if seenComponent {
          return false;
        }
        var value := Upper(line.value);
        if value != "" {
          calendarMethod := value;
        }
      } else if current != null && Last(stack) == "VEVENT" {
        current.Add(line);
      }
      ok := true;
    }
  }

  method ParseICS(clock: Clock, text: string) returns (events: seq<Event>)
    ensures events == ParsedICS(clock, text)
  {
    var unfolded := UnfoldLines(text);
    if unfolded.None? {
      return [];
    }
    var lines := unfolded.value;
    RunLinesIsRun(clock, Some(INITIAL), lines);
    var parser := new Parser();
    assert lines[0..] == lines;
    for i := 0 to |lines|
      invariant fresh(parser) && (parser.current != null ==> fresh(parser.current))
      invariant RunLines(clock, Some(INITIAL), lines) == RunLines(clock, Some(parser.View()), lines[i..])
    {
      RunLinesStep(clock, parser.View(), lines, i);
      hide RunLines, Step, Parser.View, ParsedLine, Tokens, Unfolded, Run, Result;
      if lines[i] == "" {
        continue;
      }
      var parsed := ParseContentLine(lines[i]);
      if parsed.None? {
        return [];
      }
      var ok := Take(clock, parser, TokenOf(parsed.value));
      if !ok {
        return [];
      }
    }
    events := if parser.seenCalendar && parser.closedCalendar && |parser.stack| == 0 then parser.events else [];
  }

  method Take(clock: Clock, parser: Parser, token: Token) returns (ok: bool)
    modifies parser, parser.current
    ensures parser.current == old(parser.current) || parser.current == null || fresh(parser.current)
    ensures Step(clock, old(parser.View()), token) == if ok then Some(parser.View()) else None
  {
    hide Parser.View, Opened, Closed, Kept;
    match token {
      case Begin(component) => ok := parser.Begin(component);
      case End(component) => ok := parser.End(clock, component);
      case Property(line) => ok := parser.Keep(line);
    }
  }
}
