/** An invitation printed by the built-in sender is read back by the calendar parser (internal/sendtest/sendtest.go,
    internal/calendar/calendar.go). */
module CalendarRoundTrip {
  import opened Text
  import opened ContentLines
  import opened Calendar
  import opened CalendarGrammar
  import opened CalendarPrinter
  import opened CalendarRecipient

  // The attendee line as it is read, whatever it became.
  function AttendeeRead(v: Invitation): Line
    requires Recoverable(v.to)
  {
    AttendeeParses(v.to);
    ParsedLine(AttendeeLine(v.to)).value
  }

  function Body(v: Invitation): seq<Line>
    requires Recoverable(v.to)
  {
    Simple(EventFields(v)) + [ORGANIZER_LINE, AttendeeRead(v)]
  }

  function Items(v: Invitation): seq<Item>
    requires Recoverable(v.to)
  {
    Leaves(Simple(Heading(v))) + [Component("VEVENT", Leaves(Body(v)))]
  }

  // What the sender passes: a one-word method, and times and a status on one line.
  predicate Printable(v: Invitation) {
    Word(v.method_) && OneLine(v.stamp) && OneLine(v.start) && OneLine(v.end) && OneLine(v.status)
  }

  lemma {:induction false} OneLineTokens(raw: string)
    requires raw != ""
    ensures Tokens([raw]) == match ParsedLine(raw) case None => None case Some(line) => Some([TokenOf(line)])
  {
    assert [raw][1..] == [] && Tokens([]) == Some([]);
    hide ParsedLine, TokenOf;
    assert ParsedLine(raw).Some? ==> [TokenOf(ParsedLine(raw).value)] + [] == [TokenOf(ParsedLine(raw).value)];
  }

  lemma {:induction false} MarkerTokens(name: string, component: string)
    requires (name == "BEGIN" || name == "END") && Word(component)
    ensures Tokens(Lines([(name, component)])) == Some([if name == "BEGIN" then Begin(component) else End(component)])
  {
    assert Word(name);
    PropertyLine(name, component);
    WordUpper(component);
    var raw := name + (":" + component);
    OneLineTokens(raw);
    assert Lines([(name, component)]) == [raw];
    hide ParsedLine, Word, Tokens, Lines;
  }

  lemma {:induction false} NamesAreWords(v: Invitation)
    ensures Named(Heading(v)) && Named(EventFields(v))
  {
    hide FieldName, Uid, Decimal, Escape;
    HeadWords();
    StampWords();
    TextWords();
    var f := EventFields(v);
    FiveNamed(f[0], f[1], f[2], f[3], f[4]);
    FiveNamed(f[4], f[5], f[6], f[7], f[8]);
    assert f[..5] == [f[0], f[1], f[2], f[3], f[4]] && f[4..] == [f[4], f[5], f[6], f[7], f[8]];
    assert forall i :: 0 <= i < 9 ==> FieldName(f[i].0) by {
      assert forall i :: 0 <= i < 5 ==> f[i] == f[..5][i];
      assert forall i :: 4 <= i < 9 ==> f[i] == f[4..][i - 4];
    }
  }

  lemma {:induction false} HeadWords()
    ensures FieldName("PRODID") && FieldName("VERSION") && FieldName("METHOD") && FieldName("UID")
      && FieldName("SEQUENCE")
  {
  }

  lemma {:induction false} StampWords()
    ensures FieldName("DTSTAMP") && FieldName("DTSTART") && FieldName("DTEND")
  {
  }

  lemma {:induction false} TextWords()
    ensures FieldName("SUMMARY") && FieldName("LOCATION") && FieldName("DESCRIPTION") && FieldName("STATUS")
  {
  }

  lemma {:induction false} FiveNamed(a: (string, string), b: (string, string), c: (string, string), d: (string, string),
                                     e: (string, string))
    requires FieldName(a.0) && FieldName(b.0) && FieldName(c.0) && FieldName(d.0) && FieldName(e.0)
    ensures Named([a, b, c, d, e])
  {
    hide FieldName;
  }

  lemma {:induction false} LeavesWritten(a: seq<Line>, b: seq<Line>)
    ensures WrittenAll(Leaves(a + b)) == WrittenAll(Leaves(a)) + WrittenAll(Leaves(b))
  {
    WrittenJoin(Leaves(a), Leaves(b));
    assert Leaves(a + b) == Leaves(a) + Leaves(b);
  }

  lemma {:induction false} TwoLines(a: string, b: string)
    ensures Tokens([a, b]) ==
      if Tokens([a]).Some? && Tokens([b]).Some? then Some(Tokens([a]).value + Tokens([b]).value) else None
  {
    TokensJoin([a], [b]);
    assert [a] + [b] == [a, b];
  }

  lemma {:induction false} PeopleLines(to: string)
    ensures Organizer() != "" && AttendeeLine(to) != "" && TokenOf(ORGANIZER_LINE) == Property(ORGANIZER_LINE)
  {
    assert ORGANIZER_LINE.name == "ORGANIZER";
  }

  lemma {:induction false} ReadIs(v: Invitation)
    requires Recoverable(v.to)
    ensures ParsedLine(AttendeeLine(v.to)) == Some(AttendeeRead(v))
  {
    AttendeeParses(v.to);
    hide ParsedLine, AttendeeLine, Recoverable;
  }

  lemma {:induction false} AttendeeToken(line: Line)
    requires line.name == "ATTENDEE"
    ensures TokenOf(line) == Property(line)
  {
  }

  lemma {:induction false} TwoWritten(a: Line, b: Line)
    ensures WrittenAll(Leaves([a, b])) == [Property(a)] + [Property(b)]
  {
    assert Leaves([a, b]) == [Leaf(a), Leaf(b)];
    assert [Leaf(a), Leaf(b)][1..] == [Leaf(b)] && [Leaf(b)][1..] == [];
    assert WrittenAll([Leaf(b)]) == [Property(b)];
  }

  // The two people of the event.
  lemma {:induction false} PeopleTokens(v: Invitation)
    ensures var people := Tokens([Organizer(), AttendeeLine(v.to)]);
      people == if Recoverable(v.to) then Some(WrittenAll(Leaves([ORGANIZER_LINE, AttendeeRead(v)]))) else None
  {
    hide *;
    var o, a := Organizer(), AttendeeLine(v.to);
    OrganizerParses();
    AttendeeParses(v.to);
    PeopleLines(v.to);
    TwoLines(o, a);
    OneLineTokens(o);
    OneLineTokens(a);
    if Recoverable(v.to) {
      ReadIs(v);
      AttendeeToken(AttendeeRead(v));
      TwoWritten(ORGANIZER_LINE, AttendeeRead(v));
    }
  }

  // The printed lines are the document of the items, or one of them is malformed.
  lemma {:induction false} InvitationTokens(v: Invitation)
    ensures Tokens(InvitationLines(v)) == if Recoverable(v.to) then Some(Document(Items(v))) else None
  {
    var b1, b2, e2, e1 :=
      Lines([("BEGIN", "VCALENDAR")]), Lines([("BEGIN", "VEVENT")]), Lines([("END", "VEVENT")]),
      Lines([("END", "VCALENDAR")]);
    var top, body, people := Lines(Heading(v)), Lines(EventFields(v)), [Organizer(), AttendeeLine(v.to)];
    NamesAreWords(v);
    assert Word("VCALENDAR") && Word("VEVENT");
    assert Lines([("END", "VEVENT"), ("END", "VCALENDAR")]) == e2 + e1;
    assert InvitationLines(v) == b1 + top + b2 + body + people + (e2 + e1);
    hide Named, Word, Organizer, AttendeeLine, Heading, EventFields;
    MarkerTokens("BEGIN", "VCALENDAR");
    MarkerTokens("BEGIN", "VEVENT");
    MarkerTokens("END", "VEVENT");
    MarkerTokens("END", "VCALENDAR");
    PropertyTokens(Heading(v));
    PropertyTokens(EventFields(v));
    PeopleTokens(v);
    hide *;
    TokensJoin(e2, e1);
    SixJoin(b1, top, b2, body, people, e2 + e1);
    if Recoverable(v.to) {
      DocumentOf(v);
    }
  }

  function Joined(a: Option<seq<Token>>, b: Option<seq<Token>>): Option<seq<Token>> {
    if a.Some? && b.Some? then Some(a.value + b.value) else None
  }

  lemma {:induction false} SixJoin(a: seq<string>, b: seq<string>, c: seq<string>, d: seq<string>, e: seq<string>,
                                   f: seq<string>)
    ensures Tokens(a + b + c + d + e + f) ==
      Joined(Joined(Joined(Joined(Joined(Tokens(a), Tokens(b)), Tokens(c)), Tokens(d)), Tokens(e)), Tokens(f))
  {
    hide Tokens;
    TokensJoin(a, b);
    TokensJoin(a + b, c);
    TokensJoin(a + b + c, d);
    TokensJoin(a + b + c + d, e);
    TokensJoin(a + b + c + d + e, f);
  }

  lemma {:induction false} DocumentOf(v: Invitation)
    requires Recoverable(v.to)
    ensures Document(Items(v)) ==
      [Begin("VCALENDAR")] + WrittenAll(Leaves(Simple(Heading(v)))) + [Begin("VEVENT")]
        + WrittenAll(Leaves(Simple(EventFields(v))))
      + WrittenAll(Leaves([ORGANIZER_LINE, AttendeeRead(v)])) + ([End("VEVENT")] + [End("VCALENDAR")])
  {
    var event := Component("VEVENT", Leaves(Body(v)));
    WrittenJoin(Leaves(Simple(Heading(v))), [event]);
    LeavesWritten(Simple(EventFields(v)), [ORGANIZER_LINE, AttendeeRead(v)]);
    assert WrittenAll([event]) == Written(event);
    var h, f, p :=
      WrittenAll(Leaves(Simple(Heading(v)))), WrittenAll(Leaves(Simple(EventFields(v)))),
      WrittenAll(Leaves([ORGANIZER_LINE, AttendeeRead(v)]));
    assert Written(event) == [Begin("VEVENT")] + (f + p) + [End("VEVENT")];
    assert Document(Items(v)) == [Begin("VCALENDAR")] + (h + Written(event)) + [End("VCALENDAR")];
    hide *;
    assert [Begin("VCALENDAR")] + (h + ([Begin("VEVENT")] + (f + p) + [End("VEVENT")])) + [End("VCALENDAR")]
      == [Begin("VCALENDAR")] + h + [Begin("VEVENT")] + f + p + ([End("VEVENT")] + [End("VCALENDAR")]);
  }

  lemma {:induction false} OneLineConcat(a: string, b: string)
    requires OneLine(a) && OneLine(b)
    ensures OneLine(a + b)
  {
  }

  predicate Values(properties: seq<(string, string)>) {
    forall i :: 0 <= i < |properties| ==> OneLine(properties[i].1)
  }

  predicate AllClean(lines: seq<string>) {
    forall i :: 0 <= i < |lines| ==> Clean(lines[i])
  }

  // A line that starts with a word continues nothing.
  lemma {:induction false} WordClean(name: string, rest: string)
    requires Word(name) && OneLine(rest)
    ensures Clean(name + rest)
  {
    assert name[0] in name && (name + rest)[0] == name[0];
  }

  lemma {:induction false} PropertiesClean(properties: seq<(string, string)>)
    requires Named(properties) && Values(properties)
    ensures AllClean(Lines(properties))
  {
    forall i | 0 <= i < |properties| ensures Clean(Lines(properties)[i]) {
      OneLineConcat(":", properties[i].1);
      WordClean(properties[i].0, ":" + properties[i].1);
      hide Word, OneLine, Clean;
    }
  }

  lemma {:induction false} MarkerClean(name: string, component: string)
    requires (name == "BEGIN" || name == "END") && Word(component)
    ensures AllClean(Lines([(name, component)]))
  {
    assert Word(name);
    WordUpper(component);
    WordClean(name, ":" + component);
    hide Word, Clean;
  }

  lemma {:induction false} EscapeIsOneLine(s: string)
    ensures OneLine(Escape(s))
  {
    NoReturns(s);
    EscapeOneLine(Newlines(s));
  }

  lemma {:induction false} DecimalOneLine(n: nat)
    ensures Decimal(n) != "" && (forall c <- Decimal(n) :: '0' <= c <= '9') && OneLine(Decimal(n))
  {
    if n >= 10 {
      DecimalOneLine(n / 10);
    }
  }

  lemma {:induction false} UidOneLine(to: string)
    ensures OneLine(Uid(to)) && '\\' !in Uid(to)
  {
    var d := Dashed(to);
    assert forall c <- d :: c == '-' || 'a' <= c <= 'z' || 'A' <= c <= 'Z' || '0' <= c <= '9';
    var head, tail := "hoomail-demo-", "@hoomail.local";
    assert OneLine(head) && '\\' !in head && OneLine(tail) && '\\' !in tail;
    hide Dashed;
    assert forall c <- head + d + tail :: c in head || c in d || c in tail;
  }

  lemma {:induction false} FixedText()
    ensures OneLine("-//hoomail//test sender//EN") && OneLine("2.0")
    ensures OneLine(Place()) && '\\' !in Place() && OneLine(About()) && '\\' !in About()
  {
    AboutText();
  }

  lemma {:induction false} AboutText()
    ensures OneLine(About()) && '\\' !in About()
  {
    AboutStart();
    AboutEnd();
    hide OneLine;
    OneLineConcat("A test appointment sent by ", "the hoomail built-in sender.");
  }

  lemma {:induction false} AboutStart()
    ensures OneLine("A test appointment sent by ") && '\\' !in "A test appointment sent by "
  {
  }

  lemma {:induction false} AboutEnd()
    ensures OneLine("the hoomail built-in sender.") && '\\' !in "the hoomail built-in sender."
  {
  }

  lemma {:induction false} FieldValues(v: Invitation)
    requires Printable(v)
    ensures Values(Heading(v)) && Values(EventFields(v))
  {
    EscapeIsOneLine(v.summary);
    DecimalOneLine(v.sequence);
    UidOneLine(v.to);
    WordUpper(v.method_);
    assert OneLine(v.method_);
    FixedText();
    hide OneLine, Uid, Decimal, Escape, Word, Place, About;
    var f, h := EventFields(v), Heading(v);
    assert OneLine(f[0].1) && OneLine(f[1].1) && OneLine(f[2].1) && OneLine(f[3].1) && OneLine(f[4].1);
    assert OneLine(f[5].1) && OneLine(f[6].1) && OneLine(f[7].1) && OneLine(f[8].1);
  }

  lemma {:induction false} AttendeeClean(to: string)
    ensures Clean(AttendeeLine(to))
  {
    var e := Escape(to);
    EscapeIsOneLine(to);
    assert Word("ATTENDEE");
    ParametersOneLine();
    var p := AttendeeParameters();
    assert OneLine(":") && OneLine("mailto:") && OneLine("CN") && OneLine("=") && OneLine(";");
    hide OneLine, Word, Clean, AttendeeParameters, Escape;
    OneLineConcat("mailto:", e);
    OneLineConcat(":", "mailto:" + e);
    OneLineConcat(p, ":" + ("mailto:" + e));
    OneLineConcat(";", p + (":" + ("mailto:" + e)));
    OneLineConcat(e, ";" + (p + (":" + ("mailto:" + e))));
    OneLineConcat("=", AttendeeRest(e));
    OneLineConcat("CN", "=" + AttendeeRest(e));
    OneLineConcat(";", Pair("CN", AttendeeRest(e)));
    WordClean("ATTENDEE", ";" + Pair("CN", AttendeeRest(e)));
  }

  lemma {:induction false} ParametersOneLine()
    ensures OneLine(AttendeeParameters())
  {
    ParametersAre();
    hide AttendeeParameters;
  }

  lemma {:induction false} OrganizerClean()
    ensures Clean(Organizer())
  {
    var owl, address := "The hoomail Owl", "mailto:" + OWL;
    assert OneLine(owl) && OneLine(":") && OneLine(";") && OneLine("CN") && OneLine("=") && Word("ORGANIZER");
    assert OneLine("mailto:") && OneLine(OWL);
    hide OneLine, Word, Clean;
    OneLineConcat("mailto:", OWL);
    OneLineConcat(":", address);
    OneLineConcat(owl, ":" + address);
    OneLineConcat("=", owl + (":" + address));
    OneLineConcat("CN", "=" + (owl + (":" + address)));
    OneLineConcat(";", Pair("CN", owl + (":" + address)));
    WordClean("ORGANIZER", ";" + Pair("CN", owl + (":" + address)));
  }

  // Every printed line is on its own, so the text unfolds to the lines.
  lemma {:induction false} InvitationUnfolds(v: Invitation)
    requires Printable(v)
    ensures Unfolded(BuildICS(v)) == Some(InvitationLines(v))
  {
    var lines := InvitationLines(v);
    LinesClean(v);
    assert forall line <- lines :: Clean(line) by {
      hide Clean;
    }
    hide InvitationLines, Clean, AllClean;
    UnfoldJoin(lines);
    GlueClean([], lines);
    assert [] + lines == lines;
  }

  lemma {:induction false} CleanConcat(a: seq<string>, b: seq<string>)
    requires AllClean(a) && AllClean(b)
    ensures AllClean(a + b)
  {
  }

  lemma {:induction false} LinesClean(v: Invitation)
    requires Printable(v)
    ensures AllClean(InvitationLines(v)) && InvitationLines(v) != []
  {
    var b1, b2, e2, e1 :=
      Lines([("BEGIN", "VCALENDAR")]), Lines([("BEGIN", "VEVENT")]), Lines([("END", "VEVENT")]),
      Lines([("END", "VCALENDAR")]);
    var top, body, people := Lines(Heading(v)), Lines(EventFields(v)), [Organizer(), AttendeeLine(v.to)];
    NamesAreWords(v);
    FieldValues(v);
    OrganizerClean();
    AttendeeClean(v.to);
    assert Word("VCALENDAR") && Word("VEVENT");
    assert AllClean(people) by {
      hide Clean;
    }
    assert Lines([("END", "VEVENT"), ("END", "VCALENDAR")]) == e2 + e1;
    assert InvitationLines(v) == b1 + top + b2 + body + people + (e2 + e1) && |people| == 2;
    hide *;
    MarkerClean("BEGIN", "VCALENDAR");
    MarkerClean("BEGIN", "VEVENT");
    MarkerClean("END", "VEVENT");
    MarkerClean("END", "VCALENDAR");
    PropertiesClean(Heading(v));
    PropertiesClean(EventFields(v));
    CleanConcat(b1, top);
    CleanConcat(b1 + top, b2);
    CleanConcat(b1 + top + b2, body);
    CleanConcat(b1 + top + b2 + body, people);
    CleanConcat(e2, e1);
    CleanConcat(b1 + top + b2 + body + people, e2 + e1);
  }

  lemma {:induction false} DigitsJoin(s: string, t: string, value: nat)
    ensures DigitsValue(s + t, value) == match DigitsValue(s, value) case None => None case Some(w) => DigitsValue(t, w)
    decreases |s|
  {
    if s == "" {
      assert s + t == t;
    } else {
      assert (s + t)[1..] == s[1..] + t;
      if '0' <= s[0] <= '9' {
        DigitsJoin(s[1..], t, 10 * value + (s[0] - '0') as nat);
      }
    }
  }

  // Printing a number in decimal and reading it back.
  lemma {:induction false} DecimalValue(n: nat)
    ensures DigitsValue(Decimal(n), 0) == Some(n)
  {
    var digit := [('0' as int + n % 10) as char];
    assert digit[1..] == "";
    if n >= 10 {
      DecimalValue(n / 10);
      DigitsJoin(Decimal(n / 10), digit, 0);
    } else {
      assert Decimal(n) == digit;
    }
  }

  lemma {:induction false} SequenceRead(n: nat)
    requires n <= MAX_INT64
    ensures Sequence(Decimal(n)) == n
  {
    DecimalValue(n);
    DecimalOneLine(n);
    assert Decimal(n)[0] in Decimal(n);
    hide Decimal, DigitsValue;
  }

  lemma {:induction false} DecodePlain(s: string)
    requires '\\' !in s
    ensures Decoded(s) == Some(s)
  {
    if s != "" {
      assert s[0] in s && s == [s[0]] + s[1..];
      DecodePlain(s[1..]);
    }
  }

  lemma {:induction false} Absent(lines: seq<Line>, name: string)
    requires forall k :: 0 <= k < |lines| ==> lines[k].name != name
    ensures FirstNamed(Leaves(lines), name) == None
  {
    if lines != [] {
      assert Leaves(lines)[..|lines| - 1] == Leaves(lines[..|lines| - 1]);
      Absent(lines[..|lines| - 1], name);
    }
  }

  lemma {:induction false} Present(lines: seq<Line>, i: nat)
    requires i < |lines| && forall k :: 0 <= k < i ==> lines[k].name != lines[i].name
    ensures FirstNamed(Leaves(lines), lines[i].name) == Some(lines[i])
  {
    var before := lines[..|lines| - 1];
    assert Leaves(lines)[..|lines| - 1] == Leaves(before);
    if i == |lines| - 1 {
      Absent(before, lines[i].name);
    } else {
      Present(before, i);
    }
  }

  // First letter, last letter and length tell the field names apart.
  function Mark(name: string): (int, int, int) {
    if name == "" then (0, 0, 0) else (name[0] as int, name[|name| - 1] as int, |name|)
  }

  lemma {:induction false} FieldNamesDiffer(v: Invitation)
    ensures var f := EventFields(v);
      && |f| == 9 && Mark(f[0].0) == (85, 68, 3) && Mark(f[1].0) == (83, 69, 8) && Mark(f[2].0) == (68, 80, 7)
      && Mark(f[3].0) == (68, 84, 7)
      && Mark(f[4].0) == (68, 68, 5) && Mark(f[5].0) == (83, 89, 7) && Mark(f[6].0) == (76, 78, 8)
      && Mark(f[7].0) == (68, 78, 11)
      && Mark(f[8].0) == (83, 83, 6)
  {
    hide Uid, Decimal, Escape, Place, About;
  }

  lemma {:induction false} BodyFields(v: Invitation)
    requires Recoverable(v.to)
    ensures var f, body := EventFields(v), Body(v);
      && |f| == 9 && |body| == 11 && body[9] == ORGANIZER_LINE
      && forall k :: 0 <= k < 9 ==> body[k] == Line(f[k].0, f[k].1, map[])
  {
    FieldNamesDiffer(v);
    hide EventFields, AttendeeRead, ORGANIZER_LINE, Recoverable;
  }

  lemma {:induction false} FieldNamesDistinct(v: Invitation, i: nat)
    requires i < |EventFields(v)|
    ensures var f := EventFields(v); forall k :: 0 <= k < i ==> f[k].0 != f[i].0
  {
    FieldNamesDiffer(v);
    var f := EventFields(v);
    hide EventFields;
    forall k | 0 <= k < i ensures f[k].0 != f[i].0 {
      assert Mark(f[k].0) != Mark(f[i].0);
      hide Mark;
    }
  }

  // The event's own fields, as the builder holds them.
  lemma {:induction false} FieldRead(v: Invitation, i: nat)
    requires Recoverable(v.to) && i < |EventFields(v)| && EventFields(v)[i].0 != "ATTENDEE"
    ensures var f, properties := EventFields(v)[i], BuilderOf(Leaves(Body(v))).properties;
      f.0 in properties && properties[f.0] == Line(f.0, f.1, map[])
  {
    hide *;
    var f := EventFields(v);
    BodyFields(v);
    FieldNamesDistinct(v, i);
    Present(Body(v), i);
    FirstPropertyWins(Leaves(Body(v)), f[i].0);
  }

  // The times were formatted so that the clock reads them back.
  predicate Timed(clock: Clock, v: Invitation, start: Moment, end: Moment) {
    clock.parse(Line("DTSTART", v.start, map[])) == Some(start) && clock.parse(Line("DTEND", v.end, map[])) == Some(end)
  }

  // The one attendee, if its line leaves an address; with the printed parameters if the line reads as meant.
  predicate Guests(attendees: seq<Attendee>, to: string) {
    match Address(to)
    case None => attendees == []
    case Some(address) =>
      && |attendees| == 1 && attendees[0].address == address
      && (Enclosed(to) ==>
         attendees[0].partstat == Some("NEEDS-ACTION") && attendees[0].role == Some("REQ-PARTICIPANT"))
  }

  // An event that says what the invitation said; empty text counts as none.
  predicate Carries(event: Event, v: Invitation, start: Moment, end: Moment) {
    && event.method_ == v.method_ && event.uid == Uid(v.to) && event.sequence == v.sequence
    && event.summary == NonEmpty(Newlines(v.summary)) && event.location == Some(Place())
    && event.description == Some(About())
    && event.status == NonEmpty(Upper(v.status))
    && event.start == start.millis && event.allDay == start.allDay && event.end == Some(end.millis)
    && event.organizerAddress == Some(OWL) && event.organizerName == Some("The hoomail Owl")
    && Guests(event.attendees, v.to)
  }

  lemma {:induction false} FieldsRead(v: Invitation)
    requires Recoverable(v.to)
    ensures var b := BuilderOf(Leaves(Body(v)));
      && ValueOf(b, "UID") == Uid(v.to) && ValueOf(b, "SEQUENCE") == Decimal(v.sequence)
      && ValueOf(b, "SUMMARY") == Escape(v.summary)
      && ValueOf(b, "LOCATION") == Place() && ValueOf(b, "DESCRIPTION") == About() && ValueOf(b, "STATUS") == v.status
      && "UID" in b.properties && "DTSTART" in b.properties && "DTEND" in b.properties
      && b.properties["DTSTART"] == Line("DTSTART", v.start, map[])
      && b.properties["DTEND"] == Line("DTEND", v.end, map[])
  {
    var f := EventFields(v);
    FieldNamesDiffer(v);
    assert Mark("ATTENDEE") == (65, 69, 8);
    assert f[0].0 == "UID" && f[1].0 == "SEQUENCE" && f[3].0 == "DTSTART" && f[4].0 == "DTEND" && f[5].0 == "SUMMARY"
        && f[6].0 == "LOCATION" && f[7].0 == "DESCRIPTION" && f[8].0 == "STATUS";
    assert f[0].1 == Uid(v.to) && f[1].1 == Decimal(v.sequence) && f[3].1 == v.start && f[4].1 == v.end
      && f[5].1 == Escape(v.summary)
        && f[6].1 == Place() && f[7].1 == About() && f[8].1 == v.status;
    hide Uid, Decimal, Escape, Place, About, EventFields, Body, Mark, BuilderOf;
    FieldRead(v, 0);
    FieldRead(v, 1);
    FieldRead(v, 3);
    FieldRead(v, 4);
    FieldRead(v, 5);
    FieldRead(v, 6);
    FieldRead(v, 7);
    FieldRead(v, 8);
  }

  lemma {:induction false} NoAttendees(lines: seq<Line>)
    requires forall k :: 0 <= k < |lines| ==> lines[k].name != "ATTENDEE"
    ensures BuilderOf(Leaves(lines)).attendees == []
  {
    if lines != [] {
      assert Leaves(lines)[..|lines| - 1] == Leaves(lines[..|lines| - 1]);
      NoAttendees(lines[..|lines| - 1]);
    }
  }

  lemma {:induction false} FieldsAreNoAttendees(v: Invitation)
    ensures var f := EventFields(v); forall k :: 0 <= k < |f| ==> f[k].0 != "ATTENDEE"
  {
    FieldNamesDiffer(v);
    assert Mark("ATTENDEE") == (65, 69, 8);
    var f := EventFields(v);
    hide EventFields;
    assert forall k :: 0 <= k < |f| ==> Mark(f[k].0) != Mark("ATTENDEE") by {
      hide Mark;
    }
  }

  lemma {:induction false} OneAttendee(v: Invitation)
    requires Recoverable(v.to)
    ensures BuilderOf(Leaves(Body(v))).attendees == [AttendeeRead(v)]
  {
    var fields := EventFields(v);
    FieldsAreNoAttendees(v);
    AttendeeParses(v.to);
    assert ORGANIZER_LINE.name != "ATTENDEE" && AttendeeRead(v).name == "ATTENDEE";
    hide EventFields, ORGANIZER_LINE, AttendeeRead, Recoverable;
    var before := Simple(fields) + [ORGANIZER_LINE];
    assert Body(v) == before + [AttendeeRead(v)];
    assert forall k :: 0 <= k < |fields| ==> before[k].name == fields[k].0;
    NoAttendees(before);
    assert Leaves(Body(v)) == Leaves(before) + [Leaf(AttendeeRead(v))];
    LastLeaf(Leaves(before), AttendeeRead(v));
  }

  lemma {:induction false} LastLeaf(items: seq<Item>, line: Line)
    ensures BuilderOf(items + [Leaf(line)]) == Added(BuilderOf(items), line)
  {
    assert (items + [Leaf(line)])[..|items|] == items;
  }

  lemma {:induction false} GuestsRead(v: Invitation)
    requires Recoverable(v.to)
    ensures Guests(Attendees([AttendeeRead(v)]), v.to)
  {
    var e := Escape(v.to);
    AttendeeParses(v.to);
    var line := AttendeeRead(v);
    assert line.value == AttendeeValue(v.to).value
      && (Enclosed(v.to) ==> line == Line("ATTENDEE", "mailto:" + e, AttendeeParams(e))) by {
      hide ParsedLine, AttendeeLine, AttendeeParams, Escape, Enclosed, AttendeeValue;
    }
    hide Escape, AttendeeRead, AttendeeValue, Enclosed, AttendeeParams, Mailto, Recoverable;
    MeantParameters(e);
    OneGuest(line);
    hide Parameter;
  }

  lemma {:induction false} OneGuest(line: Line)
    ensures Attendees([line]) == match Mailto(line.value)
      case None => []
      case Some(address) =>
        [Attendee(address, Parameter(line, "CN", false), Parameter(line, "PARTSTAT", true),
                  Parameter(line, "ROLE", true))]
  {
    assert [line][1..] == [] && Attendees([]) == [];
    hide Mailto, Parameter;
  }

  lemma {:induction false} MeantParameters(e: string)
    ensures var line := Line("ATTENDEE", "mailto:" + e, AttendeeParams(e));
      Parameter(line, "PARTSTAT", true) == Some("NEEDS-ACTION")
        && Parameter(line, "ROLE", true) == Some("REQ-PARTICIPANT")
  {
    UpperDashed("NEEDS", "ACTION");
    UpperDashed("REQ", "PARTICIPANT");
    assert "NEEDS" + "-" + "ACTION" == "NEEDS-ACTION" && "REQ" + "-" + "PARTICIPANT" == "REQ-PARTICIPANT";
    var m := AttendeeParams(e);
    assert "ROLE" in m && "PARTSTAT" in m && m["ROLE"] == ["REQ-PARTICIPANT"] && m["PARTSTAT"] == ["NEEDS-ACTION"];
    hide Upper, AttendeeParams, DecodedParameters, Pieces;
  }

  lemma {:induction false} UpperDashed(a: string, b: string)
    requires Word(a) && Word(b)
    ensures Upper(a + "-" + b) == a + "-" + b
  {
    var s := a + "-" + b;
    assert forall i :: 0 <= i < |s| ==> s[i] in a || s[i] in b || s[i] == '-';
  }

  lemma {:induction false} OrganizerRead(v: Invitation)
    requires Recoverable(v.to)
    ensures var b := BuilderOf(Leaves(Body(v)));
      "ORGANIZER" in b.properties && b.properties["ORGANIZER"] == ORGANIZER_LINE
  {
    var f := EventFields(v);
    FieldNamesDiffer(v);
    assert Mark("ORGANIZER") == (79, 82, 9) && ORGANIZER_LINE.name == "ORGANIZER";
    hide *;
    BodyFields(v);
    assert forall k :: 0 <= k < 9 ==> Mark(f[k].0) != Mark("ORGANIZER");
    Present(Body(v), 9);
    FirstPropertyWins(Leaves(Body(v)), "ORGANIZER");
  }

  lemma {:induction false} OrganizerValues()
    ensures Mailto(ORGANIZER_LINE.value) == Some(OWL)
      && Parameter(ORGANIZER_LINE, "CN", false) == Some("The hoomail Owl")
  {
    LowerSame(OWL);
    MailtoOf(OWL);
    hide Lower, Mailto;
  }

  lemma {:induction false} EventRead(clock: Clock, v: Invitation, start: Moment, end: Moment)
    requires Recoverable(v.to) && Printable(v) && v.sequence <= MAX_INT64 && Timed(clock, v, start, end)
    ensures var built := Build(clock, BuilderOf(Leaves(Body(v))), v.method_);
      built.Made? && Carries(built.event, v, start, end)
  {
    FieldsRead(v);
    UidOneLine(v.to);
    DecodePlain(Uid(v.to));
    FixedText();
    DecodePlain(Place());
    DecodePlain(About());
    DecodeEscape(Newlines(v.summary));
    SequenceRead(v.sequence);
    WordUpper(v.method_);
    assert Uid(v.to) != "" && Place() != "" && About() != "";
    EscapeIs(v.summary);
    OneAttendee(v);
    OrganizerRead(v);
    OrganizerValues();
    GuestsRead(v);
    hide Attendees, Guests, Mailto, Parameter, ORGANIZER_LINE, Uid, Place, About, Decimal, Escape, EscapedAll, Newlines,
      Decoded, BuilderOf, Body, Sequence, Upper, Word, OneLine, ValueOf, Build, Recoverable;
    BuildSucceeds(clock, BuilderOf(Leaves(Body(v))), v.method_, Uid(v.to), Newlines(v.summary), About(), Place(), start,
      end);
  }

  // An event with readable times and texts is made from them.
  lemma {:induction false} BuildSucceeds(clock: Clock, b: Builder, m: string, uid: string, summary: string,
                                         description: string, location: string, start: Moment, end: Moment)
    requires "UID" in b.properties && "DTSTART" in b.properties && "DTEND" in b.properties
      && "ORGANIZER" in b.properties
    requires Decoded(ValueOf(b, "UID")) == Some(uid) && uid != ""
    requires clock.parse(b.properties["DTSTART"]) == Some(start) && clock.parse(b.properties["DTEND"]) == Some(end)
    requires Decoded(ValueOf(b, "SUMMARY")) == Some(summary) && Decoded(ValueOf(b, "DESCRIPTION")) == Some(description)
    requires Decoded(ValueOf(b, "LOCATION")) == Some(location)
    ensures var built := Build(clock, b, m);
      && built.Made? && built.event.method_ == Upper(m) && built.event.uid == uid
      && built.event.sequence == Sequence(ValueOf(b, "SEQUENCE"))
      && built.event.summary == NonEmpty(summary) && built.event.description == NonEmpty(description)
      && built.event.location == NonEmpty(location) && built.event.status == NonEmpty(Upper(ValueOf(b, "STATUS")))
      && built.event.start == start.millis && built.event.allDay == start.allDay && built.event.end == Some(end.millis)
      && built.event.attendees == Attendees(b.attendees)
      && built.event.organizerAddress == Mailto(b.properties["ORGANIZER"].value)
      && built.event.organizerName == Parameter(b.properties["ORGANIZER"], "CN", false)
  {
    hide Decoded, Sequence, Upper, Mailto, Attendees, Parameter, ValueOf;
  }

  lemma {:induction false} EscapeIs(s: string)
    ensures Escape(s) == EscapedAll(Newlines(s))
  {
  }

  lemma {:induction false} LegalLeaves(clock: Clock, lines: seq<Line>)
    ensures Legal(clock, Leaves(lines)) && !HasComponent(Leaves(lines)) && EventCount(Leaves(lines)) == 0
  {
    if lines != [] {
      var before := lines[..|lines| - 1];
      LegalLeaves(clock, before);
      LegalGrows(clock, Leaves(before), Leaf(lines[|lines| - 1]));
      EventsGrow(clock, "", Leaves(before), Leaf(lines[|lines| - 1])) by {
        NoEvents(clock, "", Leaves(before));
      }
      assert Leaves(lines) == Leaves(before) + [Leaf(lines[|lines| - 1])];
      hide Legal, HasComponent, EventCount, EventsOf, Leaves;
    }
  }

  lemma {:induction false} HeadingMethod(v: Invitation)
    requires Printable(v)
    ensures MethodOf(Leaves(Simple(Heading(v)))) == v.method_
  {
    WordUpper(v.method_);
    var items := Leaves(Simple(Heading(v)));
    assert Last(items) == Leaf(Line("METHOD", v.method_, map[])) && v.method_ != "";
  }

  // The round trip: a recoverable recipient's invitation is read as one event that carries what was printed;
  // for any other recipient the whole calendar is refused.
  lemma {:induction false} RoundTrip(clock: Clock, v: Invitation, start: Moment, end: Moment)
    requires Printable(v) && v.sequence <= MAX_INT64 && Timed(clock, v, start, end)
    ensures var events := ParsedICS(clock, BuildICS(v));
      if Recoverable(v.to) then |events| == 1 && Carries(events[0], v, start, end) else events == []
  {
    InvitationUnfolds(v);
    InvitationTokens(v);
    hide BuildICS, InvitationLines, Unfolded, Tokens, Printable, Timed, Carries, Recoverable;
    if Recoverable(v.to) {
      ItemsMeaning(clock, v, start, end);
      StackIsGrammar(clock, Document(Items(v)));
      assert Derives(Document(Items(v)), Items(v));
      hide Meaning, Document, Items;
    }
  }

  lemma {:induction false} ItemsAre(v: Invitation)
    requires Recoverable(v.to)
    ensures AllInert(Leaves(Body(v)))
    ensures Items(v) == Leaves(Simple(Heading(v))) + [Component("VEVENT", Leaves(Body(v)))]
  {
    hide Recoverable, Simple, Heading, Body;
  }

  lemma {:induction false} ItemsMeaning(clock: Clock, v: Invitation, start: Moment, end: Moment)
    requires Recoverable(v.to) && Printable(v) && v.sequence <= MAX_INT64 && Timed(clock, v, start, end)
    ensures var events := Meaning(clock, Items(v)); |events| == 1 && Carries(events[0], v, start, end)
  {
    hide *;
    var top, body := Leaves(Simple(Heading(v))), Leaves(Body(v));
    LegalLeaves(clock, Simple(Heading(v)));
    HeadingMethod(v);
    EventRead(clock, v, start, end);
    ItemsAre(v);
    OneEvent(clock, top, body);
  }

  lemma {:induction false} OneEvent(clock: Clock, top: seq<Item>, body: seq<Item>)
    requires Legal(clock, top) && !HasComponent(top) && EventCount(top) == 0 && AllInert(body)
    requires Build(clock, BuilderOf(body), MethodOf(top)).Made?
    ensures Meaning(clock, top + [Component("VEVENT", body)]) == [Build(clock, BuilderOf(body), MethodOf(top)).event]
  {
    var event := Component("VEVENT", body);
    assert Extends(clock, top, event) by {
      hide BuilderOf, Build, Legal, AllInert, HasComponent, MethodOf;
    }
    LegalGrows(clock, top, event);
    NoEvents(clock, MethodOf(top), top);
    EventsGrow(clock, MethodOf(top), top, event);
    hide BuilderOf, Build, Legal, AllInert, HasComponent, MethodOf, Extends, EventsOf, EventCount;
  }

  // The whole way: the recipient comes back as the one attendee's address exactly when its quotes
  // are in pairs, any colon is inside them, and it has no backslash, semicolon, comma or line break.
  lemma {:induction false} RecipientExactly(clock: Clock, v: Invitation, start: Moment, end: Moment)
    requires Printable(v) && v.sequence <= MAX_INT64 && Timed(clock, v, start, end)
    ensures var events := ParsedICS(clock, BuildICS(v));
      |events| == 1 && |events[0].attendees| == 1 && events[0].attendees[0].address == Lower(v.to)
      <==> v.to != "" && !ColonOutside(v.to, false) && !OddQuotes(v.to) && Literal(v.to)
  {
    RoundTrip(clock, v, start, end);
    AddressExactly(v.to);
    RecipientScan(v.to);
    hide BuildICS, ParsedICS, Address, Literal, Lower, ColonOutside, OddQuotes, Find, Escape, Newlines, EscapedAll;
  }

  // Two recipients that the send handler (internal/httpserver/httpserver.go) and the SMTP server accept.
  // A lone quote swallows the rest of its line, and the calendar is refused; a backslash comes back doubled.
  lemma {:induction false} LoneQuoteFails(clock: Clock, v: Invitation, start: Moment, end: Moment)
    requires Printable(v) && v.sequence <= MAX_INT64 && Timed(clock, v, start, end) && v.to == "a@b\".co"
    ensures ParsedICS(clock, BuildICS(v)) == []
  {
    RoundTrip(clock, v, start, end);
    LoneQuote();
    hide BuildICS, ParsedICS, Recoverable;
  }

  lemma {:induction false} LoneQuote()
    ensures !Recoverable("a@b\".co")
  {
    NoQuotes("a@b");
    NoQuotes(".co");
    QuotesJoin("a@b", "\".co");
    assert "\".co"[1..] == ".co";
    assert "a@b\".co" == "a@b" + "\".co";
  }

  lemma {:induction false} BackslashDoubled(clock: Clock, v: Invitation, start: Moment, end: Moment)
    requires Printable(v) && v.sequence <= MAX_INT64 && Timed(clock, v, start, end) && v.to == "a@b\\.co"
    ensures var events := ParsedICS(clock, BuildICS(v));
      |events| == 1 && |events[0].attendees| == 1 && events[0].attendees[0].address == "a@b\\\\.co"
  {
    hide BuildICS, ParsedICS, Address, Lower, Escape, ColonOutside, OddQuotes;
    RoundTrip(clock, v, start, end);
    Unquoted(v.to);
    DoubledText();
    MeantAddress(v.to);
  }

  lemma {:induction false} Unquoted(to: string)
    requires '"' !in to && ':' !in to
    ensures Enclosed(to) && Recoverable(to)
  {
    NoQuotes(to);
    ColonFound(to);
  }

  lemma {:induction false} DoubledText()
    ensures Escape("a@b\\.co") == "a@b\\\\.co" && Lower("a@b\\\\.co") == "a@b\\\\.co"
  {
    var head, tail := "a@b", ".co";
    LowerSame("a@b\\\\.co");
    EscapeLiteral(tail);
    EscapeHead("\\" + tail);
    EscapeAfter(head, "\\" + tail);
    assert ("\\" + tail)[1..] == tail;
    hide Escape, Lower;
    assert head + ("\\" + tail) == "a@b\\.co";
    assert head + ("\\\\" + tail) == "a@b\\\\.co";
  }

  lemma {:induction false} EscapeAfter(a: string, b: string)
    requires Literal(a)
    ensures Escape(a + b) == a + Escape(b)
  {
    if a == "" {
      assert a + b == b;
    } else {
      assert a[0] in a && (a + b)[1..] == a[1..] + b && a == [a[0]] + a[1..];
      EscapeHead(a + b);
      EscapeAfter(a[1..], b);
      hide Escape;
    }
  }
}
