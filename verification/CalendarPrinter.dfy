/** The calendar the built-in sender prints (internal/sendtest/sendtest.go) and what the parser reads back. */
module CalendarPrinter {
  import opened Text
  import opened ContentLines
  import opened Calendar
  import opened CalendarGrammar

  function EscapedChar(c: char): string {
    if c == '\\' then "\\\\"
    else if c == '\n' then "\\n"
    else if c == ';' then "\\;"
    else if c == ',' then "\\,"
    else [c]
  }

  function EscapedAll(s: string): string {
    if s == "" then "" else EscapedChar(s[0]) + EscapedAll(s[1..])
  }

  function Escape(s: string): string {
    EscapedAll(Newlines(s))
  }

  // Escaping and decoding text are inverse, up to the newline convention.
  lemma {:induction false} DecodeEscape(s: string)
    ensures Decoded(EscapedAll(s)) == Some(s)
  {
    if s != "" {
      DecodeEscape(s[1..]);
      var e, rest := EscapedChar(s[0]), EscapedAll(s[1..]);
      assert (e + rest)[|e|..] == rest;
      assert s == [s[0]] + s[1..];
    }
  }

  // An escaped text stays on its line.
  lemma {:induction false} EscapeOneLine(s: string)
    requires '\r' !in s
    ensures '\r' !in EscapedAll(s) && '\n' !in EscapedAll(s)
  {
    if s != "" {
      EscapeOneLine(s[1..]);
    }
  }

  // Quotes survive escaping.
  function OddQuotes(s: string): bool {
    s != "" && ((s[0] == '"') != OddQuotes(s[1..]))
  }

  lemma {:induction false} EscapeStep(c: char, quoted: bool, rest: string, separator: char)
    requires separator == ':' || separator == ';' || separator == ','
    ensures AfterAll(Mode(quoted, false), EscapedChar(c)) == Mode(quoted != (c == '"'), false)
    ensures Find(EscapedChar(c), separator, Mode(quoted, false)) ==
      if c == separator == ':' && !quoted then Some(0) else None
  {
    var e := EscapedChar(c);
    if |e| == 2 {
      assert e[1..] == [e[1]] && e[1..][1..] == "";
      assert AfterAll(Mode(quoted, false), e) == AfterAll(Mode(quoted, true), e[1..]) ==
        AfterAll(Mode(quoted, false), "");
      assert Find(e[1..], separator, Mode(quoted, true)) == None;
    } else {
      assert e == [c] && e[1..] == "";
    }
  }

  // A colon outside double quotes, when reading starts inside them or not.
  predicate ColonOutside(s: string, quoted: bool) {
    s != "" && ((s[0] == ':' && !quoted) || ColonOutside(s[1..], quoted != (s[0] == '"')))
  }

  // Escaped text separates nothing at semicolons and commas, and at colons where the text itself does.
  lemma {:induction false} EscapeScan(s: string, quoted: bool)
    ensures AfterAll(Mode(quoted, false), EscapedAll(s)) == Mode(quoted != OddQuotes(s), false)
    ensures Find(EscapedAll(s), ';', Mode(quoted, false)) == None
      && Find(EscapedAll(s), ',', Mode(quoted, false)) == None
    ensures Find(EscapedAll(s), ':', Mode(quoted, false)).Some? <==> ColonOutside(s, quoted)
  {
    if s != "" {
      var e, rest := EscapedChar(s[0]), EscapedAll(s[1..]);
      EscapeStep(s[0], quoted, rest, ':');
      EscapeStep(s[0], quoted, rest, ';');
      EscapeStep(s[0], quoted, rest, ',');
      EscapeScan(s[1..], quoted != (s[0] == '"'));
      AfterJoin(Mode(quoted, false), e, rest);
      FindJoin(e, rest, ';', Mode(quoted, false));
      FindJoin(e, rest, ',', Mode(quoted, false));
      FindJoin(e, rest, ':', Mode(quoted, false));
      hide EscapedChar, Find, AfterAll;
    }
  }

  // A colon is outside the quotes when reading starts outside them, or when it starts inside.
  lemma {:induction false} ColonFound(s: string)
    ensures ':' in s <==> ColonOutside(s, false) || ColonOutside(s, true)
  {
    if s != "" {
      assert s == [s[0]] + s[1..];
      ColonFound(s[1..]);
    }
  }

  // The first colon of an escaped text is at its head or in what follows.
  lemma {:induction false} ColonStep(s: string, quoted: bool)
    requires s != ""
    ensures var c, rest := s[0], EscapedAll(s[1..]);
      && EscapedAll(s) == EscapedChar(c) + rest && EscapedChar(c) != ""
      && Find(EscapedAll(s), ':', Mode(quoted, false)) ==
         if c == ':' && !quoted then Some(0)
         else
           match Find(rest, ':', Mode(quoted != (c == '"'), false))
           case None => None
           case Some(k) => Some(|EscapedChar(c)| + k)
  {
    hide Find, AfterAll;
    var e, rest := EscapedChar(s[0]), EscapedAll(s[1..]);
    assert EscapedAll(s) == e + rest && e != "";
    hide EscapedChar, EscapedAll;
    EscapeStep(s[0], quoted, rest, ':');
    FindJoin(e, rest, ':', Mode(quoted, false));
  }

  // What follows a colon outside the quotes has the quotes that are left.
  lemma {:induction false} QuotesLeft(s: string, quoted: bool)
    requires ColonOutside(s, quoted)
    ensures var e := EscapedAll(s); var found := Find(e, ':', Mode(quoted, false));
      found.Some? && OddQuotes(e[found.value + 1..]) == (OddQuotes(s) != quoted)
  {
    hide Find, AfterAll, EscapedAll;
    ColonStep(s, quoted);
    var c, rest, next := s[0], EscapedAll(s[1..]), quoted != (s[0] == '"');
    var e := EscapedChar(c);
    assert OddQuotes(s) == ((c == '"') != OddQuotes(s[1..]));
    if c == ':' && !quoted {
      assert |e| == 1;
      QuotesEscaped(s[1..]);
      hide *;
      assert (e + rest)[1..] == rest;
    } else {
      QuotesLeft(s[1..], next);
      hide *;
      var k := Find(rest, ':', Mode(next, false)).value;
      assert (e + rest)[|e| + k + 1..] == rest[k + 1..];
    }
  }

  lemma {:induction false} QuotesJoin(a: string, b: string)
    ensures OddQuotes(a + b) == (OddQuotes(a) != OddQuotes(b))
  {
    if a == "" {
      assert a + b == b;
    } else {
      assert (a + b)[1..] == a[1..] + b;
      QuotesJoin(a[1..], b);
    }
  }

  lemma {:induction false} QuotesEscaped(s: string)
    ensures OddQuotes(EscapedAll(s)) == OddQuotes(s)
  {
    if s != "" {
      var e := EscapedChar(s[0]);
      QuotesEscaped(s[1..]);
      QuotesJoin(e, EscapedAll(s[1..]));
      assert OddQuotes(e) == (s[0] == '"') by {
        assert e[1..] == "" || (e[1..] == [e[1]] && e[1..][1..] == "");
      }
      hide EscapedChar;
    }
  }

  predicate PlainChar(c: char) {
    c != '"' && c != '\\' && c != ':' && c != ';' && c != '\r' && c != '\n'
  }

  predicate PlainText(s: string) {
    forall c <- s :: PlainChar(c)
  }

  lemma {:induction false} PlainScan(s: string, separator: char, quoted: bool)
    requires PlainText(s) && separator !in s
    ensures AfterAll(Mode(quoted, false), s) == Mode(quoted, false) && Find(s, separator, Mode(quoted, false)) == None
  {
    if s != "" {
      assert s[0] in s;
      PlainScan(s[1..], separator, quoted);
    }
  }

  // Text without a separator is one piece.
  lemma {:induction false} OnePiece(s: string, separator: char, m: Mode)
    requires Find(s, separator, m) == None
    ensures Pieces(s, separator, m) == [s]
  {
    PiecesJoin(s, "", separator, m);
    assert s + "" == s;
  }

  // The first separator cuts the text.
  lemma {:induction false} CutAt(s: string, separator: char, t: string)
    requires PlainText(s) && separator !in s && separator != '\\' && separator != '"'
    ensures Find(s + ([separator] + t), separator, PLAIN) == Some(|s|)
    ensures Pieces(s + ([separator] + t), separator, PLAIN) == [s] + Pieces(t, separator, PLAIN)
  {
    PlainScan(s, separator, false);
    FindJoin(s, [separator] + t, separator, PLAIN);
    PiecesJoin(s, [separator] + t, separator, PLAIN);
    assert ([separator] + t)[1..] == t && s + "" == s;
    assert Pieces([separator] + t, separator, PLAIN) == [""] + Pieces(t, separator, PLAIN);
    assert ([""] + Pieces(t, separator, PLAIN))[1..] == Pieces(t, separator, PLAIN);
  }

  predicate Word(s: string) {
    s != "" && forall c <- s :: 'A' <= c <= 'Z'
  }

  lemma {:induction false} WordUpper(s: string)
    requires Word(s)
    ensures Upper(s) == s && PlainText(s)
  {
    assert forall i :: 0 <= i < |s| ==> s[i] in s;
  }

  // A head that ends at its colon and whose parameters can be read.
  lemma {:induction false} Assembled(name: string, head: string, value: string, more: seq<string>,
                                     params: map<string, seq<string>>)
    requires Word(name) && head != "" && Find(head + (":" + value), ':', PLAIN) == Some(|head|)
    requires Pieces(head, ';', PLAIN) == [name] + more && WithParameters(map[], more) == Some(params)
    ensures ParsedLine(head + (":" + value)) == Some(Line(name, value, params))
  {
    WordUpper(name);
    var raw := head + (":" + value);
    assert raw[..|head|] == head && raw[|head| + 1..] == value;
    assert name != "" && ([name] + more)[0] == name && ([name] + more)[1..] == more;
    hide Find, Pieces, Upper, WithParameters, PlainText, Word;
  }

  // NAME:value
  lemma {:induction false} PropertyLine(name: string, value: string)
    requires Word(name)
    ensures ParsedLine(name + (":" + value)) == Some(Line(name, value, map[]))
  {
    WordUpper(name);
    CutAt(name, ':', value);
    PlainScan(name, ';', false);
    OnePiece(name, ';', PLAIN);
    assert WithParameters(map[], []) == Some(map[]) && [name] + [] == [name];
    Assembled(name, name, value, [], map[]);
  }

  // What buildICS is given: a recipient and a summary, a method, a status and a sequence, and three formatted times.
  datatype Invitation = Invitation(to: string, summary: string, method_: string, status: string, sequence: nat,
                                   stamp: string, start: string, end: string)

  // [^a-zA-Z0-9] becomes a dash.
  function Dashed(s: string): (r: string)
    ensures |r| == |s|
  {
    seq(|s|, i requires 0 <= i < |s| =>
      if 'a' <= s[i] <= 'z' || 'A' <= s[i] <= 'Z' || '0' <= s[i] <= '9' then s[i] else '-')
  }

  function Uid(to: string): string {
    "hoomail-demo-" + Dashed(to) + "@hoomail.local"
  }

  // %d
  function Decimal(n: nat): string {
    (if n < 10 then "" else Decimal(n / 10)) + [('0' as int + n % 10) as char]
  }

  function Lines(properties: seq<(string, string)>): seq<string> {
    seq(|properties|, i requires 0 <= i < |properties| => properties[i].0 + (":" + properties[i].1))
  }

  function Heading(v: Invitation): seq<(string, string)> {
    [("PRODID", "-//hoomail//test sender//EN"), ("VERSION", "2.0"), ("METHOD", v.method_)]
  }

  function Place(): string {
    "Owl Tree Conference Room"
  }

  function About(): string {
    "A test appointment sent by " + "the hoomail built-in sender."
  }

  function EventFields(v: Invitation): seq<(string, string)> {
    [("UID", Uid(v.to)), ("SEQUENCE", Decimal(v.sequence)), ("DTSTAMP", v.stamp), ("DTSTART", v.start),
     ("DTEND", v.end), ("SUMMARY", Escape(v.summary)), ("LOCATION", Place()),
     ("DESCRIPTION", About()), ("STATUS", v.status)]
  }

  const OWL := "owl@hoomail.local"

  function Organizer(): string {
    "ORGANIZER" + (";" + Pair("CN", "The hoomail Owl" + (":" + ("mailto:" + OWL))))
  }

  // KEY=text
  function Pair(key: string, text: string): string {
    key + ("=" + text)
  }

  function AttendeeParameters(): string {
    Pair("ROLE", "REQ-PARTICIPANT") + (";" + (Pair("PARTSTAT", "NEEDS-ACTION") + (";" + Pair("RSVP", "TRUE"))))
  }

  // What follows CN= for an escaped recipient.
  function AttendeeRest(e: string): string {
    e + (";" + (AttendeeParameters() + (":" + ("mailto:" + e))))
  }

  function AttendeeLine(to: string): string {
    "ATTENDEE" + (";" + Pair("CN", AttendeeRest(Escape(to))))
  }

  function InvitationLines(v: Invitation): seq<string> {
    Lines([("BEGIN", "VCALENDAR")]) + Lines(Heading(v)) + Lines([("BEGIN", "VEVENT")]) + Lines(EventFields(v))
    + [Organizer(), AttendeeLine(v.to)] + Lines([("END", "VEVENT"), ("END", "VCALENDAR")])
  }

  function Join(lines: seq<string>): string {
    if lines == [] then "" else if |lines| == 1 then lines[0] else lines[0] + ("\r\n" + Join(lines[1..]))
  }

  function BuildICS(v: Invitation): string {
    Join(InvitationLines(v))
  }

  predicate OneLine(s: string) {
    '\r' !in s && '\n' !in s
  }

  predicate Clean(line: string) {
    line != "" && !Continues(line) && OneLine(line)
  }

  lemma {:induction false} OneLineNewlines(s: string)
    requires OneLine(s)
    ensures Newlines(s) == s && Split(s) == [s]
  {
    if s != "" {
      assert s[0] in s && s == [s[0]] + s[1..];
      OneLineNewlines(s[1..]);
    }
  }

  // Clean lines are unfolded to themselves.
  lemma {:induction false} UnfoldJoin(lines: seq<string>)
    requires lines != [] && forall line <- lines :: Clean(line)
    ensures Split(Newlines(Join(lines))) == lines
  {
    var line := lines[0];
    assert line in lines;
    OneLineNewlines(line);
    if |lines| == 1 {
      assert lines == [line];
    } else {
      var rest := Join(lines[1..]);
      UnfoldJoin(lines[1..]);
      assert line[|line| - 1] in line;
      NewlinesJoin(line, "\r\n" + rest);
      assert ("\r\n" + rest)[2..] == rest;
      SplitJoin(line, Newlines(rest));
      assert line + ("\n" + Newlines(rest)) == line + "\n" + Newlines(rest);
      assert lines == [line] + lines[1..];
    }
  }

  lemma {:induction false} GlueClean(before: seq<string>, lines: seq<string>)
    requires forall line <- lines :: Clean(line)
    ensures GlueAll(Some(before), lines) == Some(before + lines)
    decreases |lines|
  {
    if lines != [] {
      assert lines[0] in lines;
      GlueClean(before + [lines[0]], lines[1..]);
      assert before + [lines[0]] + lines[1..] == before + lines;
    } else {
      assert before + lines == before;
    }
  }

  lemma {:induction false} TokensJoin(a: seq<string>, b: seq<string>)
    ensures Tokens(a + b) ==
      if Tokens(a).Some? && Tokens(b).Some? then Some(Tokens(a).value + Tokens(b).value) else None
  {
    if a == [] {
      assert a + b == b;
      assert Tokens(b).Some? ==> [] + Tokens(b).value == Tokens(b).value;
    } else {
      assert (a + b)[1..] == a[1..] + b;
      TokensJoin(a[1..], b);
      if a[0] != "" && ParsedLine(a[0]).Some? && Tokens(a[1..]).Some? && Tokens(b).Some? {
        var t := [TokenOf(ParsedLine(a[0]).value)];
        assert t + (Tokens(a[1..]).value + Tokens(b).value) == t + Tokens(a[1..]).value + Tokens(b).value;
      }
      hide ParsedLine, TokenOf;
    }
  }

  function Leaves(lines: seq<Line>): seq<Item> {
    seq(|lines|, i requires 0 <= i < |lines| => Leaf(lines[i]))
  }

  function Simple(properties: seq<(string, string)>): seq<Line> {
    seq(|properties|, i requires 0 <= i < |properties| => Line(properties[i].0, properties[i].1, map[]))
  }

  predicate FieldName(s: string) {
    Word(s) && s != "BEGIN" && s != "END"
  }

  predicate Named(properties: seq<(string, string)>) {
    forall i :: 0 <= i < |properties| ==> FieldName(properties[i].0)
  }

  lemma {:induction false} PropertyTokens(properties: seq<(string, string)>)
    requires Named(properties)
    ensures Tokens(Lines(properties)) == Some(WrittenAll(Leaves(Simple(properties))))
  {
    if properties != [] {
      var first, rest := properties[0], properties[1..];
      PropertyLine(first.0, first.1);
      PropertyTokens(rest);
      FirstProperty(properties);
      var raw, line := first.0 + (":" + first.1), Line(first.0, first.1, map[]);
      assert FieldName(first.0) && TokenOf(line) == Property(line) && raw != "";
      hide ParsedLine, FieldName, Lines, Leaves, Simple;
      assert ([raw] + Lines(rest))[1..] == Lines(rest)
        && ([Leaf(line)] + Leaves(Simple(rest)))[1..] == Leaves(Simple(rest));
    }
  }

  lemma {:induction false} FirstProperty(properties: seq<(string, string)>)
    requires properties != []
    ensures var first, rest := properties[0], properties[1..];
      && Lines(properties) == [first.0 + (":" + first.1)] + Lines(rest)
      && Leaves(Simple(properties)) == [Leaf(Line(first.0, first.1, map[]))] + Leaves(Simple(rest))
  {
  }

  const ORGANIZER_LINE := Line("ORGANIZER", "mailto:" + OWL, map["CN" := ["The hoomail Owl"]])

  lemma {:induction false} UnslashPlain(s: string, second: char)
    requires '\\' !in s
    ensures Unslash(s, second) == s
  {
    if s != "" {
      assert s[0] in s && s == [s[0]] + s[1..];
      UnslashPlain(s[1..], second);
    }
  }

  // A parameter whose value is plain text.
  lemma {:induction false} PlainParameter(params: map<string, seq<string>>, name: string, value: string)
    requires Word(name) && PlainText(value) && ',' !in value && '=' !in name
    ensures WithParameter(params, name + ("=" + value)) == Some(params[name := [value]])
  {
    WordUpper(name);
    CutAt(name, '=', value);
    PlainScan(value, ',', false);
    OnePiece(value, ',', PLAIN);
    UnslashPlain(value, '"');
    UnslashPlain(value, '\\');
    var part := name + ("=" + value);
    assert part[..|name|] == name && part[|name| + 1..] == value;
    assert DecodedParameter(value) == value by {
      assert value != "" ==> value[0] in value;
    }
    hide Find, Pieces, DecodedParameter, Upper;
    assert DecodedParameters([value]) == [value];
  }

  lemma {:induction false} FindPrefix(s: string, k: nat, separator: char, m: Mode)
    requires k <= |s| && Find(s, separator, m) == None
    ensures Find(s[..k], separator, m) == None
  {
    if k > 0 {
      assert s[..k][1..] == s[1..][..k - 1];
      FindPrefix(s[1..], k - 1, separator, After(m, s[0]));
    }
  }

  const QUOTED := Mode(true, false)

  // Inside quotes nothing separates.
  lemma {:induction false} QuotedScan(s: string, separator: char)
    requires '"' !in s && '\\' !in s
    ensures AfterAll(QUOTED, s) == QUOTED && Find(s, separator, QUOTED) == None
  {
    if s != "" {
      assert s[0] in s;
      QuotedScan(s[1..], separator);
    }
  }

  lemma {:induction false} SkipOrdinary(p: string, t: string)
    requires forall c <- p :: c != '"' && c != '\\' && c != ':'
    ensures Find(p + t, ':', PLAIN) == match Find(t, ':', PLAIN) case None => None case Some(k) => Some(|p| + k)
  {
    if p == "" {
      assert p + t == t;
    } else {
      assert p[0] in p && (p + t)[1..] == p[1..] + t;
      assert forall c <- p[1..] :: c in p;
      SkipOrdinary(p[1..], t);
    }
  }

  // A head NAME;KEY= neither ends nor splits what follows.
  lemma {:induction false} StartColon(name: string, key: string, t: string)
    requires Word(name) && Word(key)
    ensures Find(name + (";" + Pair(key, t)), ':', PLAIN) ==
      match Find(t, ':', PLAIN) case None => None case Some(k) => Some(|name| + |key| + 2 + k)
  {
    var p := name + ";" + key + "=";
    assert forall c <- p :: c in name || c in key || c == ';' || c == '=';
    SkipOrdinary(p, t);
    hide Find, Word;
    assert name + (";" + Pair(key, t)) == p + t;
  }

  lemma {:induction false} StartPieces(name: string, key: string, t: string)
    requires Word(name) && Word(key)
    ensures Pieces(name + (";" + Pair(key, t)), ';', PLAIN) == [name] + Attach(key + "=", Pieces(t, ';', PLAIN))
  {
    WordUpper(name);
    WordUpper(key);
    CutAt(name, ';', Pair(key, t));
    PlainScan(key + "=", ';', false);
    PiecesJoin(key + "=", t, ';', PLAIN);
    assert Pair(key, t) == key + "=" + t;
    hide *;
  }

  lemma {:induction false} KeyFound(params: map<string, seq<string>>, key: string, t: string)
    requires Word(key)
    ensures WithParameter(params, key + "=" + t) == Some(params[key := DecodedParameters(Pieces(t, ',', PLAIN))])
  {
    WordUpper(key);
    CutAt(key, '=', t);
    var part := key + "=" + t;
    assert part == key + ("=" + t) && part[..|key|] == key && part[|key| + 1..] == t;
    hide Find, Pieces, Upper, Word, PlainText, DecodedParameters;
  }

  // A head NAME;KEY=t whose t does not split is a line with one parameter.
  lemma {:induction false} WholeParameter(name: string, key: string, t: string, value: string)
    requires Word(name) && Word(key)
    requires Find(t, ';', PLAIN) == None && Find(t + (":" + value), ':', PLAIN) == Some(|t|)
    ensures ParsedLine(name + (";" + Pair(key, t + (":" + value)))) ==
      Some(Line(name, value, map[key := DecodedParameters(Pieces(t, ',', PLAIN))]))
  {
    var head, part := name + (";" + Pair(key, t)), key + "=" + t;
    var params := map[key := DecodedParameters(Pieces(t, ',', PLAIN))];
    StartColon(name, key, t + (":" + value));
    StartPieces(name, key, t);
    OnePiece(t, ';', PLAIN);
    KeyFound(map[], key, t);
    assert name + (";" + Pair(key, t + (":" + value))) == head + (":" + value);
    assert WithParameters(params, []) == Some(params) && Attach(key + "=", [t]) == [part] && [part] + [] == [part];
    ReadOne(map[], part, [], params);
    hide *;
    Assembled(name, head, value, [part], params);
  }

  // NAME;KEY=text:value
  lemma {:induction false} ParameterLine(name: string, key: string, text: string, value: string)
    requires Word(name) && Word(key) && PlainValue(text)
    ensures ParsedLine(name + (";" + Pair(key, text + (":" + value)))) == Some(Line(name, value, map[key := [text]]))
  {
    PlainScan(text, ';', false);
    PlainScan(text, ':', false);
    FindJoin(text, ":" + value, ':', PLAIN);
    assert Find(":" + value, ':', PLAIN) == Some(0);
    WholeParameter(name, key, text, value);
    KeyFound(map[], key, text);
    PlainPair(map[], key, text);
    hide ParsedLine, Find, Pieces, WithParameter, DecodedParameters, PlainText, Word;
    assert key + "=" + text == key + ("=" + text);
    assert map[key := DecodedParameters(Pieces(text, ',', PLAIN))][key] == map[key := [text]][key];
  }

  lemma {:induction false} OrganizerParses()
    ensures ParsedLine(Organizer()) == Some(ORGANIZER_LINE)
  {
    assert Word("ORGANIZER") && Word("CN") && PlainValue("The hoomail Owl");
    hide Word, PlainValue, ParsedLine, Pair;
    ParameterLine("ORGANIZER", "CN", "The hoomail Owl", "mailto:" + OWL);
  }

  lemma {:induction false} EscapePlain(s: string)
    ensures AfterAll(PLAIN, EscapedAll(s)) == (if OddQuotes(s) then QUOTED else PLAIN)
      && Find(EscapedAll(s), ';', PLAIN) == None
  {
    EscapeScan(s, false);
  }

  // How the attendee line reads depends on the quotes and colons of the escaped recipient.
  // A colon outside quotes: it ends the head early.
  lemma {:induction false} CutEarly(name: string, key: string, s: string, rest: string)
    requires Word(name) && Word(key) && Find(EscapedAll(s), ':', PLAIN).Some?
    ensures var parsed := ParsedLine(name + (";" + Pair(key, EscapedAll(s) + rest)));
      parsed.Some? && parsed.value.name == name
      && parsed.value.value == EscapedAll(s)[Find(EscapedAll(s), ':', PLAIN).value + 1..] + rest
  {
    hide *;
    var e := EscapedAll(s);
    var k := Find(e, ':', PLAIN).value;
    EscapePlain(s);
    FindPrefix(e, k, ';', PLAIN);
    FindJoin(e, rest, ':', PLAIN);
    CutText(e, k, rest);
    WholeParameter(name, key, e[..k], e[k + 1..] + rest);
  }

  lemma {:induction false} CutText(e: string, k: nat, rest: string)
    requires k < |e| && e[k] == ':'
    ensures e + rest == e[..k] + (":" + (e[k + 1..] + rest))
  {
    assert e == e[..k] + ([e[k]] + e[k + 1..]);
  }

  // An open quote: nothing separates until the recipient is repeated, and then only a colon can.
  lemma {:induction false} OpenQuote(name: string, key: string, s: string, q: string)
    requires Word(name) && Word(key) && Find(EscapedAll(s), ':', PLAIN).None? && OddQuotes(s) && '"' !in q && '\\' !in q
    ensures var e := EscapedAll(s);
      var parsed := ParsedLine(name + (";" + Pair(key, e + (q + e))));
      && parsed.Some? == Find(e, ':', QUOTED).Some?
      && (parsed.Some? ==> parsed.value.name == name && parsed.value.value == e[Find(e, ':', QUOTED).value + 1..])
  {
    EscapeScan(s, false);
    EscapeScan(s, true);
    QuotedScan(q, ':');
    QuotedScan(q, ';');
    OpenQuoteText(name, key, EscapedAll(s), q);
  }

  lemma {:induction false} OpenQuoteText(name: string, key: string, e: string, q: string)
    requires Word(name) && Word(key) && Find(e, ':', PLAIN) == None && AfterAll(PLAIN, e) == QUOTED
    requires Find(e, ';', PLAIN) == None && Find(e, ';', QUOTED) == None
    requires Find(q, ':', QUOTED) == None && Find(q, ';', QUOTED) == None && AfterAll(QUOTED, q) == QUOTED
    ensures var parsed := ParsedLine(name + (";" + Pair(key, e + (q + e))));
      && parsed.Some? == Find(e, ':', QUOTED).Some?
      && (parsed.Some? ==> parsed.value.name == name && parsed.value.value == e[Find(e, ':', QUOTED).value + 1..])
  {
    hide *;
    FindJoin(e, q + e, ':', PLAIN);
    FindJoin(q, e, ':', QUOTED);
    if Find(e, ':', QUOTED).Some? {
      var k := Find(e, ':', QUOTED).value;
      FindPrefix(e, k, ';', QUOTED);
      FindJoin(q, e[..k], ';', QUOTED);
      FindJoin(e, q + e[..k], ';', PLAIN);
      var t, value := e + (q + e[..k]), e[k + 1..];
      Recombine(e, q, k);
      WholeParameter(name, key, t, value);
    } else {
      StartColon(name, key, e + (q + e));
      NoColon(name + (";" + Pair(key, e + (q + e))));
    }
  }

  lemma {:induction false} Recombine(e: string, q: string, k: nat)
    requires k < |e| && e[k] == ':'
    ensures e + (q + e) == e + (q + e[..k]) + (":" + e[k + 1..]) && |e + (q + e[..k])| == |e| + (|q| + k)
  {
    var x, z := e[..k], ":" + e[k + 1..];
    assert e == x + z;
    Regroup(q, x, z);
    Regroup(e, q + x, z);
  }

  lemma {:induction false} NoColon(raw: string)
    requires Find(raw, ':', PLAIN) == None
    ensures ParsedLine(raw) == None
  {
  }

  function AttendeeParams(e: string): map<string, seq<string>> {
    map["CN" := DecodedParameters(Pieces(e, ',', PLAIN))]
       ["ROLE" := ["REQ-PARTICIPANT"]]["PARTSTAT" := ["NEEDS-ACTION"]]["RSVP" := ["TRUE"]]
  }

  lemma {:induction false} ParameterPieces()
    ensures Pieces(AttendeeParameters(), ';', PLAIN) ==
      [Pair("ROLE", "REQ-PARTICIPANT"), Pair("PARTSTAT", "NEEDS-ACTION"), Pair("RSVP", "TRUE")]
  {
    var r, p, v := Pair("ROLE", "REQ-PARTICIPANT"), Pair("PARTSTAT", "NEEDS-ACTION"), Pair("RSVP", "TRUE");
    assert PlainText(r) && PlainText(p) && PlainText(v);
    CutAt(r, ';', p + (";" + v));
    CutAt(p, ';', v);
    PlainScan(v, ';', false);
    OnePiece(v, ';', PLAIN);
    hide Pieces, PlainText, Pair;
    assert [r] + ([p] + [v]) == [r, p, v];
  }

  lemma {:induction false} ReadOne(params: map<string, seq<string>>, part: string, rest: seq<string>,
                                   next: map<string, seq<string>>)
    requires WithParameter(params, part) == Some(next)
    ensures WithParameters(params, [part] + rest) == WithParameters(next, rest)
  {
    assert ([part] + rest)[1..] == rest;
  }

  lemma {:induction false} ParametersRead(e: string)
    ensures WithParameters(map[], ["CN" + "=" + e]
      + [Pair("ROLE", "REQ-PARTICIPANT"), Pair("PARTSTAT", "NEEDS-ACTION"), Pair("RSVP", "TRUE")])
      == Some(AttendeeParams(e))
  {
    var m0 := map["CN" := DecodedParameters(Pieces(e, ',', PLAIN))];
    var m1 := m0["ROLE" := ["REQ-PARTICIPANT"]];
    var m2 := m1["PARTSTAT" := ["NEEDS-ACTION"]];
    assert Word("CN") && Word("ROLE") && Word("PARTSTAT") && Word("RSVP");
    assert PlainValue("REQ-PARTICIPANT") && PlainValue("NEEDS-ACTION") && PlainValue("TRUE");
    hide *;
    KeyFound(map[], "CN", e);
    PlainPair(m0, "ROLE", "REQ-PARTICIPANT");
    PlainPair(m1, "PARTSTAT", "NEEDS-ACTION");
    PlainPair(m2, "RSVP", "TRUE");
    ReadFour("CN" + "=" + e, Pair("ROLE", "REQ-PARTICIPANT"), Pair("PARTSTAT", "NEEDS-ACTION"), Pair("RSVP", "TRUE"),
             m0, m1, m2, m2["RSVP" := ["TRUE"]]);
    assert AttendeeParams(e) == m2["RSVP" := ["TRUE"]] by {
      AttendeeParamsAre(e);
    }
  }

  lemma {:induction false} AttendeeParamsAre(e: string)
    ensures AttendeeParams(e) ==
      map["CN" := DecodedParameters(Pieces(e, ',', PLAIN))]
         ["ROLE" := ["REQ-PARTICIPANT"]]["PARTSTAT" := ["NEEDS-ACTION"]]["RSVP" := ["TRUE"]]
  {
  }

  predicate PlainValue(s: string) {
    PlainText(s) && ',' !in s
  }

  lemma {:induction false} PlainPair(params: map<string, seq<string>>, name: string, value: string)
    requires Word(name) && PlainValue(value)
    ensures WithParameter(params, Pair(name, value)) == Some(params[name := [value]])
  {
    PlainParameter(params, name, value);
  }

  lemma {:induction false} ReadFour(c: string, r: string, p: string, v: string, m0: map<string, seq<string>>,
                                    m1: map<string, seq<string>>, m2: map<string, seq<string>>,
                                    m3: map<string, seq<string>>)
    requires WithParameter(map[], c) == Some(m0) && WithParameter(m0, r) == Some(m1)
    requires WithParameter(m1, p) == Some(m2) && WithParameter(m2, v) == Some(m3)
    ensures WithParameters(map[], [c] + [r, p, v]) == Some(m3)
  {
    hide WithParameter;
    ReadOne(map[], c, [r, p, v], m0);
    assert [r, p, v] == [r] + [p, v] && [p, v] == [p] + [v] && [v] == [v] + [];
    ReadOne(m0, r, [p, v], m1);
    ReadOne(m1, p, [v], m2);
    ReadOne(m2, v, [], m3);
  }

  // Balanced quotes and no colon: the line reads as it was meant.
  lemma {:induction false} AsMeant(name: string, key: string, e: string, p: string, value: string, pieces: seq<string>,
                                   params: map<string, seq<string>>)
    requires Word(name) && Word(key)
    requires Find(e, ':', PLAIN) == None && Find(e, ';', PLAIN) == None && AfterAll(PLAIN, e) == PLAIN
    requires forall c <- p :: c != '"' && c != '\\' && c != ':'
    requires Pieces(p, ';', PLAIN) == pieces && WithParameters(map[], [key + "=" + e] + pieces) == Some(params)
    ensures ParsedLine(name + (";" + Pair(key, e + (";" + (p + (":" + value)))))) == Some(Line(name, value, params))
  {
    var t := e + (";" + p);
    var head := name + (";" + Pair(key, t));
    HeadConcat(name, key, e, p, value);
    hide *;
    ColonAfter(e, p, value);
    StartColon(name, key, e + (";" + (p + (":" + value))));
    StartPieces(name, key, t);
    RestPieces(e, p);
    HeadPieces(name, key + "=", e, pieces);
    Assembled(name, head, value, [key + "=" + e] + pieces, params);
  }

  lemma {:induction false} HeadConcat(name: string, key: string, e: string, p: string, value: string)
    ensures var head := name + (";" + Pair(key, e + (";" + p)));
      && name + (";" + Pair(key, e + (";" + (p + (":" + value))))) == head + (":" + value)
      && head != "" && |head| == |name| + |key| + 2 + (|e| + 1 + |p|)
  {
    assert e + (";" + (p + (":" + value))) == e + (";" + p) + (":" + value);
  }

  lemma {:induction false} ColonAfter(e: string, p: string, value: string)
    requires Find(e, ':', PLAIN) == None && AfterAll(PLAIN, e) == PLAIN
      && forall c <- p :: c != '"' && c != '\\' && c != ':'
    ensures Find(e + (";" + (p + (":" + value))), ':', PLAIN) == Some(|e| + 1 + |p|)
  {
    FindJoin(e, ";" + (p + (":" + value)), ':', PLAIN);
    assert ";" + (p + (":" + value)) == (";" + p) + (":" + value);
    assert forall c <- ";" + p :: c == ';' || c in p;
    SkipOrdinary(";" + p, ":" + value);
  }

  lemma {:induction false} RestPieces(e: string, p: string)
    requires Find(e, ';', PLAIN) == None && AfterAll(PLAIN, e) == PLAIN
    ensures Pieces(e + (";" + p), ';', PLAIN) == [e] + Pieces(p, ';', PLAIN)
  {
    PiecesJoin(e, ";" + p, ';', PLAIN);
    CutAt("", ';', p);
    assert "" + (";" + p) == ";" + p && e + "" == e;
    assert ([""] + Pieces(p, ';', PLAIN))[1..] == Pieces(p, ';', PLAIN);
  }

  lemma {:induction false} HeadPieces(name: string, start: string, e: string, pieces: seq<string>)
    ensures [name] + Attach(start, [e] + pieces) == [name] + ([start + e] + pieces)
  {
    assert ([e] + pieces)[1..] == pieces;
  }

  // Quotes and colons are not touched by newline conversion.
  lemma {:induction false} NewlinesKeep(s: string, quoted: bool)
    ensures OddQuotes(Newlines(s)) == OddQuotes(s) && ColonOutside(Newlines(s), quoted) == ColonOutside(s, quoted)
  {
    if s != "" {
      if |s| >= 2 && s[0] == '\r' && s[1] == '\n' {
        NewlinesKeep(s[2..], quoted);
        assert s[1..][1..] == s[2..] && s[1..][0] == '\n';
        assert Newlines(s)[1..] == Newlines(s[2..]);
        assert OddQuotes(s) == OddQuotes(s[1..]) == OddQuotes(s[2..]);
        assert ColonOutside(s, quoted) == ColonOutside(s[1..], quoted) == ColonOutside(s[2..], quoted);
      } else {
        NewlinesKeep(s[1..], quoted != (s[0] == '"'));
        assert Newlines(s)[1..] == Newlines(s[1..]);
      }
    }
  }

  predicate Ordinary(s: string) {
    forall c <- s :: c != '"' && c != '\\' && c != ':'
  }

  lemma {:induction false} PairsPlain()
    ensures PlainText(Pair("ROLE", "REQ-PARTICIPANT")) && PlainText(Pair("PARTSTAT", "NEEDS-ACTION"))
    ensures PlainText(Pair("RSVP", "TRUE"))
  {
  }

  lemma {:induction false} ParametersAre()
    ensures forall c <- AttendeeParameters() :: PlainChar(c) || c == ';'
  {
    PairsPlain();
    var r, p, v := Pair("ROLE", "REQ-PARTICIPANT"), Pair("PARTSTAT", "NEEDS-ACTION"), Pair("RSVP", "TRUE");
    hide Pair, PlainChar;
    assert forall c <- AttendeeParameters() :: c in r || c in p || c in v || c == ';';
  }

  lemma {:induction false} ParametersOrdinary()
    ensures Ordinary(AttendeeParameters())
  {
    ParametersAre();
    hide AttendeeParameters;
  }

  // The recipients whose invitation can be read back.
  predicate Recoverable(to: string) {
    ':' in to || !OddQuotes(to)
  }

  lemma {:induction false} AttendeeWords()
    ensures Word("ATTENDEE") && Word("CN")
  {
  }

  lemma {:induction false} AttendeeMeant(s: string)
    requires Find(EscapedAll(s), ':', PLAIN) == None && !OddQuotes(s)
    ensures var e := EscapedAll(s);
      ParsedLine("ATTENDEE" + (";" + Pair("CN", AttendeeRest(e)))) ==
        Some(Line("ATTENDEE", "mailto:" + e, AttendeeParams(e)))
  {
    assert AttendeeRest(EscapedAll(s)) ==
      EscapedAll(s) + (";" + (AttendeeParameters() + (":" + ("mailto:" + EscapedAll(s))))) by {
      hide EscapedAll, AttendeeParameters;
    }
    ParametersOrdinary();
    assert forall c <- AttendeeParameters() :: c != '"' && c != '\\' && c != ':' by {
      hide AttendeeParameters;
    }
    hide *;
    EscapePlain(s);
    ParameterPieces();
    ParametersRead(EscapedAll(s));
    AttendeeWords();
    AsMeant("ATTENDEE", "CN", EscapedAll(s), AttendeeParameters(), "mailto:" + EscapedAll(s),
            [Pair("ROLE", "REQ-PARTICIPANT"), Pair("PARTSTAT", "NEEDS-ACTION"), Pair("RSVP", "TRUE")],
            AttendeeParams(EscapedAll(s)));
  }

  function BetweenCopies(): string {
    ";" + (AttendeeParameters() + (":" + "mailto:"))
  }

  lemma {:induction false} BetweenCopiesIs(e: string)
    ensures AttendeeRest(e) == e + (BetweenCopies() + e)
    ensures '"' !in BetweenCopies() && '\\' !in BetweenCopies()
  {
    ParametersOrdinary();
    var p := AttendeeParameters();
    hide AttendeeParameters;
    assert ";" + (p + (":" + ("mailto:" + e))) == BetweenCopies() + e;
    assert forall c <- BetweenCopies() :: c == ';' || c in p || c in ":" + "mailto:";
  }

  lemma {:induction false} AttendeeQuoted(s: string)
    requires Find(EscapedAll(s), ':', PLAIN) == None && OddQuotes(s)
    ensures var e := EscapedAll(s);
      var parsed := ParsedLine("ATTENDEE" + (";" + Pair("CN", AttendeeRest(e))));
      && parsed.Some? == Find(e, ':', QUOTED).Some?
      && (parsed.Some? ==> parsed.value.name == "ATTENDEE" && parsed.value.value == e[Find(e, ':', QUOTED).value + 1..])
  {
    hide *;
    BetweenCopiesIs(EscapedAll(s));
    AttendeeWords();
    OpenQuote("ATTENDEE", "CN", s, BetweenCopies());
  }

  // The value of the attendee line: after the first colon outside quotes, which the recipient may have in its first or,
  // behind an open quote, in its second copy.
  function AttendeeValue(to: string): Option<string> {
    var e := Escape(to);
    if ColonOutside(to, false) then
      match Find(e, ':', PLAIN) case None => None case Some(k) => Some(e[k + 1..] + (BetweenCopies() + e))
    else if !OddQuotes(to) then Some("mailto:" + e)
    else match Find(e, ':', QUOTED) case None => None case Some(k) => Some(e[k + 1..])
  }

  // The recipient's quotes are in pairs, and any colon is inside them.
  predicate Enclosed(to: string) {
    !ColonOutside(to, false) && !OddQuotes(to)
  }

  lemma {:induction false} RecipientScan(to: string)
    ensures var e := Escape(to);
      && (Find(e, ':', PLAIN).Some? <==> ColonOutside(to, false))
      && (Find(e, ':', QUOTED).Some? <==> ColonOutside(to, true))
      && e == EscapedAll(Newlines(to)) && OddQuotes(Newlines(to)) == OddQuotes(to)
      && (Recoverable(to) <==> ColonOutside(to, false) || !OddQuotes(to) || ColonOutside(to, true))
  {
    NewlinesKeep(to, false);
    NewlinesKeep(to, true);
    EscapeScan(Newlines(to), false);
    EscapeScan(Newlines(to), true);
    ColonFound(to);
  }

  // The attendee line is well formed exactly for recoverable recipients; it reads as meant for the enclosed ones.
  lemma {:induction false} AttendeeParses(to: string)
    ensures var parsed := ParsedLine(AttendeeLine(to));
      && parsed.Some? == Recoverable(to) == AttendeeValue(to).Some?
      && (parsed.Some? ==> parsed.value.name == "ATTENDEE" && parsed.value.value == AttendeeValue(to).value)
      && (Enclosed(to) ==> parsed == Some(Line("ATTENDEE", "mailto:" + Escape(to), AttendeeParams(Escape(to)))))
  {
    var s := Newlines(to);
    RecipientScan(to);
    AttendeeWords();
    BetweenCopiesIs(EscapedAll(s));
    hide EscapedAll, Find, Pair, Word, ParsedLine, OddQuotes, AttendeeParams, AfterAll, AttendeeParameters, Newlines,
      AttendeeRest, BetweenCopies, ColonOutside, Recoverable, Escape;
    if ColonOutside(to, false) {
      CutEarly("ATTENDEE", "CN", s, BetweenCopies() + EscapedAll(s));
    } else if OddQuotes(s) {
      AttendeeQuoted(s);
    } else {
      AttendeeMeant(s);
    }
  }
}
