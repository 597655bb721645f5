/** The address the parser takes from the printed attendee line (internal/sendtest/sendtest.go,
    internal/calendar/calendar.go). */
module CalendarRecipient {
  import opened Text
  import opened ContentLines
  import opened Calendar
  import opened CalendarPrinter

  // What escaping leaves alone.
  predicate LiteralChar(c: char) {
    c != '\\' && c != ';' && c != ',' && c != '\r' && c != '\n'
  }

  predicate Literal(s: string) {
    forall c <- s :: LiteralChar(c)
  }

  function Address(to: string): Option<string> {
    match AttendeeValue(to) case None => None case Some(value) => Mailto(value)
  }

  lemma {:induction false} EscapeHead(s: string)
    requires s != ""
    ensures LiteralChar(s[0]) ==> Escape(s) == [s[0]] + Escape(s[1..])
    ensures s[0] == '\\' ==> Escape(s) == "\\\\" + Escape(s[1..])
    ensures s[0] == ';' || s[0] == ',' ==> Escape(s) == ['\\', s[0]] + Escape(s[1..])
    ensures s[0] == '\n' ==> Escape(s) == "\\n" + Escape(s[1..])
    ensures s[0] == '\r' ==> Escape(s) == "\\n" + Escape(if |s| >= 2 && s[1] == '\n' then s[2..] else s[1..])
  {
    var n := Newlines(s);
    assert s[0] != '\r' ==> n[1..] == Newlines(s[1..]) && n[0] == s[0];
    assert s[0] == '\r' ==> n[0] == '\n' && n[1..] == Newlines(if |s| >= 2 && s[1] == '\n' then s[2..] else s[1..]);
    hide Newlines;
  }

  lemma {:induction false} EscapeLonger(s: string)
    ensures |Escape(s)| >= |s|
  {
    if s != "" {
      EscapeHead(s);
      EscapeLonger(s[1..]);
      if |s| >= 2 {
        EscapeLonger(s[2..]);
      }
      hide Escape;
    }
  }

  lemma {:induction false} EscapeLiteral(s: string)
    requires Literal(s)
    ensures Escape(s) == s
  {
    if s != "" {
      assert s[0] in s && s == [s[0]] + s[1..];
      EscapeHead(s);
      EscapeLiteral(s[1..]);
      hide Escape;
    }
  }

  lemma {:induction false} LowerHead(s: string)
    requires s != ""
    ensures Lower(s) == [LowerChar(s[0])] + Lower(s[1..])
  {
  }

  // Anything else shows, whatever the letter case.
  lemma {:induction false} EscapeShows(s: string)
    requires !Literal(s)
    ensures Lower(Escape(s)) != Lower(s)
  {
    EscapeHead(s);
    assert s == [s[0]] + s[1..];
    LowerHead(s);
    var e := Escape(s);
    LowerHead(e);
    if LiteralChar(s[0]) {
      EscapeShows(s[1..]);
      assert e[1..] == Escape(s[1..]);
      hide Lower, Escape;
      assert ([LowerChar(s[0])] + Lower(s[1..]))[1..] == Lower(s[1..]);
      assert ([LowerChar(s[0])] + Lower(e[1..]))[1..] == Lower(e[1..]);
    } else if s[0] == '\\' {
      EscapeLonger(s[1..]);
    } else {
      assert e[0] == '\\';
      hide Escape, Lower;
      assert ([LowerChar(s[0])] + Lower(s[1..]))[0] == s[0];
      assert ([LowerChar(e[0])] + Lower(e[1..]))[0] == '\\';
    }
  }

  lemma {:induction false} LowerSame(s: string)
    requires forall c <- s :: LowerChar(c) == c
    ensures Lower(s) == s
  {
  }

  lemma {:induction false} LowerQuotes(s: string)
    ensures OddQuotes(Lower(s)) == OddQuotes(s)
  {
    if s != "" {
      LowerHead(s);
      LowerQuotes(s[1..]);
      hide Lower;
      assert ([LowerChar(s[0])] + Lower(s[1..]))[1..] == Lower(s[1..]);
    }
  }

  lemma {:induction false} NoQuotes(s: string)
    requires '"' !in s
    ensures !OddQuotes(s)
  {
    if s != "" {
      assert s[0] in s;
      NoQuotes(s[1..]);
    }
  }

  // Taking "mailto:" off a value in any letter case takes no quotes off and at most seven bytes.
  lemma {:induction false} MailtoKeeps(value: string)
    ensures var address := Mailto(value);
      address.Some? ==> OddQuotes(address.value) == OddQuotes(value) && |value| <= |address.value| + 7
  {
    if |value| >= 7 && Lower(value[..7]) == "mailto:" {
      var start := value[..7];
      assert '"' !in "mailto:";
      NoQuotes("mailto:");
      LowerQuotes(start);
      assert value == start + value[7..];
      QuotesJoin(start, value[7..]);
      LowerQuotes(value[7..]);
    } else {
      LowerQuotes(value);
    }
  }

  lemma {:induction false} MailtoOf(e: string)
    ensures Mailto("mailto:" + e) == if e == "" then None else Some(Lower(e))
  {
    var value := "mailto:" + e;
    assert value[..7] == "mailto:" && value[7..] == e;
    assert Lower("mailto:") == "mailto:";
  }

  lemma {:induction false} BetweenIsLong()
    ensures |BetweenCopies()| > 7
  {
    hide AttendeeParameters;
  }

  // The three ways the line can read: cut short at a colon of the first copy, ...
  lemma {:induction false} CutAddress(to: string)
    requires ColonOutside(to, false)
    ensures Address(to) != Some(Lower(to))
  {
    RecipientScan(to);
    EscapeLonger(to);
    BetweenIsLong();
    var e, k := Escape(to), Find(Escape(to), ':', PLAIN).value;
    MailtoKeeps(e[k + 1..] + (BetweenCopies() + e));
    hide Escape, Find, Mailto, BetweenCopies, ColonOutside, OddQuotes;
  }

  // ... at a colon of the second, behind an open quote, ...
  lemma {:induction false} OpenValue(to: string)
    requires !ColonOutside(to, false) && OddQuotes(to) && ColonOutside(to, true)
    ensures AttendeeValue(to).Some? && !OddQuotes(AttendeeValue(to).value)
  {
    hide Find, ColonOutside, OddQuotes, Newlines, EscapedAll;
    RecipientScan(to);
    NewlinesKeep(to, true);
    QuotesLeft(Newlines(to), true);
  }

  lemma {:induction false} OpenAddress(to: string)
    requires !ColonOutside(to, false) && OddQuotes(to) && ColonOutside(to, true)
    ensures Address(to) != Some(Lower(to))
  {
    hide Mailto, AttendeeValue, ColonOutside, OddQuotes, Lower;
    OpenValue(to);
    LowerQuotes(to);
    MailtoKeeps(AttendeeValue(to).value);
  }

  // ... or as meant.
  lemma {:induction false} MeantAddress(to: string)
    requires Enclosed(to)
    ensures Address(to) == if to == "" then None else Some(Lower(Escape(to)))
  {
    EscapeLonger(to);
    MailtoOf(Escape(to));
    assert to == "" ==> Escape(to) == "";
    hide Mailto, Escape, Find, Lower;
  }

  // The recipient is read back exactly when its quotes are in pairs, any colon is inside them, and
  // nothing in it is escaped.
  lemma {:induction false} AddressExactly(to: string)
    ensures Address(to) == Some(Lower(to)) <==> to != "" && Enclosed(to) && Literal(to)
  {
    RecipientScan(to);
    hide Lower, Escape, Address, ColonOutside, OddQuotes, Find, Newlines, EscapedAll;
    if Enclosed(to) {
      MeantAddress(to);
      if Literal(to) {
        EscapeLiteral(to);
      } else {
        EscapeShows(to);
      }
    } else if ColonOutside(to, false) {
      CutAddress(to);
    } else if ColonOutside(to, true) {
      OpenAddress(to);
    } else {
      UnreadAddress(to);
    }
  }

  lemma {:induction false} UnreadAddress(to: string)
    requires OddQuotes(to) && !ColonOutside(to, false) && !ColonOutside(to, true)
    ensures Address(to) == None
  {
    RecipientScan(to);
    hide Escape, Find, ColonOutside, OddQuotes;
  }
}
