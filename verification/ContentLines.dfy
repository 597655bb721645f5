/** iCalendar content lines: unfolding, quoting and escaping (internal/calendar/calendar.go; sections 3.1 and 3.3.11 of
    RFC 5545). */
module ContentLines {
  import opened Text

  // Newlines: CRLF and CR become LF.
  function DropCRLF(s: string): string {
    if s == "" then ""
    else if |s| >= 2 && s[0] == '\r' && s[1] == '\n' then "\n" + DropCRLF(s[2..])
    else [s[0]] + DropCRLF(s[1..])
  }

  function DropCR(s: string): string {
    if s == "" then "" else [if s[0] == '\r' then '\n' else s[0]] + DropCR(s[1..])
  }

  // The same in one pass.
  function Newlines(s: string): string {
    if s == "" then ""
    else if s[0] != '\r' then [s[0]] + Newlines(s[1..])
    else if |s| >= 2 && s[1] == '\n' then "\n" + Newlines(s[2..])
    else "\n" + Newlines(s[1..])
  }

  lemma {:induction false} TwoPasses(s: string)
    ensures DropCR(DropCRLF(s)) == Newlines(s)
  {
    if s != "" {
      if |s| >= 2 && s[0] == '\r' && s[1] == '\n' {
        TwoPasses(s[2..]);
        assert ("\n" + DropCRLF(s[2..]))[1..] == DropCRLF(s[2..]);
      } else {
        TwoPasses(s[1..]);
        assert ([s[0]] + DropCRLF(s[1..]))[1..] == DropCRLF(s[1..]);
      }
    }
  }

  lemma {:induction false} NoReturns(s: string)
    ensures '\r' !in Newlines(s)
  {
    if s != "" {
      NoReturns(s[1..]);
      if |s| >= 2 {
        NoReturns(s[2..]);
      }
    }
  }

  lemma {:induction false} NewlinesStep(s: string, t: string, c: char, rest: string)
    requires s != "" && Last(s) != '\r' && c == (if s[0] == '\r' then '\n' else s[0])
    requires rest == if s[0] == '\r' && s[1] == '\n' then s[2..] else s[1..]
    ensures Newlines(s + t) == [c] + Newlines(rest + t) && Newlines(s) == [c] + Newlines(rest)
  {
    assert s + t != "" && (s + t)[0] == s[0] && (|s| > 1 ==> (s + t)[1] == s[1]);
    assert (s + t)[|s| - |rest|..] == rest + t;
  }

  lemma {:induction false} NewlinesJoin(s: string, t: string)
    requires s == "" || Last(s) != '\r'
    ensures Newlines(s + t) == Newlines(s) + Newlines(t)
  {
    if s == "" {
      assert s + t == t;
    } else {
      var c, rest := if s[0] == '\r' then '\n' else s[0], if s[0] == '\r' && s[1] == '\n' then s[2..] else s[1..];
      NewlinesJoin(rest, t);
      NewlinesStep(s, t, c, rest);
      hide *;
      Regroup([c], Newlines(rest), Newlines(t));
    }
  }

  // A prefix for the first of some pieces.
  function Attach(prefix: string, pieces: seq<string>): (r: seq<string>)
    requires pieces != []
    ensures |r| == |pieces|
  {
    [prefix + pieces[0]] + pieces[1..]
  }

  lemma {:induction false} AttachTwice(p: string, q: string, pieces: seq<string>)
    requires pieces != []
    ensures Attach(p, Attach(q, pieces)) == Attach(p + q, pieces)
    ensures Attach("", pieces) == pieces
  {
    assert p + (q + pieces[0]) == p + q + pieces[0];
    assert "" + pieces[0] == pieces[0] && [pieces[0]] + pieces[1..] == pieces;
  }

  // Two lists of pieces whose text is continuous: the last of the one and the first of the other are one piece.
  function Merge(a: seq<string>, b: seq<string>): seq<string>
    requires a != [] && b != []
  {
    a[..|a| - 1] + Attach(Last(a), b)
  }

  lemma {:induction false} AttachMerge(p: string, a: seq<string>, b: seq<string>)
    requires a != [] && b != []
    ensures Attach(p, Merge(a, b)) == Merge(Attach(p, a), b)
  {
    if |a| == 1 {
      AttachTwice(p, a[0], b);
      assert Attach(p, a) == [p + a[0]];
    } else {
      assert Last(Attach(p, a)) == Last(a);
      var end := Attach(Last(a), b);
      hide Attach;
      assert Merge(a, b)[1..] == a[1..][..|a| - 2] + end && Merge(a, b)[0] == a[0];
    }
  }

  lemma {:induction false} AttachConcat(p: string, a: seq<string>, b: seq<string>)
    requires a != []
    ensures Attach(p, a + b) == Attach(p, a) + b
  {
    assert (a + b)[1..] == a[1..] + b;
  }

  lemma {:induction false} EmptyMerge(a: seq<string>, b: seq<string>)
    requires a != [] && b != []
    ensures Merge([""] + a, b) == [""] + Merge(a, b) && [""] + (a + b) == [""] + a + b
  {
    assert ([""] + a)[..|a|] == [""] + a[..|a| - 1];
  }

  // strings.Split at LF
  function Split(s: string): (r: seq<string>)
    ensures r != []
  {
    if s == "" then [""]
    else if s[0] == '\n' then [""] + Split(s[1..])
    else Attach([s[0]], Split(s[1..]))
  }

  lemma {:induction false} SplitStep(c: char, t: string)
    ensures Split([c] + t) == if c == '\n' then [""] + Split(t) else Attach([c], Split(t))
  {
    assert ([c] + t)[1..] == t;
  }

  lemma {:induction false} SplitJoin(s: string, t: string)
    ensures Split(s + "\n" + t) == Split(s) + Split(t)
    ensures Split(s + t) == Merge(Split(s), Split(t))
  {
    if s == "" {
      SplitJoinEmpty(t);
    } else {
      SplitJoin(s[1..], t);
      SplitJoinStep(s[0], s[1..], t);
      assert s == [s[0]] + s[1..];
      hide Merge, Split;
    }
  }

  lemma {:induction false} SplitJoinEmpty(t: string)
    ensures Split("" + "\n" + t) == Split("") + Split(t)
    ensures Split("" + t) == Merge(Split(""), Split(t))
  {
    assert "" + t == t && "" + "\n" + t == ['\n'] + t;
    SplitStep('\n', t);
    AttachTwice("", "", Split(t));
  }

  lemma {:induction false} SplitJoinStep(c: char, u: string, t: string)
    requires Split(u + "\n" + t) == Split(u) + Split(t) && Split(u + t) == Merge(Split(u), Split(t))
    ensures Split([c] + u + "\n" + t) == Split([c] + u) + Split(t)
    ensures Split([c] + u + t) == Merge(Split([c] + u), Split(t))
  {
    var broken, whole := u + "\n" + t, u + t;
    assert [c] + u + t == [c] + whole && [c] + u + "\n" + t == [c] + broken;
    SplitStep(c, u);
    SplitStep(c, whole);
    SplitStep(c, broken);
    var a, b := Split(u), Split(t);
    AttachMerge([c], a, b);
    AttachConcat([c], a, b);
    EmptyMerge(a, b);
    hide *;
    assert Split([c] + broken) == if c == '\n' then [""] + (a + b) else Attach([c], a + b);
    assert Split([c] + whole) == if c == '\n' then [""] + Merge(a, b) else Attach([c], Merge(a, b));
  }

  predicate Continues(physical: string) {
    physical != "" && (physical[0] == ' ' || physical[0] == '\t')
  }

  // One physical line: a continuation is glued to the line before it, which must exist.
  function Glue(lines: Option<seq<string>>, physical: string): Option<seq<string>> {
    if lines.None? then None
    else if !Continues(physical) then Some(lines.value + [physical])
    else if lines.value == [] then None
    else Some(lines.value[..|lines.value| - 1] + [Last(lines.value) + physical[1..]])
  }

  function GlueAll(lines: Option<seq<string>>, physical: seq<string>): Option<seq<string>>
    decreases |physical|
  {
    if physical == [] then lines else GlueAll(Glue(lines, physical[0]), physical[1..])
  }

  function Unfolded(text: string): Option<seq<string>> {
    GlueAll(Some([]), Split(Newlines(text)))
  }

  method UnfoldLines(text: string) returns (r: Option<seq<string>>)
    ensures r == Unfolded(text)
  {
    TwoPasses(text);
    var physical := Split(DropCR(DropCRLF(text)));
    var lines: seq<string>, line, started := [], "", false;
    for i := 0 to |physical|
      invariant Unfolded(text) == GlueAll(Some(if started then lines + [line] else []), physical[i..])
      invariant !started ==> lines == []
    {
      ghost var before := if started then lines + [line] else [];
      assert physical[i..][0] == physical[i] && physical[i..][1..] == physical[i + 1..];
      if Continues(physical[i]) {
        if !started {
          GlueNone(physical[i + 1..]);
          return None;
        }
        assert before[..|before| - 1] == lines;
        line := line + physical[i][1..];
      } else {
        if started {
          lines := lines + [line];
        }
        line, started := physical[i], true;
      }
    }
    r := Some(if started then lines + [line] else []);
  }

  lemma {:induction false} GlueNone(physical: seq<string>)
    ensures GlueAll(None, physical) == None
  {
    if physical != [] {
      GlueNone(physical[1..]);
    }
  }

  lemma {:induction false} GlueJoin(lines: Option<seq<string>>, a: seq<string>, b: seq<string>)
    ensures GlueAll(lines, a + b) == GlueAll(GlueAll(lines, a), b)
    decreases |a|
  {
    if a == [] {
      assert a + b == b;
    } else {
      assert (a + b)[1..] == a[1..] + b;
      GlueJoin(Glue(lines, a[0]), a[1..], b);
    }
  }

  predicate LineBreak(s: string) {
    s == "\r\n" || s == "\n" || s == "\r"
  }

  predicate Blank(c: char) {
    c == ' ' || c == '\t'
  }

  lemma {:induction false} BreakNewlines(cut: string, tail: string)
    requires LineBreak(cut) && tail != "" && tail[0] != '\n'
    ensures Newlines(cut + tail) == "\n" + Newlines(tail)
  {
    assert (cut + tail)[|cut|..] == tail && (cut + tail)[|cut|] == tail[0];
  }

  lemma {:induction false} FoldNewlines(a: string, cut: string, blank: char, b: string)
    requires a != "" && Last(a) != '\r' && LineBreak(cut) && Blank(blank)
    ensures Newlines(a + cut + ([blank] + b)) == Newlines(a) + "\n" + ([blank] + Newlines(b))
    ensures Newlines(a + b) == Newlines(a) + Newlines(b)
  {
    var tail := [blank] + b;
    assert Newlines(tail) == [blank] + Newlines(b) by {
      assert tail[1..] == b;
    }
    assert tail[0] != '\n';
    hide *;
    NewlinesJoin(a, b);
    NewlinesJoin(a, cut + tail);
    BreakNewlines(cut, tail);
    Regroup(a, cut, tail);
    Regroup(Newlines(a), "\n", Newlines(tail));
  }

  // Folding is invisible: a line may be broken anywhere after its first character, with any line break and blank.
  lemma {:induction false} FoldInvisible(a: string, cut: string, blank: char, b: string)
    requires a != "" && Last(a) != '\r' && Last(a) != '\n' && LineBreak(cut) && Blank(blank)
    ensures Unfolded(a + cut + ([blank] + b)) == Unfolded(a + b)
  {
    FoldNewlines(a, cut, blank, b);
    LastPiece(a);
    FoldPieces(Newlines(a), blank, Newlines(b));
    hide Newlines, GlueAll;
  }

  lemma {:induction false} FoldPieces(x: string, blank: char, y: string)
    requires Last(Split(x)) != "" && Blank(blank)
    ensures GlueAll(Some([]), Split(x + "\n" + ([blank] + y))) == GlueAll(Some([]), Split(x + y))
  {
    var p, q := Split(x), Split(y);
    var cut, first, rest := p[..|p| - 1], Last(p), q[1..];
    SplitJoin(x, [blank] + y);
    SplitJoin(x, y);
    SplitStep(blank, y);
    GlueJoin(Some([]), cut, [first, [blank] + q[0]] + rest);
    GlueJoin(Some([]), cut, [first + q[0]] + rest);
    GlueTwo(GlueAll(Some([]), cut), first, blank, q[0], rest);
    assert p == cut + [first];
    Shift(cut, first, [blank] + q[0], rest);
    hide GlueAll, Split;
  }

  lemma {:induction false} Shift<T>(cut: seq<T>, first: T, second: T, rest: seq<T>)
    ensures cut + [first] + ([second] + rest) == cut + ([first, second] + rest)
    ensures forall x: T :: cut + ([x] + rest) == cut + [x] + rest
  {
  }

  lemma {:induction false} LastGrows(c: char, t: string)
    requires Last(Split(t)) != ""
    ensures Last(Split([c] + t)) != ""
  {
    SplitStep(c, t);
    hide Split;
  }

  lemma {:induction false} LastPiece(a: string)
    requires a != "" && Last(a) != '\r' && Last(a) != '\n'
    ensures Last(Split(Newlines(a))) != ""
  {
    if |a| == 1 {
      assert Newlines(a) == a && a[1..] == "";
    } else {
      var rest := if a[0] == '\r' && a[1] == '\n' then a[2..] else a[1..];
      var c := if a[0] == '\r' then '\n' else a[0];
      LastPiece(rest);
      LastGrows(c, Newlines(rest));
      assert Newlines(a) == [c] + Newlines(rest);
      hide Split;
    }
  }

  lemma {:induction false} GlueTwo(lines: Option<seq<string>>, p: string, blank: char, q: string, rest: seq<string>)
    requires p != "" && Blank(blank)
    ensures GlueAll(lines, [p, [blank] + q] + rest) == GlueAll(lines, [p + q] + rest)
  {
    var next := [blank] + q;
    assert ([p, next] + rest)[1..] == [next] + rest && ([next] + rest)[1..] == rest && ([p + q] + rest)[1..] == rest;
    assert next[1..] == q && (p + q)[1..] == p[1..] + q;
    if lines.Some? && (!Continues(p) || lines.value != []) {
      var glued := Glue(lines, p).value;
      assert Last(glued) + q == Last(Glue(lines, p + q).value);
      assert glued[..|glued| - 1] + [Last(glued) + q] == Glue(lines, p + q).value;
    } else {
      GlueNone([next] + rest);
    }
  }

  // Scanning inside double quotes and after a backslash.
  datatype Mode = Mode(quoted: bool, escaped: bool)

  const PLAIN := Mode(false, false)

  function After(m: Mode, c: char): Mode {
    if m.escaped then Mode(m.quoted, false)
    else if c == '\\' then Mode(m.quoted, true)
    else if c == '"' then Mode(!m.quoted, false)
    else m
  }

  function AfterAll(m: Mode, s: string): Mode
    decreases |s|
  {
    if s == "" then m else AfterAll(After(m, s[0]), s[1..])
  }

  predicate Separates(m: Mode, c: char, separator: char) {
    m == PLAIN && c == separator && c != '\\' && c != '"'
  }

  // The first separator outside quotes.
  function Find(s: string, separator: char, m: Mode): (r: Option<nat>)
    ensures r.Some? ==> r.value < |s| && s[r.value] == separator
  {
    if s == "" then None
    else if Separates(m, s[0], separator) then Some(0)
    else
      match Find(s[1..], separator, After(m, s[0]))
      case None => None
      case Some(k) => Some(k + 1)
  }

  // The pieces between separators outside quotes.
  function Pieces(s: string, separator: char, m: Mode): (r: seq<string>)
    ensures r != []
  {
    if s == "" then [""]
    else if Separates(m, s[0], separator) then [""] + Pieces(s[1..], separator, PLAIN)
    else Attach([s[0]], Pieces(s[1..], separator, After(m, s[0])))
  }

  method SeparatorIndex(value: string, separator: char) returns (r: int)
    ensures r == match Find(value, separator, PLAIN) case None => -1 case Some(k) => k
  {
    var quoted, escaped := false, false;
    for index := 0 to |value|
      invariant Find(value, separator, PLAIN) ==
        match Find(value[index..], separator, Mode(quoted, escaped)) case None => None case Some(k) => Some(index + k)
    {
      assert value[index..][1..] == value[index + 1..];
      var character := value[index];
      if escaped {
        escaped := false;
      } else if character == '\\' {
        escaped := true;
      } else if character == '"' {
        quoted := !quoted;
      } else if character == separator && !quoted {
        return index;
      }
    }
    return -1;
  }

  // One step of the loop below: the piece from start on either ends before index or takes it in.
  lemma {:induction false} PiecesStep(s: string, separator: char, m: Mode, start: nat, index: nat)
    requires start <= index < |s|
    ensures var rest := Pieces(s[index + 1..], separator, After(m, s[index]));
      Attach(s[start..index], Pieces(s[index..], separator, m)) ==
      if Separates(m, s[index], separator) then [s[start..index]] + Attach(s[index + 1..index + 1], rest)
      else Attach(s[start..index + 1], rest)
  {
    var c, rest := s[index], Pieces(s[index + 1..], separator, After(m, s[index]));
    assert s[index..][1..] == s[index + 1..];
    assert s[start..index] + [c] == s[start..index + 1];
    AttachTwice(s[start..index], [c], rest);
    assert s[start..index] + "" == s[start..index] && s[index + 1..index + 1] == "";
    assert ([""] + rest)[1..] == rest;
  }

  lemma {:induction false} PiecesEnd(piece: string, separator: char, m: Mode)
    ensures Attach(piece, Pieces("", separator, m)) == [piece]
  {
    assert piece + "" == piece;
  }

  method SplitOutsideQuotes(value: string, separator: char) returns (parts: seq<string>)
    ensures parts == Pieces(value, separator, PLAIN)
  {
    parts := [];
    AttachTwice("", "", Pieces(value, separator, PLAIN));
    var start, quoted, escaped := 0, false, false;
    for index := 0 to |value|
      invariant start <= index
      invariant Pieces(value, separator, PLAIN) ==
        parts + Attach(value[start..index], Pieces(value[index..], separator, Mode(quoted, escaped)))
    {
      PiecesStep(value, separator, Mode(quoted, escaped), start, index);
      hide Pieces, Attach;
      var character := value[index];
      if escaped {
        escaped := false;
      } else if character == '\\' {
        escaped := true;
      } else if character == '"' {
        quoted := !quoted;
      } else if character == separator && !quoted {
        assert forall rest: seq<string> ::
                 parts + ([value[start..index]] + rest) == parts + [value[start..index]] + rest;
        parts := parts + [value[start..index]];
        start := index + 1;
      }
    }
    PiecesEnd(value[start..|value|], separator, Mode(quoted, escaped));
    assert value[start..] == value[start..|value|] && value[|value|..] == "";
    parts := parts + [value[start..]];
  }

  lemma {:induction false} AfterJoin(m: Mode, s: string, t: string)
    ensures AfterAll(m, s + t) == AfterAll(AfterAll(m, s), t)
    decreases |s|
  {
    if s == "" {
      assert s + t == t;
    } else {
      assert (s + t)[1..] == s[1..] + t;
      AfterJoin(After(m, s[0]), s[1..], t);
    }
  }

  lemma {:induction false} FindJoin(s: string, t: string, separator: char, m: Mode)
    ensures Find(s + t, separator, m) == match Find(s, separator, m)
      case Some(k) => Some(k)
      case None => match Find(t, separator, AfterAll(m, s)) case None => None case Some(k) => Some(|s| + k)
  {
    if s == "" {
      assert s + t == t;
    } else {
      assert (s + t)[1..] == s[1..] + t;
      FindJoin(s[1..], t, separator, After(m, s[0]));
    }
  }

  lemma {:induction false} PiecesJoin(s: string, t: string, separator: char, m: Mode)
    requires Find(s, separator, m) == None
    ensures Pieces(s + t, separator, m) == Attach(s, Pieces(t, separator, AfterAll(m, s)))
  {
    if s == "" {
      assert s + t == t;
      AttachTwice("", "", Pieces(t, separator, m));
    } else {
      assert (s + t)[1..] == s[1..] + t && [s[0]] + s[1..] == s;
      PiecesJoin(s[1..], t, separator, After(m, s[0]));
      AttachTwice([s[0]], s[1..], Pieces(t, separator, AfterAll(m, s)));
    }
  }
}
