/** Nothing is shown twice, and without alternatives nothing is lost. */
module PresentationLaws {
  import opened Text
  import opened Presentation

  // Children carry their number behind their parent's path.
  predicate Addressed(part: Part) {
    forall i :: 0 <= i < |part.children| ==> part.children[i].path == part.path + [i + 1] && Addressed(part.children[i])
  }

  function OptionParts(p: Option<Part>): seq<Part> {
    if p.Some? then [p.value] else []
  }

  function PartsOf(cs: seq<Candidate>): seq<Part> {
    seq(|cs|, i requires 0 <= i < |cs| => cs[i].part)
  }

  // Everything a selection shows.
  function Used(s: Selection): seq<Part> {
    OptionParts(s.text) + OptionParts(s.html) + PartsOf(s.attachments)
  }

  // Neither part is the other or lies inside it.
  predicate Separate(a: Part, b: Part) {
    !(a.path <= b.path) && !(b.path <= a.path)
  }

  predicate Apart(ps: seq<Part>) {
    forall i, j :: 0 <= i < j < |ps| ==> Separate(ps[i], ps[j])
  }

  predicate AllUnder(path: seq<nat>, ps: seq<Part>) {
    forall p :: p in ps ==> path <= p.path
  }

  // A part below one of the first n children, but not below child `skip`.
  predicate BelowOther(part: Part, n: nat, skip: nat, p: Part) {
    exists k :: 0 <= k < n && k < |part.children| && k != skip && part.children[k].path <= p.path
  }

  lemma {:induction false} SiblingsSeparate(part: Part, i: nat, j: nat, a: Part, b: Part)
    requires Addressed(part) && i < |part.children| && j < |part.children| && i != j
    requires part.children[i].path <= a.path && part.children[j].path <= b.path
    ensures Separate(a, b)
  {
    var d := |part.path|;
    assert part.children[i].path[d] == a.path[d] == i + 1;
    assert part.children[j].path[d] == b.path[d] == j + 1;
  }

  lemma {:induction false} ApartConcat(a: seq<Part>, b: seq<Part>)
    requires Apart(a) && Apart(b) && forall x, y :: x in a && y in b ==> Separate(x, y)
    ensures Apart(a + b)
  {
    var c := a + b;
    forall i, j | 0 <= i < j < |c| ensures Separate(c[i], c[j]) {
      if i < |a| && |a| <= j {
        assert c[i] in a && c[j] in b;
      }
    }
  }

  // The leaves of a tree, an encapsulated message counting as one.
  function Units(part: Part): seq<Part>
    decreases part, 1
  {
    if IsEncapsulated(part.mediaType) || part.children == [] then [part]
    else UnitsOf(part.children, |part.children|, |part.children|)
  }

  function UnitsOf(parts: seq<Part>, n: nat, skip: nat): seq<Part>
    requires n <= |parts|
    decreases parts, 0, n
  {
    if n == 0 then [] else UnitsOf(parts, n - 1, skip) + if n - 1 == skip then [] else Units(parts[n - 1])
  }

  lemma {:induction false} AttachmentsAreUnits(found: seq<Candidate>, part: Part, selectedRelated: bool)
    ensures PartsOf(Attachments(found, part, selectedRelated)) == PartsOf(found) + Units(part)
    decreases part, 1
  {
    if !IsEncapsulated(part.mediaType) && part.children != [] {
      AttachmentsOfAreUnits(found, part.children, |part.children|, |part.children|, selectedRelated);
    }
  }

  lemma {:induction false} AttachmentsOfAreUnits(found: seq<Candidate>, parts: seq<Part>, n: nat, skip: nat,
                                                 selectedRelated: bool)
    requires n <= |parts|
    ensures PartsOf(AttachmentsOf(found, parts, n, skip, selectedRelated)) == PartsOf(found) + UnitsOf(parts, n, skip)
    decreases parts, 0, n
  {
    if n > 0 {
      AttachmentsOfAreUnits(found, parts, n - 1, skip, selectedRelated);
      if n - 1 != skip {
        AttachmentsAreUnits(AttachmentsOf(found, parts, n - 1, skip, selectedRelated), parts[n - 1], selectedRelated);
      }
    }
  }

  lemma {:induction false} UnitsApart(part: Part)
    requires Addressed(part)
    ensures Apart(Units(part)) && AllUnder(part.path, Units(part))
    decreases part, 1
  {
    if !IsEncapsulated(part.mediaType) && part.children != [] {
      UnitsOfApart(part, |part.children|, |part.children|);
    }
  }

  lemma {:induction false} UnitsOfApart(part: Part, n: nat, skip: nat)
    requires Addressed(part) && n <= |part.children|
    ensures var us := UnitsOf(part.children, n, skip);
      && Apart(us) && AllUnder(part.path, us) && forall u :: u in us ==> BelowOther(part, n, skip, u)
    decreases part, 0, n
  {
    if n > 0 {
      UnitsOfApart(part, n - 1, skip);
      if n - 1 != skip {
        UnitsApart(part.children[n - 1]);
        GrowApart(part, UnitsOf(part.children, n - 1, skip), n, skip, Units(part.children[n - 1]));
      } else {
        assert UnitsOf(part.children, n, skip) == UnitsOf(part.children, n - 1, skip) + [];
        forall u | u in UnitsOf(part.children, n, skip) ensures BelowOther(part, n, skip, u) {
          assert BelowOther(part, n - 1, skip, u);
        }
      }
    }
  }

  // Parts of the earlier children, then parts of the next one.
  lemma {:induction false} GrowApart(part: Part, before: seq<Part>, n: nat, skip: nat, more: seq<Part>)
    requires Addressed(part) && 0 < n <= |part.children| && n - 1 != skip
    requires Apart(before) && Apart(more) && AllUnder(part.children[n - 1].path, more) && AllUnder(part.path, before)
    requires forall u :: u in before ==> BelowOther(part, n - 1, skip, u)
    ensures Apart(before + more) && AllUnder(part.path, before + more)
    ensures forall u :: u in before + more ==> BelowOther(part, n, skip, u)
  {
    forall x, y | x in before && y in more ensures Separate(x, y) {
      assert BelowOther(part, n - 1, skip, x);
      var k :| 0 <= k < n - 1 && k != skip && part.children[k].path <= x.path;
      SiblingsSeparate(part, k, n - 1, x, y);
    }
    ApartConcat(before, more);
    forall u | u in before + more ensures BelowOther(part, n, skip, u) && part.path <= u.path {
      if u in before {
        assert BelowOther(part, n - 1, skip, u);
      } else {
        assert part.children[n - 1].path <= u.path;
      }
    }
  }

  // p is a leaf of the tree.
  predicate LeafIn(part: Part, p: Part) {
    if part.children == [] then p == part else exists i :: 0 <= i < |part.children| && LeafIn(part.children[i], p)
  }

  lemma {:induction false} LeafUnder(part: Part, p: Part)
    requires Addressed(part) && LeafIn(part, p)
    ensures part.path <= p.path && p.children == []
    decreases part
  {
    if part.children != [] {
      var i :| 0 <= i < |part.children| && LeafIn(part.children[i], p);
      LeafUnder(part.children[i], p);
    }
  }

  lemma {:induction false} LeavesSeparate(part: Part, a: Part, b: Part)
    requires Addressed(part) && LeafIn(part, a) && LeafIn(part, b) && a != b
    ensures Separate(a, b)
    decreases part
  {
    var i :| 0 <= i < |part.children| && LeafIn(part.children[i], a);
    var j :| 0 <= j < |part.children| && LeafIn(part.children[j], b);
    if i == j {
      LeavesSeparate(part.children[i], a, b);
    } else {
      LeafUnder(part.children[i], a);
      LeafUnder(part.children[j], b);
      SiblingsSeparate(part, i, j, a, b);
    }
  }

  // Calendars adds to what is attached some calendar leaves of the part.
  ghost predicate AddsCalendars(part: Part, found: seq<Candidate>, after: seq<Candidate>) {
    && found <= after
    && Apart(PartsOf(after[|found|..]))
    && forall p :: p in PartsOf(after[|found|..]) ==> LeafIn(part, p) && IsCalendarLeaf(p)
  }

  lemma {:induction false} CalendarsAdd(found: seq<Candidate>, part: Part)
    requires Addressed(part)
    ensures AddsCalendars(part, found, Calendars(found, part))
    decreases part, 1
  {
    if part.children != [] {
      CalendarsOfAdd(found, part, |part.children|, |part.children|);
      var after := Calendars(found, part);
      forall p | p in PartsOf(after[|found|..]) ensures LeafIn(part, p) {
        assert LeafBelow(part, |part.children|, |part.children|, p);
        var k :| 0 <= k < |part.children| && LeafIn(part.children[k], p);
      }
    }
  }

  predicate LeafBelow(part: Part, n: nat, skip: nat, p: Part) {
    exists k :: 0 <= k < n && k < |part.children| && k != skip && LeafIn(part.children[k], p)
  }

  lemma {:induction false} CalendarsOfAdd(found: seq<Candidate>, part: Part, n: nat, skip: nat)
    requires Addressed(part) && n <= |part.children|
    ensures var after := CalendarsOf(found, part.children, n, skip);
      && found <= after && Apart(PartsOf(after[|found|..]))
      && forall p :: p in PartsOf(after[|found|..]) ==> LeafBelow(part, n, skip, p) && IsCalendarLeaf(p)
    decreases part, 0, n
  {
    if n > 0 {
      CalendarsOfAdd(found, part, n - 1, skip);
      var before, after := CalendarsOf(found, part.children, n - 1, skip), CalendarsOf(found, part.children, n, skip);
      if n - 1 != skip {
        CalendarsAdd(before, part.children[n - 1]);
        GrowCalendars(part, n, skip, found, before, after);
      } else {
        forall p | p in PartsOf(after[|found|..]) ensures LeafBelow(part, n, skip, p) {
          assert LeafBelow(part, n - 1, skip, p);
        }
      }
    }
  }

  lemma {:induction false} GrowCalendars(part: Part, n: nat, skip: nat, found: seq<Candidate>, before: seq<Candidate>,
                                         after: seq<Candidate>)
    requires Addressed(part) && 0 < n <= |part.children| && n - 1 != skip
    requires found <= before && Apart(PartsOf(before[|found|..]))
    requires forall p :: p in PartsOf(before[|found|..]) ==> LeafBelow(part, n - 1, skip, p) && IsCalendarLeaf(p)
    requires AddsCalendars(part.children[n - 1], before, after)
    ensures found <= after && Apart(PartsOf(after[|found|..]))
    ensures forall p :: p in PartsOf(after[|found|..]) ==> LeafBelow(part, n, skip, p) && IsCalendarLeaf(p)
  {
    var a, b := PartsOf(before[|found|..]), PartsOf(after[|before|..]);
    assert PartsOf(after[|found|..]) == a + b;
    forall x, y | x in a && y in b ensures Separate(x, y) {
      assert LeafBelow(part, n - 1, skip, x);
      var k :| 0 <= k < n - 1 && k != skip && LeafIn(part.children[k], x);
      LeafUnder(part.children[k], x);
      LeafUnder(part.children[n - 1], y);
      SiblingsSeparate(part, k, n - 1, x, y);
    }
    ApartConcat(a, b);
    forall p | p in a + b ensures LeafBelow(part, n, skip, p) && IsCalendarLeaf(p) {
      if p in a {
        assert LeafBelow(part, n - 1, skip, p);
      } else {
        assert LeafIn(part.children[n - 1], p);
      }
    }
  }

  // The chosen bodies are displayable leaves, never calendars.
  predicate Body(part: Part, p: Part, mediaType: string) {
    LeafIn(part, p) && p.mediaType == mediaType && p.Filename() == ""
  }

  ghost predicate Shown(part: Part, s: Selection) {
    && Apart(Used(s)) && AllUnder(part.path, Used(s))
    && (s.text.Some? ==> Body(part, s.text.value, "text/plain"))
    && (s.html.Some? ==> Body(part, s.html.value, "text/html"))
    && (!s.supported ==> s.text == None && s.html == None)
  }

  // Nothing is shown twice: no part occurs twice among text, HTML and attachments, and none lies inside another.
  lemma {:induction false} ShownOnce(part: Part)
    requires Addressed(part)
    ensures Shown(part, Select(part))
    decreases part
  {
    if part.children == [] {
      LeafShown(part);
    } else if !IsEncapsulated(part.mediaType) {
      hide Shown, Alternative, Related, Mixed, Addressed;
      var choices := SelectAll(part.children);
      forall i | 0 <= i < |part.children| ensures Shown(part.children[i], choices[i]) {
        AddressedChild(part, i);
        ShownOnce(part.children[i]);
      }
      if part.mediaType == "multipart/alternative" {
        AlternativeShown(part, choices);
      } else if part.mediaType == "multipart/related" {
        RelatedShown(part, choices);
      } else {
        MixedShown(part, choices);
      }
    }
  }

  lemma {:induction false} AddressedChild(part: Part, i: nat)
    requires Addressed(part) && i < |part.children|
    ensures Addressed(part.children[i])
  {
  }

  lemma {:induction false} LeafShown(part: Part)
    requires part.children == []
    ensures Shown(part, SelectLeaf(part))
  {
  }

  // Adding parts of the other children to the choice of child i.
  lemma {:induction false} ChoiceWithOthers(part: Part, i: nat, chosen: Selection, more: seq<Candidate>)
    requires Addressed(part) && i < |part.children| && Shown(part.children[i], chosen) && chosen.supported
    requires Apart(PartsOf(more)) && forall p :: p in PartsOf(more) ==> BelowOther(part, |part.children|, i, p)
    ensures Shown(part, chosen.(attachments := chosen.attachments + more))
  {
    var s := chosen.(attachments := chosen.attachments + more);
    UsedMore(chosen, more);
    forall x, y | x in Used(chosen) && y in PartsOf(more) ensures Separate(x, y) {
      assert BelowOther(part, |part.children|, i, y);
      var k :| 0 <= k < |part.children| && k != i && part.children[k].path <= y.path;
      SiblingsSeparate(part, i, k, x, y);
    }
    ApartConcat(Used(chosen), PartsOf(more));
    forall p | p in Used(s) ensures part.path <= p.path {
      if p in Used(chosen) {
        assert part.children[i].path <= p.path;
      } else {
        assert BelowOther(part, |part.children|, i, p);
      }
    }
  }

  lemma {:induction false} MixedShown(part: Part, choices: seq<Selection>)
    requires Addressed(part) && choices == SelectAll(part.children)
    requires forall i :: 0 <= i < |part.children| ==> Shown(part.children[i], choices[i])
    ensures Shown(part, Mixed(part, choices))
  {
    hide Shown, Select;
    var n := |part.children|;
    match FirstSupported(choices, 0)
    case None => OnlyAttachments(part, AttachmentsOf([], part.children, n, n, false), n);
    case Some(i) =>
      var more := AttachmentsOf([], part.children, n, i, false);
      OthersApart(part, i, false);
      ChoiceWithOthers(part, i, choices[i], more);
  }

  lemma {:induction false} OthersApart(part: Part, i: nat, selectedRelated: bool)
    requires Addressed(part)
    ensures var more := AttachmentsOf([], part.children, |part.children|, i, selectedRelated);
      Apart(PartsOf(more)) && forall p :: p in PartsOf(more) ==> BelowOther(part, |part.children|, i, p)
  {
    UnitsOfApart(part, |part.children|, i);
    AttachmentsOfAreUnits([], part.children, |part.children|, i, selectedRelated);
    assert PartsOf([]) + UnitsOf(part.children, |part.children|, i) == UnitsOf(part.children, |part.children|, i);
  }

  lemma {:induction false} OnlyAttachments(part: Part, more: seq<Candidate>, skip: nat)
    requires Addressed(part) && more == AttachmentsOf([], part.children, |part.children|, skip, false)
    ensures Shown(part, NOTHING.(attachments := more))
  {
    OthersApart(part, skip, false);
    assert Used(NOTHING.(attachments := more)) == PartsOf(more);
    forall p | p in PartsOf(more) ensures part.path <= p.path {
      assert BelowOther(part, |part.children|, skip, p);
    }
  }

  lemma {:induction false} AttachmentsExtend(found: seq<Candidate>, part: Part, selectedRelated: bool)
    ensures Attachments(found, part, selectedRelated) == found + Attachments([], part, selectedRelated)
    decreases part, 1
  {
    if !IsEncapsulated(part.mediaType) && part.children != [] {
      AttachmentsOfExtend(found, part.children, |part.children|, |part.children|, selectedRelated);
    }
  }

  lemma {:induction false} AttachmentsOfExtend(found: seq<Candidate>, parts: seq<Part>, n: nat, skip: nat,
                                               selectedRelated: bool)
    requires n <= |parts|
    ensures AttachmentsOf(found, parts, n, skip, selectedRelated) ==
      found + AttachmentsOf([], parts, n, skip, selectedRelated)
    decreases parts, 0, n
  {
    if n > 0 {
      AttachmentsOfExtend(found, parts, n - 1, skip, selectedRelated);
      if n - 1 != skip {
        var from, empty :=
          AttachmentsOf(found, parts, n - 1, skip, selectedRelated),
          AttachmentsOf([], parts, n - 1, skip, selectedRelated);
        AttachmentsExtend(from, parts[n - 1], selectedRelated);
        AttachmentsExtend(empty, parts[n - 1], selectedRelated);
      }
    }
  }

  lemma {:induction false} RelatedShown(part: Part, choices: seq<Selection>)
    requires Addressed(part) && choices == SelectAll(part.children)
    requires forall i :: 0 <= i < |part.children| ==> Shown(part.children[i], choices[i])
    ensures Shown(part, Related(part, choices))
  {
    var root := RelatedRoot(part);
    if root.Some? && choices[root.value].supported {
      var i := root.value;
      OthersApart(part, i, true);
      AttachmentsOfExtend(choices[i].attachments, part.children, |part.children|, i, true);
      ChoiceWithOthers(part, i, choices[i], AttachmentsOf([], part.children, |part.children|, i, true));
    }
  }

  // The stand-in text comes from the nearest earlier child that has one.
  lemma {:induction false} NearestPlainFrom(choices: seq<Selection>, n: nat) returns (j: nat)
    requires n <= |choices| && NearestPlain(choices, n).Some?
    ensures j < n && PlainText(choices[j]) && NearestPlain(choices, n) == choices[j].text
    ensures forall k :: j < k < n ==> !PlainText(choices[k])
  {
    if PlainText(choices[n - 1]) {
      j := n - 1;
    } else {
      j := NearestPlainFrom(choices, n - 1);
    }
  }

  lemma {:induction false} PlainIsNoCalendar(p: Part)
    requires p.mediaType == "text/plain" && p.Filename() == ""
    ensures !IsCalendarLeaf(p)
  {
    assert |Lower(p.mediaType)| == 10;
  }

  lemma {:induction false} AlternativeShown(part: Part, choices: seq<Selection>)
    requires Addressed(part) && part.children != [] && choices == SelectAll(part.children)
    requires forall i :: 0 <= i < |part.children| ==> Shown(part.children[i], choices[i])
    ensures Shown(part, Alternative(part, choices))
  {
    hide Select, Contains, Shown, Addressed, SelectAll;
    match LastSupported(choices, |part.children|)
    case None => OnlyCalendarsShown(part);
    case Some(i) => ChosenShown(part, choices, i);
  }

  // No alternative is supported: only the calendars below are kept.
  lemma {:induction false} OnlyCalendarsShown(part: Part)
    requires Addressed(part) && part.children != []
    ensures Shown(part, NOTHING.(attachments := CalendarsOf([], part.children, |part.children|, |part.children|)))
  {
    hide Select, Contains;
    var n := |part.children|;
    CalendarsOfAdd([], part, n, n);
    var cs := CalendarsOf([], part.children, n, n);
    assert cs[0..] == cs && Used(NOTHING.(attachments := cs)) == PartsOf(cs);
    CalendarsBelow(part, n, PartsOf(cs));
    forall p | p in PartsOf(cs) ensures part.path <= p.path {
      assert BelowOther(part, n, n, p);
    }
  }

  lemma {:induction false} ChosenShown(part: Part, choices: seq<Selection>, i: nat)
    requires Addressed(part) && choices == SelectAll(part.children) && i < |part.children|
    requires LastSupported(choices, |part.children|) == Some(i)
    requires forall k :: 0 <= k < |part.children| ==> Shown(part.children[k], choices[k])
    ensures Shown(part, Alternative(part, choices))
  {
    hide Select, Contains, Addressed, SelectAll;
    var n, chosen := |part.children|, choices[i];
    CalendarsOfAdd(chosen.attachments, part, n, i);
    var after := CalendarsOf(chosen.attachments, part.children, n, i);
    var more := after[|chosen.attachments|..];
    assert after == chosen.attachments + more;
    CalendarsBelow(part, i, PartsOf(more));
    ChoiceWithOthers(part, i, chosen, more);
    var fallback := NearestPlain(choices, i);
    if chosen.html.Some? && chosen.text.None? && fallback.Some? {
      var j := NearestPlainFrom(choices, i);
      FallbackShown(part, i, j, chosen.(attachments := after), fallback.value, chosen, more);
    }
  }

  lemma {:induction false} CalendarsBelow(part: Part, skip: nat, ps: seq<Part>)
    requires Addressed(part) && forall p :: p in ps ==> LeafBelow(part, |part.children|, skip, p)
    ensures forall p :: p in ps ==> BelowOther(part, |part.children|, skip, p)
  {
    forall p | p in ps ensures BelowOther(part, |part.children|, skip, p) {
      assert LeafBelow(part, |part.children|, skip, p);
      var k :| 0 <= k < |part.children| && k != skip && LeafIn(part.children[k], p);
      LeafUnder(part.children[k], p);
    }
  }

  lemma {:induction false} CalendarApart(part: Part, i: nat, j: nat, text: Part, p: Part)
    requires Addressed(part) && j < |part.children| && Body(part.children[j], text, "text/plain")
    requires LeafBelow(part, |part.children|, i, p) && IsCalendarLeaf(p)
    ensures Separate(text, p)
  {
    PlainIsNoCalendar(text);
    hide IsCalendarLeaf;
    LeafUnder(part.children[j], text);
    var k :| 0 <= k < |part.children| && LeafIn(part.children[k], p);
    if k == j {
      LeavesSeparate(part.children[j], text, p);
    } else {
      LeafUnder(part.children[k], p);
      SiblingsSeparate(part, j, k, text, p);
    }
  }

  // A stand-in text is no part of the choice, and no calendar of its own child.
  lemma {:induction false} FallbackShown(part: Part, i: nat, j: nat, s: Selection, text: Part, chosen: Selection,
                                         more: seq<Candidate>)
    requires Addressed(part) && j < i < |part.children| && Shown(part, s) && s.text.None? && s.supported
    requires s.attachments == chosen.attachments + more && s.html == chosen.html && chosen.text.None?
    requires Shown(part.children[i], chosen) && Body(part.children[j], text, "text/plain")
    requires forall p :: p in PartsOf(more) ==> LeafBelow(part, |part.children|, i, p) && IsCalendarLeaf(p)
    ensures Shown(part, s.(text := Some(text)))
  {
    hide IsCalendarLeaf;
    LeafUnder(part.children[j], text);
    forall p | p in Used(s) ensures Separate(text, p) {
      if p in PartsOf(more) {
        CalendarApart(part, i, j, text, p);
      } else {
        UsedMore(chosen, more);
        assert p in Used(chosen);
        SiblingsSeparate(part, j, i, text, p);
      }
      hide Addressed, LeafIn;
    }
    ApartConcat([text], Used(s));
    assert Used(s.(text := Some(text))) == [text] + Used(s);
    assert LeafIn(part, text);
  }

  predicate NoAlternative(part: Part) {
    (part.children != [] ==> part.mediaType != "multipart/alternative")
      && forall c :: c in part.children ==> NoAlternative(c)
  }

  lemma {:induction false} UnitsSkip(parts: seq<Part>, n: nat, i: nat)
    requires i < |parts| && n <= |parts|
    ensures multiset(UnitsOf(parts, n, |parts|)) == multiset(UnitsOf(parts, n, i)) +
      if i < n then multiset(Units(parts[i])) else multiset{}
  {
    hide Units;
    if n > 0 {
      UnitsSkip(parts, n - 1, i);
      var all, others, last := UnitsOf(parts, n - 1, |parts|), UnitsOf(parts, n - 1, i), Units(parts[n - 1]);
      assert UnitsOf(parts, n, |parts|) == all + last;
      assert UnitsOf(parts, n, i) == if n - 1 == i then others + [] else others + last;
      assert others + [] == others;
    }
  }

  // Nothing is lost: in a supported tree without alternatives every leaf is shown, exactly once.
  lemma {:induction false} EveryLeafShown(part: Part)
    requires NoAlternative(part) && Select(part).supported
    ensures multiset(Used(Select(part))) == multiset(Units(part))
    decreases part
  {
    if part.children == [] {
      assert Used(Select(part)) == [part];
    } else {
      var choices := SelectAll(part.children);
      var related := part.mediaType == "multipart/related";
      var i := if related then RelatedRoot(part).value else FirstSupported(choices, 0).value;
      assert part.children[i] in part.children;
      EveryLeafShown(part.children[i]);
      ConservedWithOthers(part, i, related);
    }
  }

  lemma {:induction false} ConservedWithOthers(part: Part, i: nat, related: bool)
    requires i < |part.children| && !IsEncapsulated(part.mediaType)
    requires multiset(Used(Select(part.children[i]))) == multiset(Units(part.children[i]))
    ensures var chosen, n := Select(part.children[i]), |part.children|;
      var more := AttachmentsOf([], part.children, n, i, related);
      && multiset(Used(chosen.(attachments := chosen.attachments + more))) == multiset(Units(part))
      && AttachmentsOf(chosen.attachments, part.children, n, i, related) == chosen.attachments + more
  {
    var chosen, n := Select(part.children[i]), |part.children|;
    assert Units(part) == UnitsOf(part.children, n, n);
    hide Select, Units, UnitsOf, AttachmentsOf, Used, PartsOf;
    var more := AttachmentsOf([], part.children, n, i, related);
    AttachmentsOfExtend(chosen.attachments, part.children, n, i, related);
    AttachmentsOfAreUnits([], part.children, n, i, related);
    NoParts(UnitsOf(part.children, n, i));
    UsedMore(chosen, more);
    UnitsSkip(part.children, n, i);
  }

  lemma {:induction false} NoParts(ps: seq<Part>)
    ensures PartsOf([]) + ps == ps
  {
  }

  lemma {:induction false} UsedMore(s: Selection, more: seq<Candidate>)
    ensures Used(s.(attachments := s.attachments + more)) == Used(s) + PartsOf(more)
  {
  }

  // An alternative takes its last supported child; a lone HTML body borrows the text of the nearest earlier
  // text-only child.
  lemma {:induction false} AlternativeTakesLast(part: Part, i: nat)
    requires part.children != [] && part.mediaType == "multipart/alternative" && i < |part.children|
    requires var choices := SelectAll(part.children);
      choices[i].supported && forall k :: i < k < |choices| ==> !choices[k].supported
    ensures var s, choices := Select(part), SelectAll(part.children);
      var chosen := choices[i];
      && s.supported && s.html == chosen.html && chosen.attachments <= s.attachments
      && (chosen.text.Some? || chosen.html.None? ==> s.text == chosen.text)
      && (chosen.text.None? && chosen.html.Some? ==> Borrowed(choices, i, s.text))
  {
    var choices := SelectAll(part.children);
    assert Select(part) == Alternative(part, choices);
    hide Select, SelectAll, Calendars, CalendarsOf, Borrowed;
    assert LastSupported(choices, |choices|) == Some(i) by {
      LastIs(choices, |choices|, i);
    }
    CalendarsExtend(choices[i].attachments, part.children, |part.children|, i);
    NearestIsBorrowed(choices, i);
  }

  // The text of the nearest text-only choice before i, or none if there is none.
  ghost predicate Borrowed(choices: seq<Selection>, i: nat, text: Option<Part>)
    requires i <= |choices|
  {
    if text.Some? then
      exists j :: 0 <= j < i && PlainText(choices[j]) && text == choices[j].text
        && forall k :: j < k < i ==> !PlainText(choices[k])
    else forall k :: 0 <= k < i ==> !PlainText(choices[k])
  }

  lemma {:induction false} NearestIsBorrowed(choices: seq<Selection>, i: nat)
    requires i <= |choices|
    ensures Borrowed(choices, i, NearestPlain(choices, i))
  {
    if NearestPlain(choices, i).Some? {
      var j := NearestPlainFrom(choices, i);
      assert PlainText(choices[j]);
    } else {
      NoPlain(choices, i);
    }
  }

  lemma {:induction false} LastIs(choices: seq<Selection>, n: nat, i: nat)
    requires i < n <= |choices| && choices[i].supported && forall k :: i < k < n ==> !choices[k].supported
    ensures LastSupported(choices, n) == Some(i)
  {
    if n > i + 1 {
      LastIs(choices, n - 1, i);
    }
  }

  lemma {:induction false} NoPlain(choices: seq<Selection>, n: nat)
    requires n <= |choices| && NearestPlain(choices, n).None?
    ensures forall k :: 0 <= k < n ==> !PlainText(choices[k])
  {
    if n > 0 {
      NoPlain(choices, n - 1);
    }
  }

  lemma {:induction false} CalendarsExtend(found: seq<Candidate>, parts: seq<Part>, n: nat, skip: nat)
    requires n <= |parts|
    ensures found <= CalendarsOf(found, parts, n, skip)
    decreases parts, 0, n
  {
    if n > 0 {
      CalendarsExtend(found, parts, n - 1, skip);
      if n - 1 != skip {
        CalendarsExtendOne(CalendarsOf(found, parts, n - 1, skip), parts[n - 1]);
      }
    }
  }

  lemma {:induction false} CalendarsExtendOne(found: seq<Candidate>, part: Part)
    ensures found <= Calendars(found, part)
    decreases part, 1
  {
    if part.children != [] {
      CalendarsExtend(found, part.children, |part.children|, |part.children|);
    }
  }

  // A calendar that is attached, or whose equal is.
  ghost predicate Held(found: seq<Candidate>, p: Part) {
    exists i :: 0 <= i < |found| && SameCalendar(found[i].part, p)
  }

  lemma {:induction false} HeldStays(found: seq<Candidate>, after: seq<Candidate>, p: Part)
    requires found <= after && Held(found, p)
    ensures Held(after, p)
  {
    var i :| 0 <= i < |found| && SameCalendar(found[i].part, p);
    assert after[i] == found[i];
  }

  // Every calendar leaf is collected, or an equal one is there already.
  lemma {:induction false} CalendarsHold(found: seq<Candidate>, part: Part, p: Part)
    requires LeafIn(part, p) && IsCalendarLeaf(p)
    ensures Held(Calendars(found, part), p)
    decreases part, 1
  {
    if part.children != [] {
      var j :| 0 <= j < |part.children| && LeafIn(part.children[j], p);
      CalendarsOfHold(found, part.children, |part.children|, |part.children|, j, p);
    } else {
      hide IsCalendarLeaf;
      var after := Calendars(found, part);
      if exists c :: c in found && SameCalendar(c.part, part) {
        var c :| c in found && SameCalendar(c.part, part);
        var i :| 0 <= i < |found| && found[i] == c;
        assert SameCalendar(after[i].part, p);
      } else {
        assert SameCalendar(after[|found|].part, p);
      }
    }
  }

  lemma {:induction false} CalendarsOfHold(found: seq<Candidate>, parts: seq<Part>, n: nat, skip: nat, j: nat, p: Part)
    requires j < n <= |parts| && j != skip && LeafIn(parts[j], p) && IsCalendarLeaf(p)
    ensures Held(CalendarsOf(found, parts, n, skip), p)
    decreases parts, 0, n
  {
    hide IsCalendarLeaf, Calendars, Held, LeafIn;
    var before := CalendarsOf(found, parts, n - 1, skip);
    if j == n - 1 {
      CalendarsHold(before, parts[j], p);
    } else {
      CalendarsOfHold(found, parts, n - 1, skip, j, p);
      if n - 1 != skip {
        CalendarsExtendOne(before, parts[n - 1]);
        HeldStays(before, Calendars(before, parts[n - 1]), p);
      }
    }
  }

  // What was added to what was found: calendar leaves, none equal to one before it.
  ghost predicate AddedOnce(found: seq<Candidate>, after: seq<Candidate>) {
    && found <= after
    && (forall k :: |found| <= k < |after| ==> IsCalendarLeaf(after[k].part) && after[k].part.children == [])
    && (forall i, k :: 0 <= i < k < |after| && |found| <= k ==> !SameCalendar(after[i].part, after[k].part))
  }

  lemma {:induction false} AddedTwice(found: seq<Candidate>, mid: seq<Candidate>, after: seq<Candidate>)
    requires AddedOnce(found, mid) && AddedOnce(mid, after)
    ensures AddedOnce(found, after)
  {
    hide IsCalendarLeaf, SameCalendar;
    assert forall k :: 0 <= k < |mid| ==> after[k] == mid[k];
  }

  lemma {:induction false} CalendarsAddOnce(found: seq<Candidate>, part: Part)
    ensures AddedOnce(found, Calendars(found, part))
    decreases part, 1
  {
    if part.children != [] {
      CalendarsOfAddOnce(found, part.children, |part.children|, |part.children|);
    } else {
      hide IsCalendarLeaf, SameCalendar;
      assert forall i :: 0 <= i < |found| ==> found[i] in found;
    }
  }

  lemma {:induction false} CalendarsOfAddOnce(found: seq<Candidate>, parts: seq<Part>, n: nat, skip: nat)
    requires n <= |parts|
    ensures AddedOnce(found, CalendarsOf(found, parts, n, skip))
    decreases parts, 0, n
  {
    if n > 0 {
      var before := CalendarsOf(found, parts, n - 1, skip);
      CalendarsOfAddOnce(found, parts, n - 1, skip);
      if n - 1 != skip {
        CalendarsAddOnce(before, parts[n - 1]);
        AddedTwice(found, before, Calendars(before, parts[n - 1]));
      }
      hide AddedOnce, Calendars;
    }
  }

  // The child an alternative takes, or none: one past the last.
  function Taken(part: Part): (i: nat)
    ensures i <= |part.children|
  {
    match LastSupported(SelectAll(part.children), |part.children|) case None => |part.children| case Some(i) => i
  }

  // No calendar of a child that was not taken is lost, and none is attached twice.
  lemma {:induction false} AlternativeKeepsCalendars(part: Part, j: nat, p: Part)
    requires part.children != [] && part.mediaType == "multipart/alternative"
    requires j < |part.children| && j != Taken(part) && LeafIn(part.children[j], p) && IsCalendarLeaf(p)
    ensures var s, i := Select(part), Taken(part);
      && Held(s.attachments, p)
      && AddedOnce(if i < |part.children| then Select(part.children[i]).attachments else [], s.attachments)
  {
    var choices, n, i := SelectAll(part.children), |part.children|, Taken(part);
    assert Select(part) == Alternative(part, choices);
    var found := if i < n then Select(part.children[i]).attachments else [];
    hide Select, SelectAll, Calendars, CalendarsOf, Held, AddedOnce, IsCalendarLeaf, LeafIn;
    assert Alternative(part, choices).attachments == CalendarsOf(found, part.children, n, i);
    CalendarsOfHold(found, part.children, n, i, j, p);
    CalendarsOfAddOnce(found, part.children, n, i);
  }
}
