/** Choosing what of a MIME tree to show (internal/mimeparse/presentation.go; section 5.1 of RFC 2046). */
module Presentation {
  import opened Text

  // A parsed part. `path` numbers children from 1 below their parent, as the parser assigns it.
  datatype Part = Part(
    path: seq<nat>, mediaType: string, startParameter: string, contentId: string,
    disposition: string, dispositionFilename: string, typeName: string,
    malformedType: bool, unknownEncoding: bool, body: string, children: seq<Part>)
  {
    function Filename(): string {
      if dispositionFilename != "" then dispositionFilename else typeName
    }
  }

  datatype Candidate = Candidate(part: Part, exposeContentId: bool)

  datatype Selection = Selection(text: Option<Part>, html: Option<Part>, attachments: seq<Candidate>, supported: bool)

  const NOTHING := Selection(None, None, [], false)

  function TrimAngles(s: string): string {
    if s != "" && (s[0] == '<' || s[0] == '>') then TrimAngles(s[1..])
    else if s != "" && (s[|s| - 1] == '<' || s[|s| - 1] == '>') then TrimAngles(s[..|s| - 1])
    else s
  }

  function NormalizeContentId(value: string): string {
    var trimmed := Trim(value);
    TrimAngles(Trim(if |trimmed| >= 4 && Lower(trimmed[..4]) == "cid:" then trimmed[4..] else trimmed))
  }

  predicate IsCalendar(contentType: string, filename: string) {
    || Contains(Lower(contentType), "text/calendar") || Contains(Lower(contentType), "application/ics")
    || (|filename| >= 4 && Lower(filename)[|filename| - 4..] == ".ics")
  }

  predicate IsCalendarLeaf(part: Part) {
    !part.malformedType && !part.unknownEncoding && IsCalendar(part.mediaType, part.Filename())
  }

  function SelectLeaf(part: Part): Selection {
    var isAttachment := Lower(part.disposition) == "attachment" || part.Filename() != "";
    if part.malformedType || part.unknownEncoding || isAttachment then NOTHING
    else if part.mediaType == "text/plain" then Selection(Some(part), None, [], true)
    else if part.mediaType == "text/html" then Selection(None, Some(part), [], true)
    else NOTHING
  }

  function Select(part: Part): Selection
    decreases part, 1
  {
    if |part.children| == 0 then SelectLeaf(part)
    else if IsEncapsulated(part.mediaType) then NOTHING
    else if part.mediaType == "multipart/alternative" then Alternative(part, SelectAll(part.children))
    else if part.mediaType == "multipart/related" then Related(part, SelectAll(part.children))
    else Mixed(part, SelectAll(part.children))
  }

  function SelectAll(parts: seq<Part>): (r: seq<Selection>)
    ensures |r| == |parts|
    ensures forall i :: 0 <= i < |parts| ==> r[i] == Select(parts[i])
    decreases parts, 0
  {
    if parts == [] then [] else [Select(parts[0])] + SelectAll(parts[1..])
  }

  // The last supported choice among the first n.
  function LastSupported(choices: seq<Selection>, n: nat): (r: Option<nat>)
    requires n <= |choices|
    ensures r.Some? ==>
      r.value < n && choices[r.value].supported && forall i :: r.value < i < n ==> !choices[i].supported
    ensures r.None? ==> forall i :: 0 <= i < n ==> !choices[i].supported
  {
    if n == 0 then None
    else if choices[n - 1].supported then Some(n - 1)
    else LastSupported(choices, n - 1)
  }

  // A supported choice with text and no HTML can stand in as the text of a later one.
  predicate PlainText(choice: Selection) {
    choice.supported && choice.text.Some? && choice.html.None?
  }

  // The nearest text-only choice among the first n.
  function NearestPlain(choices: seq<Selection>, n: nat): Option<Part>
    requires n <= |choices|
  {
    if n == 0 then None else if PlainText(choices[n - 1]) then choices[n - 1].text else NearestPlain(choices, n - 1)
  }

  // The first supported choice from n on.
  function FirstSupported(choices: seq<Selection>, n: nat): (r: Option<nat>)
    requires n <= |choices|
    ensures r.Some? ==>
      n <= r.value < |choices| && choices[r.value].supported && forall i :: n <= i < r.value ==> !choices[i].supported
    ensures r.None? ==> forall i :: n <= i < |choices| ==> !choices[i].supported
    decreases |choices| - n
  {
    if n == |choices| then None else if choices[n].supported then Some(n) else FirstSupported(choices, n + 1)
  }

  function Alternative(part: Part, choices: seq<Selection>): Selection
    requires |choices| == |part.children|
  {
    match LastSupported(choices, |choices|)
    case None => NOTHING.(attachments := CalendarsOf([], part.children, |part.children|, |part.children|))
    case Some(i) =>
      var chosen := choices[i];
      chosen.(
        text := if chosen.html.Some? && chosen.text.None? then NearestPlain(choices, i) else chosen.text,
        attachments := CalendarsOf(chosen.attachments, part.children, |part.children|, i))
  }

  function Mixed(part: Part, choices: seq<Selection>): Selection
    requires |choices| == |part.children|
  {
    match FirstSupported(choices, 0)
    case None => NOTHING.(attachments := AttachmentsOf([], part.children, |part.children|, |part.children|, false))
    case Some(i) =>
      choices[i].(attachments := choices[i].attachments + AttachmentsOf([], part.children, |part.children|, i, false))
  }

  // The root of a multipart/related: the child that the start parameter names, or the first.
  function RelatedRoot(part: Part): (r: Option<nat>)
    ensures r.Some? ==> r.value < |part.children|
  {
    var start := NormalizeContentId(part.startParameter);
    if part.children == [] then None
    else if start == "" then Some(0)
    else FindContentId(part.children, start, 0)
  }

  function FindContentId(parts: seq<Part>, id: string, i: nat): (r: Option<nat>)
    requires i <= |parts|
    ensures r.Some? ==> r.value < |parts|
    decreases |parts| - i
  {
    if i == |parts| then None
    else if NormalizeContentId(parts[i].contentId) == id then Some(i)
    else FindContentId(parts, id, i + 1)
  }

  function Related(part: Part, choices: seq<Selection>): Selection
    requires |choices| == |part.children|
  {
    match RelatedRoot(part)
    case None => NOTHING
    case Some(i) =>
      if !choices[i].supported then NOTHING
      else choices[i].(attachments := AttachmentsOf(choices[i].attachments, part.children, |part.children|, i, true))
  }

  // appendAttachments: every leaf, an encapsulated message counting as one.
  function Attachments(found: seq<Candidate>, part: Part, selectedRelated: bool): seq<Candidate>
    decreases part, 1
  {
    if IsEncapsulated(part.mediaType) then found + [Candidate(part, selectedRelated)]
    else if part.children != []
      then AttachmentsOf(found, part.children, |part.children|, |part.children|, selectedRelated)
    else found + [Candidate(part, selectedRelated || Lower(part.disposition) == "inline")]
  }

  // ... of the first n children but one.
  function AttachmentsOf(found: seq<Candidate>, parts: seq<Part>, n: nat, skip: nat,
                         selectedRelated: bool): seq<Candidate>
    requires n <= |parts|
    decreases parts, 0, n
  {
    if n == 0 then found
    else
      var before := AttachmentsOf(found, parts, n - 1, skip, selectedRelated);
      if n - 1 == skip then before else Attachments(before, parts[n - 1], selectedRelated)
  }

  predicate SameCalendar(a: Part, b: Part) {
    a.Filename() == b.Filename() && a.mediaType == b.mediaType && a.body == b.body
  }

  // appendCalendarAttachments: calendar leaves, unless an equal one is already attached.
  function Calendars(found: seq<Candidate>, part: Part): seq<Candidate>
    decreases part, 1
  {
    if part.children != [] then CalendarsOf(found, part.children, |part.children|, |part.children|)
    else if !IsCalendarLeaf(part) || exists c :: c in found && SameCalendar(c.part, part) then found
    else found + [Candidate(part, false)]
  }

  function CalendarsOf(found: seq<Candidate>, parts: seq<Part>, n: nat, skip: nat): seq<Candidate>
    requires n <= |parts|
    decreases parts, 0, n
  {
    if n == 0 then found
    else
      var before := CalendarsOf(found, parts, n - 1, skip);
      if n - 1 == skip then before else Calendars(before, parts[n - 1])
  }

  // selectPresentation, with its loops.
  method SelectPresentation(part: Part) returns (selected: Selection)
    ensures selected == Select(part)
    decreases part, 1
  {
    if |part.children| == 0 {
      selected := SelectLeaf(part);
    } else if IsEncapsulated(part.mediaType) {
      selected := NOTHING;
    } else if part.mediaType == "multipart/alternative" {
      selected := SelectAlternative(part);
    } else if part.mediaType == "multipart/related" {
      selected := SelectRelated(part);
    } else {
      selected := SelectMixed(part);
    }
  }

  method SelectAlternative(part: Part) returns (selected: Selection)
    ensures selected == Alternative(part, SelectAll(part.children))
    decreases part, 0
  {
    hide CalendarsOf, Select;
    ghost var choices := SelectAll(part.children);
    selected := NOTHING;
    var selectedIndex := |part.children|;
    var nearestPlainText, selectedFallback: Option<Part> := None, None;
    for index := 0 to |part.children|
      invariant nearestPlainText == NearestPlain(choices, index)
      invariant match LastSupported(choices, index)
        case None => selected == NOTHING && selectedIndex == |part.children|
        case Some(i) => selected == choices[i] && selectedIndex == i && selectedFallback == NearestPlain(choices, i)
    {
      var candidate := SelectPresentation(part.children[index]);
      if candidate.supported {
        selected, selectedIndex, selectedFallback := candidate, index, nearestPlainText;
        if candidate.text.Some? && candidate.html.None? {
          nearestPlainText := candidate.text;
        }
      }
    }
    if selected.html.Some? && selected.text.None? {
      selected := selected.(text := selectedFallback);
    }
    var attachments := AppendCalendars(selected.attachments, part, selectedIndex);
    selected := selected.(attachments := attachments);
  }

  // The second loop: calendars of the children not chosen.
  method AppendCalendars(found: seq<Candidate>, part: Part, selectedIndex: nat) returns (attachments: seq<Candidate>)
    ensures attachments == CalendarsOf(found, part.children, |part.children|, selectedIndex)
  {
    attachments := found;
    for index := 0 to |part.children|
      invariant attachments == CalendarsOf(found, part.children, index, selectedIndex)
    {
      if index != selectedIndex {
        attachments := Calendars(attachments, part.children[index]);
      }
    }
  }

  method SelectMixed(part: Part) returns (selected: Selection)
    ensures selected == Mixed(part, SelectAll(part.children))
    decreases part, 0
  {
    hide Attachments, Select;
    ghost var choices := SelectAll(part.children);
    selected := NOTHING;
    var attachments: seq<Candidate> := [];
    ghost var skip := match FirstSupported(choices, 0) case None => |choices| case Some(i) => i;
    for index := 0 to |part.children|
      invariant selected == if skip < index then choices[skip] else NOTHING
      invariant attachments == AttachmentsOf([], part.children, index, skip, false)
    {
      var candidate := SelectPresentation(part.children[index]);
      if !selected.supported && candidate.supported {
        selected := candidate;
      } else {
        attachments := Attachments(attachments, part.children[index], false);
      }
    }
    selected := selected.(attachments := selected.attachments + attachments);
  }

  lemma {:induction false} FindStep(parts: seq<Part>, id: string, i: nat)
    requires i <= |parts|
    ensures FindContentId(parts, id, i) ==
      if i == |parts| then None else if NormalizeContentId(parts[i].contentId) == id then Some(i)
      else FindContentId(parts, id, i + 1)
  {
  }

  method SelectRelated(part: Part) returns (selected: Selection)
    ensures selected == Related(part, SelectAll(part.children))
    decreases part, 0
  {
    hide FindContentId, NormalizeContentId, Select;
    if |part.children| == 0 {
      return NOTHING;
    }
    var rootIndex := 0;
    var start := NormalizeContentId(part.startParameter);
    if start != "" {
      while rootIndex < |part.children| && NormalizeContentId(part.children[rootIndex].contentId) != start
        invariant rootIndex <= |part.children|
        invariant FindContentId(part.children, start, 0) == FindContentId(part.children, start, rootIndex)
      {
        FindStep(part.children, start, rootIndex);
        rootIndex := rootIndex + 1;
      }
      FindStep(part.children, start, rootIndex);
      if rootIndex == |part.children| {
        return NOTHING;
      }
    }
    assert RelatedRoot(part) == Some(rootIndex);
    hide RelatedRoot;
    selected := SelectPresentation(part.children[rootIndex]);
    if !selected.supported {
      return NOTHING;
    }
    ghost var chosen := selected;
    for index := 0 to |part.children|
      invariant selected ==
        chosen.(attachments := AttachmentsOf(chosen.attachments, part.children, index, rootIndex, true))
    {
      if index != rootIndex {
        selected := selected.(attachments := Attachments(selected.attachments, part.children[index], true));
      }
    }
  }
}
