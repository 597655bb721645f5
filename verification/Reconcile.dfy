/** Calendar reconciliation (applyCalendarEvents in internal/store/operations.go; sections 2.1.4 and 2.1.5 of RFC
    5546). */
module Reconcile {
  import opened Text
  import Calendar

  type Attendee = Calendar.Attendee

  datatype Contents = Contents(
    summary: Option<string>, description: Option<string>, location: Option<string>,
    organizerAddress: Option<string>, organizerName: Option<string>, start: int, end: Option<int>, allDay: bool)

  datatype Event = Event(
    method_: string, uid: string, sequence: int, contents: Contents, status: Option<string>, attendees: seq<Attendee>)

  // What an update replaces as a whole.
  datatype Data = Data(sequence: int, contents: Contents, status: string, attendees: seq<Attendee>)

  datatype Row = Row(mailbox: nat, uid: string, data: Data, lastMessage: nat, updatedAt: int)

  // One delivery of one event.
  datatype Delivery = Delivery(event: Event, message: nat, now: int)

  function StatusOf(e: Event): string {
    if e.status.Some? && e.status.value != "" then e.status.value else "CONFIRMED"
  }

  function DataOf(e: Event, status: string): Data {
    Data(e.sequence, e.contents, status, e.attendees)
  }

  predicate IsUpdate(e: Event) {
    e.method_ != "CANCEL" && e.method_ != "REPLY"
  }

  predicate SameAddress(a: string, b: string) {
    Lower(a) == Lower(b)
  }

  // First attendee with this address, or the number of attendees.
  function FindAttendee(attendees: seq<Attendee>, address: string, i: nat): (r: nat)
    requires i <= |attendees|
    ensures i <= r <= |attendees|
    ensures r < |attendees| ==> SameAddress(attendees[r].address, address)
    ensures forall k :: i <= k < r ==> !SameAddress(attendees[k].address, address)
    decreases |attendees| - i
  {
    if i == |attendees| || SameAddress(attendees[i].address, address) then i
    else FindAttendee(attendees, address, i + 1)
  }

  function Replied(attendees: seq<Attendee>, reply: Attendee): seq<Attendee> {
    var i := FindAttendee(attendees, reply.address, 0);
    if i < |attendees| then attendees[i := attendees[i].(partstat := reply.partstat)] else attendees + [reply]
  }

  function RepliedAll(attendees: seq<Attendee>, replies: seq<Attendee>): seq<Attendee> {
    if replies == [] then attendees
    else Replied(RepliedAll(attendees, replies[..|replies| - 1]), Last(replies))
  }

  function Max(a: int, b: int): int {
    if a > b then a else b
  }

  // What one delivery does to the row of its mailbox and UID.
  function Updated(mailbox: nat, row: Option<Row>, d: Delivery): Option<Row> {
    var e := d.event;
    if e.method_ == "CANCEL" then
      if row.Some? then
        var stored := row.value.data;
        Some(row.value.(data := stored.(status := "CANCELLED", sequence := Max(e.sequence, stored.sequence)),
          lastMessage := d.message, updatedAt := d.now))
      else Some(Row(mailbox, e.uid, DataOf(e, "CANCELLED"), d.message, d.now))
    else if e.method_ == "REPLY" then
      if row.Some? && e.attendees != [] then
        Some(row.value.(data := row.value.data.(attendees := RepliedAll(row.value.data.attendees, e.attendees)),
          lastMessage := d.message, updatedAt := d.now))
      else row
    else if row.None? then Some(Row(mailbox, e.uid, DataOf(e, StatusOf(e)), d.message, d.now))
    else if e.sequence >= row.value.data.sequence then
      Some(row.value.(data := DataOf(e, StatusOf(e)), lastMessage := d.message, updatedAt := d.now))
    else row
  }

  // A run of deliveries, seen by the row of one UID.
  function After(mailbox: nat, uid: string, row: Option<Row>, ds: seq<Delivery>): Option<Row> {
    if ds == [] then row
    else
      var before, d := After(mailbox, uid, row, ds[..|ds| - 1]), Last(ds);
      if d.event.uid == uid then Updated(mailbox, before, d) else before
  }

  function Deliveries(events: seq<Event>, message: nat, now: int): seq<Delivery> {
    seq(|events|, i requires 0 <= i < |events| => Delivery(events[i], message, now))
  }

  // UNIQUE(mailbox_id, uid)
  predicate UniqueRows(rows: map<nat, Row>) {
    forall a, b :: a in rows && b in rows && rows[a].mailbox == rows[b].mailbox && rows[a].uid == rows[b].uid ==> a == b
  }

  predicate IsAt(rows: map<nat, Row>, id: nat, mailbox: nat, uid: string) {
    id in rows && rows[id].mailbox == mailbox && rows[id].uid == uid
  }

  // The row of a mailbox and UID.
  ghost function RowAt(rows: map<nat, Row>, mailbox: nat, uid: string): Option<Row> {
    if exists id :: IsAt(rows, id, mailbox, uid) then
      var id :| IsAt(rows, id, mailbox, uid);
      Some(rows[id])
    else None
  }

  lemma {:induction false} RowAtIs(rows: map<nat, Row>, id: nat, mailbox: nat, uid: string)
    requires UniqueRows(rows) && IsAt(rows, id, mailbox, uid)
    ensures RowAt(rows, mailbox, uid) == Some(rows[id])
  {
  }

  // Writing one row keeps the table unique and moves no other row.
  lemma {:induction false} WriteRow(rows: map<nat, Row>, id: nat, row: Row)
    requires UniqueRows(rows)
    requires IsAt(rows, id, row.mailbox, row.uid) || (id !in rows && RowAt(rows, row.mailbox, row.uid) == None)
    ensures UniqueRows(rows[id := row]) && RowAt(rows[id := row], row.mailbox, row.uid) == Some(row)
    ensures forall m, u :: m != row.mailbox || u != row.uid ==> RowAt(rows[id := row], m, u) == RowAt(rows, m, u)
  {
    var after := rows[id := row];
    assert forall k :: IsAt(rows, k, row.mailbox, row.uid) ==> k == id;
    forall a, b | a in after && b in after && after[a].mailbox == after[b].mailbox && after[a].uid == after[b].uid
      ensures a == b
    {
      assert a == id && b != id ==> IsAt(rows, b, row.mailbox, row.uid);
      assert b == id && a != id ==> IsAt(rows, a, row.mailbox, row.uid);
    }
    RowAtIs(after, id, row.mailbox, row.uid);
    forall m, u | m != row.mailbox || u != row.uid ensures RowAt(after, m, u) == RowAt(rows, m, u) {
      forall k ensures IsAt(after, k, m, u) <==> IsAt(rows, k, m, u) {
      }
      if exists k :: IsAt(rows, k, m, u) {
        var k :| IsAt(rows, k, m, u);
        assert IsAt(after, k, m, u);
        RowAtIs(rows, k, m, u);
        RowAtIs(after, k, m, u);
      }
    }
  }

  // The calendar_events table.
  class EventTable {
    var rows: map<nat, Row>
    var nextId: nat

    constructor ()
      ensures Valid() && rows == map[]
    {
      rows, nextId := map[], 1;
    }

    ghost predicate Valid()
      reads this
    {
      UniqueRows(rows) && forall id :: id in rows ==> id < nextId
    }

    method Find(mailbox: nat, uid: string) returns (id: Option<nat>)
      requires Valid()
      ensures id.Some? ==> IsAt(rows, id.value, mailbox, uid) && RowAt(rows, mailbox, uid) == Some(rows[id.value])
      ensures id.None? ==> RowAt(rows, mailbox, uid) == None
    {
      if k :| k in rows && IsAt(rows, k, mailbox, uid) {
        RowAtIs(rows, k, mailbox, uid);
        return Some(k);
      }
      id := None;
    }

    // An UPDATE of the found row, or an INSERT under the next id.
    method Write(found: Option<nat>, row: Row)
      requires Valid()
      requires if found.Some? then IsAt(rows, found.value, row.mailbox, row.uid)
        else RowAt(rows, row.mailbox, row.uid) == None
      modifies this
      ensures Valid() && RowAt(rows, row.mailbox, row.uid) == Some(row)
      ensures forall m, u :: m != row.mailbox || u != row.uid ==> RowAt(rows, m, u) == RowAt(old(rows), m, u)
    {
      var id := nextId;
      if found.Some? {
        id := found.value;
      } else {
        nextId := nextId + 1;
      }
      WriteRow(rows, id, row);
      rows := rows[id := row];
    }

    method ApplyEvent(mailbox: nat, d: Delivery)
      requires Valid()
      modifies this
      ensures Valid()
      ensures RowAt(rows, mailbox, d.event.uid) == Updated(mailbox, RowAt(old(rows), mailbox, d.event.uid), d)
      ensures forall m, u :: m != mailbox || u != d.event.uid ==> RowAt(rows, m, u) == RowAt(old(rows), m, u)
    {
      hide RowAt, UniqueRows;
      var e := d.event;
      var found := Find(mailbox, e.uid);
      if e.method_ == "CANCEL" {
        if found.Some? {
          var row := rows[found.value];
          var sequence := if e.sequence > row.data.sequence then e.sequence else row.data.sequence;
          var data := row.data.(status := "CANCELLED", sequence := sequence);
          Write(found, row.(data := data, lastMessage := d.message, updatedAt := d.now));
        } else {
          Write(None, Row(mailbox, e.uid, DataOf(e, "CANCELLED"), d.message, d.now));
        }
      } else if e.method_ == "REPLY" {
        if found.Some? && |e.attendees| > 0 {
          var row := rows[found.value];
          var attendees := MergeReplies(row.data.attendees, e.attendees);
          Write(found, row.(data := row.data.(attendees := attendees), lastMessage := d.message, updatedAt := d.now));
        }
      } else if found.Some? {
        var row := rows[found.value];
        if e.sequence >= row.data.sequence {
          Write(found, row.(data := DataOf(e, StatusOf(e)), lastMessage := d.message, updatedAt := d.now));
        }
      } else {
        Write(None, Row(mailbox, e.uid, DataOf(e, StatusOf(e)), d.message, d.now));
      }
    }

    method MergeReplies(stored: seq<Attendee>, replies: seq<Attendee>) returns (attendees: seq<Attendee>)
      ensures attendees == RepliedAll(stored, replies)
    {
      attendees := stored;
      for r := 0 to |replies|
        invariant attendees == RepliedAll(stored, replies[..r])
      {
        var reply := replies[r];
        assert replies[..r + 1][..r] == replies[..r];
        ghost var before := attendees;
        var found := false;
        var index := 0;
        while index < |attendees| && !found
          invariant index <= |attendees|
          invariant !found ==>
            attendees == before && FindAttendee(before, reply.address, 0) == FindAttendee(before, reply.address, index)
          invariant found ==> attendees == Replied(before, reply)
          decreases |attendees| - index, !found
        {
          if SameAddress(attendees[index].address, reply.address) {
            attendees := attendees[index := attendees[index].(partstat := reply.partstat)];
            found := true;
          } else {
            index := index + 1;
          }
        }
        if !found {
          attendees := attendees + [reply];
        }
      }
      assert replies[..|replies|] == replies;
    }

    // applyCalendarEvents: each UID's row goes through the deliveries that name it; nothing else moves.
    method ApplyCalendarEvents(mailbox: nat, message: nat, events: seq<Event>, now: int)
      requires Valid()
      modifies this
      ensures Valid()
      ensures forall u ::
                RowAt(rows, mailbox, u) ==
                After(mailbox, u, RowAt(old(rows), mailbox, u), Deliveries(events, message, now))
      ensures forall m, u :: m != mailbox ==> RowAt(rows, m, u) == RowAt(old(rows), m, u)
    {
      hide Updated, RowAt, UniqueRows;
      ghost var all := Deliveries(events, message, now);
      for i := 0 to |events|
        invariant Valid()
        invariant forall u :: RowAt(rows, mailbox, u) == After(mailbox, u, RowAt(old(rows), mailbox, u), all[..i])
        invariant forall m, u :: m != mailbox ==> RowAt(rows, m, u) == RowAt(old(rows), m, u)
      {
        ApplyEvent(mailbox, Delivery(events[i], message, now));
        assert all[..i + 1][..i] == all[..i] && Last(all[..i + 1]) == Delivery(events[i], message, now);
      }
      assert all[..|events|] == all;
    }
  }

  // Over every run a row stays, keeps its identity, and its sequence never decreases.
  lemma {:induction false} SequenceNeverDecreases(mailbox: nat, uid: string, row: Row, ds: seq<Delivery>)
    ensures var after := After(mailbox, uid, Some(row), ds);
      after.Some? && after.value.mailbox == row.mailbox && after.value.uid == row.uid
        && row.data.sequence <= after.value.data.sequence
  {
    if ds != [] {
      SequenceNeverDecreases(mailbox, uid, row, ds[..|ds| - 1]);
    }
  }

  predicate IsCancel(e: Event) {
    e.method_ == "CANCEL"
  }

  // Updates and CANCELs of one UID.
  predicate Changes(uid: string, ds: seq<Delivery>) {
    forall d <- ds :: IsChange(uid, d)
  }

  predicate IsChange(uid: string, d: Delivery) {
    d.event.uid == uid && (IsUpdate(d.event) || IsCancel(d.event))
  }

  predicate IsReply(uid: string, d: Delivery) {
    d.event.uid == uid && d.event.method_ == "REPLY"
  }

  // What is stored of a row, apart from its bookkeeping.
  function Stored(row: Option<Row>): Option<Data> {
    match row case None => None case Some(r) => Some(r.data)
  }

  // Delivery i replaces the contents: it makes the row, or it is an update no lower than all changes before it.
  predicate Lands(uid: string, row: Option<Row>, ds: seq<Delivery>, i: nat)
    requires i < |ds|
  {
    && IsChange(uid, ds[i])
    && ((row.None? && forall k :: 0 <= k < i ==> !IsChange(uid, ds[k]))
        || (IsUpdate(ds[i].event) && (row.Some? ==> row.value.data.sequence <= ds[i].event.sequence)
            && forall k :: 0 <= k < i && IsChange(uid, ds[k]) ==> ds[k].event.sequence <= ds[i].event.sequence))
  }

  predicate CancelIn(uid: string, ds: seq<Delivery>, from: nat) {
    exists k :: from <= k < |ds| && IsChange(uid, ds[k]) && IsCancel(ds[k].event)
  }

  // The highest sequence seen in a change.
  predicate IsHighest(uid: string, row: Option<Row>, ds: seq<Delivery>, sequence: int) {
    && (row.Some? ==> row.value.data.sequence <= sequence)
    && (forall k :: 0 <= k < |ds| && IsChange(uid, ds[k]) ==> ds[k].event.sequence <= sequence)
    && ((row.Some? && row.value.data.sequence == sequence)
        || exists k :: 0 <= k < |ds| && IsChange(uid, ds[k]) && ds[k].event.sequence == sequence)
  }

  // The REPLYs from some delivery on, merged one after the other.
  function RepliedFrom(uid: string, attendees: seq<Attendee>, ds: seq<Delivery>, from: nat): seq<Attendee> {
    if |ds| <= from then attendees
    else
      Merged(uid, RepliedFrom(uid, attendees, ds[..|ds| - 1], from), Last(ds))
  }

  function Merged(uid: string, attendees: seq<Attendee>, d: Delivery): seq<Attendee> {
    if IsReply(uid, d) then RepliedAll(attendees, d.event.attendees) else attendees
  }

  // What a run leaves behind when its last landing is l, or nothing landed (l < 0).
  predicate Leaves(uid: string, row: Option<Row>, ds: seq<Delivery>, l: int, data: Data)
    requires -1 <= l < |ds| && (l < 0 ==> row.Some?)
  {
    && IsHighest(uid, row, ds, data.sequence)
    && data.contents == (if l < 0 then row.value.data.contents else ds[l].event.contents)
    && data.attendees == RepliedFrom(uid, if l < 0 then row.value.data.attendees else ds[l].event.attendees, ds, l + 1)
    && data.status ==
         if CancelIn(uid, ds, if l < 0 then 0 else l) then "CANCELLED"
         else if l < 0 then row.value.data.status else StatusOf(ds[l].event)
  }

  predicate LastLanding(uid: string, row: Option<Row>, ds: seq<Delivery>, l: int) {
    -1 <= l < |ds| && (l >= 0 ==> Lands(uid, row, ds, l)) && forall k :: l < k < |ds| ==> !Lands(uid, row, ds, k)
  }

  // The outcome of every run, whatever is delivered, from any row or none. Without a row and without a landing there
  // is none. Otherwise: the highest sequence of a change, the contents of the last delivery that landed, its attendees
  // with the later REPLYs merged, and CANCELLED exactly if a CANCEL came with or after it or it says so itself.
  lemma {:induction false} RunOutcome(mailbox: nat, uid: string, row: Option<Row>, ds: seq<Delivery>) returns (l: int)
    ensures LastLanding(uid, row, ds, l)
    ensures var data := Stored(After(mailbox, uid, row, ds));
      if row.None? && l < 0 then data == None else data.Some? && Leaves(uid, row, ds, l, data.value)
  {
    if ds == [] {
      l := -1;
    } else {
      var front, d := ds[..|ds| - 1], Last(ds);
      var before := RunOutcome(mailbox, uid, row, front);
      var data := Stored(After(mailbox, uid, row, front));
      assert ds == front + [d] && Stored(After(mailbox, uid, row, ds)) == NextStored(uid, data, d);
      hide After, Leaves, LastLanding, NextStored;
      l := OutcomeStep(uid, row, front, d, before, data);
    }
  }

  // An update or CANCEL on stored data.
  function NextData(data: Data, e: Event): Data {
    if IsCancel(e) then data.(status := "CANCELLED", sequence := Max(e.sequence, data.sequence))
    else if e.sequence >= data.sequence then DataOf(e, StatusOf(e))
    else data
  }

  // Any delivery on stored data, or on none.
  function NextStored(uid: string, data: Option<Data>, d: Delivery): Option<Data> {
    if IsChange(uid, d) then
      Some(if data.Some? then NextData(data.value, d.event)
           else DataOf(d.event, if IsCancel(d.event) then "CANCELLED" else StatusOf(d.event)))
    else if IsReply(uid, d) && data.Some? then
      Some(data.value.(attendees := RepliedAll(data.value.attendees, d.event.attendees)))
    else data
  }

  predicate Outcome(uid: string, row: Option<Row>, ds: seq<Delivery>, l: int, data: Option<Data>) {
    && LastLanding(uid, row, ds, l)
    && if row.None? && l < 0 then data == None else data.Some? && Leaves(uid, row, ds, l, data.value)
  }

  lemma {:induction false} OutcomeStep(uid: string, row: Option<Row>, front: seq<Delivery>, d: Delivery, before: int,
                                       data: Option<Data>) returns (l: int)
    requires Outcome(uid, row, front, before, data)
    ensures Outcome(uid, row, front + [d], l, NextStored(uid, data, d))
  {
    if data.None? {
      l := if IsChange(uid, d) then |front| else before;
      FirstStep(uid, row, front, d, before);
      hide Leaves, LastLanding;
    } else {
      var stored := data.value;
      l := if IsChange(uid, d) && IsUpdate(d.event) && stored.sequence <= d.event.sequence then |front| else before;
      LaterStep(uid, row, front, d, before, stored);
      hide Leaves, LastLanding, RepliedAll, StatusOf;
    }
  }

  lemma {:induction false} FirstStep(uid: string, row: Option<Row>, front: seq<Delivery>, d: Delivery, before: int)
    requires row.None? && before < 0 && LastLanding(uid, row, front, before)
    ensures var ds, n, next := front + [d], |front|, NextStored(uid, None, d);
      if IsChange(uid, d) then LastLanding(uid, row, ds, n) && Leaves(uid, row, ds, n, next.value)
      else LastLanding(uid, row, ds, before) && next == None
  {
    var n := |front|;
    LandingStep(uid, row, front, d, before);
    NothingLanded(uid, row, front, d);
    CancelGrows(uid, front, d, n);
    assert !CancelIn(uid, front, n);
    hide Lands, IsHighest, CancelIn, LastLanding;
  }

  lemma {:induction false} LaterStep(uid: string, row: Option<Row>, front: seq<Delivery>, d: Delivery, before: int,
                                     data: Data)
    requires LastLanding(uid, row, front, before) && (before < 0 ==> row.Some?) && Leaves(uid, row, front, before, data)
    ensures var ds, next := front + [d], NextStored(uid, Some(data), d);
      var l := if IsChange(uid, d) && IsUpdate(d.event) && data.sequence <= d.event.sequence then |front| else before;
      LastLanding(uid, row, ds, l) && Leaves(uid, row, ds, l, next.value)
  {
    var n := |front|;
    LandingStep(uid, row, front, d, before);
    LandsIs(uid, row, front, d, data.sequence);
    HighestGrows(uid, row, front, d, data.sequence);
    CancelGrows(uid, front, d, if before < 0 then 0 else before);
    CancelGrows(uid, front, d, n);
    assert !CancelIn(uid, front, n);
    var attendees := if before < 0 then row.value.data.attendees else front[before].event.attendees;
    RepliesStep(uid, attendees, front, d, before + 1);
    hide Lands, IsHighest, CancelIn, LastLanding, RepliedAll, StatusOf;
    assert before >= 0 ==> (front + [d])[before] == front[before];
  }

  lemma {:induction false} LandingStep(uid: string, row: Option<Row>, front: seq<Delivery>, d: Delivery, before: int)
    requires LastLanding(uid, row, front, before)
    ensures var ds := front + [d];
      LastLanding(uid, row, ds, if Lands(uid, row, ds, |front|) then |front| else before)
  {
    LandsStay(uid, row, front, d);
    hide Lands;
  }

  lemma {:induction false} RepliesStep(uid: string, attendees: seq<Attendee>, front: seq<Delivery>, d: Delivery,
                                       from: nat)
    requires from <= |front|
    ensures RepliedFrom(uid, attendees, front + [d], from) == Merged(uid, RepliedFrom(uid, attendees, front, from), d)
  {
    assert (front + [d])[..|front|] == front;
    hide Merged;
  }

  lemma {:induction false} LandsStay(uid: string, row: Option<Row>, front: seq<Delivery>, d: Delivery)
    ensures forall k :: 0 <= k < |front| ==> (Lands(uid, row, front + [d], k) <==> Lands(uid, row, front, k))
  {
    assert forall k :: 0 <= k < |front| ==> (front + [d])[k] == front[k];
  }

  // As long as nothing landed on no row, nothing changed it, and the next change is the first.
  lemma {:induction false} NothingLanded(uid: string, row: Option<Row>, front: seq<Delivery>, d: Delivery)
    requires row.None? && forall k :: 0 <= k < |front| ==> !Lands(uid, row, front, k)
    ensures forall k :: 0 <= k < |front| ==> !IsChange(uid, front[k])
    ensures Lands(uid, row, front + [d], |front|) <==> IsChange(uid, d)
    ensures IsChange(uid, d) ==> IsHighest(uid, row, front + [d], d.event.sequence)
  {
    NoneChanges(uid, row, front, |front|);
    var ds := front + [d];
    assert ds[|front|] == d && forall k :: 0 <= k < |front| ==> ds[k] == front[k];
  }

  lemma {:induction false} NoneChanges(uid: string, row: Option<Row>, ds: seq<Delivery>, n: nat)
    requires row.None? && n <= |ds| && forall k :: 0 <= k < |ds| ==> !Lands(uid, row, ds, k)
    ensures forall k :: 0 <= k < n ==> !IsChange(uid, ds[k])
  {
    if n > 0 {
      NoneChanges(uid, row, ds, n - 1);
      assert !Lands(uid, row, ds, n - 1);
    }
  }

  lemma {:induction false} LandsIs(uid: string, row: Option<Row>, front: seq<Delivery>, d: Delivery, highest: int)
    requires IsHighest(uid, row, front, highest)
    ensures Lands(uid, row, front + [d], |front|) <==>
      IsChange(uid, d) && IsUpdate(d.event) && highest <= d.event.sequence
  {
    var ds := front + [d];
    assert ds[|front|] == d && forall k :: 0 <= k < |front| ==> ds[k] == front[k];
    if !(row.Some? && row.value.data.sequence == highest) {
      var k :| 0 <= k < |front| && IsChange(uid, front[k]) && front[k].event.sequence == highest;
      assert IsChange(uid, ds[k]);
    }
  }

  lemma {:induction false} HighestGrows(uid: string, row: Option<Row>, front: seq<Delivery>, d: Delivery, highest: int)
    requires IsHighest(uid, row, front, highest)
    ensures IsHighest(uid, row, front + [d], if IsChange(uid, d) then Max(d.event.sequence, highest) else highest)
  {
    var ds := front + [d];
    assert ds[|front|] == d && forall k :: 0 <= k < |front| ==> ds[k] == front[k];
    if !(row.Some? && row.value.data.sequence == highest) {
      var k :| 0 <= k < |front| && IsChange(uid, front[k]) && front[k].event.sequence == highest;
      assert IsChange(uid, ds[k]) && ds[k].event.sequence == highest;
    }
  }

  lemma {:induction false} CancelGrows(uid: string, front: seq<Delivery>, d: Delivery, from: nat)
    requires from <= |front|
    ensures CancelIn(uid, front + [d], from) <==> CancelIn(uid, front, from) || (IsChange(uid, d) && IsCancel(d.event))
  {
    var ds := front + [d];
    assert ds[|front|] == d && forall k :: 0 <= k < |front| ==> ds[k] == front[k];
    if CancelIn(uid, front, from) {
      var k :| from <= k < |front| && IsChange(uid, front[k]) && IsCancel(front[k].event);
      assert IsCancel(ds[k].event);
    }
  }

  // A run ends CANCELLED exactly when a CANCEL came with or after the last landing, or that says CANCELLED itself.
  lemma {:induction false} EndsCancelled(mailbox: nat, uid: string, row: Option<Row>, ds: seq<Delivery>, l: int)
    requires LastLanding(uid, row, ds, l) && (l < 0 ==> row.Some?)
    ensures var data := Stored(After(mailbox, uid, row, ds));
      data.Some? && (data.value.status == "CANCELLED" <==>
        CancelIn(uid, ds, if l < 0 then 0 else l)
        || (if l < 0 then row.value.data.status else StatusOf(ds[l].event)) == "CANCELLED")
  {
    var m := RunOutcome(mailbox, uid, row, ds);
    assert m == l;
  }

  // Two updates of one event agree whatever their order, unless both carry the same sequence, land, and differ.
  predicate UpdatesAgree(row: Option<Row>, a: Event, b: Event) {
    a.sequence != b.sequence || DataOf(a, StatusOf(a)) == DataOf(b, StatusOf(b))
    || (row.Some? && a.sequence < row.value.data.sequence)
  }

  // An update r that lands behind a CANCEL revives the event; one that lands only before it leaves its contents.
  predicate CancelAgrees(row: Option<Row>, r: Event, cancel: Event) {
    var floor := if row.Some? then row.value.data.sequence else r.sequence;
    if r.sequence < floor then true
    else if r.sequence >= cancel.sequence then StatusOf(r) == "CANCELLED"
    else if row.Some? then r.contents == row.value.data.contents && r.attendees == row.value.data.attendees
    else r.contents == cancel.contents && r.attendees == cancel.attendees
  }

  predicate Agree(row: Option<Row>, a: Event, b: Event) {
    if IsCancel(a) && IsCancel(b) then row.Some? || (a.contents == b.contents && a.attendees == b.attendees)
    else if IsCancel(a) then CancelAgrees(row, b, a)
    else if IsCancel(b) then CancelAgrees(row, a, b)
    else UpdatesAgree(row, a, b)
  }

  lemma {:induction false} AfterTwo(mailbox: nat, uid: string, row: Option<Row>, a: Delivery, b: Delivery)
    requires a.event.uid == uid && b.event.uid == uid
    ensures After(mailbox, uid, row, [a, b]) == Updated(mailbox, Updated(mailbox, row, a), b)
  {
    assert [a, b][..1] == [a] && [a][..0] == [];
    assert After(mailbox, uid, row, []) == row && After(mailbox, uid, row, [a]) == Updated(mailbox, row, a);
    hide Updated;
  }

  // Exactly which two deliveries may be exchanged, from any row or none.
  lemma {:induction false} ExchangeExactly(mailbox: nat, uid: string, row: Option<Row>, a: Delivery, b: Delivery)
    requires Changes(uid, [a, b])
    ensures Stored(After(mailbox, uid, row, [a, b])) == Stored(After(mailbox, uid, row, [b, a])) <==>
      Agree(row, a.event, b.event)
  {
    assert [a, b][0] in [a, b] && [a, b][1] in [a, b];
    AfterTwo(mailbox, uid, row, a, b);
    AfterTwo(mailbox, uid, row, b, a);
    hide After;
  }

  // Two that may not: a CANCEL older than a REQUEST cancels it when it comes last, and is undone when it comes first.
  lemma {:induction false} StaleCancel(mailbox: nat, uid: string, request: Delivery, cancel: Delivery)
    requires request.event == Event("REQUEST", uid, 1, request.event.contents, None, [])
    requires cancel.event == Event("CANCEL", uid, 0, request.event.contents, None, [])
    ensures var last := Stored(After(mailbox, uid, None, [request, cancel]));
      var first := Stored(After(mailbox, uid, None, [cancel, request]));
      last.Some? && first.Some? && last.value.status == "CANCELLED" && first.value.status == "CONFIRMED"
  {
    AfterTwo(mailbox, uid, None, request, cancel);
    AfterTwo(mailbox, uid, None, cancel, request);
    hide After;
  }

  // The last one among the deliveries with the highest sequence.
  predicate Wins(ds: seq<Delivery>, i: nat)
    requires i < |ds|
  {
    && (forall k :: 0 <= k < i ==> ds[k].event.sequence <= ds[i].event.sequence)
    && (forall k :: i < k < |ds| ==> ds[k].event.sequence < ds[i].event.sequence)
  }

  predicate AllUpdates(uid: string, ds: seq<Delivery>) {
    forall d <- ds :: d.event.uid == uid && IsUpdate(d.event)
  }

  // What updates leave: the data of the winner, or the stored row if all of them are below it (i < 0).
  predicate WinnerLeft(row: Option<Row>, ds: seq<Delivery>, i: int, data: Data) {
    if i < 0 then row.Some? && data == row.value.data && forall d <- ds :: d.event.sequence < row.value.data.sequence
    else
      && i < |ds| && Wins(ds, i) && (row.Some? ==> row.value.data.sequence <= ds[i].event.sequence)
      && data == DataOf(ds[i].event, StatusOf(ds[i].event))
  }

  lemma {:induction false} WinnerStep(row: Option<Row>, front: seq<Delivery>, d: Delivery, before: int, data: Data)
    requires IsUpdate(d.event) && WinnerLeft(row, front, before, data)
    ensures var i := if d.event.sequence >= data.sequence then |front| else before;
      WinnerLeft(row, front + [d], i, NextData(data, d.event))
  {
    var ds := front + [d];
    assert forall k :: 0 <= k < |front| ==> ds[k] == front[k] && front[k] in front;
    hide StatusOf;
  }

  // Updates alone leave the contents of the winner, unless all of them are below the stored row, which then stays.
  lemma {:induction false} UpdatesLeaveWinner(mailbox: nat, uid: string, row: Option<Row>, ds: seq<Delivery>)
    returns (i: int)
    requires AllUpdates(uid, ds) && (row.Some? || ds != [])
    ensures var data := Stored(After(mailbox, uid, row, ds)); data.Some? && WinnerLeft(row, ds, i, data.value)
  {
    if ds == [] {
      i := -1;
    } else {
      var front, d := ds[..|ds| - 1], Last(ds);
      assert d in ds && ds == front + [d];
      if row.None? && front == [] {
        i := 0;
        assert After(mailbox, uid, row, front) == None && ds[0] == d;
      } else {
        var before := UpdatesLeaveWinner(mailbox, uid, row, front);
        var data := After(mailbox, uid, row, front).value.data;
        WinnerStep(row, front, d, before, data);
        assert Stored(After(mailbox, uid, row, ds)) == Some(NextData(data, d.event));
        i := if d.event.sequence >= data.sequence then |front| else before;
        hide After, StatusOf, WinnerLeft, NextData;
      }
    }
  }

  // Those with the highest sequence, if it reaches the row, say the same.
  predicate TopAgrees(row: Option<Row>, ds: seq<Delivery>) {
    forall j, k :: 0 <= j < |ds| && 0 <= k < |ds| && Top(row, ds, j) && Top(row, ds, k) ==>
      DataOf(ds[j].event, StatusOf(ds[j].event)) == DataOf(ds[k].event, StatusOf(ds[k].event))
  }

  predicate Top(row: Option<Row>, ds: seq<Delivery>, i: nat)
    requires i < |ds|
  {
    && (row.Some? ==> row.value.data.sequence <= ds[i].event.sequence)
    && forall k :: 0 <= k < |ds| ==> ds[k].event.sequence <= ds[i].event.sequence
  }

  ghost predicate AnyOrder(mailbox: nat, uid: string, row: Option<Row>, a: seq<Delivery>) {
    forall b: seq<Delivery> | multiset(b) == multiset(a) ::
      Stored(After(mailbox, uid, row, b)) == Stored(After(mailbox, uid, row, a))
  }

  // Exactly when updates may be delivered in any order: those with the highest sequence agree.
  lemma {:induction false} UpdatesCommuteExactly(mailbox: nat, uid: string, row: Option<Row>, a: seq<Delivery>)
    requires AllUpdates(uid, a)
    ensures AnyOrder(mailbox, uid, row, a) <==> TopAgrees(row, a)
  {
    if TopAgrees(row, a) {
      forall b: seq<Delivery> | multiset(b) == multiset(a)
        ensures Stored(After(mailbox, uid, row, b)) == Stored(After(mailbox, uid, row, a))
      {
        TopAgreesAnyOrder(mailbox, uid, row, a, b);
      }
    }
    if AnyOrder(mailbox, uid, row, a) {
      forall j, k | 0 <= j < |a| && 0 <= k < |a| && Top(row, a, j) && Top(row, a, k)
        ensures DataOf(a[j].event, StatusOf(a[j].event)) == DataOf(a[k].event, StatusOf(a[k].event))
      {
        TopLastWins(mailbox, uid, row, a, j);
        TopLastWins(mailbox, uid, row, a, k);
      }
    }
  }

  lemma {:induction false} SameElements(a: seq<Delivery>, b: seq<Delivery>)
    requires multiset(a) == multiset(b)
    ensures |a| == |b| && forall d :: d in a <==> d in b
  {
    assert forall d :: d in a <==> d in multiset(a);
    assert forall d :: d in b <==> d in multiset(b);
    assert |a| == |multiset(a)| && |b| == |multiset(b)|;
  }

  lemma {:induction false} TopAgreesAnyOrder(mailbox: nat, uid: string, row: Option<Row>, a: seq<Delivery>,
                                             b: seq<Delivery>)
    requires AllUpdates(uid, a) && TopAgrees(row, a) && multiset(b) == multiset(a)
    ensures Stored(After(mailbox, uid, row, b)) == Stored(After(mailbox, uid, row, a))
  {
    SameElements(a, b);
    if row.Some? || a != [] {
      var i := UpdatesLeaveWinner(mailbox, uid, row, a);
      var j := UpdatesLeaveWinner(mailbox, uid, row, b);
      SameWinner(row, a, b, i, j, After(mailbox, uid, row, a).value.data, After(mailbox, uid, row, b).value.data);
    }
  }

  lemma {:induction false} SameWinner(row: Option<Row>, a: seq<Delivery>, b: seq<Delivery>, i: int, j: int, x: Data,
                                      y: Data)
    requires WinnerLeft(row, a, i, x) && WinnerLeft(row, b, j, y) && TopAgrees(row, a)
    requires |a| == |b| && forall d :: d in a <==> d in b
    ensures x == y
  {
    hide DataOf, StatusOf;
    if i >= 0 {
      assert a[i] in b;
    }
    if j >= 0 {
      assert b[j] in a;
    }
    if i >= 0 && j >= 0 {
      var k :| 0 <= k < |a| && a[k] == b[j];
      WinnerTop(row, a, i);
      WinnerTop(row, b, j);
      forall m | 0 <= m < |a| ensures a[m].event.sequence <= b[j].event.sequence {
        assert a[m] in a && a[m] in b;
      }
      assert Top(row, a, k);
    }
  }

  lemma {:induction false} WinnerTop(row: Option<Row>, ds: seq<Delivery>, i: nat)
    requires i < |ds| && Wins(ds, i) && (row.Some? ==> row.value.data.sequence <= ds[i].event.sequence)
    ensures Top(row, ds, i) && forall d <- ds :: d.event.sequence <= ds[i].event.sequence
  {
  }

  lemma {:induction false} AnyOrderMeans(mailbox: nat, uid: string, row: Option<Row>, a: seq<Delivery>,
                                         b: seq<Delivery>)
    requires AnyOrder(mailbox, uid, row, a) && multiset(b) == multiset(a)
    ensures Stored(After(mailbox, uid, row, b)) == Stored(After(mailbox, uid, row, a))
  {
  }

  lemma {:induction false} LastIsWinner(row: Option<Row>, ds: seq<Delivery>, i: int, data: Data)
    requires ds != [] && WinnerLeft(row, ds, i, data)
    requires row.Some? ==> row.value.data.sequence <= Last(ds).event.sequence
    requires forall m :: 0 <= m < |ds| ==> ds[m].event.sequence <= Last(ds).event.sequence
    ensures data == DataOf(Last(ds).event, StatusOf(Last(ds).event))
  {
    hide DataOf, StatusOf;
    assert Last(ds) in ds;
    assert i == |ds| - 1;
  }

  // A delivery at the top that comes last is what is stored.
  lemma {:induction false} TopLastWins(mailbox: nat, uid: string, row: Option<Row>, a: seq<Delivery>, j: nat)
    requires AllUpdates(uid, a) && j < |a| && Top(row, a, j) && AnyOrder(mailbox, uid, row, a)
    ensures Stored(After(mailbox, uid, row, a)) == Some(DataOf(a[j].event, StatusOf(a[j].event)))
  {
    hide AnyOrder, After, DataOf, StatusOf, WinnerLeft;
    var b := a[..j] + a[j + 1..] + [a[j]];
    MovedLast(a, j);
    SameElements(a, b);
    AnyOrderMeans(mailbox, uid, row, a, b);
    assert forall m :: 0 <= m < |b| ==> b[m] in b && b[m] in a && b[m].event.sequence <= a[j].event.sequence;
    var i := UpdatesLeaveWinner(mailbox, uid, row, b);
    LastIsWinner(row, b, i, Stored(After(mailbox, uid, row, b)).value);
    assert Last(b) == a[j];
  }

  lemma {:induction false} MovedLast<T>(a: seq<T>, j: nat)
    requires j < |a|
    ensures multiset(a[..j] + a[j + 1..] + [a[j]]) == multiset(a)
  {
    assert a == a[..j] + [a[j]] + a[j + 1..];
  }

  // Order independence: the same updates with distinct sequences, delivered in any two orders, store the same contents.
  lemma {:induction false} UpdatesCommute(mailbox: nat, uid: string, row: Option<Row>, a: seq<Delivery>,
                                          b: seq<Delivery>)
    requires multiset(a) == multiset(b) && AllUpdates(uid, a)
    requires forall j, k :: 0 <= j < k < |a| ==> a[j].event.sequence != a[k].event.sequence
    ensures Stored(After(mailbox, uid, row, a)) == Stored(After(mailbox, uid, row, b))
  {
    forall j, k | 0 <= j < |a| && 0 <= k < |a| && Top(row, a, j) && Top(row, a, k) ensures j == k {
      assert a[j].event.sequence == a[k].event.sequence;
    }
    TopAgreesAnyOrder(mailbox, uid, row, a, b);
  }

  // A REPLY keeps every attendee in place, changes at most participation status, and only of those who replied;
  // newcomers are repliers.
  lemma {:induction false} RepliesTouchRepliersOnly(attendees: seq<Attendee>, replies: seq<Attendee>)
    ensures var after := RepliedAll(attendees, replies);
      && |attendees| <= |after|
      && (forall i :: 0 <= i < |attendees| ==> after[i] == attendees[i].(partstat := after[i].partstat))
      && (forall i :: 0 <= i < |attendees| && after[i] != attendees[i] ==>
            exists r :: r in replies && SameAddress(attendees[i].address, r.address))
      && (forall i :: |attendees| <= i < |after| ==> exists r :: r in replies && after[i].address == r.address)
  {
    if replies != [] {
      RepliesTouchRepliersOnly(attendees, replies[..|replies| - 1]);
      var before, after := RepliedAll(attendees, replies[..|replies| - 1]), RepliedAll(attendees, replies);
      forall i | 0 <= i < |attendees| && after[i] != attendees[i]
        ensures exists r :: r in replies && SameAddress(attendees[i].address, r.address)
      {
        if before[i] == attendees[i] {
          assert Last(replies) in replies && SameAddress(attendees[i].address, Last(replies).address);
        } else {
          var r :| r in replies[..|replies| - 1] && SameAddress(attendees[i].address, r.address);
          assert r in replies;
        }
      }
      forall i | |attendees| <= i < |after| ensures exists r :: r in replies && after[i].address == r.address {
        if i < |before| {
          var r :| r in replies[..|replies| - 1] && before[i].address == r.address;
          assert r in replies;
        } else {
          assert after[i] == Last(replies) && Last(replies) in replies;
        }
      }
    }
  }

  // Someone who replied has, in the first entry with that address, the status of the last such reply.
  lemma {:induction false} LastReplyCounts(attendees: seq<Attendee>, replies: seq<Attendee>, k: nat)
    requires k < |replies| && forall j :: k < j < |replies| ==> !SameAddress(replies[j].address, replies[k].address)
    ensures var after := RepliedAll(attendees, replies);
      var i := FindAttendee(after, replies[k].address, 0);
      i < |after| && after[i].partstat == replies[k].partstat
  {
    var front := replies[..|replies| - 1];
    if k < |front| {
      LastReplyCounts(attendees, front, k);
      OtherReplyKeeps(RepliedAll(attendees, front), Last(replies), replies[k].address);
    } else {
      var before := RepliedAll(attendees, front);
      FoundAt(Replied(before, replies[k]), replies[k].address, FindAttendee(before, replies[k].address, 0), 0);
    }
  }

  lemma {:induction false} OtherReplyKeeps(before: seq<Attendee>, reply: Attendee, address: string)
    requires !SameAddress(reply.address, address) && FindAttendee(before, address, 0) < |before|
    ensures var i := FindAttendee(before, address, 0);
      var after := Replied(before, reply);
      FindAttendee(after, address, 0) == i && i < |after| && after[i] == before[i]
  {
    FoundAt(Replied(before, reply), address, FindAttendee(before, address, 0), 0);
  }

  lemma {:induction false} FoundAt(attendees: seq<Attendee>, address: string, r: nat, i: nat)
    requires i <= r < |attendees| && SameAddress(attendees[r].address, address)
    requires forall k :: i <= k < r ==> !SameAddress(attendees[k].address, address)
    ensures FindAttendee(attendees, address, i) == r
    decreases r - i
  {
    if i < r {
      FoundAt(attendees, address, r, i + 1);
    }
  }
}
