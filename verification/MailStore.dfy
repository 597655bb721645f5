/** The message store (internal/store/operations.go): tables as maps, each operation one committed step under the POP3
    lock. */
module MailStore {
  import opened Text

  datatype Message = Message(mailbox: nat, raw: string, receivedAt: int, isRead: bool) {
    // The same mail, read or not.
    predicate Same(other: Message) {
      this.(isRead := other.isRead) == other
    }
  }

  // Ids come from counters that only grow (AUTOINCREMENT) until the tables are wiped.
  datatype Tables = Tables(
    mailboxes: map<string, nat>, messages: map<nat, Message>, nextMailbox: nat, nextMessage: nat)
  {
    predicate Valid() {
      && (forall id :: id in messages ==> id < nextMessage)
      && (forall a :: a in mailboxes ==> mailboxes[a] < nextMailbox)
    }

    function WithMailbox(address: string): Tables {
      if address in mailboxes then this
      else this.(mailboxes := mailboxes[address := nextMailbox], nextMailbox := nextMailbox + 1)
    }

    function WithMessage(mailbox: nat, raw: string, now: int): Tables {
      this.(messages := messages[nextMessage := Message(mailbox, raw, now, false)], nextMessage := nextMessage + 1)
    }

    function Without(ids: set<nat>): Tables {
      this.(messages := messages - ids)
    }

    function Marked(ids: set<nat>, isRead: bool): Tables {
      this.(messages := map id | id in messages :: if id in ids then messages[id].(isRead := isRead) else messages[id])
    }
  }

  const EMPTY_TABLES := Tables(map[], map[], 1, 1)

  datatype State = State(tables: Tables, generation: nat)

  // A message as it was. Only GetMessage stamps it with the generation it belongs to.
  datatype Detail = Detail(id: nat, message: Message, generation: nat)

  datatype Pop3Message = Pop3Message(id: nat, raw: string)

  datatype Snapshot = Snapshot(messages: seq<Pop3Message>, generation: nat)

  function Address(raw: string): string {
    Trim(Lower(raw))
  }

  function Delivered(tables: Tables, recipients: seq<string>, raw: string, now: int): Tables {
    if recipients == [] then tables
    else
      var before, last := Delivered(tables, recipients[..|recipients| - 1], raw, now), Last(recipients);
      DeliveredOne(before, last, raw, now)
  }

  function DeliveredOne(tables: Tables, recipient: string, raw: string, now: int): Tables {
    var address := Address(recipient);
    if address == "" then tables
    else
      var ready := tables.WithMailbox(address);
      ready.WithMessage(ready.mailboxes[address], raw, now)
  }

  // ORDER BY received_at, id
  predicate Before(messages: map<nat, Message>, a: nat, b: nat)
    requires a in messages && b in messages
  {
    messages[a].receivedAt < messages[b].receivedAt || (messages[a].receivedAt == messages[b].receivedAt && a < b)
  }

  // The listing a POP3 login gets: every message of the mailbox once, in order, with its bytes.
  ghost predicate Lists(tables: Tables, mailbox: nat, listing: seq<Pop3Message>) {
    && (forall k :: 0 <= k < |listing| ==>
          && listing[k].id in tables.messages
          && tables.messages[listing[k].id].mailbox == mailbox
          && tables.messages[listing[k].id].raw == listing[k].raw)
    && (forall j, k :: 0 <= j < k < |listing| ==> Before(tables.messages, listing[j].id, listing[k].id))
    && (forall id :: id in tables.messages && tables.messages[id].mailbox == mailbox ==>
          Pop3Message(id, tables.messages[id].raw) in listing)
  }

  // DELETE FROM mailboxes, with the cascade to its messages.
  function MailboxDeleted(tables: Tables, mailbox: nat): Tables {
    tables.(
      mailboxes := map a | a in tables.mailboxes && tables.mailboxes[a] != mailbox :: tables.mailboxes[a],
      messages := map id | id in tables.messages && tables.messages[id].mailbox != mailbox :: tables.messages[id])
  }

  // Which row MarkReadDetail updates, if any.
  predicate Fenced(s: State, detail: Detail) {
    && detail.generation == s.generation && !detail.message.isRead
    && detail.id in s.tables.messages
    && s.tables.messages[detail.id].mailbox == detail.message.mailbox
    && s.tables.messages[detail.id].receivedAt == detail.message.receivedAt
    && !s.tables.messages[detail.id].isRead
  }

  function DetailMarked(s: State, detail: Detail): State {
    if Fenced(s, detail) then s.(tables := s.tables.Marked({detail.id}, true)) else s
  }

  function SetOf<T>(xs: seq<T>): set<T> {
    set x | x in xs
  }

  // Parameters named `works` say whether SQLite carries the operation out; a failed one is rolled back.
  class Store {
    var tables: Tables
    var generation: nat

    constructor (tables: Tables)
      requires tables.Valid()
      ensures Valid() && Current() == State(tables, 0)
    {
      this.tables, generation := tables, 0;
    }

    ghost predicate Valid()
      reads this
    {
      tables.Valid()
    }

    function Current(): State
      reads this
    {
      State(tables, generation)
    }

    method GetMessage(id: nat, works: bool) returns (detail: Option<Detail>)
      ensures detail ==
        if works && id in tables.messages then Some(Detail(id, tables.messages[id], generation)) else None
    {
      detail := None;
      if works && id in tables.messages {
        detail := Some(Detail(id, tables.messages[id], generation));
      }
    }

    method ReadMessage(id: nat, works: bool) returns (detail: Option<Detail>)
      requires Valid()
      modifies this`tables
      ensures Valid()
      ensures tables == if works then old(tables).Marked({id}, true) else old(tables)
      ensures detail ==
        if works && id in old(tables.messages) then Some(Detail(id, old(tables).messages[id], 0)) else None
    {
      detail := None;
      if works {
        if id in tables.messages {
          detail := Some(Detail(id, tables.messages[id], 0));
          if !tables.messages[id].isRead {
            tables := tables.(messages := tables.messages[id := tables.messages[id].(isRead := true)]);
          }
        }
        assert tables.messages == old(tables).Marked({id}, true).messages;
      }
    }

    method MarkReadDetail(detail: Detail, works: bool)
      requires Valid()
      modifies this`tables
      ensures Valid()
      ensures Current() == if works then DetailMarked(old(Current()), detail) else old(Current())
    {
      if detail.message.isRead || detail.generation != generation || !works {
        return;
      }
      var id := detail.id;
      if id in tables.messages && tables.messages[id].mailbox == detail.message.mailbox
        && tables.messages[id].receivedAt == detail.message.receivedAt && !tables.messages[id].isRead
      {
        tables := tables.(messages := tables.messages[id := tables.messages[id].(isRead := true)]);
        assert tables.messages == old(tables).Marked({id}, true).messages;
      }
    }

    method SetReadState(ids: seq<nat>, isRead: bool, works: bool)
      requires Valid()
      modifies this`tables
      ensures Valid()
      ensures tables == if works then old(tables).Marked(SetOf(ids), isRead) else old(tables)
    {
      if |ids| == 0 {
        assert old(tables).Marked(SetOf(ids), isRead).messages == tables.messages;
        return;
      }
      if works {
        tables := tables.Marked(SetOf(ids), isRead);
      }
    }

    // StoreMessage: one transaction over all recipients; the one at position `failAt`, or the commit, may fail it.
    method StoreMessage(recipients: seq<string>, raw: string, now: int, failAt: nat) returns (committed: bool)
      requires Valid()
      modifies this`tables
      ensures Valid()
      ensures committed == (failAt > |recipients|)
      ensures tables == if committed then Delivered(old(tables), recipients, raw, now) else old(tables)
    {
      var tx := tables;
      var i := 0;
      while i < |recipients|
        invariant i <= |recipients| && i <= failAt
        invariant tx.Valid() && tx == Delivered(tables, recipients[..i], raw, now)
      {
        if i == failAt {
          return false;
        }
        assert recipients[..i + 1][..i] == recipients[..i];
        var address := Address(recipients[i]);
        if address != "" {
          if address !in tx.mailboxes {
            tx := tx.(mailboxes := tx.mailboxes[address := tx.nextMailbox], nextMailbox := tx.nextMailbox + 1);
          }
          tx := tx.WithMessage(tx.mailboxes[address], raw, now);
        }
        i := i + 1;
      }
      if i == failAt {
        return false;
      }
      assert recipients[..i] == recipients;
      tables := tx;
      committed := true;
    }

    // OpenPOP3Mailbox: creates the mailbox when needed and lists it.
    method OpenPOP3Mailbox(rawAddress: string, works: bool) returns (snapshot: Option<Snapshot>)
      requires Valid()
      modifies this`tables
      ensures Valid()
      ensures snapshot.Some? <==> works && Address(rawAddress) != ""
      ensures tables == if snapshot.Some? then old(tables).WithMailbox(Address(rawAddress)) else old(tables)
      ensures snapshot.Some? ==>
        && snapshot.value.generation == generation
        && Lists(tables, tables.mailboxes[Address(rawAddress)], snapshot.value.messages)
    {
      var address := Address(rawAddress);
      if address == "" || !works {
        return None;
      }
      tables := tables.WithMailbox(address);
      var listing := ListMailbox(tables.mailboxes[address]);
      snapshot := Some(Snapshot(listing, generation));
    }

    method Earliest(ids: set<nat>) returns (first: nat)
      requires ids != {} && forall id :: id in ids ==> id in tables.messages
      ensures first in ids && forall id :: id in ids && id != first ==> Before(tables.messages, first, id)
    {
      first :| first in ids;
      var checked := {first};
      while checked != ids
        invariant first in checked && checked <= ids
        invariant forall id :: id in checked && id != first ==> Before(tables.messages, first, id)
        decreases ids - checked
      {
        var id :| id in ids && id !in checked;
        if Before(tables.messages, id, first) {
          first := id;
        }
        checked := checked + {id};
      }
    }

    // SELECT id,raw ... ORDER BY received_at ASC,id ASC
    method ListMailbox(mailbox: nat) returns (listing: seq<Pop3Message>)
      ensures Lists(tables, mailbox, listing)
    {
      var rest := set id | id in tables.messages && tables.messages[id].mailbox == mailbox;
      listing := [];
      while rest != {}
        invariant forall id :: id in rest ==> id in tables.messages && tables.messages[id].mailbox == mailbox
        invariant forall k :: 0 <= k < |listing| ==>
          && listing[k].id in tables.messages
          && tables.messages[listing[k].id].mailbox == mailbox
          && tables.messages[listing[k].id].raw == listing[k].raw
        invariant forall j, k :: 0 <= j < k < |listing| ==> Before(tables.messages, listing[j].id, listing[k].id)
        invariant forall k, id :: 0 <= k < |listing| && id in rest ==> Before(tables.messages, listing[k].id, id)
        invariant forall id :: id in tables.messages && tables.messages[id].mailbox == mailbox && id !in rest ==>
          Pop3Message(id, tables.messages[id].raw) in listing
        decreases |rest|
      {
        var first := Earliest(rest);
        listing := listing + [Pop3Message(first, tables.messages[first].raw)];
        rest := rest - {first};
      }
    }

    method DeletePOP3Messages(generation: nat, ids: seq<nat>, works: bool)
      requires Valid()
      modifies this`tables
      ensures Valid()
      ensures tables == if works && generation == this.generation then old(tables).Without(SetOf(ids)) else old(tables)
    {
      if generation != this.generation || |ids| == 0 || !works {
        assert |ids| == 0 ==> tables.messages - SetOf(ids) == tables.messages;
        return;
      }
      tables := tables.Without(SetOf(ids));
    }

    method DeleteMessages(ids: seq<nat>, works: bool)
      requires Valid()
      modifies this`tables
      ensures Valid()
      ensures tables == if works then old(tables).Without(SetOf(ids)) else old(tables)
    {
      if |ids| == 0 {
        assert tables.messages - SetOf(ids) == tables.messages;
        return;
      }
      if works {
        tables := tables.Without(SetOf(ids));
      }
    }

    method DeleteMailbox(id: nat, works: bool)
      requires Valid()
      modifies this`tables
      ensures Valid()
      ensures tables == if works then MailboxDeleted(old(tables), id) else old(tables)
    {
      if works {
        tables := MailboxDeleted(tables, id);
      }
    }

    // WipeAll restarts the id counters, so it also starts a new generation.
    method WipeAll(works: bool)
      requires Valid()
      modifies this
      ensures Valid()
      ensures Current() == if works then State(EMPTY_TABLES, old(generation) + 1) else old(Current())
    {
      if works {
        tables := EMPTY_TABLES;
        generation := generation + 1;
      }
    }
  }
}
