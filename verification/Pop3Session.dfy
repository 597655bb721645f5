/** The POP3 session (internal/pop3server/pop3server.go; sections 4 to 6 of RFC 1939). */
module Pop3Session {
  import opened Text
  import opened MailStore
  import DotStuffing

  // A reply: an error, or a status line with its numbers, perhaps followed by a multi-line payload or a scan listing.
  datatype Reply = Error | Status(numbers: seq<int>) | Payload(numbers: seq<int>, data: string)
                 | Listing(numbers: seq<int>, rows: seq<(nat, nat)>)

  // Fields of `session`; message numbers start at 1.
  datatype Session = Session(
    transaction: bool, user: string, messages: seq<Pop3Message>, generation: nat, deleted: set<int>)
  {
    predicate Available(number: int) {
      1 <= number <= |messages| && number !in deleted
    }

    // The ids of the messages, among the first k, whose numbers are marked.
    function DeletedIds(k: nat): seq<nat>
      requires k <= |messages|
    {
      if k == 0 then [] else DeletedIds(k - 1) + if k in deleted then [messages[k - 1].id] else []
    }

    function Octets(k: nat): nat
      requires k <= |messages|
    {
      if k == 0 then 0 else Octets(k - 1) + if k in deleted then 0 else |messages[k - 1].raw|
    }

    function Count(k: nat): nat
      requires k <= |messages|
    {
      if k == 0 then 0 else Count(k - 1) + if k in deleted then 0 else 1
    }

    // The rows of LIST or UIDL over the first k messages.
    function Rows(k: nat, sizes: bool): seq<(nat, nat)>
      requires k <= |messages|
    {
      if k == 0 then []
      else if k in deleted then Rows(k - 1, sizes)
      else Rows(k - 1, sizes) + [(k, if sizes then |messages[k - 1].raw| else messages[k - 1].id)]
    }

    function MessageNumber(argument: string, hasArgument: bool): Option<nat> {
      if !hasArgument || ' ' in argument || '\t' in argument then None
      else
        match Atoi(argument)
        case None => None
        case Some(number) => if Available(number) then Some(number) else None
    }
  }

  const NEW_SESSION := Session(false, "", [], 0, {})

  datatype Result = Result(session: Session, state: State, reply: Reply, closes: bool)

  datatype Command = Command(name: string, argument: string, hasArgument: bool)

  function SpaceIndex(s: string, i: nat): (r: nat)
    requires i <= |s|
    ensures i <= r <= |s|
    decreases |s| - i
  {
    if i == |s| || s[i] == ' ' || s[i] == '\t' then i else SpaceIndex(s, i + 1)
  }

  function ParseCommand(rawLine: string): Command {
    var line := Trim(rawLine);
    var index := SpaceIndex(line, 0);
    var argument := Trim(line[index..]);
    Command(Upper(line[..index]), argument, argument != "")
  }

  // One command. `listing` is what a successful PASS is given; `works` says whether the store carries its part out.
  function Executed(s: Session, st: State, line: string, listing: seq<Pop3Message>, works: bool): Result {
    var Command(name, argument, hasArgument) := ParseCommand(line);
    var failed := Result(s, st, Error, false);
    if name == "" then failed
    else if name == "CAPA" then
      if hasArgument then failed else Result(s, st, Payload([], "USER\r\nUIDL\r\nTOP\r\n"), false)
    else if name == "QUIT" then
      if hasArgument then failed
      else if s.transaction && s.DeletedIds(|s.messages|) != [] then
        if works then Result(s, Expunged(s, st), Status([]), true) else Result(s, st, Error, true)
      else Result(s, st, Status([]), true)
    else if name == "USER" then
      if s.transaction || !hasArgument || Trim(argument) == "" || ' ' in argument || '\t' in argument then failed
      else Result(s.(user := argument), st, Status([]), false)
    else if name == "PASS" then
      if s.transaction || s.user == "" || !hasArgument || !works || Address(s.user) == "" then failed
      else
        Result(Session(true, s.user, listing, st.generation, {}),
          st.(tables := st.tables.WithMailbox(Address(s.user))), Status([|listing|]), false)
    else if !s.transaction then failed
    else
      var (session, reply) := Transaction(s, name, argument, hasArgument);
      Result(session, st, reply, false)
  }

  function Expunged(s: Session, st: State): State {
    if s.generation == st.generation then st.(tables := st.tables.Without(SetOf(s.DeletedIds(|s.messages|)))) else st
  }

  function Transaction(s: Session, name: string, argument: string, hasArgument: bool): (Session, Reply) {
    var number := s.MessageNumber(argument, hasArgument);
    var n := |s.messages|;
    if name == "STAT" then
      (s, if hasArgument then Error else Status([s.Count(n), s.Octets(n)]))
    else if name == "LIST" then
      (s, if !hasArgument then Listing([s.Count(n), s.Octets(n)], s.Rows(n, true))
          else if number.None? then Error else Status([number.value, |s.messages[number.value - 1].raw|]))
    else if name == "UIDL" then
      (s, if !hasArgument then Listing([], s.Rows(n, false))
          else if number.None? then Error else Status([number.value, s.messages[number.value - 1].id]))
    else if name == "RETR" then
      (s, if number.None? then Error
        else Payload([|s.messages[number.value - 1].raw|], s.messages[number.value - 1].raw))
    else if name == "TOP" then
      (s, Top(s, argument, hasArgument))
    else if name == "DELE" then
      if number.None? then (s, Error) else (s.(deleted := s.deleted + {number.value}), Status([]))
    else if name == "RSET" then
      if hasArgument then (s, Error)
      else
        var cleared := s.(deleted := {});
        (cleared, Status([cleared.Count(n), cleared.Octets(n)]))
    else if name == "NOOP" then
      (s, if hasArgument then Error else Status([]))
    else (s, Error)
  }

  function Top(s: Session, argument: string, hasArgument: bool): Reply {
    var fields := Fields(argument);
    if !hasArgument || |fields| != 2 then Error
    else
      match (Atoi(fields[0]), Atoi(fields[1]))
      case (Some(number), Some(lines)) =>
        if lines < 0 || !s.Available(number) then Error
        else
          var raw := s.messages[number - 1].raw;
          Payload([], raw[..DotStuffing.TopLength(raw, lines)])
      case _ => Error
  }

  function Total(rows: seq<(nat, nat)>): nat {
    if rows == [] then 0 else Total(rows[..|rows| - 1]) + Last(rows).1
  }

  // The numbers of a status line and the rows below it tell the same.
  lemma {:induction false} TotalsAgree(s: Session, k: nat)
    requires k <= |s.messages|
    ensures var rows := s.Rows(k, true); |rows| == s.Count(k) && Total(rows) == s.Octets(k)
  {
    if k > 0 {
      TotalsAgree(s, k - 1);
      var before, row := s.Rows(k - 1, true), (k, |s.messages[k - 1].raw|);
      assert (before + [row])[..|before|] == before;
      assert before + [] == before;
    }
  }

  predicate HasRow(rows: seq<(nat, nat)>, n: nat) {
    exists i :: 0 <= i < |rows| && rows[i].0 == n
  }

  lemma {:induction false} RowAdded(rows: seq<(nat, nat)>, row: (nat, nat), n: nat)
    ensures HasRow(rows + [row], n) <==> HasRow(rows, n) || n == row.0
  {
    var more := rows + [row];
    if HasRow(rows, n) {
      var i :| 0 <= i < |rows| && rows[i].0 == n;
      assert more[i].0 == n;
    }
    assert more[|rows|] == row;
  }

  // Every available message has its row, in order, and nothing else has one.
  lemma {:induction false} RowsAre(s: Session, k: nat, sizes: bool, n: nat)
    requires k <= |s.messages|
    ensures var rows := s.Rows(k, sizes);
      && (HasRow(rows, n) <==> n <= k && s.Available(n))
      && (forall i :: 0 <= i < |rows| ==>
            1 <= rows[i].0 <= k && rows[i].1 ==
              if sizes then |s.messages[rows[i].0 - 1].raw| else s.messages[rows[i].0 - 1].id)
      && (forall i, j :: 0 <= i < j < |rows| ==> rows[i].0 < rows[j].0)
  {
    if k > 0 {
      RowsAre(s, k - 1, sizes, n);
      assert s.Rows(k - 1, sizes) + [] == s.Rows(k - 1, sizes);
      RowAdded(s.Rows(k - 1, sizes), (k, if sizes then |s.messages[k - 1].raw| else s.messages[k - 1].id), n);
      hide HasRow;
    }
  }

  // The marked numbers and the ids that QUIT deletes are the same messages.
  lemma {:induction false} DeletedIdsAre(s: Session, k: nat, id: nat)
    requires k <= |s.messages|
    ensures id in s.DeletedIds(k) <==> exists n :: 1 <= n <= k && n in s.deleted && s.messages[n - 1].id == id
  {
    if k > 0 {
      DeletedIdsAre(s, k - 1, id);
      if id in s.DeletedIds(k) && id !in s.DeletedIds(k - 1) {
        assert k in s.deleted && s.messages[k - 1].id == id;
      }
    }
  }

  // Only an argument-free QUIT of a session in the transaction state, carried out by the store, deletes anything.
  predicate Commits(s: Session, line: string, works: bool) {
    var command := ParseCommand(line);
    command.name == "QUIT" && !command.hasArgument && s.transaction && works
  }

  // Only a PASS changes the snapshot, the generation or the state of a session.
  predicate LogsIn(s: Session, after: Session) {
    !s.transaction && after.transaction
  }

  lemma {:induction false} TransactionEffect(s: Session, name: string, argument: string, hasArgument: bool)
    ensures Transaction(s, name, argument, hasArgument).0 ==
      s.(deleted := Transaction(s, name, argument, hasArgument).0.deleted)
  {
  }

  lemma {:induction false} ExecutedEffect(s: Session, st: State, line: string, listing: seq<Pop3Message>, works: bool)
    ensures var r := Executed(s, st, line, listing, works);
      && (if Commits(s, line, works) then r.state == Expunged(s, st) && r.closes
          else if LogsIn(s, r.session) then r.state == st.(tables := st.tables.WithMailbox(Address(r.session.user)))
          else r.state == st)
      && (if LogsIn(s, r.session) then
            r.session == Session(true, s.user, listing, st.generation, {})
          else
            r.session.transaction == s.transaction && r.session.messages == s.messages
              && r.session.generation == s.generation)
  {
    hide Transaction, ParseCommand, Trim, Address;
    var command := ParseCommand(line);
    TransactionEffect(s, command.name, command.argument, command.hasArgument);
    if Commits(s, line, works) && s.DeletedIds(|s.messages|) == [] {
      assert st.tables.messages - SetOf([]) == st.tables.messages;
    }
  }

  class Connection {
    const store: Store
    var transaction: bool
    var user: string
    var messages: seq<Pop3Message>
    var generation: nat
    var deleted: set<int>

    constructor (store: Store)
      ensures this.store == store && Current() == NEW_SESSION
    {
      this.store := store;
      transaction, user, messages, generation, deleted := false, "", [], 0, {};
    }

    function Current(): Session
      reads this
    {
      Session(transaction, user, messages, generation, deleted)
    }

    method Execute(line: string, works: bool) returns (reply: Reply, closes: bool, ghost listing: seq<Pop3Message>)
      requires store.Valid()
      modifies this, store`tables
      ensures store.Valid()
      ensures Result(Current(), store.Current(), reply, closes)
        == Executed(old(Current()), old(store.Current()), line, listing, works)
      ensures !old(transaction) && transaction ==>
        Lists(store.tables, store.tables.mailboxes[Address(user)], listing)
    {
      reply, closes, listing := Error, false, [];
      var Command(command, argument, hasArgument) := ParseCommand(line);
      if command == "" {
      } else if command == "CAPA" {
        if !hasArgument {
          reply := Payload([], "USER\r\nUIDL\r\nTOP\r\n");
        }
      } else if command == "QUIT" {
        if !hasArgument {
          reply := Quit(works);
          closes := true;
        }
      } else if command == "USER" {
        if !transaction && hasArgument && Trim(argument) != "" && !(' ' in argument || '\t' in argument) {
          user := argument;
          reply := Status([]);
        }
      } else if command == "PASS" {
        if !transaction && user != "" && hasArgument {
          var snapshot := store.OpenPOP3Mailbox(user, works);
          if snapshot.Some? {
            listing := snapshot.value.messages;
            messages, generation, deleted, transaction := snapshot.value.messages, snapshot.value.generation, {}, true;
            reply := Status([|messages|]);
          }
        }
      } else if transaction {
        reply := ExecuteTransaction(command, argument, hasArgument);
      }
    }

    method Quit(works: bool) returns (reply: Reply)
      requires store.Valid()
      modifies store`tables
      ensures store.Valid()
      ensures reply == if transaction && Current().DeletedIds(|messages|) != [] && !works then Error else Status([])
      ensures store.Current() ==
        if transaction && Current().DeletedIds(|messages|) != [] && works then Expunged(Current(), old(store.Current()))
        else old(store.Current())
    {
      reply := Status([]);
      if transaction {
        var ids := MarkedIds();
        if |ids| > 0 {
          store.DeletePOP3Messages(generation, ids, works);
          if !works {
            reply := Error;
          }
        }
      }
    }

    // deletedIDs
    method MarkedIds() returns (ids: seq<nat>)
      ensures ids == Current().DeletedIds(|messages|)
    {
      ids := [];
      for k := 0 to |messages|
        invariant ids == Current().DeletedIds(k)
      {
        if k + 1 in deleted {
          ids := ids + [messages[k].id];
        }
      }
    }

    method MaildropStats() returns (count: nat, octets: nat)
      ensures count == Current().Count(|messages|) && octets == Current().Octets(|messages|)
    {
      count, octets := 0, 0;
      for k := 0 to |messages|
        invariant count == Current().Count(k) && octets == Current().Octets(k)
      {
        if k + 1 !in deleted {
          count, octets := count + 1, octets + |messages[k].raw|;
        }
      }
    }

    method ScanListing(sizes: bool) returns (rows: seq<(nat, nat)>)
      ensures rows == Current().Rows(|messages|, sizes)
    {
      rows := [];
      for k := 0 to |messages|
        invariant rows == Current().Rows(k, sizes)
      {
        if k + 1 !in deleted {
          rows := rows + [(k + 1, if sizes then |messages[k].raw| else messages[k].id)];
        }
      }
    }

    method ExecuteTransaction(command: string, argument: string, hasArgument: bool) returns (reply: Reply)
      modifies this`deleted
      ensures (Current(), reply) == Transaction(old(Current()), command, argument, hasArgument)
    {
      reply := Error;
      var number := Current().MessageNumber(argument, hasArgument);
      if command == "STAT" {
        if !hasArgument {
          var count, octets := MaildropStats();
          reply := Status([count, octets]);
        }
      } else if command == "LIST" || command == "UIDL" {
        if !hasArgument {
          var rows := ScanListing(command == "LIST");
          if command == "LIST" {
            var count, octets := MaildropStats();
            reply := Listing([count, octets], rows);
          } else {
            reply := Listing([], rows);
          }
        } else if number.Some? {
          var message := messages[number.value - 1];
          reply := Status([number.value, if command == "LIST" then |message.raw| else message.id]);
        }
      } else if command == "RETR" {
        if number.Some? {
          var raw := messages[number.value - 1].raw;
          reply := Payload([|raw|], raw);
        }
      } else if command == "TOP" {
        reply := TopReply(argument, hasArgument);
      } else if command == "DELE" {
        if number.Some? {
          deleted := deleted + {number.value};
          reply := Status([]);
        }
      } else if command == "RSET" {
        if !hasArgument {
          deleted := {};
          var count, octets := MaildropStats();
          reply := Status([count, octets]);
        }
      } else if command == "NOOP" {
        if !hasArgument {
          reply := Status([]);
        }
      }
    }

    method TopReply(argument: string, hasArgument: bool) returns (reply: Reply)
      ensures reply == Top(Current(), argument, hasArgument)
    {
      var fields := Fields(argument);
      if !hasArgument || |fields| != 2 {
        return Error;
      }
      var number, lineCount := Atoi(fields[0]), Atoi(fields[1]);
      if number.None? || lineCount.None? || lineCount.value < 0 || !Current().Available(number.value) {
        return Error;
      }
      var data := DotStuffing.TopBytes(messages[number.value - 1].raw, lineCount.value);
      reply := Payload([], data);
    }
  }
}
