/** Every interleaving of deliveries, deletions, resets, readers and POP3 sessions over one store. */
module Protocol {
  import opened Text
  import opened MailStore
  import opened Pop3Session

  // One committed step of the process; every step holds the POP3 lock. A step that fails changes nothing.
  datatype Step =
    | Deliver(recipients: seq<string>, raw: string, now: int)
    | DeleteMessages(ids: seq<nat>)
    | DeleteMailbox(mailbox: nat)
    | Wipe
    | SetRead(ids: seq<nat>, isRead: bool)
    | Read(id: nat)
    | Get(id: nat)
    | MarkRead(token: nat)
    | Connect
    | Say(k: nat, line: string, listing: seq<Pop3Message>, works: bool)
    | Drop(k: nat)
    | Nothing

  // Sessions and read tokens are numbered in order of appearance; a closed session is None.
  // `delivered` is history: every message ever seen, by generation and id.
  datatype World = World(
    state: State, sessions: seq<Option<Session>>, held: seq<Detail>, delivered: map<(nat, nat), Message>)

  function Moved(w: World, state: State): World {
    w.(state := state,
       delivered := w.delivered +
         map id | id in state.tables.messages && id !in w.state.tables.messages ::
           (state.generation, id) := state.tables.messages[id])
  }

  function ExecutedIn(w: World, step: Step): Result
    requires step.Say? && step.k < |w.sessions| && w.sessions[step.k].Some?
  {
    Executed(w.sessions[step.k].value, w.state, step.line, step.listing, step.works)
  }

  ghost predicate Enabled(w: World, step: Step) {
    match step
    case Get(id) => id in w.state.tables.messages
    case MarkRead(token) => token < |w.held|
    case Drop(k) => k < |w.sessions| && w.sessions[k].Some?
    case Say(k, line, listing, works) =>
      && k < |w.sessions| && w.sessions[k].Some?
      && var r := ExecutedIn(w, step);
         r.session.transaction && !w.sessions[k].value.transaction ==>
           Lists(r.state.tables, r.state.tables.mailboxes[Address(r.session.user)], listing)
    case _ => true
  }

  ghost function Apply(w: World, step: Step): World
    requires Enabled(w, step)
  {
    var tables := w.state.tables;
    match step
    case Deliver(recipients, raw, now) => Moved(w, w.state.(tables := Delivered(tables, recipients, raw, now)))
    case DeleteMessages(ids) => Moved(w, w.state.(tables := tables.Without(SetOf(ids))))
    case DeleteMailbox(mailbox) => Moved(w, w.state.(tables := MailboxDeleted(tables, mailbox)))
    case Wipe => Moved(w, State(EMPTY_TABLES, w.state.generation + 1))
    case SetRead(ids, isRead) => Moved(w, w.state.(tables := tables.Marked(SetOf(ids), isRead)))
    case Read(id) => Moved(w, w.state.(tables := tables.Marked({id}, true)))
    case Get(id) => w.(held := w.held + [Detail(id, tables.messages[id], w.state.generation)])
    case MarkRead(token) => Moved(w, DetailMarked(w.state, w.held[token]))
    case Connect => w.(sessions := w.sessions + [Some(NEW_SESSION)])
    case Say(k, line, listing, works) =>
      var r := ExecutedIn(w, step);
      Moved(w, r.state).(sessions := w.sessions[k := if r.closes then None else Some(r.session)])
    case Drop(k) => w.(sessions := w.sessions[k := None])
    case Nothing => w
  }

  // The invariant: identity of messages across id reuse.
  ghost predicate Inv(w: World) {
    var State(tables, generation) := w.state;
    && tables.Valid()
    && (forall id :: id in tables.messages ==>
          IsMail(w, generation, id, tables.messages[id]))
    && (forall key ::
          key in w.delivered ==> key.0 <= generation && (key.0 == generation ==> key.1 < tables.nextMessage))
    && (forall k :: 0 <= k < |w.sessions| && w.sessions[k].Some? ==> SessionInv(w, w.sessions[k].value))
    && (forall t :: 0 <= t < |w.held| ==> HeldInv(w, w.held[t]))
  }

  // The mail that the history knows under this generation and id.
  predicate IsMail(w: World, generation: nat, id: nat, message: Message) {
    (generation, id) in w.delivered && message.Same(w.delivered[(generation, id)])
  }

  // A session's snapshot holds messages of its own generation, with their bytes.
  ghost predicate SessionInv(w: World, s: Session) {
    forall m :: m in s.messages ==>
      (s.generation, m.id) in w.delivered && w.delivered[(s.generation, m.id)].raw == m.raw
  }

  ghost predicate HeldInv(w: World, detail: Detail) {
    IsMail(w, detail.generation, detail.id, detail.message)
  }

  ghost predicate Initial(w: World) {
    && w.state.tables.Valid() && w.state.generation == 0 && w.sessions == [] && w.held == []
    && w.delivered == map id | id in w.state.tables.messages :: (0 as nat, id) := w.state.tables.messages[id]
  }

  // What any store operation may do: within a generation messages stay the same mail and new ids are fresh.
  ghost predicate Evolves(before: State, after: State) {
    && after.tables.Valid()
    && if after.generation == before.generation then
         && before.tables.nextMessage <= after.tables.nextMessage
         && forall id :: id in after.tables.messages ==>
              id >= before.tables.nextMessage ||
              (id in before.tables.messages && after.tables.messages[id].Same(before.tables.messages[id]))
       else
         after.generation > before.generation && after.tables.messages == map[]
  }

  lemma {:induction false} DeliveredEvolves(tables: Tables, recipients: seq<string>, raw: string, now: int,
                                            generation: nat)
    requires tables.Valid()
    ensures Evolves(State(tables, generation), State(Delivered(tables, recipients, raw, now), generation))
  {
    if recipients != [] {
      DeliveredEvolves(tables, recipients[..|recipients| - 1], raw, now, generation);
    }
  }

  lemma {:induction false} ApplyEvolves(w: World, step: Step)
    requires w.state.tables.Valid() && Enabled(w, step)
    ensures Evolves(w.state, Apply(w, step).state)
  {
    hide Executed, Delivered, Address;
    match step
    case Deliver(recipients, raw, now) =>
      DeliveredEvolves(w.state.tables, recipients, raw, now, w.state.generation);
      hide Evolves;
    case Say(_, _, _, _) => SayEvolves(w, step);
    case _ => QuietEvolves(w, step);
  }

  lemma {:induction false} SayEvolves(w: World, step: Step)
    requires w.state.tables.Valid() && Enabled(w, step) && step.Say?
    ensures Evolves(w.state, Apply(w, step).state)
  {
    hide Executed;
    ExecutedEffect(w.sessions[step.k].value, w.state, step.line, step.listing, step.works);
  }

  lemma {:induction false} QuietEvolves(w: World, step: Step)
    requires w.state.tables.Valid() && Enabled(w, step) && !step.Say? && !step.Deliver?
    ensures Evolves(w.state, Apply(w, step).state)
  {
    hide Executed, Delivered, Address;
  }

  lemma {:induction false} MovedInv(w: World, state: State)
    requires Inv(w) && Evolves(w.state, state)
    ensures Inv(Moved(w, state)) && w.delivered.Keys <= Moved(w, state).delivered.Keys
    ensures forall key :: key in w.delivered ==> Moved(w, state).delivered[key] == w.delivered[key]
  {
    var moved := Moved(w, state);
    forall key | key in w.delivered ensures key in moved.delivered && moved.delivered[key] == w.delivered[key] {
      assert key.0 == state.generation ==> key.1 < w.state.tables.nextMessage;
    }
    forall k | 0 <= k < |w.sessions| && w.sessions[k].Some? ensures SessionInv(moved, w.sessions[k].value) {
      assert SessionInv(w, w.sessions[k].value);
    }
    forall t | 0 <= t < |w.held| ensures HeldInv(moved, w.held[t]) {
      assert HeldInv(w, w.held[t]);
    }
  }

  lemma {:induction false} StepInv(w: World, step: Step)
    requires Inv(w) && Enabled(w, step)
    ensures Inv(Apply(w, step))
  {
    assert w.state.tables.Valid();
    hide Executed, Delivered, Address, Inv, Evolves, Lists;
    ApplyEvolves(w, step);
    MovedInv(w, Apply(w, step).state);
    match step
    case Get(id) => GetInv(w, id);
    case Connect | Drop(_) => SessionsInv(w, Apply(w, step).sessions);
    case Say(k, line, listing, works) => SayInv(w, step);
    case _ =>
  }

  lemma {:induction false} GetInv(w: World, id: nat)
    requires Inv(w) && id in w.state.tables.messages
    ensures Inv(Apply(w, Get(id)))
  {
    var after := Apply(w, Get(id));
    forall k | 0 <= k < |after.sessions| && after.sessions[k].Some? ensures SessionInv(after, after.sessions[k].value) {
      assert SessionInv(w, w.sessions[k].value);
    }
    forall t | 0 <= t < |after.held| ensures HeldInv(after, after.held[t]) {
      assert t < |w.held| ==> HeldInv(w, w.held[t]);
    }
  }

  lemma {:induction false} SessionsInv(w: World, sessions: seq<Option<Session>>)
    requires Inv(w)
    requires forall k ::
               0 <= k < |sessions| && sessions[k].Some? && sessions[k] != Some(NEW_SESSION) ==>
               k < |w.sessions| && sessions[k] == w.sessions[k]
    ensures Inv(w.(sessions := sessions))
  {
    var after := w.(sessions := sessions);
    forall k | 0 <= k < |sessions| && sessions[k].Some? ensures SessionInv(after, sessions[k].value) {
      assert sessions[k] != Some(NEW_SESSION) ==> SessionInv(w, w.sessions[k].value);
    }
    forall t | 0 <= t < |w.held| ensures HeldInv(after, w.held[t]) {
      assert HeldInv(w, w.held[t]);
    }
  }

  lemma {:induction false} SayInv(w: World, step: Step)
    requires Inv(w) && Enabled(w, step) && step.Say?
    requires Inv(Moved(w, ExecutedIn(w, step).state))
    ensures Inv(Apply(w, step))
  {
    hide Executed;
    var s, r := w.sessions[step.k].value, ExecutedIn(w, step);
    var moved, after := Moved(w, r.state), Apply(w, step);
    ExecutedEffect(s, w.state, step.line, step.listing, step.works);
    if !r.closes {
      LoginInv(w, step);
      assert SessionInv(moved, s);
      assert SessionInv(after, r.session);
    }
    forall k | 0 <= k < |after.sessions| && after.sessions[k].Some? ensures SessionInv(after, after.sessions[k].value) {
      assert k != step.k ==> SessionInv(moved, w.sessions[k].value);
    }
    forall t | 0 <= t < |after.held| ensures HeldInv(after, after.held[t]) {
      assert HeldInv(moved, w.held[t]);
    }
  }

  lemma {:induction false} ListedMail(w: World, mailbox: nat, listing: seq<Pop3Message>)
    requires Inv(w) && Lists(w.state.tables, mailbox, listing)
    ensures forall m :: m in listing ==>
      (w.state.generation, m.id) in w.delivered && w.delivered[(w.state.generation, m.id)].raw == m.raw
  {
    forall m | m in listing ensures IsMail(w, w.state.generation, m.id, w.state.tables.messages[m.id]) {
      var i :| 0 <= i < |listing| && m == listing[i];
    }
  }

  // What a login lists are messages of the current generation.
  lemma {:induction false} LoginInv(w: World, step: Step)
    requires Inv(w) && Enabled(w, step) && step.Say?
    requires Inv(Moved(w, ExecutedIn(w, step).state))
    ensures var r := ExecutedIn(w, step);
      LogsIn(w.sessions[step.k].value, r.session) ==> SessionInv(Moved(w, r.state), r.session)
  {
    hide Executed, Evolves, HeldInv, Address, Inv, Lists;
    var s, r := w.sessions[step.k].value, ExecutedIn(w, step);
    ExecutedEffect(s, w.state, step.line, step.listing, step.works);
    if LogsIn(s, r.session) {
      ListedMail(Moved(w, r.state), r.state.tables.mailboxes[Address(r.session.user)], step.listing);
    }
  }

  ghost function At(init: World, steps: seq<Step>, i: nat): World
    requires i <= |steps| && ValidRun(init, steps, i)
    decreases i, 1
  {
    if i == 0 then init else Apply(At(init, steps, i - 1), steps[i - 1])
  }

  ghost predicate ValidRun(init: World, steps: seq<Step>, i: nat)
    requires i <= |steps|
    decreases i, 0
  {
    Initial(init) && (i == 0 || (ValidRun(init, steps, i - 1) && Enabled(At(init, steps, i - 1), steps[i - 1])))
  }

  lemma {:induction false} InitialInv(w: World)
    requires Initial(w)
    ensures Inv(w)
  {
  }

  // The invariant holds in every state of every run.
  lemma {:induction false} RunInv(init: World, steps: seq<Step>, i: nat)
    requires i <= |steps| && ValidRun(init, steps, i)
    ensures Inv(At(init, steps, i))
  {
    hide Inv, Apply, Enabled;
    if i == 0 {
      InitialInv(init);
    } else {
      RunInv(init, steps, i - 1);
      StepInv(At(init, steps, i - 1), steps[i - 1]);
    }
  }

  // A command deletes exactly what a committed QUIT has marked: messages of the session's own snapshot, still the
  // same mail, and nothing when the ids were reissued since. It changes no message that it leaves in place.
  lemma {:induction false} SayRemoves(w: World, step: Step, id: nat)
    requires Inv(w) && Enabled(w, step) && step.Say? && id in w.state.tables.messages
    ensures var s, after := w.sessions[step.k].value, Apply(w, step);
      && (id !in after.state.tables.messages <==>
            && Commits(s, step.line, step.works) && s.generation == w.state.generation
            && exists n :: 1 <= n <= |s.messages| && n in s.deleted && s.messages[n - 1].id == id)
      && (id in after.state.tables.messages ==> after.state.tables.messages[id] == w.state.tables.messages[id])
  {
    hide Executed, Inv, Lists;
    var s := w.sessions[step.k].value;
    ExecutedEffect(s, w.state, step.line, step.listing, step.works);
    DeletedIdsAre(s, |s.messages|, id);
  }

  lemma {:induction false} SnapshotMail(w: World, k: nat, n: nat)
    requires Inv(w) && k < |w.sessions| && w.sessions[k].Some?
    requires var s := w.sessions[k].value; 1 <= n <= |s.messages| && s.generation == w.state.generation
    ensures var s := w.sessions[k].value; var m := s.messages[n - 1];
      m.id in w.state.tables.messages ==>
        w.state.tables.messages[m.id].raw == m.raw
        && IsMail(w, w.state.generation, m.id, w.state.tables.messages[m.id])
  {
    var s := w.sessions[k].value;
    assert SessionInv(w, s) && s.messages[n - 1] in s.messages;
  }

  // MarkReadDetail changes at most the read flag of the very message its token was read from.
  lemma {:induction false} MarkReadFence(w: World, token: nat, id: nat)
    requires Inv(w) && token < |w.held| && id in w.state.tables.messages
    ensures var detail, after := w.held[token], Apply(w, MarkRead(token)).state.tables.messages;
      && after.Keys == w.state.tables.messages.Keys
      && (after[id] != w.state.tables.messages[id] ==>
            && detail.generation == w.state.generation && detail.id == id && !detail.message.isRead
            && w.state.tables.messages[id].Same(detail.message)
            && after[id] == w.state.tables.messages[id].(isRead := true))
  {
    assert HeldInv(w, w.held[token]);
  }

  // Step i was a DELE that session k accepted for message number n.
  ghost predicate Accepted(init: World, steps: seq<Step>, k: nat, i: nat, n: int)
    requires i < |steps| && ValidRun(init, steps, i)
  {
    var w, step := At(init, steps, i), steps[i];
    && step.Say? && step.k == k && k < |w.sessions| && w.sessions[k].Some? && w.sessions[k].value.transaction
    && var command := ParseCommand(step.line);
       command.name == "DELE" && w.sessions[k].value.MessageNumber(command.argument, command.hasArgument) == Some(n)
  }

  // Step i was a RSET that session k accepted.
  ghost predicate Reset(init: World, steps: seq<Step>, k: nat, i: nat)
    requires i < |steps| && ValidRun(init, steps, i)
  {
    var w, step := At(init, steps, i), steps[i];
    && step.Say? && step.k == k && k < |w.sessions| && w.sessions[k].Some? && w.sessions[k].value.transaction
    && var command := ParseCommand(step.line);
       command.name == "RSET" && !command.hasArgument
  }

  lemma {:induction false} ValidPrefix(init: World, steps: seq<Step>, i: nat, j: nat)
    requires j <= i <= |steps| && ValidRun(init, steps, i)
    ensures ValidRun(init, steps, j)
  {
    if j < i {
      ValidPrefix(init, steps, i - 1, j);
    }
  }

  // Before step i, n was accepted and not reset since.
  ghost predicate StandsMarked(init: World, steps: seq<Step>, k: nat, i: nat, n: int)
    requires i <= |steps| && ValidRun(init, steps, i)
    decreases i
  {
    i > 0 && (Accepted(init, steps, k, i - 1, n)
      || (!Reset(init, steps, k, i - 1) && StandsMarked(init, steps, k, i - 1, n)))
  }

  lemma {:induction false} StandsMarkedMeans(init: World, steps: seq<Step>, k: nat, i: nat, n: int)
    requires i <= |steps| && ValidRun(init, steps, i)
    ensures forall j: nat :: j < i ==> ValidRun(init, steps, j)
    ensures StandsMarked(init, steps, k, i, n) <==>
      exists a: nat ::
        a < i && Accepted(init, steps, k, a, n) && forall j: nat :: a < j < i ==> !Reset(init, steps, k, j)
  {
    hide Accepted, Reset, At, Enabled, Initial;
    forall j: nat | j < i ensures ValidRun(init, steps, j) { ValidPrefix(init, steps, i, j); }
    if i > 0 {
      StandsMarkedMeans(init, steps, k, i - 1, n);
    }
  }

  // The marks of a session are the numbers accepted since its last RSET; outside the transaction state none was.
  lemma {:induction false} MarksAre(init: World, steps: seq<Step>, k: nat, i: nat, n: int)
    requires i <= |steps| && ValidRun(init, steps, i)
    ensures var w := At(init, steps, i);
      if k >= |w.sessions| then !StandsMarked(init, steps, k, i, n)
      else if w.sessions[k].None? then true
      else if w.sessions[k].value.transaction
        then n in w.sessions[k].value.deleted <==> StandsMarked(init, steps, k, i, n)
      else !StandsMarked(init, steps, k, i, n)
  {
    hide Executed, Lists, Moved, Delivered, MailboxDeleted, DetailMarked, ParseCommand;
    if i > 0 {
      var w, step := At(init, steps, i - 1), steps[i - 1];
      MarksAre(init, steps, k, i - 1, n);
      SessionsAfter(w, step, k);
      if step.Say? && step.k == k {
        MarksStep(w, step, n);
      }
    }
  }

  // A step touches no session but the one that speaks or drops; new sessions start outside the transaction state.
  lemma {:induction false} SessionsAfter(w: World, step: Step, k: nat)
    requires Enabled(w, step)
    ensures var after := Apply(w, step).sessions;
      if k >= |w.sessions| then k < |after| ==> after[k] == Some(NEW_SESSION)
      else if step.Say? && step.k == k then
        k < |after| && (after[k].None? || after[k] == Some(ExecutedIn(w, step).session))
      else k < |after| && (after[k].None? || after[k] == w.sessions[k])
  {
  }

  lemma {:induction false} MarksStep(w: World, step: Step, n: int)
    requires Enabled(w, step) && step.Say?
    ensures var s, r := w.sessions[step.k].value, ExecutedIn(w, step).session; var command := ParseCommand(step.line);
      && (LogsIn(s, r) ==> r.deleted == {})
      && (s.transaction ==> (n in r.deleted <==>
            || (command.name == "DELE" && s.MessageNumber(command.argument, command.hasArgument) == Some(n))
            || (!(command.name == "RSET" && !command.hasArgument) && n in s.deleted)))
      && (s.transaction ==> r.transaction) && (!s.transaction && !LogsIn(s, r) ==> !r.transaction)
  {
    hide ParseCommand, Address, Top, Lists, Session.Octets, Session.Count, Session.Rows, Session.MessageNumber,
      Session.DeletedIds;
  }

  // The safety of POP3 deletion, over every run: a command removes a message only if it is a QUIT that the session
  // committed, the message is in that session's own snapshot and is still the same mail, and a DELE for it was
  // accepted with no RSET since.
  lemma {:induction false} DeletionSafety(init: World, steps: seq<Step>, i: nat, id: nat)
    requires i < |steps| && ValidRun(init, steps, i + 1) && steps[i].Say?
    requires id in At(init, steps, i).state.tables.messages && id !in At(init, steps, i + 1).state.tables.messages
    ensures var w, k := At(init, steps, i), steps[i].k; var s := w.sessions[k].value;
      && Commits(s, steps[i].line, steps[i].works) && s.generation == w.state.generation
      && exists n :: 1 <= n <= |s.messages| && s.messages[n - 1] == Pop3Message(id, w.state.tables.messages[id].raw)
           && IsMail(w, s.generation, id, w.state.tables.messages[id])
           && StandsMarked(init, steps, k, i, n)
  {
    var w, k := At(init, steps, i), steps[i].k;
    var s := w.sessions[k].value;
    RunInv(init, steps, i);
    SayRemoves(w, steps[i], id);
    var n :| 1 <= n <= |s.messages| && n in s.deleted && s.messages[n - 1].id == id;
    SnapshotMail(w, k, n);
    MarksAre(init, steps, k, i, n);
  }

  // And over every run a read token marks only the message it was read from, even after ids were reissued.
  lemma {:induction false} ReadFenceSafety(init: World, steps: seq<Step>, i: nat, id: nat)
    requires i < |steps| && ValidRun(init, steps, i + 1) && steps[i].MarkRead?
    requires id in At(init, steps, i).state.tables.messages
    ensures var w, after := At(init, steps, i), At(init, steps, i + 1); var detail := w.held[steps[i].token];
      after.state.tables.messages.Keys == w.state.tables.messages.Keys &&
      (after.state.tables.messages[id] != w.state.tables.messages[id] ==>
        && (detail.generation, detail.id) == (w.state.generation, id)
        && IsMail(w, w.state.generation, id, detail.message)
        && IsMail(w, w.state.generation, id, w.state.tables.messages[id]))
  {
    var w := At(init, steps, i);
    RunInv(init, steps, i);
    MarkReadFence(w, steps[i].token, id);
    assert HeldInv(w, w.held[steps[i].token]);
  }
}
