/** The running process: one store, its POP3 connections and the details its readers hold, asked one thing at a time. */
module Serving {
  import opened Text
  import opened MailStore
  import opened Pop3Session
  import opened Protocol

  // What the process is asked for. `works` and `failAt` say whether the database carries it out.
  datatype Request =
    | Deliver(recipients: seq<string>, raw: string, now: int, failAt: nat)
    | DeleteMessages(ids: seq<nat>, works: bool)
    | DeleteMailbox(mailbox: nat, works: bool)
    | Wipe(works: bool)
    | SetRead(ids: seq<nat>, isRead: bool, works: bool)
    | Read(id: nat, works: bool)
    | Get(id: nat, works: bool)
    | MarkRead(token: nat, works: bool)
    | Connect
    | Say(k: nat, line: string, works: bool)
    | Drop(k: nat)

  datatype Answer = Silent | Shown(detail: Option<Detail>) | Spoken(reply: Reply, closes: bool)

  predicate Listens(w: World, k: nat) {
    k < |w.sessions| && w.sessions[k].Some?
  }

  // The step a request is in a world: itself, or nothing if it fails or asks for what is not there.
  // A login's listing is the store's choice.
  ghost predicate Serves(w: World, request: Request, step: Step) {
    match request
    case Deliver(recipients, raw, now, failAt) =>
      step == if failAt > |recipients| then Step.Deliver(recipients, raw, now) else Nothing
    case DeleteMessages(ids, works) => step == if works then Step.DeleteMessages(ids) else Nothing
    case DeleteMailbox(mailbox, works) => step == if works then Step.DeleteMailbox(mailbox) else Nothing
    case Wipe(works) => step == if works then Step.Wipe else Nothing
    case SetRead(ids, isRead, works) => step == if works then Step.SetRead(ids, isRead) else Nothing
    case Read(id, works) => step == if works then Step.Read(id) else Nothing
    case Get(id, works) => step == if works && id in w.state.tables.messages then Step.Get(id) else Nothing
    case MarkRead(token, works) => step == if works && token < |w.held| then Step.MarkRead(token) else Nothing
    case Connect => step == Step.Connect
    case Say(k, line, works) =>
      if Listens(w, k) then step.Say? && step == Step.Say(k, line, step.listing, works) else step == Nothing
    case Drop(k) => step == if Listens(w, k) then Step.Drop(k) else Nothing
  }

  // What the one who asked is told. Only GetMessage stamps the detail with a generation.
  ghost function Told(w: World, request: Request, step: Step): Answer
    requires Enabled(w, step)
  {
    match request
    case Read(id, works) =>
      Shown(if works && id in w.state.tables.messages then Some(Detail(id, w.state.tables.messages[id], 0)) else None)
    case Get(id, works) =>
      Shown(if works && id in w.state.tables.messages
        then Some(Detail(id, w.state.tables.messages[id], w.state.generation)) else None)
    case Say(k, line, works) =>
      if step.Say? then Spoken(ExecutedIn(w, step).reply, ExecutedIn(w, step).closes) else Silent
    case _ => Silent
  }

  function Start(tables: Tables): World {
    World(State(tables, 0), [], [], map id | id in tables.messages :: (0 as nat, id) := tables.messages[id])
  }

  // The objects are in the state that the world describes.
  ghost predicate Mirrors(w: World, store: Store, connections: seq<Connection?>, held: seq<Detail>)
    reads store, set c | c in connections && c != null
  {
    && store.Valid() && w.state == store.Current() && w.held == held && |connections| == |w.sessions|
    && (forall k :: 0 <= k < |connections| && connections[k] == null ==> w.sessions[k] == None)
    && (forall k :: 0 <= k < |connections| && connections[k] != null ==>
          connections[k].store == store && w.sessions[k] == Some(connections[k].Current()))
    && (forall j, k :: 0 <= j < k < |connections| && connections[j] != null ==> connections[j] != connections[k])
  }

  // Requests that only the store answers.
  predicate ToStore(request: Request) {
    !request.Connect? && !request.Say? && !request.Drop?
  }

  method AskStore(store: Store, held: seq<Detail>, request: Request, ghost w: World)
    returns (answer: Answer, nowHeld: seq<Detail>, ghost step: Step)
    requires ToStore(request) && store.Valid() && w.state == store.Current() && w.held == held
    modifies store
    ensures store.Valid() && Serves(w, request, step) && Enabled(w, step) && answer == Told(w, request, step)
    ensures var after := Apply(w, step);
      after.state == store.Current() && after.held == nowHeld && after.sessions == w.sessions
  {
    hide Delivered, MailboxDeleted, Executed, Lists;
    answer, nowHeld, step := Silent, held, Nothing;
    match request {
      case Deliver(recipients, raw, now, failAt) =>
        var committed := store.StoreMessage(recipients, raw, now, failAt);
        step := if committed then Step.Deliver(recipients, raw, now) else Nothing;
      case DeleteMessages(ids, works) =>
        store.DeleteMessages(ids, works);
        step := if works then Step.DeleteMessages(ids) else Nothing;
      case DeleteMailbox(mailbox, works) =>
        store.DeleteMailbox(mailbox, works);
        step := if works then Step.DeleteMailbox(mailbox) else Nothing;
      case Wipe(works) =>
        store.WipeAll(works);
        step := if works then Step.Wipe else Nothing;
      case SetRead(ids, isRead, works) =>
        store.SetReadState(ids, isRead, works);
        step := if works then Step.SetRead(ids, isRead) else Nothing;
      case Read(id, works) =>
        var detail := store.ReadMessage(id, works);
        answer, step := Shown(detail), if works then Step.Read(id) else Nothing;
      case Get(id, works) =>
        var detail := store.GetMessage(id, works);
        answer := Shown(detail);
        if detail.Some? {
          nowHeld, step := held + [detail.value], Step.Get(id);
        }
      case MarkRead(token, works) =>
        if token < |held| {
          store.MarkReadDetail(held[token], works);
          step := if works then Step.MarkRead(token) else Nothing;
        }
    }
  }

  method Hear(store: Store, connections: seq<Connection?>, k: nat, line: string, works: bool, ghost w: World)
    returns (answer: Answer, open: seq<Connection?>, ghost step: Step)
    requires Mirrors(w, store, connections, w.held) && k < |connections| && connections[k] != null
    modifies store, set c | c in connections && c != null
    ensures Serves(w, Request.Say(k, line, works), step) && Enabled(w, step)
    ensures answer == Told(w, Request.Say(k, line, works), step)
    ensures (forall c :: c in open ==> c in connections || c == null) && Mirrors(Apply(w, step), store, open, w.held)
  {
    hide Executed, Lists;
    var connection := connections[k];
    var reply, closes, listing := connection.Execute(line, works);
    answer, step := Spoken(reply, closes), Step.Say(k, line, listing, works);
    open := connections[k := if closes then null else connection];
  }

  method Answered(store: Store, connections: seq<Connection?>, held: seq<Detail>, request: Request, ghost w: World)
    returns (answer: Answer, open: seq<Connection?>, nowHeld: seq<Detail>, ghost step: Step)
    requires Mirrors(w, store, connections, held)
    modifies store, set c | c in connections && c != null
    ensures Enabled(w, step) && Fits(w, request, step, answer)
    ensures (forall c :: c in open && c != null ==> c in connections || fresh(c))
      && Mirrors(Apply(w, step), store, open, nowHeld)
  {
    hide Executed, Lists, Moved;
    answer, open, nowHeld, step := Silent, connections, held, Nothing;
    if ToStore(request) {
      answer, nowHeld, step := AskStore(store, held, request, w);
    } else if request.Connect? {
      var connection := new Connection(store);
      open, step := connections + [connection], Step.Connect;
    } else if request.k < |connections| && connections[request.k] != null {
      if request.Say? {
        answer, open, step := Hear(store, connections, request.k, request.line, request.works, w);
      } else {
        open, step := connections[request.k := null], Step.Drop(request.k);
      }
    }
  }

  ghost predicate Fits(w: World, request: Request, step: Step, answer: Answer) {
    Serves(w, request, step) && Enabled(w, step) && answer == Told(w, request, step)
  }

  lemma {:induction false} AtPrefix(init: World, steps: seq<Step>, more: seq<Step>, i: nat)
    requires i <= |steps| && ValidRun(init, steps, i)
    ensures ValidRun(init, steps + more, i) && At(init, steps + more, i) == At(init, steps, i)
  {
    hide Apply, Enabled, Initial;
    if i > 0 {
      AtPrefix(init, steps, more, i - 1);
      assert (steps + more)[i - 1] == steps[i - 1];
    }
  }

  lemma {:induction false} RunGrows(init: World, steps: seq<Step>, step: Step)
    requires ValidRun(init, steps, |steps|) && Enabled(At(init, steps, |steps|), step)
    ensures ValidRun(init, steps + [step], |steps| + 1)
    ensures At(init, steps + [step], |steps| + 1) == Apply(At(init, steps, |steps|), step)
  {
    hide Apply, Enabled, Initial;
    AtPrefix(init, steps, [step], |steps|);
    assert (steps + [step])[|steps|] == step;
  }

  // Request j was served by its step, and answered accordingly.
  ghost predicate ServedAt(init: World, requests: seq<Request>, steps: seq<Step>, answers: seq<Answer>, j: nat)
    requires j < |requests| && j < |steps| && j < |answers|
  {
    ValidRun(init, steps, j) && Fits(At(init, steps, j), requests[j], steps[j], answers[j])
  }

  ghost predicate Served(init: World, requests: seq<Request>, steps: seq<Step>, answers: seq<Answer>) {
    |steps| == |answers| <= |requests| && forall j :: 0 <= j < |steps| ==> ServedAt(init, requests, steps, answers, j)
  }

  lemma {:induction false} ServedStep(init: World, requests: seq<Request>, steps: seq<Step>, answers: seq<Answer>,
                                      step: Step, answer: Answer)
    requires Served(init, requests, steps, answers) && |steps| < |requests| && ValidRun(init, steps, |steps|)
    requires Fits(At(init, steps, |steps|), requests[|steps|], step, answer)
    ensures Served(init, requests, steps + [step], answers + [answer])
  {
    hide Fits, ValidRun, At;
    var all, told := steps + [step], answers + [answer];
    forall j | 0 <= j < |all| ensures ServedAt(init, requests, all, told, j) {
      AtPrefix(init, steps, [step], j) by {
        if j < |steps| {
          assert ServedAt(init, requests, steps, answers, j);
        }
      }
      assert j < |steps| ==> all[j] == steps[j] && told[j] == answers[j] && ServedAt(init, requests, steps, answers, j);
    }
  }

  method Present(connections: seq<Connection?>) returns (sessions: seq<Option<Session>>)
    ensures |sessions| == |connections|
    ensures forall k :: 0 <= k < |connections| ==>
      sessions[k] == if connections[k] == null then None else Some(connections[k].Current())
  {
    sessions := [];
    for k := 0 to |connections|
      invariant |sessions| == k
      invariant forall j ::
                  0 <= j < k ==> sessions[j] == if connections[j] == null then None else Some(connections[j].Current())
    {
      sessions := sessions + [if connections[k] == null then None else Some(connections[k].Current())];
    }
  }

  lemma {:induction false} StartRuns(tables: Tables, requests: seq<Request>, store: Store)
    requires store.Valid() && store.Current() == State(tables, 0)
    ensures var init := Start(tables);
      && ValidRun(init, [], 0) && At(init, [], 0) == init && Mirrors(init, store, [], [])
      && Served(init, requests, [], [])
  {
  }

  // A run of the protocol, one step for each request, gives these answers and ends in this state.
  ghost predicate Explained(tables: Tables, requests: seq<Request>, answers: seq<Answer>, state: State,
                            sessions: seq<Option<Session>>) {
    exists steps: seq<Step> :: Explains(tables, requests, answers, state, sessions, steps)
  }

  ghost predicate Explains(tables: Tables, requests: seq<Request>, answers: seq<Answer>, state: State,
                           sessions: seq<Option<Session>>, steps: seq<Step>) {
    var init := Start(tables);
    && |steps| == |requests| && Served(init, requests, steps, answers)
    && ValidRun(init, steps, |steps|)
    && At(init, steps, |steps|).state == state && At(init, steps, |steps|).sessions == sessions
  }

  // Whatever is asked, in whatever order, the objects go through a run of the protocol.
  method Serve(tables: Tables, requests: seq<Request>)
    returns (answers: seq<Answer>, state: State, sessions: seq<Option<Session>>)
    requires tables.Valid()
    ensures Explained(tables, requests, answers, state, sessions)
  {
    hide *;
    var store := new Store(tables);
    var connections: seq<Connection?>, held: seq<Detail> := [], [];
    answers := [];
    ghost var init, steps: seq<Step> := Start(tables), [];
    StartRuns(tables, requests, store);
    for i := 0 to |requests|
      invariant fresh(store) && forall c :: c in connections && c != null ==> fresh(c)
      invariant |steps| == i && ValidRun(init, steps, i)
      invariant Served(init, requests, steps, answers)
      invariant Mirrors(At(init, steps, i), store, connections, held)
    {
      ghost var w := At(init, steps, i);
      var answer, open, nowHeld, step := Answered(store, connections, held, requests[i], w);
      ServedStep(init, requests, steps, answers, step, answer);
      RunGrows(init, steps, step);
      connections, held, answers, steps := open, nowHeld, answers + [answer], steps + [step];
    }
    state := store.Current();
    sessions := Present(connections);
    Mirrored(At(init, steps, |steps|), store, connections, held, sessions);
    Explanation(tables, requests, answers, state, sessions, steps);
  }

  lemma {:induction false} Explanation(tables: Tables, requests: seq<Request>, answers: seq<Answer>, state: State,
                                       sessions: seq<Option<Session>>, steps: seq<Step>)
    requires |steps| == |requests| && ValidRun(Start(tables), steps, |steps|)
      && Served(Start(tables), requests, steps, answers)
    requires At(Start(tables), steps, |steps|).state == state && At(Start(tables), steps, |steps|).sessions == sessions
    ensures Explained(tables, requests, answers, state, sessions)
  {
    assert Explains(tables, requests, answers, state, sessions, steps) by {
      hide Served, ValidRun, At;
    }
    hide Explains;
  }

  lemma {:induction false} Mirrored(w: World, store: Store, connections: seq<Connection?>, held: seq<Detail>,
                                    sessions: seq<Option<Session>>)
    requires Mirrors(w, store, connections, held) && |sessions| == |connections|
    requires forall k :: 0 <= k < |connections| ==>
      sessions[k] == if connections[k] == null then None else Some(connections[k].Current())
    ensures w.state == store.Current() && w.sessions == sessions
  {
  }
}
