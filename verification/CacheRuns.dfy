/** Every interleaving of cache operations and request callbacks: stale answers are fenced, revalidations are not
    lost. */
module CacheRuns {
  import opened Text
  import opened CacheTrim
  import opened ResourceCache

  // One synchronous step of the event loop. `evicted` is what the step's trim removes.
  datatype Step =
    | Render(key: Key)
    | Subscribe(key: Key, listener: nat, fetcher: nat)
    | Unsubscribe(key: Key, e: nat, listener: nat, evicted: set<Key>)
    | Retry(key: Key, fetcher: nat)
    | Mutate(key: Key, update: Option<Option<string>>, revalidate: bool, jsonFetcher: nat)
    | Respond(r: nat, answer: Answer)
    | Finish(r: nat, evicted: set<Key>)

  ghost predicate Enabled(c: Cache, step: Step)
    requires Good(c)
  {
    match step
    case Unsubscribe(key, e, listener, evicted) =>
      e < |c.entries| && (UnsubscribedGood(c, key, e, listener); c.Unsubscribed(key, e, listener).IsTrim(evicted))
    case Respond(r, answer) => r < |c.requests| && c.requests[r].phase == Pending
    case Finish(r, evicted) =>
      r < |c.requests| && c.requests[r].phase == Phase.Answered &&
      (FinalizedGood(c, r); if Current(c, r) then c.Finalized(r).IsTrim(evicted) else evicted == {})
    case _ => true
  }

  predicate Current(c: Cache, r: nat)
    requires r < |c.requests| && c.requests[r].entry < |c.entries|
  {
    c.entries[c.requests[r].entry].promise == Some(r)
  }

  ghost function Apply(c: Cache, step: Step): (after: Cache)
    requires Good(c) && Enabled(c, step)
    ensures Good(after)
  {
    match step
    case Render(key) => RenderGood(c, key); c.WithEntry(key).Touched(key)
    case Subscribe(key, listener, fetcher) => SubscribedGood(c, key, listener, fetcher);
      c.Subscribed(key, listener, fetcher)
    case Unsubscribe(key, e, listener, evicted) =>
      UnsubscribedGood(c, key, e, listener);
      WithoutGood(c.Unsubscribed(key, e, listener), evicted);
      c.Unsubscribed(key, e, listener).Without(evicted)
    case Retry(key, fetcher) => RetriedGood(c, key, fetcher); c.Retried(key, fetcher)
    case Mutate(key, update, revalidate, jsonFetcher) =>
      MutatedGood(c, key, update, revalidate, jsonFetcher);
      c.Mutated(key, update, revalidate, jsonFetcher)
    case Respond(r, answer) => AnsweredGood(c, r, answer); c.AnsweredBy(r, answer)
    case Finish(r, evicted) =>
      FinalizedGood(c, r);
      WithoutGood(c.Finalized(r), evicted);
      if Current(c, r) then c.Finalized(r).Without(evicted) else c.Finalized(r)
  }

  lemma {:induction false} RenderGood(c: Cache, key: Key)
    requires Good(c)
    ensures key in c.WithEntry(key).table && c.WithEntry(key).table[key] < |c.WithEntry(key).entries|
    ensures Good(c.WithEntry(key).Touched(key))
  {
    WithEntryGood(c, key);
    TouchedGood(c.WithEntry(key), key);
  }

  // The state after the first i steps; a step that cannot happen is skipped. Shape and fence hold throughout.
  ghost function At(steps: seq<Step>, i: nat): (c: Cache)
    requires i <= |steps|
    ensures Good(c)
  {
    if i == 0 then EMPTY
    else
      var c := At(steps, i - 1);
      if Enabled(c, steps[i - 1]) then Apply(c, steps[i - 1]) else c
  }

  // The step mutates or retries the entry e.
  predicate Bumps(c: Cache, step: Step, e: nat)
    requires forall k :: k in c.table ==> c.table[k] < |c.entries|
  {
    (step.Retry? || step.Mutate?) && (if step.key in c.table then c.table[step.key] == e else e == |c.entries|)
  }

  // Entries only accumulate, keep their keys, and change generation only by a mutate or retry; so do requests.
  ghost predicate Extends(c: Cache, after: Cache, bumped: set<nat>) {
    && |c.entries| <= |after.entries| && |c.requests| <= |after.requests|
    && (forall e :: 0 <= e < |c.entries| ==>
          && after.entries[e].key == c.entries[e].key
          && after.entries[e].generation == c.entries[e].generation + if e in bumped then 1 else 0)
    && (forall r :: 0 <= r < |c.requests| ==> after.requests[r] == c.requests[r].(phase := after.requests[r].phase))
    && (forall r :: |c.requests| <= r < |after.requests| ==>
          && after.requests[r].phase == Pending && after.requests[r].entry < |after.entries|
          && after.requests[r].generation == after.entries[after.requests[r].entry].generation)
  }

  lemma {:induction false} WithEntryExtends(c: Cache, key: Key)
    requires Good(c)
    ensures Extends(c, c.WithEntry(key), {}) && key in c.WithEntry(key).table
    ensures c.WithEntry(key).table[key] < |c.WithEntry(key).entries| && Extends(c, c.WithEntry(key).Touched(key), {})
    ensures c.WithEntry(key).requests == c.WithEntry(key).Touched(key).requests == c.requests
    ensures c.WithEntry(key).Touched(key).table == c.WithEntry(key).table
    ensures |c.WithEntry(key).Touched(key).entries| == |c.WithEntry(key).entries|
  {
  }

  lemma {:induction false} ApplyExtends(c: Cache, step: Step)
    requires Good(c) && Enabled(c, step)
    ensures Extends(c, Apply(c, step), set e | 0 <= e < |c.entries| && Bumps(c, step, e))
  {
    hide Good, Survives, Cache.Mutated, Cache.Retried, Cache.Subscribed, Cache.Unsubscribed, Cache.Finalized,
      Cache.AnsweredBy;
    match step
    case Finish(r, evicted) => FinalizedExtends(c, r);
    case Respond(r, answer) => AnsweredExtends(c, r, answer);
    case Mutate(key, update, revalidate, jsonFetcher) => MutatedExtends(c, key, update, revalidate, jsonFetcher);
    case Retry(key, fetcher) => RetriedExtends(c, key, fetcher);
    case Unsubscribe(key, e, listener, _) => UnsubscribedExtends(c, key, e, listener);
    case Subscribe(key, listener, fetcher) => SubscribedExtends(c, key, listener, fetcher);
    case Render(key) => WithEntryExtends(c, key);
  }

  lemma {:induction false} AnsweredExtends(c: Cache, r: nat, answer: Answer)
    requires Good(c) && r < |c.requests|
    ensures Extends(c, c.AnsweredBy(r, answer), {})
  {
  }

  lemma {:induction false} FetchedExtends(c: Cache, key: Key, fetcher: nat, force: bool)
    requires key in c.table && c.table[key] < |c.entries|
    ensures Extends(c, c.Fetched(key, fetcher, force), {})
  {
  }

  lemma {:induction false} RetriedExtends(c: Cache, key: Key, fetcher: nat)
    requires Good(c)
    ensures Extends(c, c.Retried(key, fetcher), {c.WithEntry(key).table[key]})
  {
    assert c.Valid();
    hide Extends, Good, Cache.WithEntry, Cache.Fetched, Cache.Touched;
    WithEntryExtends(c, key);
    var d := c.WithEntry(key).Touched(key);
    var e := d.table[key];
    var entry := Cache.ResetEntry(d.entries[e]);
    var reset := d.Set(e, entry);
    SetExtends(d, e, entry);
    FetchedExtends(reset, key, fetcher, false);
    ThenExtends(c, d, reset, {}, {e});
    ThenExtends(c, reset, c.Retried(key, fetcher), {} + {e}, {});
    assert {} + {e} + {} == {e};
  }

  lemma {:induction false} UnsubscribedExtends(c: Cache, key: Key, e: nat, listener: nat)
    requires e < |c.entries|
    ensures Extends(c, c.Unsubscribed(key, e, listener), {})
  {
  }

  lemma {:induction false} SubscribedExtends(c: Cache, key: Key, listener: nat, fetcher: nat)
    requires Good(c)
    ensures Extends(c, c.Subscribed(key, listener, fetcher), {})
  {
    var d := c.WithEntry(key);
    var e := d.table[key];
    var listening := d.Set(e, d.entries[e].(listeners := d.entries[e].listeners + {listener}));
    FetchedExtends(listening, key, fetcher, false);
    assert Extends(d, listening, {});
  }

  lemma {:induction false} ThenExtends(a: Cache, b: Cache, c: Cache, x: set<nat>, y: set<nat>)
    requires Extends(a, b, x) && Extends(b, c, y) && x !! y && |a.requests| == |b.requests|
    ensures Extends(a, c, x + y)
  {
  }

  lemma {:induction false} SetExtends(c: Cache, e: nat, entry: Entry)
    requires e < |c.entries| && entry.key == c.entries[e].key
    requires entry.generation == c.entries[e].generation || entry.generation == c.entries[e].generation + 1
    ensures Extends(c, c.Set(e, entry), if entry.generation == c.entries[e].generation then {} else {e})
  {
  }

  lemma {:induction false} MutatedExtends(c: Cache, key: Key, update: Option<Option<string>>, revalidate: bool,
                                          jsonFetcher: nat)
    requires Good(c)
    ensures var e := c.WithEntry(key).table[key];
      Extends(c, c.Mutated(key, update, revalidate, jsonFetcher), {e})
  {
    assert c.Valid();
    hide Extends, Good, Cache.WithEntry, Cache.Fetched;
    WithEntryExtends(c, key);
    var d := c.WithEntry(key);
    var e := d.table[key];
    var entry := Cache.MutatedEntry(d.entries[e], update, revalidate);
    var mutated := d.Set(e, entry);
    var after := c.Mutated(key, update, revalidate, jsonFetcher);
    assert entry.key == d.entries[e].key && entry.generation == d.entries[e].generation + 1;
    hide Cache.MutatedEntry;
    SetExtends(d, e, entry);
    ThenExtends(c, d, mutated, {}, {e});
    if revalidate {
      FetchedExtends(mutated, key, if entry.fetcher.Some? then entry.fetcher.value else jsonFetcher, true);
      ThenExtends(c, mutated, after, {} + {e}, {});
    }
    assert {} + {e} == {e} && {e} + {} == {e};
  }

  lemma {:induction false} FinalizedExtends(c: Cache, r: nat)
    requires Good(c) && r < |c.requests|
    ensures Extends(c, c.Finalized(r), {})
  {
    hide Cache.Fenced, Cache.Flies;
  }

  // No mutate or retry of entry e in steps j, ..., i - 1.
  ghost predicate Quiet(steps: seq<Step>, e: nat, j: nat, i: nat)
    requires j <= i <= |steps|
    decreases i
  {
    j == i || (!Bumps(At(steps, i - 1), steps[i - 1], e) && Quiet(steps, e, j, i - 1))
  }

  // Generations only grow, and stand still exactly while the entry is quiet.
  lemma {:induction false} GenerationOverRun(steps: seq<Step>, e: nat, j: nat, i: nat)
    requires j <= i <= |steps| && e < |At(steps, j).entries|
    ensures e < |At(steps, i).entries| && At(steps, j).entries[e].generation <= At(steps, i).entries[e].generation
    ensures At(steps, j).entries[e].generation == At(steps, i).entries[e].generation <==> Quiet(steps, e, j, i)
    ensures At(steps, i).entries[e].key == At(steps, j).entries[e].key
    decreases i
  {
    hide Good, Apply, Enabled;
    if j < i {
      GenerationOverRun(steps, e, j, i - 1);
      StepExtends(steps, i - 1);
    }
  }

  lemma {:induction false} StepExtends(steps: seq<Step>, i: nat)
    requires i < |steps|
    ensures var c := At(steps, i); Extends(c, At(steps, i + 1), set e | 0 <= e < |c.entries| && Bumps(c, steps[i], e))
  {
    hide Apply, Good;
    var c := At(steps, i);
    if Enabled(c, steps[i]) {
      ApplyExtends(c, steps[i]);
    }
  }

  lemma {:induction false} RequestOverRun(steps: seq<Step>, r: nat, j: nat, i: nat)
    requires j <= i <= |steps| && r < |At(steps, j).requests|
    ensures r < |At(steps, i).requests|
    ensures At(steps, i).requests[r] == At(steps, j).requests[r].(phase := At(steps, i).requests[r].phase)
    decreases i
  {
    hide Good, Apply, Enabled;
    if j < i {
      RequestOverRun(steps, r, j, i - 1);
      StepExtends(steps, i - 1);
    }
  }

  // The answer is written to entry e, and nothing else to any entry.
  ghost predicate Written(c: Cache, after: Cache, e: nat, answer: Answer) {
    e < |c.entries| && after.entries ==
      match answer
      case Data(value) => c.entries[e := c.entries[e].(data := Some(value), error := None)]
      case Failure(error) => c.entries[e := c.entries[e].(error := Some(error))]
  }

  // The stale-response fence, over every run: the answer to a request issued in step j and answered in step i is
  // written to its entry if and only if no mutate or retry of that entry happened in between.
  lemma {:induction false} StaleResponseFence(steps: seq<Step>, j: nat, i: nat, r: nat, e: nat, answer: Answer)
    requires j < i < |steps| && steps[i] == Respond(r, answer) && Enabled(At(steps, i), steps[i])
    requires |At(steps, j).requests| <= r < |At(steps, j + 1).requests|
    requires At(steps, i).requests[r].entry == e
    ensures var c, after := At(steps, i), At(steps, i + 1);
      if Quiet(steps, e, j + 1, i) then Written(c, after, e, answer) else after.entries == c.entries
  {
    hide Good, Apply, Enabled, Written;
    StepExtends(steps, j);
    RequestOverRun(steps, r, j + 1, i);
    GenerationOverRun(steps, e, j + 1, i);
    AnswerOutcome(At(steps, i), r, answer);
  }

  lemma {:induction false} AnswerOutcome(c: Cache, r: nat, answer: Answer)
    requires Good(c) && Enabled(c, Respond(r, answer))
    ensures var after, request := Apply(c, Respond(r, answer)), c.requests[r];
      && request.entry < |c.entries|
      && if c.entries[request.entry].generation == request.generation then Written(c, after, request.entry, answer)
         else after.entries == c.entries
  {
  }

  // And at any time every unsettled request that is not its entry's current promise is already fenced off.
  lemma {:induction false} SupersededIsFenced(steps: seq<Step>, i: nat, r: nat)
    requires i <= |steps| && r < |At(steps, i).requests| && At(steps, i).requests[r].phase != Settled
    ensures var c := At(steps, i); var e := c.requests[r].entry;
      e < |c.entries| && (c.entries[e].promise != Some(r) ==> c.requests[r].generation < c.entries[e].generation)
  {
  }

  // A non-revalidating mutate of entry e that leaves its data undefined.
  predicate Clears(c: Cache, step: Step, e: nat) {
    step.Mutate? && !step.revalidate && step.update == Some(None) && step.key in c.table && c.table[step.key] == e
  }

  ghost predicate NeverCleared(steps: seq<Step>, e: nat, j: nat, i: nat)
    requires j <= i <= |steps|
    decreases i
  {
    j == i || (!Clears(At(steps, i - 1), steps[i - 1], e) && NeverCleared(steps, e, j, i - 1))
  }

  // A fetch of the key was started since `start`.
  ghost predicate Started(start: Cache, c: Cache, key: Key) {
    exists r :: |start.requests| <= r < |c.requests| && c.requests[r].key == key
  }

  // A request is in flight and will be followed by another.
  predicate Owed(c: Cache, e: nat) {
    e < |c.entries| && c.entries[e].promise.Some? && c.entries[e].revalidateAfter
  }

  // What stays true of entry e and its key since `base`: the key maps to e or to an entry made later.
  ghost predicate Tracks(base: Cache, c: Cache, key: Key, e: nat) {
    && e < |base.entries| <= |c.entries| && |base.requests| <= |c.requests|
    && c.entries[e].key == key
    && (key in c.table ==> c.table[key] == e || c.table[key] >= |base.entries|)
    && (forall r :: 0 <= r < |base.requests| ==> c.requests[r].entry < |base.entries|)
  }

  // The key of a table changes only to a new entry.
  lemma {:induction false} TableStep(c: Cache, step: Step, key: Key)
    requires Good(c) && Enabled(c, step)
    ensures var after := Apply(c, step);
      key in after.table ==> (key in c.table && after.table[key] == c.table[key]) || after.table[key] >= |c.entries|
  {
    hide Survives, Cache.IsTrim, Cache.Fenced, Good, Cache.Finalized;
    match step
    case Finish(r, evicted) => FinalizedTable(c, r);
    case _ =>
  }

  lemma {:induction false} FinalizedTable(c: Cache, r: nat)
    requires Good(c) && r < |c.requests|
    ensures var after := c.Finalized(r).table;
      forall k :: k in after ==> (k in c.table && after[k] == c.table[k]) || after[k] == |c.entries|
  {
  }

  lemma {:induction false} TracksStep(base: Cache, c: Cache, step: Step, key: Key, e: nat)
    requires Good(c) && Enabled(c, step) && Tracks(base, c, key, e)
    ensures Tracks(base, Apply(c, step), key, e)
  {
    hide Good, Enabled, Apply;
    ApplyExtends(c, step);
    TableStep(c, step, key);
  }

  // One step on an owed revalidation: it stays owed, or its fetch starts, or the entry is cleared.
  lemma {:induction false} OwedStep(base: Cache, c: Cache, step: Step, key: Key, e: nat)
    requires Good(c) && Enabled(c, step) && Tracks(base, c, key, e) && Owed(c, e) && !Clears(c, step, e)
    ensures var after := Apply(c, step); Owed(after, e) || Started(base, after, key)
  {
    hide Survives, Cache.IsTrim, Cache.Mutated, Cache.Retried, Cache.Finalized, Good, Tracks, Clears;
    match step
    case Render(_) | Subscribe(_, _, _) | Unsubscribe(_, _, _, _) | Respond(_, _) => OwedKept(c, step, e);
    case Retry(k, fetcher) => OwedRetry(base, c, k, fetcher, key, e);
    case Mutate(k, update, revalidate, jsonFetcher) => OwedMutate(c, step, e);
    case Finish(r, evicted) => OwedFinish(base, c, r, key, e);
  }

  lemma {:induction false} OwedKept(c: Cache, step: Step, e: nat)
    requires Good(c) && Enabled(c, step) && (step.Render? || step.Subscribe? || step.Unsubscribe? || step.Respond?)
      && Owed(c, e)
    ensures Owed(Apply(c, step), e)
  {
    hide Survives, Cache.IsTrim, Good;
    match step
    case Subscribe(key, listener, fetcher) => OwedSubscribed(c, key, listener, fetcher, e);
    case Respond(r, answer) => OwedAnswered(c, r, answer, e);
    case Render(key) => OwedRendered(c, key, e);
    case Unsubscribe(key, entry, listener, evicted) => OwedUnsubscribed(c, key, entry, listener, evicted, e);
  }

  lemma {:induction false} OwedRendered(c: Cache, key: Key, e: nat)
    requires Good(c) && Owed(c, e)
    ensures Owed(c.WithEntry(key).Touched(key), e)
  {
    hide Cache.Fenced;
  }

  lemma {:induction false} OwedUnsubscribed(c: Cache, key: Key, entry: nat, listener: nat, evicted: set<Key>, e: nat)
    requires entry < |c.entries| && Owed(c, e)
    ensures Owed(c.Unsubscribed(key, entry, listener).Without(evicted), e)
  {
  }

  lemma {:induction false} OwedSubscribed(c: Cache, key: Key, listener: nat, fetcher: nat, e: nat)
    requires Good(c) && Owed(c, e)
    ensures Owed(c.Subscribed(key, listener, fetcher), e)
  {
    hide Cache.Fenced;
  }

  lemma {:induction false} OwedAnswered(c: Cache, r: nat, answer: Answer, e: nat)
    requires Good(c) && r < |c.requests| && Owed(c, e)
    ensures Owed(c.AnsweredBy(r, answer), e)
  {
    hide Cache.Fenced;
  }

  lemma {:induction false} OwedMutate(c: Cache, step: Step, e: nat)
    requires Good(c) && step.Mutate? && Owed(c, e) && !Clears(c, step, e)
    ensures Owed(c.Mutated(step.key, step.update, step.revalidate, step.jsonFetcher), e)
  {
  }

  lemma {:induction false} OwedRetry(base: Cache, c: Cache, k: Key, fetcher: nat, key: Key, e: nat)
    requires Good(c) && Tracks(base, c, key, e) && Owed(c, e)
    ensures var after := c.Retried(k, fetcher); Owed(after, e) || Started(base, after, key)
  {
    var after := c.Retried(k, fetcher);
    if k in c.table && c.table[k] == e {
      assert after.requests[|c.requests|].key == key;
    }
  }

  lemma {:induction false} OwedFinish(base: Cache, c: Cache, r: nat, key: Key, e: nat)
    requires Good(c) && r < |c.requests| && Tracks(base, c, key, e) && Owed(c, e)
    ensures var after := c.Finalized(r); Owed(after, e) || Started(base, after, key)
  {
    var request := c.requests[r];
    var after := c.Finalized(r);
    if request.entry == e && c.entries[e].promise == Some(r) {
      if key in c.table && c.entries[c.table[key]].promise.Some? && c.table[key] != e {
        var p := c.entries[c.table[key]].promise.value;
        assert c.Flies(p, c.table[key]);
        assert after.requests[p].key == key && p >= |base.requests|;
      } else {
        assert after.requests[|c.requests|].key == key;
      }
    }
  }

  // A forced revalidation is never lost, over every run and for every key: since a revalidating mutate of step t, a
  // fetch of the key has started, or the earlier one is still in flight with a follow-up owed, unless the entry was
  // cleared without revalidation.
  lemma {:induction false} RevalidationNotLost(steps: seq<Step>, t: nat, u: nat, e: nat)
    requires t < u <= |steps| && steps[t].Mutate? && steps[t].revalidate
    requires steps[t].key in At(steps, t + 1).table && At(steps, t + 1).table[steps[t].key] == e
    requires NeverCleared(steps, e, t + 1, u)
    ensures Tracks(At(steps, t + 1), At(steps, u), steps[t].key, e)
    ensures Started(At(steps, t), At(steps, u), steps[t].key) || Owed(At(steps, u), e)
    decreases u
  {
    hide Good, Apply;
    var key := steps[t].key;
    if u == t + 1 {
      MutateRevalidates(At(steps, t), steps[t]);
    } else {
      RevalidationNotLost(steps, t, u - 1, e);
      StepExtends(steps, u - 1);
      StepExtends(steps, t);
      var c, step := At(steps, u - 1), steps[u - 1];
      if Enabled(c, step) {
        TracksStep(At(steps, t + 1), c, step, key, e);
        if Started(At(steps, t), c, key) {
          StartedStays(At(steps, t), c, At(steps, u), key);
        } else {
          OwedStep(At(steps, t + 1), c, step, key, e);
          StartedEarlier(At(steps, t), At(steps, t + 1), At(steps, u), key);
        }
      }
    }
  }

  lemma {:induction false} StartedStays(start: Cache, c: Cache, after: Cache, key: Key)
    requires Started(start, c, key) && |c.requests| <= |after.requests|
    requires forall r :: 0 <= r < |c.requests| ==> after.requests[r] == c.requests[r].(phase := after.requests[r].phase)
    ensures Started(start, after, key)
  {
    var r :| |start.requests| <= r < |c.requests| && c.requests[r].key == key;
    assert after.requests[r].key == key;
  }

  lemma {:induction false} StartedEarlier(start: Cache, base: Cache, c: Cache, key: Key)
    requires |start.requests| <= |base.requests|
    ensures Started(base, c, key) ==> Started(start, c, key)
  {
  }

  lemma {:induction false} MutateRevalidates(c: Cache, step: Step)
    requires Good(c) && step.Mutate? && step.revalidate
    ensures var after := Apply(c, step);
      && step.key in after.table
      && var e := after.table[step.key];
         Tracks(after, after, step.key, e) && (Started(c, after, step.key) || Owed(after, e))
  {
    hide Cache.Fenced;
    var after := Apply(c, step);
    var d := c.WithEntry(step.key);
    if d.entries[d.table[step.key]].promise.None? {
      assert after.requests[|c.requests|].key == step.key;
    }
  }

  // An entry's promise stays, goes, or becomes a request issued in this step.
  predicate PromiseMoves(c: Cache, after: Cache, e: nat) {
    e < |c.entries| && e < |after.entries| &&
    var promise := after.entries[e].promise;
    promise == c.entries[e].promise || promise == None || promise.value >= |c.requests|
  }

  lemma {:induction false} FetchedMoves(c: Cache, key: Key, fetcher: nat, force: bool, e: nat)
    requires key in c.table && c.table[key] < |c.entries| && e < |c.entries|
    ensures PromiseMoves(c, c.Fetched(key, fetcher, force), e)
  {
  }

  lemma {:induction false} RetriedMoves(c: Cache, key: Key, fetcher: nat, e: nat)
    requires Good(c) && e < |c.entries|
    ensures PromiseMoves(c, c.Retried(key, fetcher), e)
  {
    var d := c.WithEntry(key).Touched(key);
    var reset := d.Set(d.table[key], Cache.ResetEntry(d.entries[d.table[key]]));
    FetchedMoves(reset, key, fetcher, false, e);
    hide Cache.Fetched, Cache.Fenced;
  }

  lemma {:induction false} MutatedMoves(c: Cache, key: Key, update: Option<Option<string>>, revalidate: bool,
                                        jsonFetcher: nat, e: nat)
    requires Good(c) && e < |c.entries|
    ensures PromiseMoves(c, c.Mutated(key, update, revalidate, jsonFetcher), e)
  {
    var d := c.WithEntry(key);
    var entry := Cache.MutatedEntry(d.entries[d.table[key]], update, revalidate);
    var mutated := d.Set(d.table[key], entry);
    FetchedMoves(mutated, key, if entry.fetcher.Some? then entry.fetcher.value else jsonFetcher, true, e);
    hide Cache.Fetched, Cache.Fenced;
  }

  lemma {:induction false} SubscribedMoves(c: Cache, key: Key, listener: nat, fetcher: nat, e: nat)
    requires Good(c) && e < |c.entries|
    ensures PromiseMoves(c, c.Subscribed(key, listener, fetcher), e)
  {
    var d := c.WithEntry(key);
    var listening :=
      d.Set(d.table[key], d.entries[d.table[key]].(listeners := d.entries[d.table[key]].listeners + {listener}));
    FetchedMoves(listening, key, fetcher, false, e);
    hide Cache.Fetched, Cache.Fenced;
  }

  lemma {:induction false} FinalizedMoves(c: Cache, r: nat, e: nat)
    requires Good(c) && r < |c.requests| && e < |c.entries|
    ensures PromiseMoves(c, c.Finalized(r), e)
  {
    var request := c.requests[r];
    var entry := c.entries[request.entry];
    var marked := c.(requests := c.requests[r := request.(phase := Settled)]);
    var released := marked.Set(request.entry, entry.(promise := None, revalidateAfter := false)).WithEntry(request.key);
    FetchedMoves(released, request.key, request.fetcher, false, e);
    hide Cache.Fetched, Cache.Fenced;
  }

  lemma {:induction false} StepMoves(c: Cache, step: Step, e: nat)
    requires Good(c) && Enabled(c, step) && e < |c.entries|
    ensures PromiseMoves(c, Apply(c, step), e)
  {
    hide Good, Survives, Cache.IsTrim, Cache.Fetched, Cache.Mutated, Cache.Retried, Cache.Subscribed, Cache.Finalized,
      Cache.Fenced;
    match step
    case Retry(key, fetcher) => RetriedMoves(c, key, fetcher, e);
    case Mutate(key, update, revalidate, jsonFetcher) => MutatedMoves(c, key, update, revalidate, jsonFetcher, e);
    case Subscribe(key, listener, fetcher) => SubscribedMoves(c, key, listener, fetcher, e);
    case Finish(r, evicted) => FinalizedMoves(c, r, e);
    case Respond(r, answer) => AnsweredMoves(c, r, answer, e);
    case Render(key) => RenderedMoves(c, key, e);
    case Unsubscribe(key, entry, listener, evicted) => UnsubscribedMoves(c, key, entry, listener, evicted, e);
  }

  lemma {:induction false} AnsweredMoves(c: Cache, r: nat, answer: Answer, e: nat)
    requires Good(c) && r < |c.requests| && e < |c.entries|
    ensures PromiseMoves(c, c.AnsweredBy(r, answer), e)
  {
    hide Cache.Fenced;
  }

  lemma {:induction false} RenderedMoves(c: Cache, key: Key, e: nat)
    requires Good(c) && e < |c.entries|
    ensures PromiseMoves(c, c.WithEntry(key).Touched(key), e)
  {
    hide Cache.Fenced;
  }

  lemma {:induction false} UnsubscribedMoves(c: Cache, key: Key, entry: nat, listener: nat, evicted: set<Key>, e: nat)
    requires entry < |c.entries| && e < |c.entries|
    ensures PromiseMoves(c, c.Unsubscribed(key, entry, listener).Without(evicted), e)
  {
  }

  // An idle entry stays idle until a request for its key is issued.
  lemma {:induction false} IdleStep(c: Cache, step: Step, e: nat)
    requires Good(c) && Enabled(c, step) && e < |c.entries| && c.entries[e].promise == None
    ensures var after := Apply(c, step);
      e < |after.entries| && after.entries[e].key == c.entries[e].key
      && (after.entries[e].promise == None || Started(c, after, c.entries[e].key))
  {
    var after := Apply(c, step);
    StepMoves(c, step, e);
    ApplyExtends(c, step);
    if after.entries[e].promise.Some? {
      var r := after.entries[e].promise.value;
      assert after.Flies(r, e) && after.requests[r].key == after.entries[e].key;
    }
    hide Apply, Enabled, Good;
  }

  lemma {:induction false} ClearReleases(c: Cache, step: Step, e: nat)
    requires Good(c) && Clears(c, step, e)
    ensures Enabled(c, step)
    ensures var after := Apply(c, step); e < |after.entries| && after.entries[e].promise == None
  {
    hide Cache.Fenced;
  }

  // After a clear the entry is idle as long as no fetch of its key has started.
  lemma {:induction false} ClearedIsIdle(steps: seq<Step>, t: nat, u: nat, e: nat)
    requires t < u <= |steps| && e < |At(steps, t + 1).entries| && !NeverCleared(steps, e, t + 1, u)
    requires !Started(At(steps, t), At(steps, u), At(steps, t + 1).entries[e].key)
    ensures e < |At(steps, u).entries| && At(steps, u).entries[e].promise == None
    decreases u
  {
    hide Good, Apply, Clears, Owed, Started;
    var c, step := At(steps, u - 1), steps[u - 1];
    var key := At(steps, t + 1).entries[e].key;
    StepExtends(steps, u - 1);
    if NeverCleared(steps, e, t + 1, u - 1) {
      assert Clears(c, step, e);
      ClearReleases(c, step, e);
    } else {
      if Started(At(steps, t), c, key) {
        StartedStays(At(steps, t), c, At(steps, u), key);
      }
      ClearedIsIdle(steps, t, u - 1, e);
      GenerationOverRun(steps, e, t + 1, u - 1);
      if Enabled(c, step) {
        IdleStep(c, step, e);
        StartedLater(At(steps, t), c, At(steps, u), key, t, steps, u - 1);
      }
    }
  }

  lemma {:induction false} StartedLater(start: Cache, c: Cache, after: Cache, key: Key, t: nat, steps: seq<Step>,
                                        j: nat)
    requires t <= j <= |steps| && start == At(steps, t) && c == At(steps, j)
    ensures Started(c, after, key) ==> Started(start, after, key)
    decreases j
  {
    hide Good, Apply, Enabled;
    if t < j {
      RequestsGrow(steps, t, j);
    }
  }

  lemma {:induction false} RequestsGrow(steps: seq<Step>, t: nat, j: nat)
    requires t <= j <= |steps|
    ensures |At(steps, t).requests| <= |At(steps, j).requests|
    decreases j
  {
    hide Good, Apply, Enabled;
    if t < j {
      RequestsGrow(steps, t, j - 1);
      StepExtends(steps, j - 1);
    }
  }

  // Exactly when a forced revalidation is kept: until its fetch starts it is owed if and only if the entry was never
  // cleared without revalidation since.
  lemma {:induction false} RevalidationKeptExactly(steps: seq<Step>, t: nat, u: nat, e: nat)
    requires t < u <= |steps| && steps[t].Mutate? && steps[t].revalidate
    requires steps[t].key in At(steps, t + 1).table && At(steps, t + 1).table[steps[t].key] == e
    requires !Started(At(steps, t), At(steps, u), steps[t].key)
    ensures Owed(At(steps, u), e) <==> NeverCleared(steps, e, t + 1, u)
  {
    var made := At(steps, t + 1);
    assert e < |made.entries| && made.entries[e].key == steps[t].key;
    if NeverCleared(steps, e, t + 1, u) {
      RevalidationNotLost(steps, t, u, e);
    } else {
      ClearedIsIdle(steps, t, u, e);
    }
  }

  // A run that loses one: a mutate while a request is in flight, then a clear without revalidation.
  lemma {:induction false} ClearLosesRevalidation(key: Key)
    ensures var steps := [Subscribe(key, 0, 0), Mutate(key, None, true, 0), Mutate(key, Some(None), false, 0)];
      && key in At(steps, 2).table && At(steps, 2).table[key] == 0 && Owed(At(steps, 2), 0)
      && Clears(At(steps, 2), steps[2], 0)
      && !Started(At(steps, 1), At(steps, 3), key) && !Owed(At(steps, 3), 0)
  {
    hide At, Apply, Enabled, Good, Cache.Valid, Cache.Fenced, Cache.Mutated, Cache.Subscribed, Cache.Retried,
      Cache.Finalized;
    var steps := [Subscribe(key, 0, 0), Mutate(key, None, true, 0), Mutate(key, Some(None), false, 0)];
    AtSubscribe(steps, 0);
    AtMutate(steps, 1);
    AtMutate(steps, 2);
    FirstFetch(key);
    RevalidateDefers(At(steps, 1), key);
    ClearDrops(At(steps, 2), key);
  }

  lemma {:induction false} AtSubscribe(steps: seq<Step>, i: nat)
    requires i < |steps| && steps[i].Subscribe?
    ensures At(steps, i).Valid() && At(steps, i + 1).Valid()
    ensures At(steps, 0) == EMPTY
      && At(steps, i + 1) == At(steps, i).Subscribed(steps[i].key, steps[i].listener, steps[i].fetcher)
  {
    assert Good(At(steps, i)) && Good(At(steps, i + 1));
    hide Good, Cache.Subscribed;
  }

  lemma {:induction false} AtMutate(steps: seq<Step>, i: nat)
    requires i < |steps| && steps[i].Mutate?
    ensures At(steps, i).Valid() && At(steps, i + 1).Valid()
    ensures At(steps, i + 1) ==
      At(steps, i).Mutated(steps[i].key, steps[i].update, steps[i].revalidate, steps[i].jsonFetcher)
  {
    assert Good(At(steps, i)) && Good(At(steps, i + 1));
    hide Good, Cache.Mutated;
  }

  // One entry, its first request in flight.
  predicate OneInFlight(c: Cache, key: Key, owed: bool) {
    && c.table == map[key := 0] && |c.entries| == 1 && |c.requests| == 1
    && c.entries[0].promise == Some(0) && c.entries[0].revalidateAfter == owed
  }

  lemma {:induction false} FirstFetch(key: Key)
    ensures OneInFlight(EMPTY.Subscribed(key, 0, 0), key, false)
  {
  }

  lemma {:induction false} RevalidateDefers(c: Cache, key: Key)
    requires c.Valid() && OneInFlight(c, key, false)
    ensures OneInFlight(c.Mutated(key, None, true, 0), key, true)
  {
    hide Cache.Valid;
  }

  lemma {:induction false} ClearDrops(c: Cache, key: Key)
    requires c.Valid() && OneInFlight(c, key, true)
    ensures var after := c.Mutated(key, Some(None), false, 0);
      after.requests == c.requests && |after.entries| == 1 && after.entries[0].promise == None
  {
    hide Cache.Valid;
  }
}
