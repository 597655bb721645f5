/** The generation-fenced resource cache (components/hoomail/use-hoomail.ts). */
module ResourceCache {
  import opened Text
  import opened CacheTrim

  // `key` is the key the entry was made for; an entry may outlive its place in the Map.
  datatype Entry = Entry(
    key: Key, data: Option<string>, error: Option<string>, promise: Option<nat>, revalidateAfter: bool,
    generation: nat, fetcher: Option<nat>, listeners: set<nat>, lastUsed: nat)

  // A request is pending, then has run `then` or `catch`, then `finally`.
  datatype Phase = Pending | Answered | Settled

  datatype Request = Request(key: Key, entry: nat, generation: nat, fetcher: nat, phase: Phase)

  datatype Answer = Data(value: string) | Failure(error: string)

  // The module state. Entries and requests are numbered by creation, which is their identity.
  datatype Cache = Cache(
    entries: seq<Entry>, order: seq<Key>, table: map<Key, nat>, requests: seq<Request>, recency: nat)
  {
    ghost predicate Valid() {
      && (forall k :: k in table ==> table[k] < |entries| && entries[table[k]].key == k)
      && (forall k :: k in table <==> k in order)
      && (forall i, j :: 0 <= i < j < |order| ==> order[i] != order[j])
      && (forall r ::
            0 <= r < |requests| ==> requests[r].entry < |entries| && requests[r].key == entries[requests[r].entry].key)
      && (forall e :: 0 <= e < |entries| && entries[e].promise.Some? ==> Flies(entries[e].promise.value, e))
    }

    // A request of this entry that has not settled.
    predicate Flies(r: nat, e: nat) {
      r < |requests| && requests[r].entry == e && requests[r].phase != Settled
    }

    // Every unsettled request that is not its entry's current promise carries a strictly older generation.
    ghost predicate Fenced() {
      forall r :: 0 <= r < |requests| && requests[r].phase != Settled && requests[r].entry < |entries| ==>
        var entry := entries[requests[r].entry];
        requests[r].generation <= entry.generation
          && (entry.promise != Some(r) ==> requests[r].generation < entry.generation)
    }

    predicate Active(k: Key)
      requires k in table && table[k] < |entries|
    {
      entries[table[k]].listeners != {} || entries[table[k]].promise.Some?
    }

    function Inactive(): set<Key>
      requires forall k :: k in table ==> table[k] < |entries|
    {
      set k | k in table && !Active(k)
    }

    function Recencies(): Recency
      requires forall k :: k in table ==> table[k] < |entries|
    {
      Recency(order, map k | k in table :: entries[table[k]].lastUsed)
    }

    // getCacheEntry
    function WithEntry(key: Key): Cache {
      if key in table then this
      else
        this.(entries := entries + [Entry(key, None, None, None, false, 0, None, {}, 0)],
          order := order + [key], table := table[key := |entries|])
    }

    function Set(e: nat, entry: Entry): Cache
      requires e < |entries|
    {
      this.(entries := entries[e := entry])
    }

    // fetchInto on the entry of `key`, which exists.
    function Fetched(key: Key, fetcher: nat, force: bool): Cache
      requires key in table && table[key] < |entries|
    {
      var e := table[key];
      var entry := entries[e].(fetcher := if entries[e].fetcher.Some? then entries[e].fetcher else Some(fetcher));
      if entry.promise.Some? then Set(e, if force then entry.(revalidateAfter := true) else entry)
      else
        Set(e, entry.(promise := Some(|requests|)))
          .(requests := requests + [Request(key, e, entry.generation, fetcher, Pending)])
    }

    function Touched(key: Key): Cache
      requires key in table && table[key] < |entries|
    {
      Set(table[key], entries[table[key]].(lastUsed := recency + 1)).(recency := recency + 1)
    }

    // retryCachedResource
    function Retried(key: Key, fetcher: nat): Cache
      requires Valid()
    {
      var c := WithEntry(key).Touched(key);
      var e := c.table[key];
      c.Set(e, ResetEntry(c.entries[e])).Fetched(key, fetcher, false)
    }

    static function ResetEntry(entry: Entry): Entry {
      entry.(generation := entry.generation + 1, data := None, error := None, promise := None, revalidateAfter := false)
    }

    static function MutatedEntry(entry: Entry, update: Option<Option<string>>, revalidate: bool): Entry {
      var bumped := entry.(generation := entry.generation + 1);
      if update.Some? then
        var written := bumped.(data := update.value, error := None);
        if update.value.None? && !revalidate then written.(promise := None, revalidateAfter := false) else written
      else if revalidate then bumped.(error := None)
      else bumped
    }

    // One key of mutateCache. `update` is the updater's result, when there is an updater.
    function Mutated(key: Key, update: Option<Option<string>>, revalidate: bool, jsonFetcher: nat): Cache
      requires Valid()
    {
      var c := WithEntry(key);
      var e := c.table[key];
      var entry := MutatedEntry(c.entries[e], update, revalidate);
      var mutated := c.Set(e, entry);
      if revalidate then mutated.Fetched(key, if entry.fetcher.Some? then entry.fetcher.value else jsonFetcher, true)
      else mutated
    }

    // `then` or `catch` of request r.
    function AnsweredBy(r: nat, answer: Answer): Cache
      requires r < |requests| && requests[r].entry < |entries|
    {
      var request := requests[r];
      var entry := entries[request.entry];
      var marked := this.(requests := requests[r := request.(phase := Phase.Answered)]);
      if entry.generation != request.generation then marked
      else
        marked.Set(request.entry,
          match answer
          case Data(value) => entry.(data := Some(value), error := None)
          case Failure(error) => entry.(error := Some(error)))
    }

    // `finally` of request r, up to the trim.
    function Finalized(r: nat): Cache
      requires Valid() && r < |requests|
    {
      var request := requests[r];
      var entry := entries[request.entry];
      var marked := this.(requests := requests[r := request.(phase := Settled)]);
      if entry.promise != Some(r) then marked
      else
        var released := marked.Set(request.entry, entry.(promise := None, revalidateAfter := false));
        if entry.revalidateAfter then released.WithEntry(request.key).Refetched(request) else released
    }

    function Refetched(request: Request): Cache {
      if request.key in table && table[request.key] < |entries| then Fetched(request.key, request.fetcher, false)
      else this
    }

    // The subscribing effect of useCachedResource.
    function Subscribed(key: Key, listener: nat, fetcher: nat): Cache
      requires Valid()
    {
      var c := WithEntry(key);
      var e := c.table[key];
      var d := c.Set(e, c.entries[e].(listeners := c.entries[e].listeners + {listener}));
      if d.entries[e].data.None? && d.entries[e].promise.None? then d.Fetched(key, fetcher, false) else d
    }

    // Its cleanup, up to the trim. The entry is the one subscribed to, whatever the key maps to by now.
    function Unsubscribed(key: Key, e: nat, listener: nat): Cache
      requires e < |entries|
    {
      var c := Set(e, entries[e].(listeners := entries[e].listeners - {listener}));
      if EndsWith(key, "/source") then c.Without({key}) else c
    }

    function Without(keys: set<Key>): Cache {
      this.(order := Kept(order, keys), table := Dropped(table, keys))
    }

    ghost predicate Finishes(r: nat, after: Cache)
      requires Good(this) && r < |requests|
    {
      FinalizedGood(this, r);
      if entries[requests[r].entry].promise != Some(r) then after == Finalized(r) else Finalized(r).Trims(after)
    }

    ghost predicate Trims(after: Cache)
      requires Valid()
    {
      exists evicted :: IsTrim(evicted) && after == Without(evicted)
    }

    // The evicted keys are the inactive ones outside the two tiers.
    ghost predicate IsTrim(evicted: set<Key>)
      requires Valid()
    {
      evicted <= Inactive() && forall k :: k in order ==> (k !in evicted <==> Survives(Recencies(), Inactive(), k))
    }
  }

  function Kept(order: seq<Key>, gone: set<Key>): (r: seq<Key>)
    ensures forall k :: k in r <==> k in order && k !in gone
    ensures (forall i, j :: 0 <= i < j < |order| ==> order[i] != order[j]) ==>
      forall i, j :: 0 <= i < j < |r| ==> r[i] != r[j]
  {
    if order == [] then []
    else
      var front, last := order[..|order| - 1], order[|order| - 1];
      assert order == front + [last];
      Kept(front, gone) + if last in gone then [] else [last]
  }

  function Dropped(table: map<Key, nat>, keys: set<Key>): map<Key, nat> {
    map k | k in table && k !in keys :: table[k]
  }

  const EMPTY := Cache([], [], map[], [], 0)

  // Every operation keeps the shape of the state and the fence.
  ghost predicate Good(c: Cache) {
    c.Valid() && c.Fenced()
  }

  lemma {:induction false} WithEntryGood(c: Cache, key: Key)
    requires Good(c)
    ensures var after := c.WithEntry(key); Good(after) && key in after.table && |c.entries| <= |after.entries|
    ensures forall e :: 0 <= e < |c.entries| ==> c.WithEntry(key).entries[e] == c.entries[e]
  {
    var after := c.WithEntry(key);
    forall e | 0 <= e < |after.entries| && after.entries[e].promise.Some?
      ensures after.Flies(after.entries[e].promise.value, e)
    {
      assert c.Flies(c.entries[e].promise.value, e);
    }
  }

  // Replacing an entry is safe when its key stays, its promise stays or goes with a newer generation.
  lemma {:induction false} SetGood(c: Cache, e: nat, entry: Entry)
    requires Good(c) && e < |c.entries| && entry.key == c.entries[e].key && entry.generation >= c.entries[e].generation
    requires entry.promise == c.entries[e].promise
      || (entry.promise == None && entry.generation > c.entries[e].generation)
    ensures Good(c.Set(e, entry))
  {
    var after := c.Set(e, entry);
    forall f | 0 <= f < |after.entries| && after.entries[f].promise.Some?
      ensures after.Flies(after.entries[f].promise.value, f)
    {
      assert c.Flies(c.entries[f].promise.value, f);
    }
  }

  lemma {:induction false} FetchedGood(c: Cache, key: Key, fetcher: nat, force: bool)
    requires Good(c) && key in c.table
    ensures Good(c.Fetched(key, fetcher, force))
  {
    var e := c.table[key];
    var entry := c.entries[e].(fetcher := if c.entries[e].fetcher.Some? then c.entries[e].fetcher else Some(fetcher));
    if entry.promise.Some? {
      SetGood(c, e, if force then entry.(revalidateAfter := true) else entry);
    } else {
      IssuedGood(c, e, entry, fetcher);
    }
  }

  // A new request becomes the entry's promise.
  lemma {:induction false} IssuedGood(c: Cache, e: nat, entry: Entry, fetcher: nat)
    requires Good(c) && e < |c.entries| && c.entries[e].promise == None
    requires entry.key == c.entries[e].key && entry.generation == c.entries[e].generation
    ensures Good(c.Set(e, entry.(promise := Some(|c.requests|)))
      .(requests := c.requests + [Request(entry.key, e, entry.generation, fetcher, Pending)]))
  {
    var after := c.Set(e, entry.(promise := Some(|c.requests|)))
      .(requests := c.requests + [Request(entry.key, e, entry.generation, fetcher, Pending)]);
    forall f | 0 <= f < |after.entries| && after.entries[f].promise.Some?
      ensures after.Flies(after.entries[f].promise.value, f)
    {
      assert f != e ==> c.Flies(c.entries[f].promise.value, f);
    }
  }

  lemma {:induction false} RetriedGood(c: Cache, key: Key, fetcher: nat)
    requires Good(c)
    ensures Good(c.Retried(key, fetcher))
  {
    hide Good;
    WithEntryGood(c, key);
    var d := c.WithEntry(key);
    assert d.Valid() by { GoodValid(d); }
    var e := d.table[key];
    var t := d.Touched(key);
    var entry := t.entries[e].(generation := t.entries[e].generation
      + 1, data := None, error := None, promise := None, revalidateAfter := false);
    TouchedGood(d, key);
    SetGood(t, e, entry);
    FetchedGood(t.Set(e, entry), key, fetcher, false);
  }

  lemma {:induction false} SameEntry(c: Cache, key: Key)
    requires key in c.table
    ensures c.WithEntry(key) == c
  {
  }

  lemma {:induction false} GoodValid(c: Cache)
    requires Good(c)
    ensures c.Valid()
  {
  }

  lemma {:induction false} RecencyGood(c: Cache, recency: nat)
    requires Good(c)
    ensures Good(c.(recency := recency))
  {
    var after := c.(recency := recency);
    forall f | 0 <= f < |after.entries| && after.entries[f].promise.Some?
      ensures after.Flies(after.entries[f].promise.value, f)
    {
      assert c.Flies(c.entries[f].promise.value, f);
    }
  }

  lemma {:induction false} TouchedGood(c: Cache, key: Key)
    requires Good(c) && key in c.table && c.table[key] < |c.entries|
    ensures Good(c.Touched(key))
  {
    hide Good;
    RecencyGood(c, c.recency + 1);
    SetGood(c.(recency := c.recency + 1), c.table[key], c.entries[c.table[key]].(lastUsed := c.recency + 1));
  }

  lemma {:induction false} MutatedGood(c: Cache, key: Key, update: Option<Option<string>>, revalidate: bool,
                                       jsonFetcher: nat)
    requires Good(c)
    ensures Good(c.Mutated(key, update, revalidate, jsonFetcher))
  {
    hide Good;
    WithEntryGood(c, key);
    var d := c.WithEntry(key);
    assert d.Valid() by { GoodValid(d); }
    var e := d.table[key];
    GoodValid(c);
    var mutated := c.Mutated(key, update, false, jsonFetcher);
    if revalidate {
      var bumped := d.entries[e].(generation := d.entries[e].generation + 1);
      var entry := if update.Some? then bumped.(data := update.value, error := None) else bumped.(error := None);
      SetGood(d, e, entry);
      FetchedGood(d.Set(e, entry), key, if entry.fetcher.Some? then entry.fetcher.value else jsonFetcher, true);
    } else {
      SetGood(d, e, mutated.entries[e]);
      assert mutated == d.Set(e, mutated.entries[e]);
    }
  }

  lemma {:induction false} AnsweredGood(c: Cache, r: nat, answer: Answer)
    requires Good(c) && r < |c.requests| && c.requests[r].phase == Pending
    ensures Good(c.AnsweredBy(r, answer))
  {
    var after := c.AnsweredBy(r, answer);
    forall f | 0 <= f < |after.entries| && after.entries[f].promise.Some?
      ensures after.Flies(after.entries[f].promise.value, f)
    {
      assert c.Flies(c.entries[f].promise.value, f);
    }
  }

  lemma {:induction false} ReleasedGood(c: Cache, r: nat)
    requires Good(c) && r < |c.requests|
    ensures var request := c.requests[r];
      var marked := c.(requests := c.requests[r := request.(phase := Settled)]);
      var entry := c.entries[request.entry];
      if entry.promise == Some(r)
        then Good(marked.Set(request.entry, entry.(promise := None, revalidateAfter := false))) else Good(marked)
  {
    var request := c.requests[r];
    var marked := c.(requests := c.requests[r := request.(phase := Settled)]);
    var entry := c.entries[request.entry];
    var after := if entry.promise == Some(r)
      then marked.Set(request.entry, entry.(promise := None, revalidateAfter := false)) else marked;
    forall f | 0 <= f < |after.entries| && after.entries[f].promise.Some?
      ensures after.Flies(after.entries[f].promise.value, f)
    {
      assert c.Flies(c.entries[f].promise.value, f);
    }
  }

  lemma {:induction false} FinalizedGood(c: Cache, r: nat)
    requires Good(c) && r < |c.requests|
    ensures Good(c.Finalized(r))
  {
    ReleasedGood(c, r);
    var request := c.requests[r];
    var entry := c.entries[request.entry];
    if entry.promise == Some(r) && entry.revalidateAfter {
      var marked := c.(requests := c.requests[r := request.(phase := Settled)]);
      var released := marked.Set(request.entry, entry.(promise := None, revalidateAfter := false));
      WithEntryGood(released, request.key);
      FetchedGood(released.WithEntry(request.key), request.key, request.fetcher, false);
    }
  }

  lemma {:induction false} WithoutGood(c: Cache, keys: set<Key>)
    requires Good(c)
    ensures Good(c.Without(keys))
  {
    var after := c.Without(keys);
    forall f | 0 <= f < |after.entries| && after.entries[f].promise.Some?
      ensures after.Flies(after.entries[f].promise.value, f)
    {
      assert c.Flies(c.entries[f].promise.value, f);
    }
  }

  lemma {:induction false} SubscribedGood(c: Cache, key: Key, listener: nat, fetcher: nat)
    requires Good(c)
    ensures Good(c.Subscribed(key, listener, fetcher))
  {
    hide Good;
    GoodValid(c);
    WithEntryGood(c, key);
    var d := c.WithEntry(key);
    GoodValid(d);
    var e := d.table[key];
    var entry := d.entries[e].(listeners := d.entries[e].listeners + {listener});
    SetGood(d, e, entry);
    FetchedGood(d.Set(e, entry), key, fetcher, false);
  }

  lemma {:induction false} UnsubscribedGood(c: Cache, key: Key, e: nat, listener: nat)
    requires Good(c) && e < |c.entries|
    ensures Good(c.Unsubscribed(key, e, listener))
  {
    hide Good;
    var entry := c.entries[e].(listeners := c.entries[e].listeners - {listener});
    SetGood(c, e, entry);
    WithoutGood(c.Set(e, entry), {key});
  }

  // The module with its entries, updated in place.
  class Resources {
    var entries: seq<Entry>
    var order: seq<Key>
    var table: map<Key, nat>
    var requests: seq<Request>
    var recency: nat
    const jsonFetcher: nat

    constructor (jsonFetcher: nat)
      ensures Current() == EMPTY && this.jsonFetcher == jsonFetcher && Good(Current())
    {
      entries, order, table, requests, recency := [], [], map[], [], 0;
      this.jsonFetcher := jsonFetcher;
    }

    function Current(): Cache
      reads this
    {
      Cache(entries, order, table, requests, recency)
    }

    method GetCacheEntry(key: Key) returns (e: nat)
      requires Good(Current())
      modifies this`entries, this`order, this`table
      ensures Current() == old(Current()).WithEntry(key) && Good(Current())
      ensures key in table && e == table[key] < |entries| && entries[e].key == key
    {
      WithEntryGood(Current(), key);
      if key !in table {
        table := table[key := |entries|];
        order := order + [key];
        entries := entries + [Entry(key, None, None, None, false, 0, None, {}, 0)];
      }
      e := table[key];
    }

    // A render selects the resource, which counts as its use.
    method Render(key: Key) returns (data: Option<string>, error: Option<string>)
      requires Good(Current())
      modifies this
      ensures Current() == old(Current()).WithEntry(key).Touched(key)
      ensures Good(Current())
      ensures data == entries[table[key]].data && error == entries[table[key]].error
    {
      var e := GetCacheEntry(key);
      hide Good;
      Touch(e);
      data, error := entries[e].data, entries[e].error;
    }

    method Touch(e: nat)
      requires Good(Current()) && e < |entries|
      modifies this`entries, this`recency
      ensures Current() ==
        old(Current()).Set(e, old(entries)[e].(lastUsed := old(recency) + 1)).(recency := old(recency) + 1)
      ensures Good(Current())
    {
      hide Good;
      RecencyGood(Current(), recency + 1);
      SetGood(Current().(recency := recency + 1), e, entries[e].(lastUsed := recency + 1));
      recency := recency + 1;
      entries := entries[e := entries[e].(lastUsed := recency)];
    }

    method FetchInto(key: Key, fetcher: nat, force: bool)
      requires Good(Current())
      modifies this
      ensures Current() == old(Current()).WithEntry(key).Fetched(key, fetcher, force) && Good(Current())
    {
      hide Good, Cache.WithEntry;
      var e := GetCacheEntry(key);
      FetchedGood(Current(), key, fetcher, force);
      if entries[e].fetcher == None {
        entries := entries[e := entries[e].(fetcher := Some(fetcher))];
      }
      if entries[e].promise.Some? {
        if force {
          entries := entries[e := entries[e].(revalidateAfter := true)];
        }
        return;
      }
      var generation := entries[e].generation;
      entries := entries[e := entries[e].(promise := Some(|requests|))];
      requests := requests + [Request(key, e, generation, fetcher, Pending)];
    }

    method RetryCachedResource(key: Key, fetcher: nat)
      requires Good(Current())
      modifies this
      ensures Current() == old(Current()).Retried(key, fetcher) && Good(Current())
    {
      hide Good;
      GoodValid(Current());
      RetriedGood(Current(), key, fetcher);
      var e := GetCacheEntry(key);
      Touch(e);
      ghost var touched := Current();
      entries := entries[e :=
        entries[e].(generation := entries[e].generation
        + 1, data := None, error := None, promise := None, revalidateAfter := false)];
      SetGood(touched, e, entries[e]);
      assert Current() == touched.Set(e, entries[e]);
      FetchInto(key, fetcher, false);
    }

    // mutateCache on one key.
    method MutateKey(key: Key, updater: Option<Option<string> -> Option<string>>, revalidate: bool)
      requires Good(Current())
      modifies this
      ensures var c := old(Current()).WithEntry(key);
        var update := if updater.Some? then Some(updater.value(c.entries[c.table[key]].data)) else None;
        Current() == old(Current()).Mutated(key, update, revalidate, jsonFetcher)
      ensures Good(Current())
    {
      hide Good, Cache.Fetched, Cache.WithEntry;
      ghost var start := Current();
      GoodValid(start);
      var e := GetCacheEntry(key);
      ghost var found := Current();
      ghost var update := if updater.Some? then Some(updater.value(entries[e].data)) else None;
      MutatedGood(start, key, update, revalidate, jsonFetcher);
      var entry := entries[e].(generation := entries[e].generation + 1);
      if updater.Some? {
        entry := entry.(data := updater.value(entry.data), error := None);
        if entry.data == None && !revalidate {
          entry := entry.(promise := None, revalidateAfter := false);
        }
      } else if revalidate {
        entry := entry.(error := None);
      }
      SetGood(found, e, entry);
      entries := entries[e := entry];
      assert Current() == found.Set(e, entry);
      if revalidate {
        SameEntry(Current(), key);
        FetchInto(key, if entry.fetcher.Some? then entry.fetcher.value else jsonFetcher, true);
      }
    }

    // `then` and `catch` of a request.
    method Answer(r: nat, answer: Answer)
      requires Good(Current()) && r < |requests| && requests[r].phase == Pending
      modifies this
      ensures Current() == old(Current()).AnsweredBy(r, answer) && Good(Current())
    {
      AnsweredGood(Current(), r, answer);
      var request := requests[r];
      requests := requests[r := request.(phase := Phase.Answered)];
      if entries[request.entry].generation == request.generation {
        match answer
        case Data(value) =>
          entries := entries[request.entry := entries[request.entry].(data := Some(value), error := None)];
        case Failure(error) => entries := entries[request.entry := entries[request.entry].(error := Some(error))];
      }
    }

    // `finally` of a request; a superseded request leaves everything, the trim included, to its successor.
    method Finish(r: nat)
      requires Good(Current()) && r < |requests| && requests[r].phase == Phase.Answered
      modifies this
      ensures Good(Current())
      ensures old(Current()).Finishes(r, Current())
    {
      ghost var start := Current();
      FinalizedGood(start, r);
      ReleasedGood(start, r);
      var request := requests[r];
      requests := requests[r := request.(phase := Settled)];
      if entries[request.entry].promise != Some(r) {
        return;
      }
      var revalidate := entries[request.entry].revalidateAfter;
      entries := entries[request.entry := entries[request.entry].(promise := None, revalidateAfter := false)];
      if revalidate {
        assert Good(Current());
        FetchInto(request.key, request.fetcher, false);
      }
      assert Current() == start.Finalized(r);
      TrimCache();
    }

    method TrimCache()
      requires Good(Current())
      modifies this`order, this`table
      ensures old(Current()).Trims(Current()) && Good(Current())
    {
      var inactive := Current().Inactive();
      var evicted := CacheTrim.Trim(Current().Recencies(), inactive);
      assert Current().IsTrim(evicted);
      WithoutGood(Current(), evicted);
      order := Kept(order, evicted);
      table := Dropped(table, evicted);
    }

    method Subscribe(key: Key, listener: nat, fetcher: nat) returns (e: nat)
      requires Good(Current())
      modifies this
      ensures Current() == old(Current()).Subscribed(key, listener, fetcher) && Good(Current()) && e < |entries|
    {
      SubscribedGood(Current(), key, listener, fetcher);
      e := GetCacheEntry(key);
      ghost var found := Current();
      entries := entries[e := entries[e].(listeners := entries[e].listeners + {listener})];
      SetGood(found, e, entries[e]);
      assert Current() == found.Set(e, entries[e]);
      if entries[e].data == None && entries[e].promise == None {
        FetchInto(key, fetcher, false);
      }
    }

    method Unsubscribe(key: Key, e: nat, listener: nat)
      requires Good(Current()) && e < |entries|
      modifies this
      ensures Good(Current()) && Good(old(Current()).Unsubscribed(key, e, listener))
      ensures old(Current()).Unsubscribed(key, e, listener).Trims(Current())
    {
      hide Good, Cache.Trims;
      GoodValid(Current());
      UnsubscribedGood(Current(), key, e, listener);
      ghost var mid := Current().Unsubscribed(key, e, listener);
      GoodValid(mid);
      entries := entries[e := entries[e].(listeners := entries[e].listeners - {listener})];
      if EndsWith(key, "/source") {
        order := Kept(order, {key});
        table := Dropped(table, {key});
      }
      assert Current() == mid;
      hide *;
      TrimCache();
    }
  }
}
