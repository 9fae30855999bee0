/**
 * The client's subscription table as objects: entries whose handle is replaced
 * in place, shared with their closures.
 */
module SubscriptionTable {
  import opened Wire
  import opened Subscriptions

  class SubscriptionEntry {
    const key: nat
    const pattern: string
    const raw: bool
    var sub: Option<Handle>

    constructor (key: nat, pattern: string, raw: bool)
      ensures this.key == key && this.pattern == pattern && this.raw == raw && sub == Option.None
    {
      this.key, this.pattern, this.raw, sub := key, pattern, raw, Option.None;
    }
  }

  class ClientTable {
    var subscriptionEntries: map<nat, SubscriptionEntry>
    var subscriptionSeq: nat
    var muxEntry: SubscriptionEntry?

    /** The connection as the client sees it, and the subscriptions alive on it. */
    var nc: Transport
    var epoch: nat
    var live: map<Handle, nat>
    var lastSub: nat
    var teardown: Teardown

    /** Every entry object made, the closures handed out, and whether an open connection was forgotten. */
    ghost var objects: map<nat, SubscriptionEntry>
    ghost var closures: set<nat>
    ghost var stranded: bool

    constructor ()
      ensures Valid() && Abs() == START
    {
      subscriptionEntries, subscriptionSeq, muxEntry := map[], 0, null;
      nc, epoch, live, lastSub, teardown := Absent, 0, map[], 0, Teardown.None;
      objects, closures, stranded := map[], {}, false;
    }

    ghost function Abs(): State
      reads this, objects.Values
    {
      State(Entries(), subscriptionEntries.Keys, closures, subscriptionSeq,
            if muxEntry == null then Option.None else Some(muxEntry.key),
            nc, epoch, live, lastSub, teardown, stranded)
    }

    ghost function Entries(): map<nat, Entry>
      reads this, objects.Values
    {
      map k | k in objects :: Entry(objects[k].pattern, objects[k].raw, objects[k].sub)
    }

    /** The table and the mux refer to the objects made under their keys. */
    ghost predicate Valid()
      reads this
    {
      && (forall k :: k in objects ==> objects[k].key == k && k <= subscriptionSeq)
      && (forall k :: k in subscriptionEntries ==> k in objects && subscriptionEntries[k] == objects[k])
      && (muxEntry != null ==> Known(muxEntry))
    }

    ghost predicate Known(entry: SubscriptionEntry)
      reads this
    {
      entry.key in objects && objects[entry.key] == entry
    }

    method RegisterEntry(pattern: string, raw: bool) returns (entry: SubscriptionEntry)
      requires Valid()
      modifies this`subscriptionEntries, this`subscriptionSeq, this`objects
      ensures Valid() && fresh(entry) && entry.key == subscriptionSeq && objects == old(objects)[entry.key := entry]
      ensures Abs() == Register(old(Abs()), pattern, raw)
    {
      entry := new SubscriptionEntry(subscriptionSeq + 1, pattern, raw);
      Enter(entry);
    }

    /** Enter a new object under the next key. */
    method Enter(entry: SubscriptionEntry)
      requires Valid() && entry.key == subscriptionSeq + 1 && entry.sub.None?
      modifies this`subscriptionEntries, this`subscriptionSeq, this`objects
      ensures Valid() && objects == old(objects)[entry.key := entry]
      ensures Abs() == Register(old(Abs()), entry.pattern, entry.raw)
    {
      subscriptionSeq := entry.key;
      subscriptionEntries := subscriptionEntries[entry.key := entry];
      objects := objects[entry.key := entry];
      assert subscriptionEntries.Keys == old(subscriptionEntries).Keys + {entry.key};
      assert Entries() == old(Entries())[entry.key := Entry(entry.pattern, entry.raw, Option.None)];
    }

    /** Subscribe an entry on the current connection; false when the connection has closed. */
    method NatsSubscribe(entry: SubscriptionEntry) returns (ok: bool)
      requires Valid() && Known(entry)
      modifies this`live, this`lastSub, entry`sub
      ensures Valid() && Abs() == Subscriptions.NatsSubscribe(old(Abs()), entry.key) && ok == nc.Open?
    {
      ok := nc.Open?;
      if ok {
        lastSub := lastSub + 1;
        var handle := Handle(entry.key, lastSub);
        live := live[handle := epoch];
        entry.sub := Some(handle);
        assert Entries() == old(Entries())[entry.key := old(Entries())[entry.key].(sub := Some(handle))];
      }
    }

    /** The entry's closure, or nothing when the subscription failed. */
    method SubscribeEntry(pattern: string) returns (closure: Option<SubscriptionEntry>)
      requires Valid() && !nc.Absent?
      modifies this, objects.Values
      ensures Valid() && Abs() == Step(old(Abs()), Subscribe(pattern))
      ensures closure.Some? <==> nc.Open?
      ensures closure.Some? ==> Known(closure.value) && closure.value.key in closures
    {
      var entry, ok := SubscribeNew(pattern);
      closure := Option.None;
      if ok {
        HandOutClosure(entry);
        closure := Some(entry);
      }
    }

    ghost method HandOutClosure(entry: SubscriptionEntry)
      requires Valid()
      modifies this`closures
      ensures Valid() && closures == old(closures) + {entry.key}
      ensures Abs() == old(Abs()).(closures := closures)
    {
      closures := closures + {entry.key};
    }

    method SubscribeNew(pattern: string) returns (entry: SubscriptionEntry, ok: bool)
      requires Valid()
      modifies this`subscriptionEntries, this`subscriptionSeq, this`objects, this`live, this`lastSub
      ensures Valid() && Known(entry) && entry.key == old(subscriptionSeq) + 1 && ok == nc.Open?
      ensures Abs() == Subscriptions.NatsSubscribe(Register(old(Abs()), pattern, false), old(subscriptionSeq) + 1)
    {
      entry := RegisterEntry(pattern, false);
      ok := NatsSubscribe(entry);
    }

    /** The closure that subscribe() returns, over its entry. */
    method UnsubscribeClosure(entry: SubscriptionEntry)
      requires Valid() && Known(entry) && entry.key in closures
      modifies this`live, this`subscriptionEntries
      ensures Valid() && Abs() == Step(old(Abs()), Unsubscribe(entry.key))
    {
      assert Entries()[entry.key].sub == entry.sub;
      if entry.sub.Some? {
        live := live - {entry.sub.value};
      }
      subscriptionEntries := subscriptionEntries - {entry.key};
      assert subscriptionEntries.Keys == old(subscriptionEntries).Keys - {entry.key};
    }

    /** Register the mux entry unless there is one. */
    method RegisterMuxEntry() returns (entry: SubscriptionEntry)
      requires Valid()
      modifies this`subscriptionEntries, this`subscriptionSeq, this`objects, this`muxEntry
      ensures Valid() && Abs() == RegisterMux(old(Abs())) && muxEntry == entry
      ensures forall o :: o in objects.Values ==> o in old(objects.Values) || fresh(o)
    {
      if muxEntry == null {
        muxEntry := RegisterEntry(MUX_PATTERN, true);
      }
      entry := muxEntry;
    }

    method EnsureMuxSubscription()
      requires Valid() && !nc.Absent?
      modifies this, objects.Values
      ensures Valid() && Abs() == Step(old(Abs()), EnsureMux)
    {
      var entry := RegisterMuxEntry();
      ReviveEntry(entry);
    }

    /** Subscribe an entry whose subscription is missing or closed. */
    method ReviveEntry(entry: SubscriptionEntry)
      requires Valid() && Known(entry)
      modifies this`live, this`lastSub, entry`sub
      ensures Valid() && Abs() == Revive(old(Abs()), entry.key)
    {
      assert Entries()[entry.key].sub == entry.sub;
      if entry.sub.None? || entry.sub.value !in live {
        var _ := NatsSubscribe(entry);
      }
    }

    /** Close an entry's subscription, if it has one, and forget its handle. */
    method DetachEntry(entry: SubscriptionEntry)
      requires Valid() && Known(entry)
      modifies this`live, entry`sub
      ensures Valid() && Abs() == DetachOne(old(Abs()), entry.key)
    {
      assert Entries()[entry.key].sub == entry.sub;
      if entry.sub.Some? {
        live := live - {entry.sub.value};
      }
      entry.sub := Option.None;
      assert Entries() == old(Entries())[entry.key := old(Entries())[entry.key].(sub := Option.None)];
    }

    /** The loop of suspend() and disconnect(). */
    method DetachEntries()
      requires Valid()
      modifies this`live, this`stranded, objects.Values
      ensures Valid() && Abs() == DetachAll(old(Abs()))
    {
      DetachLoop();
      stranded := false;
    }

    method DetachLoop()
      requires Valid()
      modifies this`live, objects.Values
      ensures Valid() && Abs() == DetachKeys(old(Abs()), old(Abs()).entries)
    {
      ghost var before, done: set<nat> := Abs(), {};
      var todo := subscriptionEntries.Keys;
      DetachNone(before);
      while todo != {}
        invariant Valid() && todo <= subscriptionEntries.Keys && done == subscriptionEntries.Keys - todo
        invariant Abs() == DetachKeys(before, done)
        decreases todo
      {
        var k :| k in todo;
        DetachMore(before, done, k);
        DetachEntry(subscriptionEntries[k]);
        todo, done := todo - {k}, done + {k};
      }
      assert done == before.entries;
    }

    /** disconnect(): detach every entry, then drop them all and the mux. */
    method DropEntries()
      requires Valid() && teardown.None?
      modifies this, objects.Values
      ensures Valid() && Abs() == Step(old(Abs()), Disconnect)
      ensures subscriptionEntries == map[] && muxEntry == null
    {
      DetachEntries();
      subscriptionEntries, muxEntry := map[], null;
      teardown := Disconnecting(Detached);
    }

    /**
     * A subscription's message task has ended: drop its entry, unless it has been
     * replaced or a suspend is under way.
     */
    method OnFinish(entry: SubscriptionEntry, sub: Handle)
      requires Valid() && Known(entry) && sub !in live
      modifies this, entry
      ensures Valid() && Abs() == Step(old(Abs()), TaskEnded(entry.key, sub))
    {
      assert Entries()[entry.key].sub == entry.sub;
      if !teardown.Suspending? && entry.sub == Some(sub) {
        RemoveEntry(entry);
        ForgetHandle(entry);
      }
    }

    method ForgetHandle(entry: SubscriptionEntry)
      requires Valid() && Known(entry)
      modifies entry`sub
      ensures Valid() && entry.key in old(Entries())
      ensures Entries() == old(Entries())[entry.key := old(Entries())[entry.key].(sub := Option.None)]
    {
      entry.sub := Option.None;
    }

    /** Take an entry out of the table, and out of the mux if it is that. */
    method RemoveEntry(entry: SubscriptionEntry)
      requires Valid() && Known(entry)
      modifies this`subscriptionEntries, this`muxEntry
      ensures Valid() && Entries() == old(Entries())
      ensures subscriptionEntries.Keys == old(subscriptionEntries).Keys - {entry.key}
      ensures muxEntry == if old(muxEntry) == entry then null else old(muxEntry)
    {
      subscriptionEntries := subscriptionEntries - {entry.key};
      if muxEntry == entry {
        muxEntry := null;
      }
    }

    static ghost function DetachOne(s: State, k: nat): State
      requires k in s.objects
    {
      Close(s, k).(objects := s.objects[k := s.objects[k].(sub := Option.None)])
    }

    static lemma DetachNone(s: State)
      ensures DetachKeys(s, {}) == s
    {
      assert DetachKeys(s, {}).live == s.live;
      assert DetachKeys(s, {}).objects == s.objects;
    }

    static lemma DetachMore(s: State, keys: set<nat>, k: nat)
      requires k in s.objects && k !in keys
      ensures DetachOne(DetachKeys(s, keys), k) == DetachKeys(s, keys + {k})
    {
      var one, some := DetachOne(DetachKeys(s, keys), k), DetachKeys(s, keys + {k});
      assert one.objects == some.objects;
      assert one.live == some.live;
    }

    /** A new connection: the mux entry registered, every entry without a living subscription restored. */
    method ConnectClient()
      requires Valid()
      modifies this, objects.Values
      ensures Valid() && Abs() == Step(old(Abs()), Connect)
    {
      if nc.Open? {
        return;
      }
      OpenTransport();
      RestoreAll();
    }

    /** A dial that completes over an open connection: what is alive stays on the one replaced. */
    method CompleteSecondDial()
      requires Valid() && nc.Open? && !At(Abs(), Detached)
      modifies this, objects.Values
      ensures Valid() && Abs() == Step(old(Abs()), SecondDial)
    {
      Strand();
      OpenTransport();
      RestoreAll();
    }

    ghost method Strand()
      requires Valid()
      modifies this`stranded
      ensures Valid() && Abs() == old(Abs()).(stranded := true)
    {
      stranded := true;
    }

    method OpenTransport()
      requires Valid()
      modifies this`nc, this`epoch
      ensures Valid() && Abs() == Opened(old(Abs()))
    {
      nc, epoch := Open, epoch + 1;
    }

    method RestoreAll()
      requires Valid()
      modifies this, objects.Values
      ensures Valid() && Abs() == Restore(RegisterMux(old(Abs())), 1)
    {
      var _ := RegisterMuxEntry();
      RestoreEntries();
    }

    method RestoreEntries()
      requires Valid()
      modifies this`live, this`lastSub, objects.Values
      ensures Valid() && Abs() == Restore(old(Abs()), 1)
    {
      for k := 1 to subscriptionSeq + 1
        invariant Valid()
        invariant Restore(Abs(), k) == Restore(old(Abs()), 1)
      {
        if k in subscriptionEntries {
          ReviveEntry(subscriptionEntries[k]);
        }
      }
    }
  }
}
