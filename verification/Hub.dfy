/** The hub as the objects of the program: channels, subscribers and the set of the registered ones. */
module Hub {
  import opened Paths
  import opened HubModel

  /** A Go channel of capacity 16.  Sending to and closing it demand that it is open: Go panics otherwise. */
  class Channel<D> {
    var buf: seq<Event<D>>
    var open: bool
    ghost var received: seq<Event<D>>
    ghost var dropped: nat

    constructor ()
      ensures buf == [] && open && received == [] && dropped == 0
    {
      buf, open, received, dropped := [], true, [], 0;
    }

    ghost function Model(prefix: string): Chan<D>
      reads this
    {
      Chan(prefix, buf, open, received, dropped)
    }

    /** A send that gives up when the buffer is full. */
    method TrySend(ev: Event<D>)
      requires open
      modifies this
      ensures forall prefix | Matches(prefix, ev.path) :: Model(prefix) == Offer(old(Model(prefix)), ev)
      ensures open
    {
      if |buf| < CAPACITY {
        buf := buf + [ev];
      } else {
        dropped := dropped + 1;
      }
    }

    /** A receive; `ok` is false when nothing is queued. */
    method Recv() returns (ok: bool, evs: seq<Event<D>>)
      modifies this
      ensures forall prefix :: Model(prefix) == Take(old(Model(prefix)))
      ensures open == old(open)
      ensures ok <==> old(buf) != []
      ensures evs == if ok then [old(buf)[0]] else []
    {
      ok, evs := buf != [], [];
      if ok {
        evs := [buf[0]];
        received := received + evs;
        buf := buf[1..];
      }
    }

    method Shut()
      requires open
      modifies this
      ensures forall prefix :: Model(prefix) == Close(old(Model(prefix)))
      ensures !open
    {
      open := false;
    }
  }

  class Subscriber<D> {
    const prefix: string
    const ch: Channel<D>

    constructor (prefix: string)
      ensures this.prefix == prefix && fresh(ch) && ch.Model(prefix) == Chan(prefix, [], true, [], 0)
    {
      this.prefix := prefix;
      this.ch := new Channel();
    }
  }

  class Hub<D> {
    var subs: set<Subscriber<D>>
    ghost var known: set<Subscriber<D>>
    /** The calls so far. */
    ghost var trace: seq<Step<Subscriber<D>, D>>

    ghost function Channels(): set<Channel<D>>
      reads this
    {
      set s | s in known :: s.ch
    }

    /** The registered subscribers are the ones with an open channel, and no two share a channel. */
    ghost predicate Wired()
      reads this, Channels()
    {
      && subs <= known
      && (forall s, t | s in known && t in known && s.ch == t.ch :: s == t)
      && (forall s | s in known :: s.ch.open <==> s in subs)
    }

    ghost predicate Valid()
      reads this, Channels()
    {
      Wired() && Model() == Exec(trace)
    }

    /** The hub as a state of the state machine. */
    ghost function Model(): State<Subscriber<D>, D>
      reads this, Channels()
    {
      State(subs, map s | s in known :: ChanOf(s))
    }

    ghost function ChanOf(s: Subscriber<D>): Chan<D>
      reads this, Channels()
      requires s in known
    {
      s.ch.Model(s.prefix)
    }

    constructor ()
      ensures Valid() && trace == [] && known == {}
    {
      subs, known, trace := {}, {}, [];
    }

    method Subscribe(prefix: string) returns (sub: Subscriber<D>)
      requires Valid()
      modifies this
      ensures Valid() && fresh(sub) && fresh(sub.ch) && sub.prefix == prefix
      ensures known == old(known) + {sub}
      ensures trace == old(trace) + [HubModel.Subscribe(sub, prefix)]
    {
      sub := new Subscriber(prefix);
      subs := subs + {sub};
      known := known + {sub};
      trace := trace + [HubModel.Subscribe(sub, prefix)];
      assert sub !in old(Model()).chans;
      assert Model().chans == old(Model()).chans[sub := ChanOf(sub)];
    }

    method Unsubscribe(sub: Subscriber<D>)
      requires Valid() && sub in known
      modifies this, sub.ch
      ensures Valid() && known == old(known)
      ensures trace == old(trace) + [HubModel.Unsubscribe(sub)]
    {
      if sub in subs {
        subs := subs - {sub};
        sub.ch.Shut();
      }
      trace := trace + [HubModel.Unsubscribe(sub)];
      assert Model() == Next(old(Model()), HubModel.Unsubscribe(sub));
    }

    method Publish(ev: Event<D>)
      requires Valid()
      modifies `trace, Channels()
      ensures Valid() && known == old(known) && subs == old(subs)
      ensures trace == old(trace) + [HubModel.Publish(ev)]
    {
      FanOut(ev);
      trace := trace + [HubModel.Publish(ev)];
    }

    /** The loop of Publish. */
    method FanOut(ev: Event<D>)
      requires Wired()
      modifies Channels()
      ensures Wired()
      ensures Model() == Next(old(Model()), HubModel.Publish(ev))
    {
      SendAll(ev);
      assert Model().chans == Next(old(Model()), HubModel.Publish(ev)).chans;
    }

    method SendAll(ev: Event<D>)
      requires Wired()
      modifies Channels()
      ensures Wired()
      ensures forall s | s in known :: ChanOf(s) == if s in subs then Offer(old(ChanOf(s)), ev) else old(ChanOf(s))
    {
      var rest := subs;
      while rest != {}
        invariant rest <= subs
        invariant forall s | s in known :: s.ch.open <==> s in subs
        invariant forall s | s in known ::
          ChanOf(s) == if s in subs && s !in rest then Offer(old(ChanOf(s)), ev) else old(ChanOf(s))
        decreases rest
      {
        var sub :| sub in rest;
        if Matches(sub.prefix, ev.path) {
          sub.ch.TrySend(ev);
        }
        rest := rest - {sub};
      }
    }

    method Receive(sub: Subscriber<D>) returns (ok: bool, evs: seq<Event<D>>)
      requires Valid() && sub in known
      modifies `trace, sub.ch
      ensures Valid()
      ensures trace == old(trace) + [HubModel.Receive(sub)]
      ensures ok <==> old(ChanOf(sub)).buf != []
      ensures evs == if ok then [old(ChanOf(sub)).buf[0]] else []
    {
      ok, evs := TakeOne(sub);
      trace := trace + [HubModel.Receive(sub)];
    }

    method TakeOne(sub: Subscriber<D>) returns (ok: bool, evs: seq<Event<D>>)
      requires Wired() && sub in known
      modifies sub.ch
      ensures Wired() && Model() == Next(old(Model()), HubModel.Receive(sub))
      ensures ok <==> old(ChanOf(sub)).buf != []
      ensures evs == if ok then [old(ChanOf(sub)).buf[0]] else []
    {
      ok, evs := sub.ch.Recv();
      assert Model() == Next(old(Model()), HubModel.Receive(sub));
    }

    /** What the run theorem says about the objects: in every reachable state, for every subscriber there ever was. */
    lemma Accounts(sub: Subscriber<D>)
      requires Valid() && sub in known
      ensures sub.ch.open <==> sub in subs
      ensures |sub.ch.buf| <= CAPACITY
      ensures Subsequence(sub.ch.received + sub.ch.buf, OfferedTo(trace, sub))
      ensures |OfferedTo(trace, sub)| == |sub.ch.received| + |sub.ch.buf| + sub.ch.dropped
    {
      HubRun(trace, sub);
      assert Model().chans[sub] == ChanOf(sub);
    }
  }
}
