/** The publish/subscribe hub as a state machine over its atomic steps. */
module HubModel {
  import opened Paths

  datatype Event<D> = Event(kind: string, path: string, data: D)

  /** The buffer size of a subscriber's channel. */
  const CAPACITY: nat := 16

  /** A subscriber's channel, with what was taken out of it and how many events found it full. */
  datatype Chan<D> = Chan(prefix: string, buf: seq<Event<D>>, open: bool, received: seq<Event<D>>, dropped: nat)

  /** The registered subscribers, and the channels of all subscribers there ever were. */
  datatype State<K(==), D> = State(subs: set<K>, chans: map<K, Chan<D>>)

  datatype Step<K, D> =
    | Subscribe(k: K, prefix: string)
    | Publish(ev: Event<D>)
    | Receive(k: K)
    | Unsubscribe(k: K)

  function Offer<D>(c: Chan<D>, ev: Event<D>): Chan<D> {
    if !Matches(c.prefix, ev.path) then c
    else if |c.buf| < CAPACITY then c.(buf := c.buf + [ev])
    else c.(dropped := c.dropped + 1)
  }

  function Take<D>(c: Chan<D>): Chan<D> {
    if c.buf == [] then c else c.(buf := c.buf[1..], received := c.received + [c.buf[0]])
  }

  function Close<D>(c: Chan<D>): Chan<D> {
    c.(open := false)
  }

  /** One step; a subscriber that was seen before does not subscribe again, since every call makes a new one. */
  function Next<K, D>(s: State<K, D>, step: Step<K, D>): State<K, D> {
    match step
    case Subscribe(k, prefix) =>
      if k in s.chans then s else State(s.subs + {k}, s.chans[k := Chan(prefix, [], true, [], 0)])
    case Publish(ev) =>
      s.(chans := map k | k in s.chans :: if k in s.subs then Offer(s.chans[k], ev) else s.chans[k])
    case Receive(k) =>
      if k in s.chans then s.(chans := s.chans[k := Take(s.chans[k])]) else s
    case Unsubscribe(k) =>
      if k in s.subs && k in s.chans then State(s.subs - {k}, s.chans[k := Close(s.chans[k])]) else s
  }

  function Exec<K, D>(steps: seq<Step<K, D>>): State<K, D> {
    if steps == [] then State({}, map[]) else Next(Exec(steps[..|steps| - 1]), steps[|steps| - 1])
  }

  // ----- what a run offers to a subscriber, read off the steps alone -----

  datatype Phase = Unborn | Watching(prefix: string) | Gone

  function PhaseOf<K(==), D>(steps: seq<Step<K, D>>, k: K): Phase {
    if steps == [] then Unborn
    else
      var before := PhaseOf(steps[..|steps| - 1], k);
      match steps[|steps| - 1]
      case Subscribe(j, prefix) => if j == k && before.Unborn? then Watching(prefix) else before
      case Unsubscribe(j) => if j == k && before.Watching? then Gone else before
      case _ => before
  }

  /** The matching events published while `k` was subscribed, in order. */
  function OfferedTo<K(==), D>(steps: seq<Step<K, D>>, k: K): seq<Event<D>> {
    if steps == [] then []
    else
      var front, step := steps[..|steps| - 1], steps[|steps| - 1];
      var phase := PhaseOf(front, k);
      OfferedTo(front, k) +
      if step.Publish? && phase.Watching? && Matches(phase.prefix, step.ev.path) then [step.ev] else []
  }

  /** `a` can be had from `b` by leaving out elements. */
  ghost predicate Subsequence<T>(a: seq<T>, b: seq<T>) {
    if b == [] then a == []
    else
      || Subsequence(a, b[..|b| - 1])
      || (a != [] && a[|a| - 1] == b[|b| - 1] && Subsequence(a[..|a| - 1], b[..|b| - 1]))
  }

  /** What a channel has to do with the events offered to it. */
  ghost predicate Accounted<D>(c: Chan<D>, offered: seq<Event<D>>) {
    && |c.buf| <= 16
    && Subsequence(c.received + c.buf, offered)
    && |offered| == |c.received| + |c.buf| + c.dropped
  }

  lemma {:induction false} WholeSubsequence<T>(a: seq<T>, b: seq<T>)
    requires Subsequence(a, b)
    ensures |a| <= |b|
    ensures |a| == |b| ==> a == b
    decreases |b|
  {
    if b != [] {
      var front := b[..|b| - 1];
      if Subsequence(a, front) {
        WholeSubsequence(a, front);
      } else {
        WholeSubsequence(a[..|a| - 1], front);
        assert a == a[..|a| - 1] + [a[|a| - 1]];
      }
    }
  }

  lemma OfferAccounted<D>(c: Chan<D>, ev: Event<D>, offered: seq<Event<D>>)
    requires Accounted(c, offered) && c.open && Matches(c.prefix, ev.path)
    ensures Accounted(Offer(c, ev), offered + [ev])
  {
    var c', all := Offer(c, ev), offered + [ev];
    assert all[..|all| - 1] == offered;
    if |c.buf| < CAPACITY {
      var got := c'.received + c'.buf;
      assert got == c.received + c.buf + [ev];
      assert got[..|got| - 1] == c.received + c.buf;
    }
  }

  /** The state of the channel of `k` after a run. */
  ghost predicate Sound<K, D>(s: State<K, D>, steps: seq<Step<K, D>>, k: K) {
    && (k in s.chans <==> !PhaseOf(steps, k).Unborn?)
    && (k in s.subs <==> PhaseOf(steps, k).Watching?)
    && (k in s.chans ==>
          && (s.chans[k].open <==> k in s.subs)
          && (k in s.subs ==> s.chans[k].prefix == PhaseOf(steps, k).prefix)
          && Accounted(s.chans[k], OfferedTo(steps, k)))
    && (k !in s.chans ==> OfferedTo(steps, k) == [])
  }

  lemma OfferedUnlessPublished<K, D>(front: seq<Step<K, D>>, step: Step<K, D>, k: K)
    requires !(step.Publish? && PhaseOf(front, k).Watching? && Matches(PhaseOf(front, k).prefix, step.ev.path))
    ensures OfferedTo(front + [step], k) == OfferedTo(front, k)
  {
    assert (front + [step])[..|front|] == front;
    assert OfferedTo(front, k) + [] == OfferedTo(front, k);
  }

  lemma PublishSound<K, D>(s: State<K, D>, front: seq<Step<K, D>>, ev: Event<D>, k: K)
    requires Sound(s, front, k)
    ensures Sound(Next(s, Publish(ev)), front + [Publish(ev)], k)
  {
    assert (front + [Publish(ev)])[..|front|] == front;
    if k in s.subs && Matches(s.chans[k].prefix, ev.path) {
      OfferAccounted(s.chans[k], ev, OfferedTo(front, k));
    } else {
      OfferedUnlessPublished(front, Publish(ev), k);
    }
  }

  lemma ReceiveSound<K, D>(s: State<K, D>, front: seq<Step<K, D>>, j: K, k: K)
    requires Sound(s, front, k)
    ensures Sound(Next(s, Receive(j)), front + [Receive(j)], k)
  {
    assert (front + [Receive(j)])[..|front|] == front;
    OfferedUnlessPublished(front, Receive(j), k);
    if j == k && k in s.chans && s.chans[k].buf != [] {
      var c := s.chans[k];
      assert Take(c).received + Take(c).buf == c.received + c.buf;
    }
  }

  lemma SubscriptionSound<K, D>(s: State<K, D>, front: seq<Step<K, D>>, step: Step<K, D>, k: K)
    requires Sound(s, front, k) && (step.Subscribe? || step.Unsubscribe?)
    ensures Sound(Next(s, step), front + [step], k)
  {
    assert (front + [step])[..|front|] == front;
    OfferedUnlessPublished(front, step, k);
  }

  /** In every interleaving of the steps: a channel is open exactly while its subscriber is registered, and never over
      capacity; what was received and what is queued is, in order, a part of the matching events of the subscription;
      and each of those was received, is queued or was dropped. */
  lemma {:induction false} HubRun<K, D>(steps: seq<Step<K, D>>, k: K)
    ensures Sound(Exec(steps), steps, k)
  {
    if steps != [] {
      var front, step := steps[..|steps| - 1], steps[|steps| - 1];
      HubRun(front, k);
      assert steps == front + [step];
      match step {
        case Publish(ev) => PublishSound(Exec(front), front, ev, k);
        case Receive(j) => ReceiveSound(Exec(front), front, j, k);
        case _ => SubscriptionSound(Exec(front), front, step, k);
      }
    }
  }

  /** A subscriber that lost nothing has, received or queued, exactly what it was offered. */
  lemma NothingLost<K, D>(steps: seq<Step<K, D>>, k: K)
    requires k in Exec(steps).chans && Exec(steps).chans[k].dropped == 0
    ensures var c := Exec(steps).chans[k]; c.received + c.buf == OfferedTo(steps, k)
  {
    HubRun(steps, k);
    var c := Exec(steps).chans[k];
    WholeSubsequence(c.received + c.buf, OfferedTo(steps, k));
  }

  /** The step sends to a closed channel or closes one again, either of which panics in Go. */
  predicate Panics<K(!new), D>(s: State<K, D>, step: Step<K, D>) {
    match step
    case Publish(_) => exists k :: k in s.subs && k in s.chans && !s.chans[k].open
    case Unsubscribe(k) => k in s.subs && k in s.chans && !s.chans[k].open
    case _ => false
  }

  /** No step of any run panics. */
  lemma NoPanic<K(!new), D>(steps: seq<Step<K, D>>, step: Step<K, D>)
    ensures !Panics(Exec(steps), step)
  {
    var s := Exec(steps);
    forall k | k in s.subs && k in s.chans
      ensures s.chans[k].open
    {
      HubRun(steps, k);
    }
  }

  /** In every run an event that is offered to a subscriber is queued last if fewer than 16 are queued, and dropped
      otherwise; one that is not leaves the channel as it is. */
  lemma DroppedExact<K, D>(steps: seq<Step<K, D>>, ev: Event<D>, k: K)
    requires k in Exec(steps).chans
    ensures var c, c' := Exec(steps).chans[k], Exec(steps + [Publish(ev)]).chans[k];
      c' == if OfferedTo(steps + [Publish(ev)], k) == OfferedTo(steps, k) then c
            else if |c.buf| < 16 then c.(buf := c.buf + [ev])
            else c.(dropped := c.dropped + 1)
  {
    HubRun(steps, k);
    assert (steps + [Publish(ev)])[..|steps|] == steps;
    assert |OfferedTo(steps, k) + [ev]| == |OfferedTo(steps, k)| + 1;
    assert OfferedTo(steps, k) + [] == OfferedTo(steps, k);
  }
}
