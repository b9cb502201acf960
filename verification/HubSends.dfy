/** The hub with calls of Publish that overlap.  Publish holds the lock for reading only: several calls may send at the
    same time, one subscriber after the other, while no one subscribes or unsubscribes. */
module HubSends {
  import opened HubModel
  import opened Reorder

  /** The steps: a call of Publish begins, sends to one subscriber after the other, and ends. */
  datatype Move<K, D> =
    | Join(k: K, prefix: string)
    | Begin(ev: Event<D>)
    | Send(p: nat, k: K)
    | End(p: nat)
    | Receive(k: K)
    | Leave(k: K)

  /** The hub, the events of all calls of Publish so far, and to whom each call that has not ended has still to send. */
  datatype Busy<K(==), D> = Busy(hub: State<K, D>, begun: seq<Event<D>>, active: map<nat, set<K>>)

  /** The call `p` has still to send to `k`. */
  predicate Pending<K(==), D>(s: Busy<K, D>, p: nat, k: K) {
    p in s.active && k in s.active[p]
  }

  predicate CanSend<K(==), D>(s: Busy<K, D>, p: nat, k: K) {
    Pending(s, p, k) && p < |s.begun| && k in s.hub.chans
  }

  /** A step whose turn it is not changes nothing: the lock is not free, or there is nobody left to send to. */
  function Advance<K(==), D>(s: Busy<K, D>, m: Move<K, D>): Busy<K, D> {
    match m
    case Join(k, prefix) => if s.active == map[] then s.(hub := Next(s.hub, Subscribe(k, prefix))) else s
    case Begin(ev) => s.(begun := s.begun + [ev], active := s.active[|s.begun| := s.hub.subs])
    case Send(p, k) =>
      if CanSend(s, p, k) then
        s.(hub := s.hub.(chans := s.hub.chans[k := Offer(s.hub.chans[k], s.begun[p])]),
           active := s.active[p := s.active[p] - {k}])
      else s
    case End(p) => if p in s.active && s.active[p] == {} then s.(active := s.active - {p}) else s
    case Receive(k) => s.(hub := Next(s.hub, HubModel.Receive(k)))
    case Leave(k) => if s.active == map[] then s.(hub := Next(s.hub, Unsubscribe(k))) else s
  }

  function Play<K(==), D>(moves: seq<Move<K, D>>): Busy<K, D> {
    if moves == [] then Busy(State({}, map[]), [], map[]) else Advance(Play(moves[..|moves| - 1]), moves[|moves| - 1])
  }

  // ----- the run as one subscriber sees it -----

  /** The step that a move is for subscriber `k`, if it is one: a call of Publish is where the event is sent to it, and
      where the call begins if it is not registered then. */
  function StepFor<K(==), D>(s: Busy<K, D>, m: Move<K, D>, k: K): seq<Step<K, D>> {
    match m
    case Join(j, prefix) => if s.active == map[] then [Subscribe(j, prefix)] else []
    case Begin(ev) => if k in s.hub.subs then [] else [Publish(ev)]
    case Send(p, j) => if j == k && CanSend(s, p, j) then [Publish(s.begun[p])] else []
    case End(_) => []
    case Receive(j) => [HubModel.Receive(j)]
    case Leave(j) => if s.active == map[] then [Unsubscribe(j)] else []
  }

  /** The calls of Publish in the order in which `k` sees them. */
  function CallFor<K(==), D>(s: Busy<K, D>, m: Move<K, D>, k: K): seq<nat> {
    match m
    case Begin(_) => if k in s.hub.subs then [] else [|s.begun|]
    case Send(p, j) => if j == k && CanSend(s, p, j) then [p] else []
    case _ => []
  }

  function Seen<K(==), D>(moves: seq<Move<K, D>>, k: K): seq<Step<K, D>> {
    if moves == [] then []
    else
      var front := moves[..|moves| - 1];
      Seen(front, k) + StepFor(Play(front), moves[|moves| - 1], k)
  }

  function Calls<K(==), D>(moves: seq<Move<K, D>>, k: K): seq<nat> {
    if moves == [] then []
    else
      var front := moves[..|moves| - 1];
      Calls(front, k) + CallFor(Play(front), moves[|moves| - 1], k)
  }

  /** The events that a run publishes. */
  function PublishedIn<K(==), D>(steps: seq<Step<K, D>>): seq<Event<D>> {
    if steps == [] then []
    else
      PublishedIn(steps[..|steps| - 1]) +
      if steps[|steps| - 1].Publish? then [steps[|steps| - 1].ev] else []
  }

  lemma ExecMore<K, D>(steps: seq<Step<K, D>>, step: Step<K, D>)
    ensures Exec(steps + [step]) == Next(Exec(steps), step)
    ensures PublishedIn(steps + [step]) == PublishedIn(steps) + if step.Publish? then [step.ev] else []
  {
    assert (steps + [step])[..|steps|] == steps;
  }

  /** Subscriber `k` is registered in both or in neither, and its channel is the same in both. */
  ghost predicate Alike<K, D>(a: State<K, D>, b: State<K, D>, k: K) {
    && (k in a.subs <==> k in b.subs) && (k in a.chans <==> k in b.chans)
    && (k in a.chans ==> a.chans[k] == b.chans[k])
  }

  /** Calls send to registered subscribers only. */
  ghost predicate Tidy<K, D>(s: Busy<K, D>) {
    && s.hub.subs <= s.hub.chans.Keys
    && forall p | p in s.active :: p < |s.begun| && s.active[p] <= s.hub.subs
  }

  /** The calls in `order` are those that have not still to send to `k`. */
  predicate Listed<K(==), D>(s: Busy<K, D>, order: seq<nat>, k: K) {
    && Within(order, |s.begun|) && Distinct(order)
    && forall p: nat | p < |s.begun| :: p in order <==> !Pending(s, p, k)
  }

  /** What `k` has seen is a run of single steps that leads to the same state of its channel, and has each call of
      Publish exactly once, unless that has still to send to `k`. */
  ghost predicate Serial<K, D>(s: Busy<K, D>, steps: seq<Step<K, D>>, order: seq<nat>, k: K) {
    && Tidy(s) && Alike(s.hub, Exec(steps), k) && Listed(s, order, k)
    && PublishedIn(steps) == Pick(s.begun, order)
  }

  lemma PickOne<T>(xs: seq<T>, order: seq<nat>, p: nat)
    requires Within(order, |xs|) && p < |xs|
    ensures Within(order + [p], |xs|) && Pick(xs, order + [p]) == Pick(xs, order) + [xs[p]]
  {
  }

  lemma DistinctMore(order: seq<nat>, p: nat)
    requires Distinct(order) && p !in order
    ensures Distinct(order + [p]) && forall x :: x in order + [p] <==> x in order || x == p
  {
  }

  lemma BeginSerial<K, D>(s: Busy<K, D>, ev: Event<D>, steps: seq<Step<K, D>>, order: seq<nat>, k: K)
    requires Serial(s, steps, order, k)
    ensures Serial(Advance(s, Begin(ev)), steps + StepFor(s, Begin(ev), k), order + CallFor(s, Begin(ev), k), k)
  {
    var s', n := Advance(s, Begin(ev)), |s.begun|;
    assert Pick(s'.begun, order) == Pick(s.begun, order);
    if k in s.hub.subs {
      assert order + [] == order && steps + [] == steps;
    } else {
      ExecMore(steps, Publish(ev));
      DistinctMore(order, n);
      PickOne(s'.begun, order, n);
    }
  }

  lemma SendSerial<K, D>(s: Busy<K, D>, p: nat, j: K, steps: seq<Step<K, D>>, order: seq<nat>, k: K)
    requires Serial(s, steps, order, k)
    ensures var m := Send(p, j);
      Serial(Advance(s, m), steps + StepFor(s, m, k), order + CallFor(s, m, k), k)
  {
    var s' := Advance(s, Send(p, j));
    if j == k && CanSend(s, p, j) {
      ExecMore(steps, Publish(s.begun[p]));
      DistinctMore(order, p);
      PickOne(s.begun, order, p);
    } else {
      assert order + [] == order && steps + [] == steps;
    }
  }

  /** A step taken by two hubs that are alike for `k`. */
  lemma NextAlike<K, D>(a: State<K, D>, b: State<K, D>, step: Step<K, D>, k: K)
    requires Alike(a, b, k) && !step.Publish?
    ensures Alike(Next(a, step), Next(b, step), k)
  {
  }

  lemma NextTidy<K, D>(s: Busy<K, D>, step: Step<K, D>)
    requires Tidy(s) && !step.Publish? && (step.Receive? || s.active == map[])
    ensures Tidy(s.(hub := Next(s.hub, step)))
  {
  }

  /** A step of the hub that sends nothing, taken by both. */
  lemma HubStepSerial<K, D>(s: Busy<K, D>, step: Step<K, D>, steps: seq<Step<K, D>>, order: seq<nat>, k: K)
    requires Serial(s, steps, order, k) && !step.Publish? && (step.Receive? || s.active == map[])
    ensures Serial(s.(hub := Next(s.hub, step)), steps + [step], order, k)
  {
    NextTidy(s, step);
    NextAlike(s.hub, Exec(steps), step, k);
    ExecMore(steps, step);
    assert PublishedIn(steps) + [] == PublishedIn(steps);
  }

  /** Moves that send nothing. */
  lemma QuietSerial<K, D>(s: Busy<K, D>, m: Move<K, D>, steps: seq<Step<K, D>>, order: seq<nat>, k: K)
    requires Serial(s, steps, order, k) && !m.Begin? && !m.Send?
    ensures Serial(Advance(s, m), steps + StepFor(s, m, k), order + CallFor(s, m, k), k)
  {
    assert order + [] == order && steps + [] == steps;
    match m {
      case Join(j, prefix) =>
        if s.active == map[] {
          HubStepSerial(s, Subscribe(j, prefix), steps, order, k);
        }
      case Leave(j) =>
        if s.active == map[] {
          HubStepSerial(s, Unsubscribe(j), steps, order, k);
        }
      case Receive(j) => HubStepSerial(s, HubModel.Receive(j), steps, order, k);
      case End(_) =>
    }
  }

  /** In every interleaving of overlapping calls, each subscriber sees a run of single steps.  Two subscribers may see
      two events in different orders. */
  lemma {:induction false} SeenSerial<K, D>(moves: seq<Move<K, D>>, k: K)
    ensures Serial(Play(moves), Seen(moves, k), Calls(moves, k), k)
  {
    if moves != [] {
      var front, m := moves[..|moves| - 1], moves[|moves| - 1];
      SeenSerial(front, k);
      match m {
        case Begin(ev) => BeginSerial(Play(front), ev, Seen(front, k), Calls(front, k), k);
        case Send(p, j) => SendSerial(Play(front), p, j, Seen(front, k), Calls(front, k), k);
        case _ => QuietSerial(Play(front), m, Seen(front, k), Calls(front, k), k);
      }
    }
  }

  /** What is seen of the first moves comes first. */
  lemma {:induction false} CallsExtend<K, D>(front: seq<Move<K, D>>, more: seq<Move<K, D>>, k: K)
    ensures Calls(front, k) <= Calls(front + more, k)
    decreases |more|
  {
    if more == [] {
      assert front + more == front;
    } else {
      CallsExtend(front, more[..|more| - 1], k);
      FrontOf(front, more);
      CallsLast(front + more, k);
    }
  }

  lemma CallsLast<K, D>(moves: seq<Move<K, D>>, k: K)
    requires moves != []
    ensures Calls(moves[..|moves| - 1], k) <= Calls(moves, k)
  {
  }

  lemma FrontOf<T>(a: seq<T>, b: seq<T>)
    requires b != []
    ensures (a + b)[..|a + b| - 1] == a + b[..|b| - 1]
  {
  }

  /** What is not among the first comes later. */
  lemma NotEarly(early: seq<nat>, all: seq<nat>, j: nat, n: nat)
    requires early <= all && Within(early, n) && j < |all| && n <= all[j]
    ensures |early| <= j
  {
  }

  /** A call that has ended before another begins is seen before it. */
  lemma SeenInTurn<K, D>(front: seq<Move<K, D>>, more: seq<Move<K, D>>, k: K, p: nat, q: nat)
    requires p < |Play(front).begun| <= q && p !in Play(front).active && q in Calls(front + more, k)
    ensures Before(Calls(front + more, k), p, q)
  {
    var early, all := Calls(front, k), Calls(front + more, k);
    SeenSerial(front, k);
    CallsExtend(front, more, k);
    assert !Pending(Play(front), p, k);
    var i :| 0 <= i < |early| && early[i] == p;
    var j :| 0 <= j < |all| && all[j] == q;
    assert all[i] == p;
    NotEarly(early, all, j, |Play(front).begun|);
  }

  /** So what holds of runs of single steps holds of the channel of every subscriber: it is open while it is registered,
      never over capacity; and each event that was sent to it while it was
      registered and that matches was received, is queued or was dropped. */
  lemma BusyRun<K, D>(moves: seq<Move<K, D>>, k: K)
    ensures var s, steps := Play(moves), Seen(moves, k);
      && (k in s.hub.chans <==> !PhaseOf(steps, k).Unborn?) && (k in s.hub.subs <==> PhaseOf(steps, k).Watching?)
      && (k in s.hub.chans ==>
            (s.hub.chans[k].open <==> k in s.hub.subs) && Accounted(s.hub.chans[k], OfferedTo(steps, k)))
  {
    SeenSerial(moves, k);
    HubRun(Seen(moves, k), k);
  }

  // ----- a call that nothing interrupts -----

  /** The call at `n` is the only one, and has still to send to `rest`; the others registered have its event. */
  ghost predicate Sending<K, D>(s: Busy<K, D>, before: State<K, D>, n: nat, ev: Event<D>, rest: set<K>) {
    && n < |s.begun| && s.begun[n] == ev && s.active == map[n := rest] && rest <= before.subs
    && s.hub == before.(chans := map k | k in before.chans ::
                          if k in before.subs && k !in rest then Offer(before.chans[k], ev) else before.chans[k])
  }

  lemma SendOne<K, D>(s: Busy<K, D>, before: State<K, D>, n: nat, ev: Event<D>, rest: set<K>, k: K)
    requires Sending(s, before, n, ev, rest) && k in rest && k in before.chans
    ensures Sending(Advance(s, Send(n, k)), before, n, ev, rest - {k})
  {
    assert s.active[n := s.active[n] - {k}] == map[n := rest - {k}];
  }

  lemma PlayMore<K, D>(moves: seq<Move<K, D>>, m: Move<K, D>)
    ensures Play(moves + [m]) == Advance(Play(moves), m)
  {
    assert (moves + [m])[..|moves|] == moves;
  }

  lemma {:induction false} SendRest<K, D>(moves: seq<Move<K, D>>, before: State<K, D>, n: nat, ev: Event<D>,
                                          rest: set<K>)
    returns (all: seq<Move<K, D>>)
    requires Sending(Play(moves), before, n, ev, rest) && before.subs <= before.chans.Keys
    ensures Sending(Play(all), before, n, ev, {})
    decreases |rest|
  {
    all := moves;
    if rest != {} {
      var k :| k in rest;
      SendOne(Play(moves), before, n, ev, rest, k);
      PlayMore(moves, Send(n, k));
      all := SendRest(moves + [Send(n, k)], before, n, ev, rest - {k});
    }
  }

  /** A call of Publish that is alone does what the one step does. */
  lemma PublishAlone<K, D>(moves: seq<Move<K, D>>, ev: Event<D>) returns (all: seq<Move<K, D>>)
    requires Tidy(Play(moves)) && Play(moves).active == map[]
    ensures Play(all).hub == Next(Play(moves).hub, Publish(ev)) && Play(all).active == map[]
  {
    var s, n := Play(moves), |Play(moves).begun|;
    PlayMore(moves, Begin(ev));
    assert s.hub.chans == map k | k in s.hub.chans :: s.hub.chans[k];
    all := SendRest(moves + [Begin(ev)], s.hub, n, ev, s.hub.subs);
    PlayMore(all, End(n));
    assert Play(all).active - {n} == map[];
    all := all + [End(n)];
  }

  /** Every run of single steps is one of overlapping calls, none of which overlap. */
  lemma {:induction false} SingleSteps<K, D>(steps: seq<Step<K, D>>, k: K) returns (moves: seq<Move<K, D>>)
    ensures Play(moves).hub == Exec(steps) && Play(moves).active == map[]
    decreases |steps|
  {
    moves := [];
    if steps != [] {
      moves := SingleSteps(steps[..|steps| - 1], k);
      SeenSerial(moves, k);
      match steps[|steps| - 1] {
        case Publish(ev) =>
          moves := PublishAlone(moves, ev);
        case Subscribe(j, prefix) =>
          PlayMore(moves, Join(j, prefix));
          moves := moves + [Join(j, prefix)];
        case Receive(j) =>
          PlayMore(moves, Move.Receive(j));
          moves := moves + [Move.Receive(j)];
        case Unsubscribe(j) =>
          PlayMore(moves, Leave(j));
          moves := moves + [Leave(j)];
      }
    }
  }

  /** No send of any run is to a closed channel. */
  lemma SendsToOpen<K, D>(moves: seq<Move<K, D>>, p: nat, k: K)
    requires Pending(Play(moves), p, k)
    ensures k in Play(moves).hub.chans && Play(moves).hub.chans[k].open
  {
    SeenSerial(moves, k);
    BusyRun(moves, k);
  }
}
