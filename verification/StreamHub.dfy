/** The hub beside the database and the streaming client: a run of the hub by itself, with any number of other
    subscribers. */
module StreamHub {
  import opened JsonTree
  import opened HubModel
  import opened Stream

  /** What an action is to the hub: nothing, or one step. */
  function HubStep(s: System, a: Action, path: string, me: nat): seq<Step<nat, nat>> {
    match a
    case Announce(i) =>
      if i < |s.committed| && i !in s.published then [Publish(EventOf(s.committed[i], i))] else []
    case Connect => if s.phase.Idle? then [Subscribe(me, Prefix(path))] else []
    case Deliver =>
      if s.phase.Live? && me in s.hub.chans && Inbox(s, me).buf != [] && Inbox(s, me).buf[0].data < |s.committed|
      then [Receive(me)] else []
    case Disconnect => if s.phase.Subscribed? || s.phase.Live? then [Unsubscribe(me)] else []
    case Others(step) => if step.Publish? || step.k == me then [] else [step]
    case _ => []
  }

  function HubSteps(actions: seq<Action>, tree: Fields, path: string, me: nat): seq<Step<nat, nat>> {
    if actions == [] then []
    else
      var front := actions[..|actions| - 1];
      HubSteps(front, tree, path, me) + HubStep(After(front, tree, path, me), actions[|actions| - 1], path, me)
  }

  /** Where the client is, as the hub sees it. */
  predicate SeenAs(s: System, phase: HubModel.Phase, path: string) {
    match s.phase
    case Idle => phase == Unborn
    case Left => phase == Gone
    case _ => phase == Watching(Prefix(path))
  }

  lemma HubActs(s: System, a: Action, path: string, me: nat)
    ensures var more := HubStep(s, a, path, me);
      |more| <= 1 && Act(s, a, path, me).hub == if more == [] then s.hub else Next(s.hub, more[0])
  {
  }

  lemma PhaseKept(steps: seq<Step<nat, nat>>, step: Step<nat, nat>, k: nat)
    requires step.Publish? || step.Receive? || step.k != k
    ensures PhaseOf(steps + [step], k) == PhaseOf(steps, k)
  {
    OneMore(steps, [step]);
  }

  lemma PhaseMoved(steps: seq<Step<nat, nat>>, k: nat, prefix: string)
    ensures PhaseOf(steps, k).Unborn? ==> PhaseOf(steps + [Subscribe(k, prefix)], k) == Watching(prefix)
    ensures PhaseOf(steps, k).Watching? ==> PhaseOf(steps + [Unsubscribe(k)], k) == Gone
  {
    OneMore(steps, [Subscribe(k, prefix)]);
    OneMore(steps, [Unsubscribe(k)]);
  }

  lemma SeenActs(s: System, a: Action, path: string, me: nat, steps: seq<Step<nat, nat>>)
    requires SeenAs(s, PhaseOf(steps, me), path)
    ensures SeenAs(Act(s, a, path, me), PhaseOf(steps + HubStep(s, a, path, me), me), path)
  {
    var more := HubStep(s, a, path, me);
    if more == [] {
      OneMore(steps, more);
    } else if a.Connect? || a.Disconnect? {
      PhaseMoved(steps, me, Prefix(path));
    } else {
      PhaseKept(steps, more[0], me);
      assert more == [more[0]];
    }
  }

  lemma OneMore<T>(steps: seq<T>, more: seq<T>)
    requires |more| <= 1
    ensures more == [] ==> steps + more == steps
    ensures more != [] ==>
      (steps + more)[..|steps + more| - 1] == steps && (steps + more)[|steps + more| - 1] == more[0]
  {
  }

  /** The hub of every run is that of a run of the hub by itself, in which the client and all the others take their
      steps, and each announcement is a publication; and the client is registered exactly from when it connects until
      it disconnects. */
  lemma {:induction false} HubOfRun(actions: seq<Action>, tree: Fields, path: string, me: nat)
    ensures var s, steps := After(actions, tree, path, me), HubSteps(actions, tree, path, me);
      s.hub == Exec(steps) && SeenAs(s, PhaseOf(steps, me), path)
    decreases |actions|
  {
    if actions != [] {
      var front, a := actions[..|actions| - 1], actions[|actions| - 1];
      HubOfRun(front, tree, path, me);
      var s, steps := After(front, tree, path, me), HubSteps(front, tree, path, me);
      HubActs(s, a, path, me);
      SeenActs(s, a, path, me, steps);
      OneMore(steps, HubStep(s, a, path, me));
    }
  }

  /** So the run theorem of the hub holds of every subscriber, the others included. */
  lemma OthersAccounted(actions: seq<Action>, tree: Fields, path: string, me: nat, k: nat)
    ensures var s, steps := After(actions, tree, path, me), HubSteps(actions, tree, path, me);
      && (k in s.hub.subs <==> PhaseOf(steps, k).Watching?)
      && (k in s.hub.chans ==>
            (s.hub.chans[k].open <==> k in s.hub.subs) && Accounted(s.hub.chans[k], OfferedTo(steps, k)))
  {
    HubOfRun(actions, tree, path, me);
    HubRun(HubSteps(actions, tree, path, me), k);
  }
}
