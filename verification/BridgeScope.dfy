/** Session isolation: a subscription pinned to a session hears the events of that session, all
    of them, and nothing of another (gui/bridge.go, application/session/viewstate/coordinator.go). */
module BridgeScope {
  import opened EventHub
  import opened BridgeModel

  /** An event of the session; of the two kinds that end or reload a window only the
      process-level one. */
  predicate Ours(key: string, e: Event) {
    e.session == if e.kind == ResyncRequired || e.kind == ExitRequested then "" else key
  }

  predicate AllOurs(key: string, items: seq<Event>) {
    forall i :: 0 <= i < |items| ==> Ours(key, items[i])
  }

  function InHand(r: Relay): seq<Event> {
    if r.Holding? || r.Cleared? || r.Sent? then [r.event] else []
  }

  /** Whatever the subscription can still show, from the channel, the window or the relay's
      hands, is of its session. */
  predicate Private(sub: Subscription) {
    sub.scope.Keyed? && sub.scope.key != "" ==>
      && AllOurs(sub.scope.key, sub.hub.queue) && AllOurs(sub.scope.key, sub.hub.replay)
      && AllOurs(sub.scope.key, InHand(sub.relay))
  }

  ghost predicate Isolated(s: System) {
    forall i :: 0 <= i < |s.subs| ==> Private(s.subs[i])
  }

  lemma ReceiveStaysPrivate(sub: Subscription, view: string, e: Event)
    requires Private(sub)
    ensures Private(Receive(sub, view, e))
  {
  }

  lemma RelayMoveStaysPrivate(s: System, sub: Subscription)
    requires Private(sub)
    ensures Private(RelayMoved(s, sub))
  {
    var t := RelayMoved(s, sub);
    if sub.relay.Waiting? && sub.hub.queue != [] && sub.scope.Keyed? && sub.scope.key != "" {
      assert Ours(sub.scope.key, sub.hub.queue[0]);
    }
  }

  lemma ReplaceStaysIsolated(s: System, i: nat, sub: Subscription)
    requires Isolated(s) && i < |s.subs| && Private(sub)
    ensures Isolated(s.(subs := s.subs[i := sub]))
  {
    hide Private;
  }

  lemma QuietRelayIsPrivate(sub: Subscription, r: Relay)
    requires Private(sub) && InHand(r) == []
    ensures Private(sub.(relay := r))
  {
  }

  lemma ClosedIsPrivate(sub: Subscription)
    requires Private(sub)
    ensures Private(sub.(hub := Close(sub.hub)))
  {
  }

  lemma ResubscribedIsIsolated(s: System, mode: Mode)
    requires Isolated(s)
    ensures Isolated(Resubscribed(s, mode))
  {
    assert Private(Subscribe(s.view, mode)) by { NewIsPrivate(s.view, mode); }
    hide Private, Subscribe;
  }

  lemma NewIsPrivate(view: string, mode: Mode)
    ensures Private(Subscribe(view, mode))
  {
  }

  lemma RelayStaysIsolated(s: System, i: nat, mode: Mode)
    requires Isolated(s) && Enabled(s, RelayStep(i, mode))
    ensures Isolated(Relayed(s, i, mode))
  {
    hide Isolated, Private, RelayMoved, Resubscribed;
    var sub := s.subs[i];
    assert Private(sub) by { PrivateAt(s, i); }
    var r := sub.relay;
    if r.Arming? {
      QuietRelayIsPrivate(sub, Waiting(r.gen));
      ReplaceStaysIsolated(s, i, sub.(relay := Waiting(r.gen)));
      SameSubsAreIsolated(SetRelay(s, i, Waiting(r.gen)), Relayed(s, i, mode));
    } else if r.Aligning? && r.sync.SyncResubscribe? {
      QuietRelayIsPrivate(sub, Exited);
      ReplaceStaysIsolated(s, i, sub.(relay := Exited));
      ResubscribedIsIsolated(SetRelay(s, i, Exited), mode);
    } else {
      RelayMoveStaysPrivate(s, sub);
      ReplaceStaysIsolated(s, i, RelayMoved(s, sub));
    }
  }

  lemma PrivateAt(s: System, i: nat)
    requires Isolated(s) && i < |s.subs|
    ensures Private(s.subs[i])
  {
  }

  lemma SameSubsAreIsolated(s: System, t: System)
    requires Isolated(s) && t.subs == s.subs
    ensures Isolated(t)
  {
  }

  lemma PublishedIsIsolated(s: System, e: Event)
    requires Isolated(s)
    ensures Isolated(Published(s, e))
  {
    hide Private, Receive;
    forall i | 0 <= i < |s.subs| ensures Private(Published(s, e).subs[i]) {
      ReceiveStaysPrivate(s.subs[i], s.view, e);
    }
  }

  lemma LocalStaysIsolated(s: System, step: Step)
    requires Isolated(s) && Enabled(s, step) && Local(step)
    ensures Isolated(Apply(s, step))
  {
    hide Isolated, Private, Close;
    if step.StartRelay? {
      var gen := s.b.relayGen + 1;
      PrivateAt(s, step.i);
      QuietRelayIsPrivate(s.subs[step.i], Ready(gen));
      ReplaceStaysIsolated(s, step.i, s.subs[step.i].(relay := Ready(gen)));
      SameSubsAreIsolated(SetRelay(s, step.i, Ready(gen)), Apply(s, step));
    } else if step.RelayCancelled? {
      PrivateAt(s, step.i);
      QuietRelayIsPrivate(s.subs[step.i], Exited);
      ReplaceStaysIsolated(s, step.i, s.subs[step.i].(relay := Exited));
    } else if step.CloseSubscription? {
      PrivateAt(s, step.i);
      ClosedIsPrivate(s.subs[step.i]);
      ReplaceStaysIsolated(s, step.i, s.subs[step.i].(hub := Close(s.subs[step.i].hub)));
    } else {
      SameSubsAreIsolated(s, Apply(s, step));
    }
  }

  lemma CatchUpKeepsSubscriptions(s: System, c: CatchUp)
    requires s.b.sub < |s.subs| && Readable(s, c)
    ensures CaughtUp(s, c).subs == s.subs
  {
    hide Answer;
  }

  lemma SyncStaysIsolated(s: System, sync: Sync, mode: Mode)
    requires Isolated(s)
    ensures Isolated(Synced(s, sync, mode))
  {
    hide Isolated, Resubscribed;
    if sync.SyncResubscribe? {
      ResubscribedIsIsolated(s, mode);
    } else {
      SameSubsAreIsolated(s, Synced(s, sync, mode));
    }
  }

  lemma StepStaysIsolated(s: System, step: Step)
    requires Isolated(s) && Enabled(s, step)
    ensures Isolated(Apply(s, step))
  {
    hide Isolated, Relayed, Synced, CaughtUp, Published;
    match step
    case PublishNotice(notice) =>
      PublishedIsIsolated(s, notice);
      SameSubsAreIsolated(Published(s, notice), Apply(s, step));
    case Publish(event) =>
      PublishedIsIsolated(s, event);
      SameSubsAreIsolated(Published(s, event), Apply(s, step));
    case RelayStep(i, mode) => RelayStaysIsolated(s, i, mode);
    case SyncStep(sync, mode) =>
      var u := s.(syncs := s.syncs - multiset{sync});
      SameSubsAreIsolated(s, u);
      SyncStaysIsolated(u, sync, mode);
    case CatchUpStep(c) =>
      CatchUpKeepsSubscriptions(s.(catchUps := s.catchUps - multiset{c}), c);
      SameSubsAreIsolated(s, Apply(s, step));
    case _ => LocalStaysIsolated(s, step);
  }

  lemma {:induction false} RunStaysIsolated(s: System, steps: seq<Step>)
    requires Isolated(s) && Executes(s, steps)
    ensures Isolated(Run(s, steps))
    decreases |steps|
  {
    hide Isolated, Apply, Enabled;
    if steps != [] {
      StepStaysIsolated(s, steps[0]);
      RunStaysIsolated(Apply(s, steps[0]), steps[1..]);
    }
  }

  /** Over every run: nothing a pinned subscription has waiting, in its replay window or in its
      relay's hands is of another session, whatever the view became in the meantime. */
  lemma SessionsAreIsolated(view: string, mode: Mode, steps: seq<Step>, i: nat)
    requires Executes(Start(view, mode), steps) && i < |Run(Start(view, mode), steps).subs|
    requires var sub := Run(Start(view, mode), steps).subs[i]; sub.scope.Keyed? && sub.scope.key != ""
    ensures var sub := Run(Start(view, mode), steps).subs[i];
            forall e :: e in sub.hub.queue || e in sub.hub.replay || e in InHand(sub.relay) ==> Ours(sub.scope.key, e)
  {
    NewIsPrivate(view, mode);
    RunStaysIsolated(Start(view, mode), steps);
    hide Run, Executes;
    assert Private(Run(Start(view, mode), steps).subs[i]);
  }

  /** Who hears a published event: every open subscription to everything, to the event's own
      session, and, for a draft that has no session yet, to the session on view. */
  lemma HeardExactly(s: System, e: Event, i: nat)
    requires i < |s.subs|
    ensures var sub, t := s.subs[i], Published(s, e).subs[i];
            && t.hub.delivered == sub.hub.delivered +
                 (if !sub.hub.closed
                     && match sub.scope
                        case Everything => true
                        case Keyed(key) => Ours(key, e) || (key == "" && Ours(s.view, e))
                  then 1 else 0)
            && (t.hub.delivered == sub.hub.delivered ==> t == sub)
  {
  }
}
