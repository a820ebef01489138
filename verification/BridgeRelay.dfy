/** Relay generations: a superseded relay emits at most once more, one relay emits in
    delivery order, and exactly which steps leave the current subscription without a relay. */
module BridgeRelay {
  import opened EventHub
  import opened BridgeModel
  import opened BridgeWakeup

  // ---- order and staleness ----

  function Held(r: Relay): seq<nat> {
    if r.Holding? || r.Cleared? then [r.event.deliverySeq] else []
  }

  function Numbers(events: seq<Event>): seq<nat> {
    seq(|events|, i requires 0 <= i < |events| => events[i].deliverySeq)
  }

  /** Emitted, then taken but not emitted, then still in the channel. */
  function Pipeline(sub: Subscription): seq<nat> {
    sub.sent + Held(sub.relay) + Numbers(sub.hub.queue)
  }

  ghost predicate Ascending(numbers: seq<nat>, last: nat) {
    && (forall i, j :: 0 <= i < j < |numbers| ==> numbers[i] < numbers[j])
    && (forall i :: 0 <= i < |numbers| ==> numbers[i] <= last)
  }

  ghost predicate InOrder(sub: Subscription) {
    Ascending(Pipeline(sub), sub.hub.delivered)
  }

  /** A relay about to emit has not emitted late; one that has is superseded for good. */
  predicate Punctual(sub: Subscription, relayGen: nat) {
    && sub.late <= 1
    && (sub.relay.NotStarted? || sub.relay.Ready? || sub.relay.Cleared? ==> sub.late == 0)
    && (sub.late == 1 && !sub.relay.Exited? ==> Gen(sub.relay) < relayGen)
  }

  ghost predicate Disciplined(s: System) {
    && s.b.sub < |s.subs|
    && (forall i :: 0 <= i < |s.subs| ==> InOrder(s.subs[i]))
    && (forall i :: 0 <= i < |s.subs| ==> Punctual(s.subs[i], s.b.relayGen))
  }

  lemma ReceiveKeepsOrder(sub: Subscription, view: string, e: Event)
    requires InOrder(sub)
    ensures InOrder(Receive(sub, view, e))
  {
    var next := Receive(sub, view, e);
    var last := sub.hub.delivered + 1;
    if Accepts(sub.scope, view, e) && !sub.hub.closed {
      if |sub.hub.queue| < sub.hub.buffer {
        assert Pipeline(next) == Pipeline(sub) + [last];
      } else if sub.hub.window == 0 {
        assert Pipeline(next) == (sub.sent + Held(sub.relay)) + [last];
        assert (sub.sent + Held(sub.relay)) == Pipeline(sub)[..|sub.sent + Held(sub.relay)|];
      } else {
        assert Pipeline(next) == Pipeline(sub);
      }
    }
  }

  lemma RelayMoveKeepsOrder(s: System, sub: Subscription)
    requires InOrder(sub)
    ensures InOrder(RelayMoved(s, sub))
  {
    var next := RelayMoved(s, sub);
    if sub.relay.Holding? && !next.relay.Cleared? {
      DroppedKeepsOrder(sub, next);
    } else {
      assert Pipeline(next) == Pipeline(sub);
    }
  }

  /** The taken event is not emitted after all. */
  lemma DroppedKeepsOrder(sub: Subscription, next: Subscription)
    requires InOrder(sub) && sub.relay.Holding?
    requires Held(next.relay) == [] && next.sent == sub.sent && next.hub == sub.hub
    ensures InOrder(next)
  {
    var before, after, n := Pipeline(sub), Pipeline(next), |sub.sent|;
    assert forall i :: 0 <= i < n ==> after[i] == before[i];
    assert forall i :: n <= i < |after| ==> after[i] == before[i + 1];
  }

  lemma RelayMoveStaysPunctual(s: System, sub: Subscription)
    requires Punctual(sub, s.b.relayGen) && Gen(sub.relay) <= s.b.relayGen
    ensures Punctual(RelayMoved(s, sub), s.b.relayGen)
  {
  }

  lemma ReplaceKeepsDiscipline(s: System, i: nat, sub: Subscription)
    requires Disciplined(s) && i < |s.subs| && InOrder(sub) && Punctual(sub, s.b.relayGen)
    ensures Disciplined(s.(subs := s.subs[i := sub]))
  {
  }

  lemma ResubscribeKeepsDiscipline(s: System, mode: Mode)
    requires Disciplined(s)
    ensures Disciplined(Resubscribed(s, mode))
  {
    assert Pipeline(Subscribe(s.view, mode)) == [];
  }

  lemma RelayKeepsDiscipline(s: System, i: nat, mode: Mode)
    requires Disciplined(s) && RelaysSound(s) && Enabled(s, RelayStep(i, mode))
    ensures Disciplined(Relayed(s, i, mode))
  {
    var sub := s.subs[i];
    var r := sub.relay;
    if r.Arming? {
      assert Pipeline(sub.(relay := Waiting(r.gen))) == Pipeline(sub);
      ReplaceKeepsDiscipline(ResendArmed(s), i, sub.(relay := Waiting(r.gen)));
    } else if r.Aligning? && r.sync.SyncResubscribe? {
      assert Pipeline(sub.(relay := Exited)) == Pipeline(sub);
      ReplaceKeepsDiscipline(s, i, sub.(relay := Exited));
      ResubscribeKeepsDiscipline(SetRelay(s, i, Exited), mode);
    } else {
      RelayMoveKeepsOrder(s, sub);
      RelayMoveStaysPunctual(s, sub);
      ReplaceKeepsDiscipline(s, i, RelayMoved(s, sub));
    }
  }

  lemma PublishKeepsDiscipline(s: System, e: Event)
    requires Disciplined(s)
    ensures Disciplined(Published(s, e))
  {
    forall i | 0 <= i < |s.subs|
      ensures InOrder(Published(s, e).subs[i]) && Punctual(Published(s, e).subs[i], s.b.relayGen)
    {
      ReceiveKeepsOrder(s.subs[i], s.view, e);
    }
  }

  lemma SyncKeepsDiscipline(s: System, sync: Sync, mode: Mode)
    requires Disciplined(s)
    ensures Disciplined(Synced(s, sync, mode))
  {
    if sync.SyncResubscribe? {
      ResubscribeKeepsDiscipline(s, mode);
    }
  }

  lemma StartKeepsDiscipline(s: System, i: nat)
    requires Disciplined(s) && Enabled(s, StartRelay(i))
    ensures Disciplined(Apply(s, StartRelay(i)))
  {
    assert Pipeline(s.subs[i].(relay := Ready(s.b.relayGen + 1))) == Pipeline(s.subs[i]);
  }

  lemma EndKeepsDiscipline(s: System, i: nat, step: Step)
    requires Disciplined(s) && Enabled(s, step)
    requires step == RelayCancelled(i) || step == CloseSubscription(i)
    ensures Disciplined(Apply(s, step))
  {
    assert Pipeline(Apply(s, step).subs[i]) == Pipeline(s.subs[i]);
  }

  lemma CatchUpKeepsDiscipline(s: System, c: CatchUp)
    requires Disciplined(s) && Readable(s, c)
    ensures Disciplined(CaughtUp(s, c))
  {
  }

  lemma SameRelaysKeepDiscipline(s: System, t: System)
    requires Disciplined(s) && t.subs == s.subs && t.b.sub == s.b.sub && t.b.relayGen == s.b.relayGen
    ensures Disciplined(t)
  {
  }

  lemma LocalKeepsDiscipline(s: System, step: Step)
    requires Disciplined(s) && Enabled(s, step) && Local(step)
    ensures Disciplined(Apply(s, step))
  {
    hide Disciplined;
    if step.StartRelay? {
      StartKeepsDiscipline(s, step.i);
    } else if step.RelayCancelled? || step.CloseSubscription? {
      EndKeepsDiscipline(s, step.i, step);
    } else {
      SameRelaysKeepDiscipline(s, Apply(s, step));
    }
  }

  lemma WorkKeepsDiscipline(s: System, step: Step)
    requires Disciplined(s) && RelaysSound(s) && Enabled(s, step) && !Local(step)
    ensures Disciplined(Apply(s, step))
  {
    hide Relayed, Synced, CaughtUp, Published, InOrder, Punctual;
    if step.PublishNotice? {
      PublishKeepsDiscipline(s, step.notice);
    } else if step.Publish? {
      PublishKeepsDiscipline(s, step.event);
    } else if step.RelayStep? {
      RelayKeepsDiscipline(s, step.i, step.mode);
    } else if step.SyncStep? {
      SyncKeepsDiscipline(s.(syncs := s.syncs - multiset{step.sync}), step.sync, step.mode);
    } else if step.CatchUpStep? {
      CatchUpKeepsDiscipline(s.(catchUps := s.catchUps - multiset{step.catchUp}), step.catchUp);
    }
  }

  lemma StepKeepsDiscipline(s: System, step: Step)
    requires Disciplined(s) && RelaysSound(s) && Enabled(s, step)
    ensures Disciplined(Apply(s, step))
  {
    hide Apply, Disciplined, RelaysSound;
    if Local(step) {
      LocalKeepsDiscipline(s, step);
    } else {
      WorkKeepsDiscipline(s, step);
    }
  }

  lemma {:induction false} RunKeepsDiscipline(s: System, steps: seq<Step>)
    requires Sound(s) && Disciplined(s) && Executes(s, steps)
    ensures Sound(Run(s, steps)) && Disciplined(Run(s, steps))
    decreases |steps|
  {
    if steps != [] {
      StepKeepsSound(s, steps[0]);
      StepKeepsDiscipline(s, steps[0]);
      RunKeepsDiscipline(Apply(s, steps[0]), steps[1..]);
    }
  }

  /** Over every run: each relay has emitted in strictly increasing delivery order, and at
      most once (its initial ready included) after a newer generation existed. */
  lemma SupersededRelaysAreBounded(view: string, mode: Mode, steps: seq<Step>, i: nat)
    requires Executes(Start(view, mode), steps) && i < |Run(Start(view, mode), steps).subs|
    ensures var sub := Run(Start(view, mode), steps).subs[i];
            && sub.late <= 1
            && (forall j, k :: 0 <= j < k < |sub.sent| ==> sub.sent[j] < sub.sent[k])
            && (forall j :: 0 <= j < |sub.sent| ==> sub.sent[j] <= sub.hub.delivered)
  {
    StartIsSound(view, mode);
    assert Pipeline(Subscribe(view, mode)) == [];
    RunKeepsDiscipline(Start(view, mode), steps);
    hide Sound, Run, Executes;
    var sub := Run(Start(view, mode), steps).subs[i];
    assert InOrder(sub) && sub.sent == Pipeline(sub)[..|sub.sent|];
    forall j, k | 0 <= j < k < |sub.sent| ensures sub.sent[j] < sub.sent[k] {
      assert Pipeline(sub)[j] < Pipeline(sub)[k];
    }
    forall j | 0 <= j < |sub.sent| ensures sub.sent[j] <= sub.hub.delivered {
      assert Pipeline(sub)[j] <= sub.hub.delivered;
    }
  }

  lemma RelayKeepsGeneration(s: System, i: nat, mode: Mode)
    requires Enabled(s, RelayStep(i, mode))
    ensures Relayed(s, i, mode).b.relayGen == s.b.relayGen
  {
    hide RelayMoved, Subscribe;
  }

  lemma SyncKeepsGeneration(s: System, sync: Sync, mode: Mode)
    ensures Synced(s, sync, mode).b.relayGen == s.b.relayGen
  {
    hide Subscribe;
  }

  lemma CatchUpKeepsGeneration(s: System, c: CatchUp)
    requires s.b.sub < |s.subs| && Readable(s, c)
    ensures CaughtUp(s, c).b.relayGen == s.b.relayGen
  {
    hide ReplayOf;
  }

  lemma StepKeepsGeneration(s: System, step: Step)
    requires Enabled(s, step)
    ensures s.b.relayGen <= Apply(s, step).b.relayGen
  {
    hide Relayed, Synced, CaughtUp, Published;
    if step.RelayStep? {
      RelayKeepsGeneration(s, step.i, step.mode);
    } else if step.SyncStep? {
      SyncKeepsGeneration(s.(syncs := s.syncs - multiset{step.sync}), step.sync, step.mode);
    } else if step.CatchUpStep? {
      CatchUpKeepsGeneration(s.(catchUps := s.catchUps - multiset{step.catchUp}), step.catchUp);
    } else if step.Publish? || step.PublishNotice? {
      PublishKeepsFields(s, if step.Publish? then step.event else step.notice);
    }
  }

  /** A relay that finds itself superseded stays so: whatever happens afterwards, its check
      never lets another event through. */
  lemma {:induction false} SupersededStaysSuperseded(s: System, steps: seq<Step>, gen: nat)
    requires Executes(s, steps) && gen < s.b.relayGen
    ensures gen < Run(s, steps).b.relayGen && !CurrentRelay(Run(s, steps).b, gen)
    decreases |steps|
  {
    if steps != [] {
      StepKeepsGeneration(s, steps[0]);
      SupersededStaysSuperseded(Apply(s, steps[0]), steps[1..], gen);
    }
  }

  // ---- who serves the view ----

  /** The two steps that take the relay away from a served view: a resubscription that was
      overtaken starts its relay last, or a relay told that the view changed finds it already
      subscribed and exits. */
  predicate Strands(s: System, step: Step)
    requires s.b.sub < |s.subs|
  {
    match step
    case StartRelay(i) => i != s.b.sub && !Current(s).relay.NotStarted?
    case RelayStep(i, _) =>
      i == s.b.sub && Current(s).relay.Aligning? && Current(s).relay.sync == SyncCompare(s.view)
    case _ => false
  }

  lemma RelayMoveServes(s: System, i: nat, mode: Mode)
    requires s.b.sub < |s.subs| && s.b.running && !Current(s).hub.closed && Enabled(s, RelayStep(i, mode))
    requires !s.subs[i].relay.Arming? && !(s.subs[i].relay.Aligning? && s.subs[i].relay.sync.SyncResubscribe?)
    ensures var t := Relayed(s, i, mode);
            t.b == s.b && |t.subs| == |s.subs| && (Served(t) <==> Served(s) && !Strands(s, RelayStep(i, mode)))
  {
    if i != s.b.sub {
      assert Current(Relayed(s, i, mode)) == Current(s);
    }
  }

  lemma RelayServes(s: System, i: nat, mode: Mode)
    requires Sound(s) && s.b.running && Enabled(s, RelayStep(i, mode))
    ensures var t := Relayed(s, i, mode);
            t.b.sub < |t.subs| &&
            if t.b.sub != s.b.sub then Served(t)
            else Served(t) <==> Served(s) && !Strands(s, RelayStep(i, mode))
  {
    hide TimersSound, RelaysSound, Valid, RelayMoved;
    var r := s.subs[i].relay;
    if !r.Arming? && !(r.Aligning? && r.sync.SyncResubscribe?) {
      RelayMoveServes(s, i, mode);
    }
  }

  lemma SyncServes(s: System, sync: Sync, mode: Mode)
    requires Sound(s)
    ensures var t := Synced(s, sync, mode);
            t.b.sub < |t.subs| && if t.b.sub != s.b.sub then Served(t) else Served(t) <==> Served(s)
  {
  }

  lemma StartServes(s: System, i: nat)
    requires Sound(s) && Enabled(s, StartRelay(i))
    ensures Served(Apply(s, StartRelay(i))) <==> Served(s) && !Strands(s, StartRelay(i))
  {
    assert Gen(Current(s).relay) <= s.b.relayGen;
  }

  lemma PublishServes(s: System, e: Event)
    requires s.b.sub < |s.subs|
    ensures Served(Published(s, e)) <==> Served(s)
  {
  }

  lemma CatchUpServes(s: System, c: CatchUp)
    requires s.b.sub < |s.subs| && Readable(s, c)
    ensures CaughtUp(s, c).b.sub == s.b.sub < |CaughtUp(s, c).subs| && (Served(CaughtUp(s, c)) <==> Served(s))
  {
  }

  predicate ServesDirectly(step: Step) {
    step.StartRelay? || step.RelayStep? || step.SyncStep?
  }

  lemma LocalStepsServe(s: System, step: Step)
    requires s.b.sub < |s.subs| && s.b.running && Enabled(s, step) && !step.Stop? && !step.StartRelay? && Local(step)
    ensures Apply(s, step).b.sub == s.b.sub < |Apply(s, step).subs|
    ensures Served(Apply(s, step)) <==> Served(s)
  {
  }

  lemma OtherStepsServe(s: System, step: Step)
    requires s.b.sub < |s.subs| && s.b.running && Enabled(s, step) && !step.Stop? && !ServesDirectly(step)
    ensures Apply(s, step).b.sub == s.b.sub < |Apply(s, step).subs|
    ensures Served(Apply(s, step)) <==> Served(s)
  {
    hide CaughtUp, Published, ChangedView;
    if step.PublishNotice? {
      PublishServes(s, step.notice);
      PublishKeepsFields(s, step.notice);
    } else if step.Publish? {
      PublishServes(s, step.event);
      PublishKeepsFields(s, step.event);
    } else if step.CatchUpStep? {
      CatchUpServes(s.(catchUps := s.catchUps - multiset{step.catchUp}), step.catchUp);
    } else {
      LocalStepsServe(s, step);
    }
  }

  /** A step of a running bridge resubscribes, and the new subscription is served; or the
      subscription is served afterwards exactly when it was before and the step does not
      strand it. In particular only a resubscription ever restores a stranded view. */
  lemma StrandedExactly(s: System, step: Step)
    requires Sound(s) && s.b.running && Enabled(s, step) && !step.Stop?
    ensures var t := Apply(s, step);
            t.b.sub < |t.subs| &&
            if t.b.sub != s.b.sub then Served(t) else Served(t) <==> Served(s) && !Strands(s, step)
  {
    if step.StartRelay? {
      StartServes(s, step.i);
    } else if step.RelayStep? {
      RelayServes(s, step.i, step.mode);
    } else if step.SyncStep? {
      SyncServes(s.(syncs := s.syncs - multiset{step.sync}), step.sync, step.mode);
    } else {
      OtherStepsServe(s, step);
    }
  }

  predicate NeverStrands(s: System, steps: seq<Step>)
    requires s.b.sub < |s.subs| && Executes(s, steps)
    decreases |steps|
  {
    steps == [] ||
    (!Strands(s, steps[0]) && Apply(s, steps[0]).b.sub < |Apply(s, steps[0]).subs|
     && NeverStrands(Apply(s, steps[0]), steps[1..]))
  }

  lemma {:induction false} UnstrandedRunServes(s: System, steps: seq<Step>)
    requires Sound(s) && Executes(s, steps) && NeverStrands(s, steps)
    requires s.b.running ==> Served(s)
    ensures Sound(Run(s, steps)) && (Run(s, steps).b.running ==> Served(Run(s, steps)))
    decreases |steps|
  {
    if steps != [] {
      StepKeepsSound(s, steps[0]);
      if s.b.running && !steps[0].Stop? {
        StrandedExactly(s, steps[0]);
      } else {
        StoppedStaysStopped(s, steps[0]);
      }
      UnstrandedRunServes(Apply(s, steps[0]), steps[1..]);
    }
  }

  lemma StoppedStaysStopped(s: System, step: Step)
    requires Enabled(s, step) && (step.Stop? || !s.b.running)
    ensures !Apply(s, step).b.running
  {
  }

  /** With neither kind of stranding step in the run, no wake-up is ever lost, without condition. */
  lemma UnstrandedRunNeverLosesAWakeup(view: string, mode: Mode, steps: seq<Step>)
    requires Executes(Start(view, mode), steps) && NeverStrands(Start(view, mode), steps)
    ensures var s := Run(Start(view, mode), steps); s.b.sub < |s.subs| && (Lagging(s) ==> WakeupPending(s))
  {
    StartIsSound(view, mode);
    UnstrandedRunServes(Start(view, mode), steps);
    WakeupNeverLost(view, mode, steps);
  }
}
