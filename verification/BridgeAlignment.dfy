/** The subscribed session follows the application's view: what every step keeps, what a
    quiet state implies, and the runs on which the rule fails. */
module BridgeAlignment {
  import opened EventHub
  import opened BridgeModel
  import opened BridgeWakeup
  import opened BridgeRelay

  // ---- what is on its way to realign the subscription ----

  ghost predicate SyncPending(s: System) {
    SyncBegin in s.syncs || SyncResubscribe in s.syncs || exists key :: key != s.view && SyncCompare(key) in s.syncs
  }

  predicate NoticePending(s: System) {
    VIEW_NOTICE in s.notices || (s.view != "" && DriftNotice(s.view) in s.notices)
  }

  /** An event that makes the relay leave the subscription once it gets there. */
  predicate Realigns(s: System, e: Event) {
    e.kind == ViewSessionChanged || (e.session != "" && e.session != s.b.subscribedKey)
  }

  predicate RelayRealigns(s: System, r: Relay) {
    r.Aligning? || (r.Holding? && Realigns(s, r.event))
    || ((r.Cleared? || r.Sent?) && r.event.session != "" && r.event.session != s.b.subscribedKey)
  }

  predicate EventPending(s: System)
    requires s.b.sub < |s.subs|
  {
    RelayRealigns(s, Current(s).relay)
    || exists i :: 0 <= i < |Current(s).hub.queue| && Realigns(s, Current(s).hub.queue[i])
  }

  ghost predicate Realigning(s: System)
    requires s.b.sub < |s.subs|
  {
    SyncPending(s) || NoticePending(s) || EventPending(s)
  }

  /** Aligned, or about to be, or excused: the signal was lost or nobody serves the view. */
  ghost predicate ViewFollowed(s: System) {
    s.b.sub < |s.subs| &&
    (s.b.running ==> s.b.subscribedKey == s.view || Realigning(s) || s.signalLost || !Served(s))
  }

  lemma ResubscribeFollows(s: System, mode: Mode)
    requires s.b.running
    ensures ViewFollowed(Resubscribed(s, mode)) && Resubscribed(s, mode).b.subscribedKey == s.view
  {
  }

  lemma SyncFollows(s: System, sync: Sync, mode: Mode)
    requires ViewFollowed(s) && sync in s.syncs
    ensures ViewFollowed(Synced(s.(syncs := s.syncs - multiset{sync}), sync, mode))
  {
    var rest := s.(syncs := s.syncs - multiset{sync});
    var t := Synced(rest, sync, mode);
    if s.b.running && s.b.subscribedKey != s.view {
      if sync.SyncResubscribe? {
        ResubscribeFollows(rest, mode);
      } else if sync.SyncBegin? {
        assert SyncCompare(s.b.subscribedKey) in t.syncs;
      } else if sync.subscribed != s.view {
        assert SyncResubscribe in t.syncs;
      } else {
        SkippedSyncFollows(s, sync);
      }
    } else if sync.SyncResubscribe? && s.b.running {
      ResubscribeFollows(rest, mode);
    }
  }

  lemma SkippedSyncFollows(s: System, sync: Sync)
    requires ViewFollowed(s) && sync == SyncCompare(s.view)
    ensures ViewFollowed(s.(syncs := s.syncs - multiset{sync}))
  {
    var t := s.(syncs := s.syncs - multiset{sync});
    if SyncPending(s) {
      if SyncBegin in s.syncs {
        assert SyncBegin in t.syncs;
      } else if SyncResubscribe in s.syncs {
        assert SyncResubscribe in t.syncs;
      } else {
        var key :| key != s.view && SyncCompare(key) in s.syncs;
        assert SyncCompare(key) in t.syncs;
      }
    }
    assert EventPending(s) == EventPending(t);
  }

  lemma ChangeFollows(s: System, to: string, cause: Cause)
    requires s.b.sub < |s.subs| && (cause.ByMaterialisation? ==> to != "")
    ensures ViewFollowed(ChangedView(s, to, cause))
  {
    var t := ChangedView(s, to, cause);
    if cause.ByCommand? {
      assert SyncBegin in t.syncs;
    } else if cause.ByRollback? {
      assert VIEW_NOTICE in t.notices;
    } else {
      assert DriftNotice(t.view) in t.notices;
    }
  }

  /** A delivery that does not empty the channel leaves every queued event where it was. */
  lemma DeliveryKeepsQueued(h: Subscriber, e: Event)
    requires h.window > 0 || |h.queue| < h.buffer || h.closed
    ensures h.queue <= Delivery(h, e).queue
    ensures !h.closed && |h.queue| < h.buffer ==>
              Delivery(h, e).queue[|h.queue|..] == [Stamped(h, e)]
  {
  }

  lemma PublishKeepsPending(s: System, e: Event)
    requires s.b.sub < |s.subs| && !Overflows(s, e)
    ensures EventPending(s) ==> EventPending(Published(s, e))
    ensures Served(Published(s, e)) == Served(s)
  {
    var t := Published(s, e);
    if Accepts(Current(s).scope, s.view, e) {
      DeliveryKeepsQueued(Current(s).hub, e);
    }
    assert Current(s).hub.queue <= Current(t).hub.queue;
    if i :| 0 <= i < |Current(s).hub.queue| && Realigns(s, Current(s).hub.queue[i]) {
      assert Realigns(t, Current(t).hub.queue[i]);
    }
  }

  lemma EventFollows(s: System, e: Event)
    requires ViewFollowed(s)
    ensures ViewFollowed(EventPublished(s, e))
  {
    if !Overflows(s, e) {
      PublishKeepsPending(s, e);
    }
  }

  lemma OtherNoticeStays(s: System, notice: Event)
    requires NoticePending(s) && notice != VIEW_NOTICE && (s.view == "" || notice != DriftNotice(s.view))
    ensures NoticePending(s.(notices := s.notices - multiset{notice}))
  {
  }

  lemma EnqueuedNoticeIsPending(s: System, notice: Event)
    requires s.b.sub < |s.subs| && Enqueues(s, notice) && Realigns(s, notice)
    ensures EventPending(Published(s, notice))
  {
    var h := Current(s).hub;
    var t := Published(s, notice);
    DeliveryKeepsQueued(h, notice);
    assert Current(t).hub == Delivery(h, notice);
    assert Current(t).hub.queue[|h.queue|..][0] == Stamped(h, notice);
    assert Realigns(t, Current(t).hub.queue[|h.queue|]);
  }

  lemma NoticeFollows(s: System, notice: Event)
    requires ViewFollowed(s) && notice in s.notices
    ensures ViewFollowed(NoticePublished(s, notice))
  {
    var t := NoticePublished(s, notice);
    if s.b.running && s.b.subscribedKey != s.view && Enqueues(s, notice) && !s.signalLost && Served(s) {
      PublishKeepsPending(s, notice);
      if SyncPending(s) {
        assert SyncPending(t);
      } else if EventPending(s) {
        assert EventPending(t);
      } else if notice == VIEW_NOTICE || (s.view != "" && notice == DriftNotice(s.view)) {
        EnqueuedNoticeIsPending(s, notice);
      } else {
        OtherNoticeStays(s, notice);
      }
    }
  }

  /** A move of the serving relay that leaves it serving keeps its realigning event on the way. */
  lemma MoveKeepsPending(s: System, mode: Mode)
    requires Sound(s) && s.b.running && Served(s) && Enabled(s, RelayStep(s.b.sub, mode)) && EventPending(s)
    requires Relayed(s, s.b.sub, mode).b.sub == s.b.sub && Served(Relayed(s, s.b.sub, mode))
    ensures EventPending(Relayed(s, s.b.sub, mode))
  {
    var t := Relayed(s, s.b.sub, mode);
    var queue := Current(s).hub.queue;
    if !RelayRealigns(s, Current(s).relay) {
      var i :| 0 <= i < |queue| && Realigns(s, queue[i]);
      if Current(s).relay.Waiting? {
        assert Current(t).relay == Holding(s.b.relayGen, queue[0]) && Current(t).hub.queue == queue[1..];
        if i > 0 {
          assert Realigns(t, Current(t).hub.queue[i - 1]);
        }
      } else {
        assert Current(t).hub.queue == queue && Realigns(t, Current(t).hub.queue[i]);
      }
    } else {
      assert RelayRealigns(t, Current(t).relay);
    }
  }

  lemma RelayFollows(s: System, i: nat, mode: Mode)
    requires Sound(s) && ViewFollowed(s) && Enabled(s, RelayStep(i, mode))
    ensures ViewFollowed(Relayed(s, i, mode))
  {
    var r := s.subs[i].relay;
    var t := Relayed(s, i, mode);
    if s.b.running {
      if r.Aligning? && r.sync.SyncResubscribe? {
        ResubscribeFollows(SetRelay(s, i, Exited), mode);
      } else {
        RelayServes(s, i, mode);
        RelayKeepsProgress(s, i, mode);
        if i == s.b.sub && EventPending(s) && Served(t) {
          MoveKeepsPending(s, mode);
        }
      }
    }
  }

  /** The step touches neither the view, nor the pending synchronisations, nor the current channel. */
  lemma StartFollows(s: System, i: nat)
    requires Sound(s) && ViewFollowed(s) && Enabled(s, StartRelay(i))
    ensures ViewFollowed(Apply(s, StartRelay(i)))
  {
    var t := Apply(s, StartRelay(i));
    StartServes(s, i);
    assert Current(t).hub == Current(s).hub;
    assert NoticePending(s) == NoticePending(t);
  }

  /** Nothing the rule speaks of differs. */
  predicate SameAlignment(s: System, t: System) {
    && t.subs == s.subs && t.view == s.view && t.syncs == s.syncs && t.notices == s.notices
    && t.signalLost == s.signalLost && t.b.running == s.b.running && t.b.sub == s.b.sub
    && t.b.subscribedKey == s.b.subscribedKey && t.b.relayGen == s.b.relayGen
  }

  lemma SameAlignmentFollows(s: System, t: System)
    requires ViewFollowed(s) && SameAlignment(s, t)
    ensures ViewFollowed(t)
  {
    assert EventPending(t) == EventPending(s);
    assert SyncPending(t) == SyncPending(s);
  }

  lemma CatchUpFollows(s: System, c: CatchUp)
    requires ViewFollowed(s) && Readable(s, c)
    ensures ViewFollowed(CaughtUp(s, c))
  {
    hide Realigning, Served;
    SameAlignmentFollows(s, CaughtUp(s, c));
  }

  lemma CloseFollows(s: System, i: nat)
    requires ViewFollowed(s) && Enabled(s, CloseSubscription(i))
    ensures ViewFollowed(Apply(s, CloseSubscription(i)))
  {
    var t := Apply(s, CloseSubscription(i));
    assert s.b.running ==> Current(t) == Current(s);
  }

  lemma TimerFollows(s: System, step: Step)
    requires ViewFollowed(s) && Enabled(s, step)
    requires step.FireTimer? || step.ForgetTimer? || step.Ack? || step.Stop? || step.RelayCancelled?
    ensures ViewFollowed(Apply(s, step))
  {
    hide Realigning;
    if step.RelayCancelled? {
      assert !s.b.running;
    } else if !step.Stop? {
      SameAlignmentFollows(s, Apply(s, step));
    }
  }

  lemma BeginFollows(s: System)
    requires ViewFollowed(s) && Enabled(s, BeginSync)
    ensures ViewFollowed(Apply(s, BeginSync))
  {
    assert SyncBegin in Apply(s, BeginSync).syncs;
  }

  lemma StepFollows(s: System, step: Step)
    requires Sound(s) && ViewFollowed(s) && Enabled(s, step)
    ensures ViewFollowed(Apply(s, step))
  {
    match step
    case ChangeView(to, cause) => ChangeFollows(s, to, cause);
    case PublishNotice(notice) => NoticeFollows(s, notice);
    case Publish(event) => EventFollows(s, event);
    case BeginSync => BeginFollows(s);
    case SyncStep(sync, mode) => SyncFollows(s, sync, mode);
    case StartRelay(i) => StartFollows(s, i);
    case RelayStep(i, mode) => RelayFollows(s, i, mode);
    case CatchUpStep(c) => CatchUpFollows(s.(catchUps := s.catchUps - multiset{c}), c);
    case CloseSubscription(i) => CloseFollows(s, i);
    case RelayCancelled(_) => TimerFollows(s, step);
    case FireTimer(_) => TimerFollows(s, step);
    case ForgetTimer(_) => TimerFollows(s, step);
    case Ack(_) => TimerFollows(s, step);
    case Stop => TimerFollows(s, step);
  }

  lemma {:induction false} RunFollows(s: System, steps: seq<Step>)
    requires Sound(s) && ViewFollowed(s) && Executes(s, steps)
    ensures Sound(Run(s, steps)) && ViewFollowed(Run(s, steps))
    decreases |steps|
  {
    if steps != [] {
      StepKeepsSound(s, steps[0]);
      StepFollows(s, steps[0]);
      RunFollows(Apply(s, steps[0]), steps[1..]);
    }
  }

  /** No command is synchronising, no notice is unpublished, and the relay waits on an empty channel. */
  predicate Settled(s: System)
    requires s.b.sub < |s.subs|
  {
    && s.b.running && s.syncs == multiset{} && s.notices == multiset{}
    && Current(s).relay.Waiting? && Current(s).hub.queue == []
  }

  /** In every reachable state the subscription follows the view or is about to; once settled
      it does, unless a notice was lost on the way in or a step stranded the view. */
  lemma ViewIsFollowed(view: string, mode: Mode, steps: seq<Step>)
    requires Executes(Start(view, mode), steps)
    ensures var s := Run(Start(view, mode), steps);
            && ViewFollowed(s)
            && (Settled(s) && !s.signalLost && Served(s) ==> s.b.subscribedKey == s.view)
  {
    StartIsSound(view, mode);
    RunFollows(Start(view, mode), steps);
  }

  // ---- when a notice is lost ----

  predicate ScopeSound(s: System)
    requires s.b.sub < |s.subs|
  {
    Current(s).scope == Everything || Current(s).scope == Keyed(s.b.subscribedKey)
  }

  /** While the subscription is pinned to another session, a change of view can be heard
      exactly by an unfiltered or a draft subscription with room; one pinned to a session
      hears neither the rollback notice nor the events of the new session. */
  lemma NoticeReachesExactly(s: System, notice: Event)
    requires Sound(s) && s.b.running && ScopeSound(s) && s.b.subscribedKey != s.view
    requires notice == VIEW_NOTICE || (s.view != "" && notice == DriftNotice(s.view))
    ensures !NoticePublished(s, notice).signalLost
       <==> !s.signalLost
            && (Current(s).scope == Everything || Current(s).scope == Keyed(""))
            && |Current(s).hub.queue| < Current(s).hub.buffer
  {
  }

  lemma RelayStateKeepsScope(s: System, i: nat, r: Relay)
    requires s.b.sub < |s.subs| && ScopeSound(s) && i < |s.subs|
    ensures ScopeSound(SetRelay(s, i, r))
  {
  }

  lemma ArmKeepsScope(s: System, i: nat, r: Relay)
    requires s.b.sub < |s.subs| && ScopeSound(s) && i < |s.subs|
    ensures var t := SetRelay(ResendArmed(s), i, r); t.b.sub < |t.subs| && ScopeSound(t)
  {
  }

  lemma ResubscribeKeepsScope(s: System, mode: Mode)
    requires s.b.sub < |s.subs| && ScopeSound(s)
    ensures var t := Resubscribed(s, mode); t.b.sub < |t.subs| && ScopeSound(t)
  {
  }

  lemma MoveKeepsScope(s: System, sub: Subscription)
    ensures RelayMoved(s, sub).scope == sub.scope
  {
  }

  lemma RelayKeepsScope(s: System, i: nat, mode: Mode)
    requires Enabled(s, RelayStep(i, mode)) && ScopeSound(s)
    ensures var t := Relayed(s, i, mode); t.b.sub < |t.subs| && ScopeSound(t)
  {
    hide RelayMoved, Resubscribed, ResendArmed;
    var r := s.subs[i].relay;
    if r.Arming? {
      ArmKeepsScope(s, i, Waiting(r.gen));
    } else if r.Aligning? && r.sync.SyncResubscribe? {
      RelayStateKeepsScope(s, i, Exited);
      ResubscribeKeepsScope(SetRelay(s, i, Exited), mode);
    } else {
      MoveKeepsScope(s, s.subs[i]);
    }
  }

  lemma SyncKeepsScope(s: System, sync: Sync, mode: Mode)
    requires s.b.sub < |s.subs| && ScopeSound(s)
    ensures var t := Synced(s, sync, mode); t.b.sub < |t.subs| && ScopeSound(t)
  {
  }

  lemma PublishKeepsScope(s: System, e: Event)
    requires s.b.sub < |s.subs| && ScopeSound(s)
    ensures ScopeSound(Published(s, e))
  {
  }

  lemma CatchUpKeepsScope(s: System, c: CatchUp)
    requires s.b.sub < |s.subs| && ScopeSound(s) && Readable(s, c)
    ensures CaughtUp(s, c).b.sub == s.b.sub < |CaughtUp(s, c).subs| && ScopeSound(CaughtUp(s, c))
  {
  }

  lemma LocalKeepsScope(s: System, step: Step)
    requires s.b.sub < |s.subs| && ScopeSound(s) && Enabled(s, step) && Local(step)
    ensures Apply(s, step).b.sub < |Apply(s, step).subs| && ScopeSound(Apply(s, step))
  {
  }

  lemma StepKeepsScope(s: System, step: Step)
    requires s.b.sub < |s.subs| && ScopeSound(s) && Enabled(s, step)
    ensures Apply(s, step).b.sub < |Apply(s, step).subs| && ScopeSound(Apply(s, step))
  {
    hide Relayed, Synced, CaughtUp, Published, ChangedView, TimerStopped;
    if step.PublishNotice? {
      PublishKeepsScope(s, step.notice);
      PublishKeepsFields(s, step.notice);
    } else if step.Publish? {
      PublishKeepsScope(s, step.event);
      PublishKeepsFields(s, step.event);
    } else if step.SyncStep? {
      SyncKeepsScope(s.(syncs := s.syncs - multiset{step.sync}), step.sync, step.mode);
    } else if step.RelayStep? {
      RelayKeepsScope(s, step.i, step.mode);
    } else if step.CatchUpStep? {
      CatchUpKeepsScope(s.(catchUps := s.catchUps - multiset{step.catchUp}), step.catchUp);
    } else {
      LocalKeepsScope(s, step);
    }
  }

  lemma {:induction false} RunKeepsScope(s: System, steps: seq<Step>)
    requires s.b.sub < |s.subs| && ScopeSound(s) && Executes(s, steps)
    ensures Run(s, steps).b.sub < |Run(s, steps).subs| && ScopeSound(Run(s, steps))
    decreases |steps|
  {
    hide Apply, ScopeSound, Enabled;
    if steps != [] {
      StepKeepsScope(s, steps[0]);
      RunKeepsScope(Apply(s, steps[0]), steps[1..]);
    }
  }

  /** In every reachable state a view notice published while the subscription is pinned to
      another session is lost exactly when the subscription carries a session key or its
      channel is full. */
  lemma ReachableNoticeIsLostExactly(view: string, mode: Mode, steps: seq<Step>, notice: Event)
    requires Executes(Start(view, mode), steps)
    requires var s := Run(Start(view, mode), steps);
             && s.b.running && s.b.subscribedKey != s.view && !s.signalLost
             && (notice == VIEW_NOTICE || (s.view != "" && notice == DriftNotice(s.view)))
    ensures var s := Run(Start(view, mode), steps);
            && s.b.sub < |s.subs|
            && (NoticePublished(s, notice).signalLost
                <==> (Current(s).scope != Everything && s.b.subscribedKey != "")
                     || |Current(s).hub.queue| >= Current(s).hub.buffer)
  {
    StartIsSound(view, mode);
    RunFollows(Start(view, mode), steps);
    RunKeepsScope(Start(view, mode), steps);
    NoticeReachesExactly(Run(Start(view, mode), steps), notice);
  }

  // ---- runs on which the rule fails ----

  ghost predicate Reaches(s: System, t: System) {
    exists steps :: Executes(s, steps) && Run(s, steps) == t
  }

  lemma ReachesItself(s: System)
    ensures Reaches(s, s)
  {
    assert Executes(s, []) && Run(s, []) == s;
  }

  lemma {:induction false} RunOneMore(s: System, steps: seq<Step>, step: Step)
    requires Executes(s, steps) && Enabled(Run(s, steps), step)
    ensures Executes(s, steps + [step]) && Run(s, steps + [step]) == Apply(Run(s, steps), step)
    decreases |steps|
  {
    if steps == [] {
      assert steps + [step] == [step];
    } else {
      assert (steps + [step])[1..] == steps[1..] + [step];
      RunOneMore(Apply(s, steps[0]), steps[1..], step);
    }
  }

  lemma Then(s: System, t: System, step: Step) returns (next: System)
    requires Reaches(s, t) && Enabled(t, step)
    ensures next == Apply(t, step) && Reaches(s, next)
  {
    var steps :| Executes(s, steps) && Run(s, steps) == t;
    RunOneMore(s, steps, step);
    next := Apply(t, step);
  }

  /** The first relay has greeted the renderer and waits. */
  function Greeted(view: string): System {
    Start(view, WithReplay).(b := Shared(true, 0, view, 1, 0, None, 0),
                             subs := [Subscribe(view, WithReplay).(relay := Waiting(1))])
  }

  lemma Greeting(view: string) returns (s: System)
    ensures Reaches(Start(view, WithReplay), s) && s == Greeted(view)
  {
    hide Reaches;
    var start := Start(view, WithReplay);
    ReachesItself(start);
    s := Then(start, start, StartRelay(0));
    s := Then(start, s, RelayStep(0, WithReplay));
  }

  /** A rollback under a subscription pinned to the failed session is never noticed: the
      bridge settles on "a" while the view is "b". */
  lemma RollbackUnnoticed() returns (s: System)
    ensures Reaches(Start("a", WithReplay), s)
    ensures s.b.sub < |s.subs| && Settled(s) && Served(s) && s.b.subscribedKey != s.view
  {
    hide Reaches;
    var start := Start("a", WithReplay);
    s := Greeting("a");
    s := Then(start, s, ChangeView("b", ByRollback));
    s := Then(start, s, PublishNotice(VIEW_NOTICE));
  }

  /** The rollback changed nothing; its notice is in the channel of a draft subscription. */
  lemma AlignedNoticeQueued() returns (s: System)
    ensures Reaches(Start("", WithReplay), s)
    ensures s == Greeted("").(subs := s.subs)
    ensures |s.subs| == 1 && s.subs == [Greeted("").subs[0].(hub := s.subs[0].hub)]
    ensures s.subs[0].hub.queue == [VIEW_NOTICE.(deliverySeq := 1)] && s.subs[0].hub.delivered == 1
    ensures !s.subs[0].hub.closed
  {
    hide Reaches;
    var start := Start("", WithReplay);
    s := Greeting("");
    s := Then(start, s, ChangeView("", ByRollback));
    s := Then(start, s, PublishNotice(VIEW_NOTICE));
    assert s.notices == multiset{};
  }

  /** A rollback notice that reaches a subscription already aligned ends its relay: the next
      event lags with nothing on the way to deliver it. */
  lemma AlignedNoticeStrands() returns (s: System)
    ensures Reaches(Start("", WithReplay), s)
    ensures s.b.sub < |s.subs| && s.b.subscribedKey == s.view && !Served(s) && Lagging(s)
    ensures s.timers == {} && s.catchUps == multiset{} && Current(s).relay.Exited? && s.syncs == multiset{}
  {
    hide Reaches;
    var start := Start("", WithReplay);
    s := AlignedNoticeQueued();
    s := Then(start, s, RelayStep(0, WithReplay));
    s := Then(start, s, RelayStep(0, WithReplay));
    s := Then(start, s, RelayStep(0, WithReplay));
    s := Then(start, s, RelayStep(0, WithReplay));
    s := Then(start, s, Publish(Event(0, Content, "", "")));
  }

  lemma Synchronise(start: System, s: System, sync: Sync, rest: multiset<Sync>, to: Sync) returns (next: System)
    requires Reaches(start, s) && s.b.sub < |s.subs| && s.b.running && s.syncs == rest + multiset{sync}
    requires (sync == SyncBegin && to == SyncCompare(s.b.subscribedKey))
             || (sync.SyncCompare? && sync.subscribed != s.view && to == SyncResubscribe)
    ensures Reaches(start, next) && next == s.(syncs := rest + multiset{to})
  {
    next := Then(start, s, SyncStep(sync, WithReplay));
    assert s.syncs - multiset{sync} == rest;
  }

  /** Two threads have both found the subscription behind the view. */
  lemma TwoSynchronisations() returns (s: System)
    ensures Reaches(Start("", WithReplay), s)
    ensures s == Start("", WithReplay).(view := "b", syncs := multiset{SyncResubscribe} + multiset{SyncResubscribe})
  {
    hide Reaches;
    var start := Start("", WithReplay);
    ReachesItself(start);
    s := Then(start, start, ChangeView("b", ByCommand));
    s := Then(start, s, BeginSync);
    s := Synchronise(start, s, SyncBegin, multiset{SyncBegin}, SyncCompare(""));
    s := Synchronise(start, s, SyncBegin, multiset{SyncCompare("")}, SyncCompare(""));
    s := Synchronise(start, s, SyncCompare(""), multiset{SyncCompare("")}, SyncResubscribe);
    s := Synchronise(start, s, SyncCompare(""), multiset{SyncResubscribe}, SyncResubscribe);
  }

  lemma TwoSubscriptions() returns (s: System)
    ensures Reaches(Start("", WithReplay), s)
    ensures s == Start("", WithReplay).(view := "b", b := Shared(true, 2, "b", 0, 0, None, 0),
                                        subs := [Subscribe("", WithReplay), Subscribe("b", WithReplay), Subscribe("b", WithReplay)])
  {
    hide Reaches;
    var start := Start("", WithReplay);
    s := TwoSynchronisations();
    s := Then(start, s, SyncStep(SyncResubscribe, WithReplay));
    assert s.syncs == multiset{SyncResubscribe};
    s := Then(start, s, SyncStep(SyncResubscribe, WithReplay));
    assert s.syncs == multiset{};
  }

  lemma OvertakenRelay() returns (s: System)
    ensures Reaches(Start("", WithReplay), s)
    ensures s == Start("", WithReplay).(view := "b", b := Shared(true, 2, "b", 2, 0, None, 0), subs := s.subs)
    ensures |s.subs| == 3 && s.subs[2] == Subscribe("b", WithReplay).(relay := Ready(1))
  {
    hide Reaches;
    var start := Start("", WithReplay);
    s := TwoSubscriptions();
    s := Then(start, s, StartRelay(2));
    s := Then(start, s, StartRelay(1));
  }

  /** Two commands that resubscribe at once can start their relays in the other order: the
      subscription is aligned, but its relay counts as superseded and drops the next event. */
  lemma OvertakenResubscriptionStrands() returns (s: System)
    ensures Reaches(Start("", WithReplay), s)
    ensures s.b.sub < |s.subs| && s.b.subscribedKey == s.view && !Served(s) && Lagging(s)
    ensures s.timers == {} && s.catchUps == multiset{} && Current(s).relay.Exited? && s.syncs == multiset{}
  {
    hide Reaches;
    var start := Start("", WithReplay);
    s := OvertakenRelay();
    s := Then(start, s, RelayStep(2, WithReplay));
    s := Then(start, s, Publish(Event(0, Content, "b", "")));
    s := Then(start, s, RelayStep(2, WithReplay));
    s := Then(start, s, RelayStep(2, WithReplay));
  }
}
