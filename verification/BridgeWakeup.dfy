/** The resend protocol of the bridge over every interleaving: no wake-up is lost while the
    current subscription has a relay, resends are bounded, and giving up is final until
    the renderer acknowledges something new. */
module BridgeWakeup {
  import opened EventHub
  import opened BridgeModel

  function Current(s: System): Subscription
    requires s.b.sub < |s.subs|
  {
    s.subs[s.b.sub]
  }

  /** The relay of the current subscription is still to start, or alive and of the current generation. */
  predicate Served(s: System)
    requires s.b.sub < |s.subs|
  {
    var r := Current(s).relay;
    r.NotStarted? || (!r.Exited? && r.gen == s.b.relayGen)
  }

  predicate Lagging(s: System)
    requires s.b.sub < |s.subs|
  {
    s.b.running && s.b.ackedSeq < Current(s).hub.delivered && s.b.resendTries < RESEND_MAX_TRIES
  }

  predicate RelayWillArm(sub: Subscription) {
    sub.hub.queue != [] || sub.relay.Holding? || sub.relay.Cleared? || sub.relay.Sent?
    || sub.relay.Arming? || sub.relay.Aligning?
  }

  predicate WakeupPending(s: System)
    requires s.b.sub < |s.subs|
  {
    s.timers != {} || s.catchUps != multiset{} || RelayWillArm(Current(s))
  }

  ghost predicate NoLostWakeup(s: System) {
    s.b.sub < |s.subs| && (Lagging(s) && Served(s) ==> WakeupPending(s))
  }

  lemma PublishKeepsWakeup(s: System, e: Event)
    requires Sound(s) && NoLostWakeup(s)
    ensures NoLostWakeup(Published(s, e))
  {
    DeliverKeepsValid(Current(s).hub, e);
  }

  lemma ResubscribeIsNotLagging(s: System, mode: Mode)
    requires s.b.running
    ensures var t := Resubscribed(s, mode); t.b.sub < |t.subs| && !Lagging(t)
  {
  }

  lemma ArmingIsPending(s: System)
    requires Sound(s) && s.b.running
    ensures ResendArmed(s).timers != {}
  {
    if s.b.resendTimer.None? {
      assert s.timerCount in ResendArmed(s).timers;
    }
  }

  lemma CatchUpKeepsWakeup(s: System, c: CatchUp)
    requires Sound(s) && Readable(s, c)
    ensures NoLostWakeup(CaughtUp(s, c))
  {
    if c.Rearm? {
      if s.b.running {
        ArmingIsPending(s);
      }
    } else if c.Pending? && Decide(s.b, Current(s).hub.delivered).Resend? {
      assert Replaying(s.bursts, s.b.sub, Current(s).hub.delivered, s.b.ackedSeq) in CaughtUp(s, c).catchUps;
    } else if c.Replaying? {
      assert Answer(c.id, c.sub, s.subs[c.sub].hub, c.watermark, c.acked) in CaughtUp(s, c).catchUps;
    } else if c.Burst? {
      assert (if c.next < c.last then Burst(c.id, c.sub, c.next + 1, c.last) else Rearm(c.id)) in CaughtUp(s, c).catchUps;
    } else if c.Resync? {
      assert Rearm(c.id) in CaughtUp(s, c).catchUps;
    }
  }

  lemma RelayKeepsWakeup(s: System, i: nat, mode: Mode)
    requires Sound(s) && NoLostWakeup(s) && Enabled(s, RelayStep(i, mode))
    ensures NoLostWakeup(Relayed(s, i, mode))
  {
    var r := s.subs[i].relay;
    if r.Arming? {
      if s.b.running {
        ArmingIsPending(s);
      }
    } else if r.Aligning? && r.sync.SyncResubscribe? {
      if s.b.running {
        ResubscribeIsNotLagging(SetRelay(s, i, Exited), mode);
      }
    }
  }

  lemma SyncKeepsWakeup(s: System, sync: Sync, mode: Mode)
    requires NoLostWakeup(s)
    ensures NoLostWakeup(Synced(s, sync, mode))
  {
    if sync.SyncResubscribe? && s.b.running {
      ResubscribeIsNotLagging(s, mode);
    }
  }

  lemma StartKeepsWakeup(s: System, i: nat)
    requires RelaysSound(s) && NoLostWakeup(s) && Enabled(s, StartRelay(i))
    ensures NoLostWakeup(Apply(s, StartRelay(i)))
  {
    assert Gen(Current(s).relay) <= s.b.relayGen;
  }

  lemma CloseKeepsWakeup(s: System, i: nat)
    requires NoLostWakeup(s) && Enabled(s, CloseSubscription(i))
    ensures NoLostWakeup(Apply(s, CloseSubscription(i)))
  {
  }

  /** The steps that leave the current relay, the timers and the catch-ups alone, or stop. */
  predicate Quiet(step: Step) {
    step.ChangeView? || step.BeginSync? || step.RelayCancelled? || step.ForgetTimer? || step.Stop?
  }

  lemma QuietKeepsWakeup(s: System, step: Step)
    requires NoLostWakeup(s) && Enabled(s, step) && Quiet(step)
    ensures NoLostWakeup(Apply(s, step))
  {
  }

  lemma FiringIsPending(s: System, step: Step)
    requires s.b.sub < |s.subs| && Enabled(s, step)
    requires step.FireTimer? || (step.Ack? && step.seqNo > s.b.ackedSeq)
    ensures NoLostWakeup(Apply(s, step))
  {
    assert Pending in Apply(s, step).catchUps;
  }

  lemma StepKeepsWakeup(s: System, step: Step)
    requires Sound(s) && NoLostWakeup(s) && Enabled(s, step)
    ensures NoLostWakeup(Apply(s, step))
  {
    if Quiet(step) {
      QuietKeepsWakeup(s, step);
    } else if step.FireTimer? || (step.Ack? && step.seqNo > s.b.ackedSeq) {
      FiringIsPending(s, step);
    } else if step.StartRelay? {
      StartKeepsWakeup(s, step.i);
    } else if step.CloseSubscription? {
      CloseKeepsWakeup(s, step.i);
    } else {
      WorkKeepsWakeup(s, step);
    }
  }

  lemma FewerIsSound(s: System, c: CatchUp)
    requires Sound(s)
    ensures Sound(s.(catchUps := s.catchUps - multiset{c}))
  {
    hide Valid;
  }

  lemma WorkKeepsWakeup(s: System, step: Step)
    requires Sound(s) && NoLostWakeup(s) && Enabled(s, step)
    requires step.PublishNotice? || step.Publish? || step.SyncStep? || step.RelayStep? || step.CatchUpStep?
             || (step.Ack? && step.seqNo <= s.b.ackedSeq)
    ensures NoLostWakeup(Apply(s, step))
  {
    if step.PublishNotice? {
      PublishKeepsWakeup(s, step.notice);
    } else if step.Publish? {
      PublishKeepsWakeup(s, step.event);
    } else if step.SyncStep? {
      SyncKeepsWakeup(s.(syncs := s.syncs - multiset{step.sync}), step.sync, step.mode);
    } else if step.RelayStep? {
      RelayKeepsWakeup(s, step.i, step.mode);
    } else if step.CatchUpStep? {
      FewerIsSound(s, step.catchUp);
      CatchUpKeepsWakeup(s.(catchUps := s.catchUps - multiset{step.catchUp}), step.catchUp);
    }
  }

  /** Nothing is in flight: no timer, no catch-up, and the serving relay has an empty channel. */
  predicate Quiescent(s: System)
    requires s.b.sub < |s.subs|
  {
    s.b.running && Served(s) && s.timers == {} && s.catchUps == multiset{} && !RelayWillArm(Current(s))
  }

  lemma {:induction false} RunKeepsWakeup(s: System, steps: seq<Step>)
    requires Sound(s) && NoLostWakeup(s) && Executes(s, steps)
    ensures Sound(Run(s, steps)) && NoLostWakeup(Run(s, steps))
    decreases |steps|
  {
    if steps != [] {
      StepKeepsSound(s, steps[0]);
      StepKeepsWakeup(s, steps[0]);
      RunKeepsWakeup(Apply(s, steps[0]), steps[1..]);
    }
  }

  /** In every reachable state a lagging renderer with resends left has a wake-up on the way,
      as long as the current subscription is served; at rest it is caught up or given up on. */
  lemma WakeupNeverLost(view: string, mode: Mode, steps: seq<Step>)
    requires Executes(Start(view, mode), steps)
    ensures var s := Run(Start(view, mode), steps);
            && s.b.sub < |s.subs|
            && (Lagging(s) && Served(s) ==> WakeupPending(s))
            && (Quiescent(s) ==> s.b.ackedSeq >= Current(s).hub.delivered || s.b.resendTries == RESEND_MAX_TRIES)
  {
    StartIsSound(view, mode);
    RunKeepsWakeup(Start(view, mode), steps);
  }

  // ---- what one resend carries ----

  /** A resend is the exact unacknowledged run, up to the newest delivery, when the window
      still holds it as it is read, and otherwise one resync at the watermark the decision was
      made on: a covered but empty replay cannot occur, and nothing published meanwhile is
      skipped. */
  lemma ResendCarriesTheGap(s: System, c: CatchUp)
    requires Sound(s) && c in s.catchUps && c.Replaying?
    ensures c.sub < |s.subs| && c.watermark <= s.subs[c.sub].hub.delivered
    ensures var hub := s.subs[c.sub].hub;
            var inWindow := !hub.closed && hub.window > 0 && hub.delivered <= c.acked + hub.window;
            Answer(c.id, c.sub, hub, c.watermark, c.acked)
            == if inWindow then Burst(c.id, c.sub, c.acked + 1, hub.delivered) else Resync(c.id, c.sub, c.watermark)
  {
    var hub := s.subs[c.sub].hub;
    if hub.window > 0 && !hub.closed {
      ReplayIsExact(hub, c.acked);
    }
  }

  // ---- how many resends ----

  function Budget(s: System): int
    requires s.b.sub < |s.subs|
  {
    if !s.b.running || s.b.ackedSeq >= Current(s).hub.delivered then 0
    else RESEND_MAX_TRIES * (Current(s).hub.delivered - s.b.ackedSeq) - s.b.resendTries
  }

  /** Every step keeps the current subscription and its watermark. */
  predicate Still(s: System, steps: seq<Step>)
    requires s.b.sub < |s.subs| && Executes(s, steps)
    decreases |steps|
  {
    steps == [] ||
    var next := Apply(s, steps[0]);
    && next.b.sub == s.b.sub < |next.subs|
    && Current(next).hub.delivered == Current(s).hub.delivered
    && Still(next, steps[1..])
  }

  /** The step leaves alone everything a resend decision reads, except the timer. */
  predicate SameProgress(s: System, t: System) {
    && t.bursts == s.bursts && t.b.running == s.b.running
    && t.b.ackedSeq == s.b.ackedSeq && t.b.resendTries == s.b.resendTries
  }

  lemma RelayKeepsProgress(s: System, i: nat, mode: Mode)
    requires Enabled(s, RelayStep(i, mode))
    ensures var t := Relayed(s, i, mode);
            t.b.sub == s.b.sub ==> SameProgress(s, t) && Current(t).hub.delivered == Current(s).hub.delivered
  {
    if !s.subs[i].relay.Arming? && !(s.subs[i].relay.Aligning? && s.subs[i].relay.sync.SyncResubscribe?) {
      assert RelayMoved(s, s.subs[i]).hub.delivered == s.subs[i].hub.delivered;
    }
  }

  lemma SyncKeepsProgress(s: System, sync: Sync, mode: Mode)
    requires s.b.sub < |s.subs|
    ensures var t := Synced(s, sync, mode);
            t.b.sub == s.b.sub ==> SameProgress(s, t) && t.subs == s.subs
  {
  }

  lemma CatchUpKeepsProgress(s: System, c: CatchUp)
    requires s.b.sub < |s.subs| && !c.Pending? && Readable(s, c)
    ensures var t := CaughtUp(s, c); t.b.sub == s.b.sub && SameProgress(s, t) && t.subs == s.subs
  {
  }

  lemma PublishGrowsWatermark(s: System, e: Event)
    requires s.b.sub < |s.subs|
    ensures var t := Published(s, e); SameProgress(s, t) && Current(t).hub.delivered >= Current(s).hub.delivered
  {
  }

  predicate Decides(step: Step) {
    step.Ack? || step.Stop? || (step.CatchUpStep? && step.catchUp.Pending?)
  }

  /** On one subscription only an acknowledgement, a stop or a catch-up decision touches the
      resend bookkeeping, and the watermark never falls. */
  lemma StepKeepsProgress(s: System, step: Step)
    requires Enabled(s, step) && !Decides(step)
    ensures var t := Apply(s, step);
            t.b.sub == s.b.sub < |t.subs| ==>
              SameProgress(s, t) && Current(t).hub.delivered >= Current(s).hub.delivered
  {
    hide Relayed, Synced, CaughtUp, Published;
    match step
    case PublishNotice(notice) => PublishGrowsWatermark(s, notice);
    case Publish(event) => PublishGrowsWatermark(s, event);
    case RelayStep(i, mode) => RelayKeepsProgress(s, i, mode);
    case SyncStep(sync, mode) => SyncKeepsProgress(s.(syncs := s.syncs - multiset{sync}), sync, mode);
    case CatchUpStep(c) => CatchUpKeepsProgress(s.(catchUps := s.catchUps - multiset{c}), c);
    case _ =>
  }

  lemma StepSpendsBudget(s: System, step: Step)
    requires Sound(s) && Enabled(s, step)
    requires var next := Apply(s, step);
             next.b.sub == s.b.sub < |next.subs| && Current(next).hub.delivered == Current(s).hub.delivered
    ensures Apply(s, step).bursts - s.bursts <= Budget(s) - Budget(Apply(s, step))
  {
    hide Relayed, Synced, CaughtUp, Published;
    if !Decides(step) {
      StepKeepsProgress(s, step);
    } else if step.CatchUpStep? {
      DecisionSpendsBudget(s.(catchUps := s.catchUps - multiset{step.catchUp}));
    }
  }

  lemma DecisionSpendsBudget(s: System)
    requires SubsSound(s) && TimersSound(s)
    ensures CaughtUp(s, Pending).bursts - s.bursts <= Budget(s) - Budget(CaughtUp(s, Pending))
  {
  }

  /** Without new events and on one subscription, at most three resends are made for every
      delivery the renderer has not acknowledged. */
  lemma {:induction false} ResendsAreBounded(s: System, steps: seq<Step>)
    requires Sound(s) && Executes(s, steps) && Still(s, steps)
    ensures Sound(Run(s, steps))
    ensures Run(s, steps).bursts - s.bursts <= Budget(s) - Budget(Run(s, steps))
    ensures s.b.ackedSeq <= Current(s).hub.delivered ==>
              Run(s, steps).bursts - s.bursts <= RESEND_MAX_TRIES * (Current(s).hub.delivered - s.b.ackedSeq)
    decreases |steps|
  {
    if steps != [] {
      StepKeepsSound(s, steps[0]);
      StepSpendsBudget(s, steps[0]);
      ResendsAreBounded(Apply(s, steps[0]), steps[1..]);
    }
    BudgetIsNatural(Run(s, steps));
  }

  lemma BudgetIsNatural(s: System)
    requires Sound(s)
    ensures 0 <= Budget(s)
  {
  }

  predicate GivenUp(s: System)
    requires s.b.sub < |s.subs|
  {
    s.b.running && s.b.resendTries == RESEND_MAX_TRIES && s.b.ackedSeq < Current(s).hub.delivered
  }

  /** No acknowledgement moves forward, the bridge is not stopped, and no resubscription happens. */
  predicate Unanswered(s: System, steps: seq<Step>)
    requires s.b.sub < |s.subs| && Executes(s, steps)
    decreases |steps|
  {
    steps == [] ||
    var next := Apply(s, steps[0]);
    && !steps[0].Stop? && (steps[0].Ack? ==> steps[0].seqNo <= s.b.ackedSeq)
    && next.b.sub == s.b.sub < |next.subs|
    && Unanswered(next, steps[1..])
  }

  lemma StepStaysGivenUp(s: System, step: Step)
    requires Sound(s) && GivenUp(s) && Enabled(s, step)
    requires !step.Stop? && (step.Ack? ==> step.seqNo <= s.b.ackedSeq)
    requires Apply(s, step).b.sub == s.b.sub < |Apply(s, step).subs|
    ensures GivenUp(Apply(s, step)) && Apply(s, step).bursts == s.bursts
  {
    if !Decides(step) {
      StepKeepsProgress(s, step);
    }
  }

  /** After three unanswered resends the bridge stays silent: new events arm timers, but no
      resend follows until an acknowledgement advances or the view is resubscribed. */
  lemma {:induction false} GivingUpIsFinal(s: System, steps: seq<Step>)
    requires Sound(s) && GivenUp(s) && Executes(s, steps) && Unanswered(s, steps)
    ensures Run(s, steps).b.sub == s.b.sub < |Run(s, steps).subs|
    ensures GivenUp(Run(s, steps)) && Run(s, steps).bursts == s.bursts
    decreases |steps|
  {
    if steps != [] {
      StepKeepsSound(s, steps[0]);
      StepStaysGivenUp(s, steps[0]);
      GivingUpIsFinal(Apply(s, steps[0]), steps[1..]);
    }
  }

  /** No acknowledgement is missing: the renderer lags behind a running bridge. */
  predicate Behind(s: System)
    requires s.b.sub < |s.subs|
  {
    s.b.running && s.b.ackedSeq < Current(s).hub.delivered
  }

  lemma StepCountsTries(s: System, step: Step)
    requires Sound(s) && Behind(s) && Enabled(s, step)
    requires !step.Stop? && (step.Ack? ==> step.seqNo <= s.b.ackedSeq)
    requires Apply(s, step).b.sub == s.b.sub < |Apply(s, step).subs|
    ensures var t := Apply(s, step); Behind(t) && t.bursts - s.bursts == t.b.resendTries - s.b.resendTries
  {
    hide Relayed, Synced, CaughtUp, Published;
    if !Decides(step) {
      StepKeepsProgress(s, step);
    } else if step.CatchUpStep? {
      DecisionCountsTries(s.(catchUps := s.catchUps - multiset{step.catchUp}));
    }
  }

  lemma DecisionCountsTries(s: System)
    requires TimersSound(s) && s.b.sub < |s.subs| && Behind(s)
    ensures var t := CaughtUp(s, Pending);
            t.subs == s.subs && t.b.sub == s.b.sub && Behind(t) && t.bursts - s.bursts == t.b.resendTries - s.b.resendTries
  {
  }

  /** Each resend of an unanswered bridge counts for one try: from a renewed count it gives up
      after exactly three resends, not sooner. */
  lemma {:induction false} GivesUpAfterThree(s: System, steps: seq<Step>)
    requires Sound(s) && Behind(s) && Executes(s, steps) && Unanswered(s, steps)
    ensures var t := Run(s, steps);
            && t.b.sub == s.b.sub < |t.subs| && t.bursts - s.bursts == t.b.resendTries - s.b.resendTries
            && (s.b.resendTries == 0 ==> (GivenUp(t) <==> t.bursts == s.bursts + 3))
  {
    hide Sound, Run, Executes, Unanswered;
    TriesAreCounted(s, steps);
  }

  lemma {:induction false} TriesAreCounted(s: System, steps: seq<Step>)
    requires Sound(s) && Behind(s) && Executes(s, steps) && Unanswered(s, steps)
    ensures var t := Run(s, steps);
            t.b.sub == s.b.sub < |t.subs| && Behind(t) && t.bursts - s.bursts == t.b.resendTries - s.b.resendTries
    decreases |steps|
  {
    hide Apply, Sound, Behind, Enabled;
    if steps != [] {
      StepKeepsSound(s, steps[0]);
      StepCountsTries(s, steps[0]);
      TriesAreCounted(Apply(s, steps[0]), steps[1..]);
    } else {
      BehindCounts(s);
    }
  }

  lemma BehindCounts(s: System)
    requires Sound(s)
    ensures s.b.sub < |s.subs|
  {
  }

  // ---- what renews the tries ----

  /** A catch-up decides on a resend exactly for a lagging renderer, spends a try on it, and
      renews the tries of one that has caught up; it touches nothing else. */
  lemma DecisionExactly(s: System)
    requires Sound(s)
    ensures var t := CaughtUp(s, Pending);
            && t.bursts == s.bursts + (if Lagging(s) then 1 else 0)
            && t.b == s.b.(resendTries := if !s.b.running then s.b.resendTries
                                          else if s.b.ackedSeq >= Current(s).hub.delivered then 0
                                          else if Lagging(s) then s.b.resendTries + 1 else 3)
            && t.catchUps == s.catchUps
                             + (if Lagging(s) then multiset{Replaying(s.bursts, s.b.sub, Current(s).hub.delivered, s.b.ackedSeq)}
                                else multiset{})
            && t == s.(b := t.b, bursts := t.bursts, catchUps := t.catchUps)
  {
    assert s.catchUps + multiset{} == s.catchUps;
  }

  /** An acknowledgement that moves forward is answered at once, however many tries were spent:
      by a resend of what lies beyond it, unless nothing does. An older one changes nothing. */
  lemma AdvanceIsAnswered(s: System, seqNo: nat)
    requires Sound(s)
    ensures seqNo <= s.b.ackedSeq ==> Apply(s, Ack(seqNo)) == s
    ensures s.b.ackedSeq < seqNo ==>
              var t := Apply(s, Ack(seqNo));
              && t.b == s.b.(ackedSeq := seqNo, resendTries := 0) && Enabled(t, CatchUpStep(Pending))
              && var u := Apply(t, CatchUpStep(Pending));
                 if s.b.running && seqNo < Current(s).hub.delivered
                 then u.bursts == s.bursts + 1 && Replaying(s.bursts, s.b.sub, Current(s).hub.delivered, seqNo) in u.catchUps
                 else u.bursts == s.bursts
  {
    if s.b.ackedSeq < seqNo {
      var t := Apply(s, Ack(seqNo));
      assert Pending in t.catchUps;
      StepKeepsSound(s, Ack(seqNo));
      FewerIsSound(t, Pending);
      DecisionExactly(t.(catchUps := t.catchUps - multiset{Pending}));
    }
  }

  /** The subscription has just been made for the view, and nothing is counted on it yet. */
  predicate Anew(s: System, t: System, mode: Mode) {
    && t.b == s.b.(sub := |s.subs|, subscribedKey := s.view, ackedSeq := 0, resendTimer := None, resendTries := 0)
    && |t.subs| == |s.subs| + 1
    && var sub := t.subs[|s.subs|];
       && sub.hub == Subscriber(0, [], if mode.WithReplay? then 1024 else 0, [], 256, false)
       && sub.scope == (if mode.Global? then Everything else Keyed(s.view))
       && sub.relay.NotStarted? && sub.sent == []
  }

  lemma ResubscribedAnew(s: System, mode: Mode)
    requires s.b.running
    ensures Anew(s, Resubscribed(s, mode), mode)
  {
  }

  lemma RelayResubscribes(s: System, i: nat, mode: Mode)
    requires Enabled(s, RelayStep(i, mode)) && Relayed(s, i, mode).b.sub != s.b.sub
    ensures s.b.running && Anew(s, Relayed(s, i, mode), mode)
  {
    hide Anew, RelayMoved;
    var r, u := s.subs[i].relay, SetRelay(s, i, Exited);
    if r.Aligning? && r.sync.SyncResubscribe? && s.b.running {
      ResubscribedAnew(u, mode);
      AnewAlike(s, u, Resubscribed(u, mode), mode);
    }
  }

  lemma AnewAlike(s: System, u: System, t: System, mode: Mode)
    requires Anew(u, t, mode) && u.b == s.b && u.view == s.view && |u.subs| == |s.subs|
    ensures Anew(s, t, mode)
  {
  }

  /** Only a running bridge changes its subscription, to one of the view's session with nothing
      delivered; acknowledgement, tries and timer start over with it. */
  lemma ResubscriptionStartsOver(s: System, step: Step)
    requires Enabled(s, step) && Apply(s, step).b.sub != s.b.sub
    ensures (step.SyncStep? || step.RelayStep?) && s.b.running && Anew(s, Apply(s, step), step.mode)
  {
    hide Anew, Relayed, Resubscribed, Published, CaughtUp;
    match step
    case PublishNotice(notice) => PublishKeepsFields(s, notice);
    case Publish(event) => PublishKeepsFields(s, event);
    case RelayStep(i, mode) => RelayResubscribes(s, i, mode);
    case SyncStep(sync, mode) =>
      var u := s.(syncs := s.syncs - multiset{sync});
      if s.b.running {
        ResubscribedAnew(u, mode);
        AnewAlike(s, u, Resubscribed(u, mode), mode);
      } else {
        StoppedStays(u, mode);
      }
    case CatchUpStep(c) => CatchUpKeepsSub(s.(catchUps := s.catchUps - multiset{c}), c);
    case _ =>
  }

  /** A command's synchronisation with nothing in between. */
  function Synchronised(s: System, mode: Mode): System {
    var begun := Synced(s, SyncBegin, mode);
    if begun.syncs == s.syncs then begun
    else
      var key := s.b.subscribedKey;
      var compared := Synced(begun.(syncs := begun.syncs - multiset{SyncCompare(key)}), SyncCompare(key), mode);
      if compared.syncs == s.syncs then compared
      else Synced(compared.(syncs := compared.syncs - multiset{SyncResubscribe}), SyncResubscribe, mode)
  }

  /** It resubscribes a running bridge that is behind the view, and does nothing otherwise. */
  lemma SynchronisesExactly(s: System, mode: Mode)
    ensures var t := Synchronised(s, mode);
            if s.b.running && s.b.subscribedKey != s.view then Anew(s, t, mode) && t.syncs == s.syncs else t == s
  {
    hide Anew, Resubscribed;
    var key := s.b.subscribedKey;
    OneMore(s.syncs, SyncCompare(key));
    OneMore(s.syncs, SyncResubscribe);
    if s.b.running {
      ResubscribedAnew(s, mode);
      ResubscribedKeepsSyncs(s, mode);
    }
  }

  lemma ResubscribedKeepsSyncs(s: System, mode: Mode)
    ensures Resubscribed(s, mode).syncs == s.syncs
  {
  }

  lemma OneMore(syncs: multiset<Sync>, sync: Sync)
    ensures syncs + multiset{sync} != syncs && syncs + multiset{sync} - multiset{sync} == syncs
  {
    assert (syncs + multiset{sync})[sync] == syncs[sync] + 1;
  }

  lemma StoppedStays(s: System, mode: Mode)
    requires !s.b.running
    ensures Resubscribed(s, mode) == s
  {
  }

  lemma CatchUpKeepsSub(s: System, c: CatchUp)
    requires s.b.sub < |s.subs| && Readable(s, c)
    ensures CaughtUp(s, c).b.sub == s.b.sub
  {
    hide Answer;
  }

  lemma StopDisarms(s: System)
    requires Sound(s) && s.b.running
    ensures var t := Apply(s, Stop);
            && t.b == s.b.(running := false, resendTimer := None, resendTries := 0)
            && (s.b.resendTimer.Some? ==> s.b.resendTimer.value in t.stopped && s.b.resendTimer.value !in t.timers)
  {
  }

  // ---- how many timers ----

  /** The one pending timer is the registered one. */
  ghost predicate OneTimer(s: System) {
    s.timers == if s.b.resendTimer.Some? then {s.b.resendTimer.value} else {}
  }

  /** A callback that a stop came too late for unregisters the timer armed since. */
  predicate FiresStale(s: System, step: Step) {
    step.FireTimer? && step.timer in s.stopped && s.b.resendTimer.Some?
  }

  lemma RelayKeepsOneTimer(s: System, i: nat, mode: Mode)
    requires OneTimer(s) && Enabled(s, RelayStep(i, mode))
    ensures OneTimer(Relayed(s, i, mode))
  {
    hide RelayMoved;
  }

  lemma SyncKeepsOneTimer(s: System, sync: Sync, mode: Mode)
    requires OneTimer(s)
    ensures OneTimer(Synced(s, sync, mode))
  {
  }

  lemma CatchUpKeepsOneTimer(s: System, c: CatchUp)
    requires OneTimer(s) && s.b.sub < |s.subs| && Readable(s, c)
    ensures OneTimer(CaughtUp(s, c))
  {
    hide Answer;
  }

  /** At most one timer is pending at a time, as the source says of it, until exactly such a
      callback fires: then the next event arms a second one. */
  lemma OneTimerExactly(s: System, step: Step)
    requires Sound(s) && OneTimer(s) && Enabled(s, step)
    ensures OneTimer(Apply(s, step)) <==> !FiresStale(s, step)
  {
    assert TimersSound(s);
    hide Sound, OneTimer, Apply;
    if step.FireTimer? {
      FiringTimer(s, step.timer);
    } else if Local(step) {
      LocalKeepsOneTimer(s, step);
    } else {
      WorkKeepsOneTimer(s, step);
    }
  }

  lemma LocalKeepsOneTimer(s: System, step: Step)
    requires TimersSound(s) && OneTimer(s) && Enabled(s, step) && Local(step) && !step.FireTimer?
    ensures OneTimer(Apply(s, step))
  {
  }

  lemma WorkKeepsOneTimer(s: System, step: Step)
    requires OneTimer(s) && Enabled(s, step) && !Local(step)
    ensures OneTimer(Apply(s, step))
  {
    hide Relayed, Synced, CaughtUp, Published;
    match step
    case PublishNotice(notice) => PublishKeepsFields(s, notice);
    case Publish(event) => PublishKeepsFields(s, event);
    case RelayStep(i, mode) => RelayKeepsOneTimer(s, i, mode);
    case SyncStep(sync, mode) => SyncKeepsOneTimer(s.(syncs := s.syncs - multiset{sync}), sync, mode);
    case CatchUpStep(c) => CatchUpKeepsOneTimer(s.(catchUps := s.catchUps - multiset{c}), c);
  }

  lemma FiringTimer(s: System, t: nat)
    requires TimersSound(s) && OneTimer(s) && Enabled(s, FireTimer(t))
    ensures OneTimer(Apply(s, FireTimer(t))) <==> !FiresStale(s, FireTimer(t))
  {
    if FiresStale(s, FireTimer(t)) {
      assert s.b.resendTimer.value in Apply(s, FireTimer(t)).timers;
    }
  }

  predicate NeverStale(s: System, steps: seq<Step>)
    requires Executes(s, steps)
    decreases |steps|
  {
    steps == [] || (!FiresStale(s, steps[0]) && NeverStale(Apply(s, steps[0]), steps[1..]))
  }

  lemma {:induction false} RunKeepsOneTimer(s: System, steps: seq<Step>)
    requires Sound(s) && OneTimer(s) && Executes(s, steps) && NeverStale(s, steps)
    ensures OneTimer(Run(s, steps)) && |Run(s, steps).timers| <= 1
    decreases |steps|
  {
    hide Apply, Sound, FiresStale;
    if steps != [] {
      StepKeepsSound(s, steps[0]);
      OneTimerExactly(s, steps[0]);
      RunKeepsOneTimer(Apply(s, steps[0]), steps[1..]);
    }
  }
}
