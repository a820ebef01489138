/** The GUI bridge as a transition system (gui/bridge.go). One step is one critical
    section under Bridge.mu, or one action outside it: an emission, a read of the
    application's view, a timer expiring. Threads interleave freely. */
module BridgeModel {
  import opened EventHub

  const EVENT_SUBSCRIPTION_BUFFER := 256
  const EVENT_REPLAY_WINDOW := 1024
  const RESEND_MAX_TRIES := 3

  datatype Option<T> = None | Some(value: T)

  // ---- the fields Bridge.mu guards, and one function per critical section ----

  /** `sub` and `resendTimer` name a subscription and a timer of the System below. */
  datatype Shared = Shared(
    running: bool, sub: nat, subscribedKey: string, relayGen: nat,
    ackedSeq: nat, resendTimer: Option<nat>, resendTries: nat)

  datatype Decision = Rest | Resend

  function CurrentRelay(b: Shared, gen: nat): bool {
    b.running && b.relayGen == gen
  }

  function Acked(b: Shared, seqNo: nat): Shared {
    if seqNo <= b.ackedSeq then b else b.(ackedSeq := seqNo, resendTries := 0)
  }

  function Armed(b: Shared, timer: nat): Shared {
    if !b.running || b.resendTimer.Some? then b else b.(resendTimer := Some(timer))
  }

  function Disarmed(b: Shared): Shared {
    b.(resendTimer := None, resendTries := 0)
  }

  function Swapped(b: Shared, sub: nat, key: string): Shared {
    if !b.running then b
    else Disarmed(b.(sub := sub, subscribedKey := key, ackedSeq := 0))
  }

  function Stopped(b: Shared): Shared {
    if !b.running then b else Disarmed(b.(running := false))
  }

  function Decide(b: Shared, watermark: nat): Decision {
    if b.running && b.ackedSeq < watermark && b.resendTries < RESEND_MAX_TRIES then Resend else Rest
  }

  function Decided(b: Shared, watermark: nat): Shared {
    if !b.running then b
    else if b.ackedSeq >= watermark then b.(resendTries := 0)
    else if b.resendTries >= RESEND_MAX_TRIES then b
    else b.(resendTries := b.resendTries + 1)
  }

  /** The bridge object: every method is one critical section. */
  class Bridge {
    var running: bool
    var sub: nat
    var subscribedKey: string
    var relayGen: nat
    var ackedSeq: nat
    var resendTimer: Option<nat>
    var resendTries: nat

    ghost function View(): Shared
      reads this
    {
      Shared(running, sub, subscribedKey, relayGen, ackedSeq, resendTimer, resendTries)
    }

    constructor ()
      ensures View() == Shared(false, 0, "", 0, 0, None, 0)
    {
      running, sub, subscribedKey, relayGen := false, 0, "", 0;
      ackedSeq, resendTimer, resendTries := 0, None, 0;
    }

    method Start(subscription: nat, key: string) returns (started: bool)
      modifies this
      ensures started == !old(running)
      ensures View() == if started
                        then old(View()).(running := true, sub := subscription, subscribedKey := key)
                        else old(View())
    {
      if running {
        return false;
      }
      running, sub, subscribedKey := true, subscription, key;
      started := true;
    }

    method NextRelayGeneration() returns (gen: nat)
      modifies this
      ensures View() == old(View()).(relayGen := old(relayGen) + 1) && gen == relayGen
    {
      relayGen := relayGen + 1;
      gen := relayGen;
    }

    method RelayIsCurrent(gen: nat) returns (current: bool)
      ensures current == CurrentRelay(View(), gen)
    {
      current := running && relayGen == gen;
    }

    method Resubscribe(subscription: nat, key: string)
      modifies this
      ensures View() == Swapped(old(View()), subscription, key)
    {
      if !running {
        return;
      }
      sub, subscribedKey := subscription, key;
      ackedSeq := 0;
      resendTries := 0;
      StopResend();
    }

    method StopResend()
      modifies this
      ensures View() == Disarmed(old(View()))
    {
      if resendTimer.Some? {
        resendTimer := None;
      }
      resendTries := 0;
    }

    method Stop()
      modifies this
      ensures View() == Stopped(old(View()))
    {
      if !running {
        return;
      }
      running := false;
      StopResend();
    }

    method AckEvents(seqNo: nat) returns (advanced: bool)
      modifies this
      ensures View() == Acked(old(View()), seqNo) && advanced == (old(ackedSeq) < seqNo)
    {
      if seqNo <= ackedSeq {
        return false;
      }
      ackedSeq := seqNo;
      resendTries := 0;
      advanced := true;
    }

    method ArmResend(timer: nat) returns (armed: bool)
      modifies this
      ensures View() == Armed(old(View()), timer) && armed == (View() != old(View()))
    {
      if !running || resendTimer.Some? {
        return false;
      }
      resendTimer := Some(timer);
      armed := true;
    }

    method CatchUp(watermark: nat) returns (decision: Decision)
      modifies this
      ensures View() == Decided(old(View()), watermark) && decision == Decide(old(View()), watermark)
    {
      decision := Rest;
      if !running {
        return;
      }
      if ackedSeq >= watermark {
        resendTries := 0;
        return;
      }
      if resendTries >= RESEND_MAX_TRIES {
        return;
      }
      resendTries := resendTries + 1;
      decision := Resend;
    }
  }

  // ---- the threads ----

  /** syncSubscriptionToView: read the subscribed key, compare it with the view, resubscribe. */
  datatype Sync = SyncBegin | SyncCompare(subscribed: string) | SyncResubscribe

  /** A relay goroutine, by the point it has reached. */
  datatype Relay =
    | NotStarted
    | Ready(gen: nat)
    | Waiting(gen: nat)
    | Holding(gen: nat, event: Event)
    | Cleared(gen: nat, event: Event)
    | Sent(gen: nat, event: Event)
    | Arming(gen: nat)
    | Aligning(gen: nat, sync: Sync)
    | Exited

  datatype Scope = Keyed(key: string) | Everything

  /** The three subscription attempts of subscribeViewLocked, in order. */
  datatype Mode = WithReplay | SessionOnly | Global

  /** `sent` and `late` are history: the delivery numbers the relay emitted, and how many
      emissions (the initial ready included) it made after a newer generation existed. */
  datatype Subscription = Subscription(hub: Subscriber, scope: Scope, relay: Relay, sent: seq<nat>, late: nat)

  /** A catch-up in flight: about to decide, decided and about to read the window, re-emitting
      next..last, emitting a resync, about to arm. `id` tells the resends apart. */
  datatype CatchUp =
    | Pending
    | Replaying(id: nat, sub: nat, watermark: nat, acked: nat)
    | Burst(id: nat, sub: nat, next: nat, last: nat)
    | Resync(id: nat, sub: nat, watermark: nat)
    | Rearm(id: nat)

  /** `signalLost` and `bursts` are history: whether since the last resubscription a view
      notice missed the current channel or the channel was emptied by an overflow, and how
      many resends were made. */
  datatype System = System(
    b: Shared, view: string, subs: seq<Subscription>,
    timers: set<nat>, stopped: set<nat>, timerCount: nat,
    catchUps: multiset<CatchUp>, syncs: multiset<Sync>, notices: multiset<Event>,
    signalLost: bool, bursts: nat)

  const VIEW_NOTICE := Event(0, ViewSessionChanged, "", "")

  function DriftNotice(session: string): Event {
    Event(0, Content, session, "")
  }

  /** The application's delivery filter (sessionEventFilter); `view` is its active session. */
  function Accepts(scope: Scope, view: string, e: Event): bool {
    match scope
    case Everything => true
    case Keyed(key) =>
      if e.kind == ResyncRequired || e.kind == ExitRequested then e.session == ""
      else if key != "" then e.session == key
      else e.session == "" || e.session == view
  }

  function Subscribe(view: string, mode: Mode): Subscription {
    Subscription(Open(EVENT_SUBSCRIPTION_BUFFER, if mode.WithReplay? then EVENT_REPLAY_WINDOW else 0),
                 if mode.Global? then Everything else Keyed(view), NotStarted, [], 0)
  }

  function Start(view: string, mode: Mode): System {
    System(Shared(true, 0, view, 0, 0, None, 0), view, [Subscribe(view, mode)],
           {}, {}, 0, multiset{}, multiset{}, multiset{}, false, 0)
  }

  /** A view command synchronises when it returns; an asynchronous rollback announces itself
      with a process-level notice; a draft that gets its session with an event of that session. */
  datatype Cause = ByCommand | ByRollback | ByMaterialisation

  datatype Step =
    | ChangeView(to: string, cause: Cause)
    | PublishNotice(notice: Event)
    | Publish(event: Event)
    | BeginSync
    | SyncStep(sync: Sync, mode: Mode)
    | StartRelay(i: nat)
    | RelayStep(i: nat, mode: Mode)
    | RelayCancelled(i: nat)
    | FireTimer(timer: nat)
    | ForgetTimer(timer: nat)
    | CatchUpStep(catchUp: CatchUp)
    | Ack(seqNo: nat)
    | CloseSubscription(i: nat)
    | Stop

  predicate Enabled(s: System, step: Step) {
    s.b.sub < |s.subs| &&
    match step
    case ChangeView(to, cause) => cause.ByMaterialisation? ==> to != ""
    case PublishNotice(notice) => notice in s.notices
    case SyncStep(sync, _) => sync in s.syncs
    case StartRelay(i) => i < |s.subs| && s.subs[i].relay.NotStarted?
    case RelayStep(i, _) =>
      && i < |s.subs|
      && var r := s.subs[i].relay;
         !r.NotStarted? && !r.Exited? && (r.Waiting? ==> s.subs[i].hub.queue != [] || s.subs[i].hub.closed)
    case RelayCancelled(i) => i < |s.subs| && s.subs[i].relay.Waiting? && !s.b.running
    case FireTimer(t) => t in s.timers + s.stopped
    case ForgetTimer(t) => t in s.stopped
    case CatchUpStep(c) => c in s.catchUps && Readable(s, c)
    case CloseSubscription(i) => i < |s.subs| && (i != s.b.sub || !s.b.running)
    case Stop => s.b.running
    case _ => true
  }

  predicate Readable(s: System, c: CatchUp) {
    c.Replaying? ==> c.sub < |s.subs|
  }

  function Apply(s: System, step: Step): System
    requires Enabled(s, step)
  {
    match step
    case ChangeView(to, cause) => ChangedView(s, to, cause)
    case PublishNotice(notice) => NoticePublished(s, notice)
    case Publish(event) => EventPublished(s, event)
    case BeginSync => s.(syncs := s.syncs + multiset{SyncBegin})
    case SyncStep(sync, mode) => Synced(s.(syncs := s.syncs - multiset{sync}), sync, mode)
    case StartRelay(i) =>
      SetRelay(s.(b := s.b.(relayGen := s.b.relayGen + 1)), i, Ready(s.b.relayGen + 1))
    case RelayStep(i, mode) => Relayed(s, i, mode)
    case RelayCancelled(i) => SetRelay(s, i, Exited)
    case FireTimer(t) =>
      s.(timers := s.timers - {t}, stopped := s.stopped - {t}, b := s.b.(resendTimer := None),
         catchUps := s.catchUps + multiset{Pending})
    case ForgetTimer(t) => s.(stopped := s.stopped - {t})
    case CatchUpStep(c) => CaughtUp(s.(catchUps := s.catchUps - multiset{c}), c)
    case Ack(seqNo) =>
      if seqNo <= s.b.ackedSeq then s
      else s.(b := Acked(s.b, seqNo), catchUps := s.catchUps + multiset{Pending})
    case CloseSubscription(i) => s.(subs := s.subs[i := s.subs[i].(hub := Close(s.subs[i].hub))])
    case Stop => TimerStopped(s).(b := Stopped(s.b))
  }

  function SetRelay(s: System, i: nat, r: Relay): System
    requires i < |s.subs|
  {
    s.(subs := s.subs[i := s.subs[i].(relay := r)])
  }

  function ChangedView(s: System, to: string, cause: Cause): System {
    var moved := s.(view := to);
    match cause
    case ByCommand => moved.(syncs := s.syncs + multiset{SyncBegin})
    case ByRollback => moved.(notices := s.notices + multiset{VIEW_NOTICE})
    case ByMaterialisation => moved.(notices := s.notices + multiset{DriftNotice(to)})
  }

  function Receive(sub: Subscription, view: string, e: Event): Subscription {
    if Accepts(sub.scope, view, e) then sub.(hub := Delivery(sub.hub, e)) else sub
  }

  function Published(s: System, e: Event): System {
    s.(subs := seq(|s.subs|, i requires 0 <= i < |s.subs| => Receive(s.subs[i], s.view, e)))
  }

  /** Whether the notice enters the channel of the current subscription. */
  predicate Enqueues(s: System, e: Event)
    requires s.b.sub < |s.subs|
  {
    var sub := s.subs[s.b.sub];
    Accepts(sub.scope, s.view, e) && !sub.hub.closed && |sub.hub.queue| < sub.hub.buffer
  }

  function NoticePublished(s: System, notice: Event): System
    requires s.b.sub < |s.subs|
  {
    Published(s, notice).(notices := s.notices - multiset{notice},
                          signalLost := s.signalLost || !Enqueues(s, notice))
  }

  /** The event empties the channel of the current subscription, which has no replay window. */
  predicate Overflows(s: System, e: Event)
    requires s.b.sub < |s.subs|
  {
    var sub := s.subs[s.b.sub];
    Accepts(sub.scope, s.view, e) && !sub.hub.closed && sub.hub.window == 0 && |sub.hub.queue| >= sub.hub.buffer
  }

  function EventPublished(s: System, e: Event): System
    requires s.b.sub < |s.subs|
  {
    Published(s, e).(signalLost := s.signalLost || Overflows(s, e))
  }

  /** The timer half of stopResendLocked: a stopped timer may still fire. */
  function TimerStopped(s: System): System {
    match s.b.resendTimer
    case None => s
    case Some(t) => s.(timers := s.timers - {t}, stopped := s.stopped + {t})
  }

  function Resubscribed(s: System, mode: Mode): System {
    if !s.b.running then s
    else TimerStopped(s).(b := Swapped(s.b, |s.subs|, s.view), subs := s.subs + [Subscribe(s.view, mode)],
                          signalLost := false)
  }

  function ResendArmed(s: System): System {
    if !s.b.running || s.b.resendTimer.Some? then s
    else s.(b := Armed(s.b, s.timerCount), timers := s.timers + {s.timerCount}, timerCount := s.timerCount + 1)
  }

  /** A command's synchronisation; it leaves `syncs` when it is done. */
  function Synced(s: System, sync: Sync, mode: Mode): System {
    match sync
    case SyncBegin => if s.b.running then s.(syncs := s.syncs + multiset{SyncCompare(s.b.subscribedKey)}) else s
    case SyncCompare(key) => if key == s.view then s else s.(syncs := s.syncs + multiset{SyncResubscribe})
    case SyncResubscribe => Resubscribed(s, mode)
  }

  function Superseded(s: System, gen: nat): nat {
    if s.b.relayGen == gen then 0 else 1
  }

  function Relayed(s: System, i: nat, mode: Mode): System
    requires Enabled(s, RelayStep(i, mode))
  {
    var r := s.subs[i].relay;
    if r.Arming? then SetRelay(ResendArmed(s), i, Waiting(r.gen))
    else if r.Aligning? && r.sync.SyncResubscribe? then Resubscribed(SetRelay(s, i, Exited), mode)
    else s.(subs := s.subs[i := RelayMoved(s, s.subs[i])])
  }

  /** The relay steps that touch nothing but the relay's own subscription. */
  function RelayMoved(s: System, sub: Subscription): Subscription {
    match sub.relay
    case Ready(g) => sub.(relay := Waiting(g), late := sub.late + Superseded(s, g))
    case Waiting(g) =>
      if sub.hub.queue == [] then sub.(relay := Exited)
      else sub.(relay := Holding(g, sub.hub.queue[0]), hub := Take(sub.hub))
    case Holding(g, e) =>
      sub.(relay := if !CurrentRelay(s.b, g) then Exited
                    else if e.kind == ViewSessionChanged then Aligning(g, SyncBegin)
                    else Cleared(g, e))
    case Cleared(g, e) =>
      sub.(relay := Sent(g, e), sent := sub.sent + [e.deliverySeq], late := sub.late + Superseded(s, g))
    case Sent(g, e) =>
      sub.(relay := if e.session != "" && s.b.subscribedKey != e.session
                    then Aligning(g, SyncResubscribe) else Arming(g))
    case Aligning(g, sync) =>
      if sync.SyncBegin? then
        sub.(relay := if s.b.running then Aligning(g, SyncCompare(s.b.subscribedKey)) else Exited)
      else if sync.SyncCompare? then
        sub.(relay := if sync.subscribed == s.view then Exited else Aligning(g, SyncResubscribe))
      else sub
    case _ => sub
  }

  /** The watermark and the window are read one after the other, each under the hub's own lock:
      deliveries can come between. */
  function CaughtUp(s: System, c: CatchUp): System
    requires s.b.sub < |s.subs| && Readable(s, c)
  {
    match c
    case Pending =>
      var hub := s.subs[s.b.sub].hub;
      var decided := s.(b := Decided(s.b, hub.delivered));
      if Decide(s.b, hub.delivered).Rest? then decided
      else decided.(bursts := s.bursts + 1,
                    catchUps := s.catchUps + multiset{Replaying(s.bursts, s.b.sub, hub.delivered, s.b.ackedSeq)})
    case Replaying(id, sub, watermark, acked) =>
      s.(catchUps := s.catchUps + multiset{Answer(id, sub, s.subs[sub].hub, watermark, acked)})
    case Burst(id, sub, next, last) =>
      s.(catchUps := s.catchUps + multiset{if next < last then Burst(id, sub, next + 1, last) else Rearm(id)})
    case Resync(id, _, _) => s.(catchUps := s.catchUps + multiset{Rearm(id)})
    case Rearm(_) => ResendArmed(s)
  }

  /** What a resend emits: the covered tail of the window, or else a resync at the watermark
      the decision was made on. */
  function Answer(id: nat, sub: nat, hub: Subscriber, watermark: nat, acked: nat): CatchUp {
    match ReplayOf(hub, acked)
    case Covered(items) =>
      if items != [] then Burst(id, sub, items[0].deliverySeq, items[|items| - 1].deliverySeq)
      else Resync(id, sub, watermark)
    case NotCovered => Resync(id, sub, watermark)
  }

  // ---- runs ----

  predicate Executes(s: System, steps: seq<Step>)
    decreases |steps|
  {
    steps == [] || (Enabled(s, steps[0]) && Executes(Apply(s, steps[0]), steps[1..]))
  }

  function Run(s: System, steps: seq<Step>): System
    requires Executes(s, steps)
    decreases |steps|
  {
    if steps == [] then s else Run(Apply(s, steps[0]), steps[1..])
  }

  // ---- what every step keeps ----

  /** The steps whose whole effect is written out in Apply. */
  predicate Local(step: Step) {
    !step.PublishNotice? && !step.Publish? && !step.SyncStep? && !step.RelayStep? && !step.CatchUpStep?
  }

  ghost predicate TimersSound(s: System) {
    && s.b.resendTries <= RESEND_MAX_TRIES
    && s.timers !! s.stopped
    && (forall t :: t in s.timers ==> t < s.timerCount)
    && (forall t :: t in s.stopped ==> t < s.timerCount)
    && (s.b.resendTimer.Some? ==> s.b.running && s.b.resendTimer.value in s.timers)
  }

  ghost predicate SubsSound(s: System) {
    && s.b.sub < |s.subs|
    && (forall i :: 0 <= i < |s.subs| ==> Valid(s.subs[i].hub))
    && (s.b.running ==> !s.subs[s.b.sub].hub.closed)
  }

  /** The generation a live relay was started with. */
  function Gen(r: Relay): nat {
    if r.NotStarted? || r.Exited? then 0 else r.gen
  }

  ghost predicate RelaysSound(s: System) {
    forall i :: 0 <= i < |s.subs| ==> Gen(s.subs[i].relay) <= s.b.relayGen
  }

  /** A resend that has been decided is for a renderer that lags on that subscription. */
  ghost predicate ReplaysSound(s: System) {
    forall c :: c in s.catchUps && c.Replaying? ==> c.sub < |s.subs| && c.acked < c.watermark <= s.subs[c.sub].hub.delivered
  }

  ghost predicate Sound(s: System) {
    SubsSound(s) && TimersSound(s) && RelaysSound(s) && ReplaysSound(s)
  }

  lemma StartIsSound(view: string, mode: Mode)
    ensures Sound(Start(view, mode))
  {
    OpenIsValid(EVENT_SUBSCRIPTION_BUFFER, if mode.WithReplay? then EVENT_REPLAY_WINDOW else 0);
  }

  /** A publication reaches the hubs and nothing else. */
  lemma PublishKeepsFields(s: System, e: Event)
    ensures var t := Published(s, e);
            && t == s.(subs := t.subs) && |t.subs| == |s.subs|
            && forall i :: 0 <= i < |s.subs| ==>
                 t.subs[i].relay == s.subs[i].relay && t.subs[i].scope == s.subs[i].scope
  {
  }

  lemma PublishKeepsSubs(s: System, e: Event)
    requires SubsSound(s)
    ensures SubsSound(Published(s, e))
  {
    forall i | 0 <= i < |s.subs| ensures Valid(Published(s, e).subs[i].hub) {
      DeliverKeepsValid(s.subs[i].hub, e);
    }
  }

  lemma ResubscribeKeepsSubs(s: System, mode: Mode)
    requires SubsSound(s)
    ensures SubsSound(Resubscribed(s, mode))
  {
    OpenIsValid(EVENT_SUBSCRIPTION_BUFFER, if mode.WithReplay? then EVENT_REPLAY_WINDOW else 0);
  }

  lemma RelayMoveKeepsHub(s: System, sub: Subscription)
    requires Valid(sub.hub)
    ensures Valid(RelayMoved(s, sub).hub) && RelayMoved(s, sub).hub.closed == sub.hub.closed
  {
    if sub.relay.Waiting? && sub.hub.queue != [] {
      TakeKeepsValid(sub.hub);
    }
  }

  lemma ReplaceKeepsSubs(s: System, i: nat, sub: Subscription)
    requires SubsSound(s) && i < |s.subs| && Valid(sub.hub) && sub.hub.closed == s.subs[i].hub.closed
    ensures SubsSound(s.(subs := s.subs[i := sub]))
  {
  }

  lemma RelayKeepsSubs(s: System, i: nat, mode: Mode)
    requires SubsSound(s) && Enabled(s, RelayStep(i, mode))
    ensures SubsSound(Relayed(s, i, mode))
  {
    hide Valid, RelayMoved, Resubscribed;
    var sub := s.subs[i];
    var r := sub.relay;
    if r.Arming? {
      ReplaceKeepsSubs(ResendArmed(s), i, sub.(relay := Waiting(r.gen)));
    } else if r.Aligning? && r.sync.SyncResubscribe? {
      ReplaceKeepsSubs(s, i, sub.(relay := Exited));
      ResubscribeKeepsSubs(SetRelay(s, i, Exited), mode);
    } else {
      RelayMoveKeepsHub(s, sub);
      ReplaceKeepsSubs(s, i, RelayMoved(s, sub));
    }
  }

  lemma SyncKeepsSubs(s: System, sync: Sync, mode: Mode)
    requires SubsSound(s)
    ensures SubsSound(Synced(s, sync, mode))
  {
    if sync.SyncResubscribe? {
      ResubscribeKeepsSubs(s, mode);
    }
  }

  lemma CatchUpKeepsSubs(s: System, c: CatchUp)
    requires SubsSound(s) && Readable(s, c)
    ensures SubsSound(CaughtUp(s, c))
  {
  }

  lemma LocalKeepsSubs(s: System, step: Step)
    requires SubsSound(s) && Enabled(s, step) && Local(step)
    ensures SubsSound(Apply(s, step))
  {
    if step.CloseSubscription? {
      assert Valid(Close(s.subs[step.i].hub));
    }
  }

  lemma WorkKeepsSubs(s: System, step: Step)
    requires SubsSound(s) && Enabled(s, step) && !Local(step)
    ensures SubsSound(Apply(s, step))
  {
    hide Relayed, Synced, CaughtUp, Published;
    if step.PublishNotice? {
      PublishKeepsSubs(s, step.notice);
    } else if step.Publish? {
      PublishKeepsSubs(s, step.event);
    } else if step.RelayStep? {
      RelayKeepsSubs(s, step.i, step.mode);
    } else if step.SyncStep? {
      SyncKeepsSubs(s.(syncs := s.syncs - multiset{step.sync}), step.sync, step.mode);
    } else if step.CatchUpStep? {
      CatchUpKeepsSubs(s.(catchUps := s.catchUps - multiset{step.catchUp}), step.catchUp);
    }
  }

  lemma StepKeepsSubs(s: System, step: Step)
    requires SubsSound(s) && Enabled(s, step)
    ensures SubsSound(Apply(s, step))
  {
    hide Apply, SubsSound;
    if Local(step) {
      LocalKeepsSubs(s, step);
    } else {
      WorkKeepsSubs(s, step);
    }
  }

  lemma ResubscribeKeepsTimers(s: System, mode: Mode)
    requires TimersSound(s)
    ensures TimersSound(Resubscribed(s, mode))
  {
  }

  lemma ArmKeepsTimers(s: System)
    requires TimersSound(s)
    ensures TimersSound(ResendArmed(s))
  {
  }

  lemma RelayKeepsTimers(s: System, i: nat, mode: Mode)
    requires TimersSound(s) && Enabled(s, RelayStep(i, mode))
    ensures TimersSound(Relayed(s, i, mode))
  {
    var r := s.subs[i].relay;
    if r.Arming? {
      ArmKeepsTimers(s);
    } else if r.Aligning? && r.sync.SyncResubscribe? {
      ResubscribeKeepsTimers(SetRelay(s, i, Exited), mode);
    }
  }

  lemma SyncKeepsTimers(s: System, sync: Sync, mode: Mode)
    requires TimersSound(s)
    ensures TimersSound(Synced(s, sync, mode))
  {
  }

  lemma CatchUpKeepsTimers(s: System, c: CatchUp)
    requires TimersSound(s) && s.b.sub < |s.subs| && Readable(s, c)
    ensures TimersSound(CaughtUp(s, c))
  {
  }

  lemma LocalKeepsTimers(s: System, step: Step)
    requires TimersSound(s) && Enabled(s, step) && Local(step)
    ensures TimersSound(Apply(s, step))
  {
  }

  lemma WorkKeepsTimers(s: System, step: Step)
    requires TimersSound(s) && Enabled(s, step) && !Local(step)
    ensures TimersSound(Apply(s, step))
  {
    hide Relayed, Synced, CaughtUp, Published;
    if step.RelayStep? {
      RelayKeepsTimers(s, step.i, step.mode);
    } else if step.SyncStep? {
      SyncKeepsTimers(s.(syncs := s.syncs - multiset{step.sync}), step.sync, step.mode);
    } else if step.CatchUpStep? {
      CatchUpKeepsTimers(s.(catchUps := s.catchUps - multiset{step.catchUp}), step.catchUp);
    } else {
      PublishKeepsFields(s, if step.Publish? then step.event else step.notice);
    }
  }

  lemma StepKeepsTimers(s: System, step: Step)
    requires TimersSound(s) && Enabled(s, step)
    ensures TimersSound(Apply(s, step))
  {
    hide Apply, TimersSound;
    if Local(step) {
      LocalKeepsTimers(s, step);
    } else {
      WorkKeepsTimers(s, step);
    }
  }

  lemma RelayKeepsRelays(s: System, i: nat, mode: Mode)
    requires RelaysSound(s) && Enabled(s, RelayStep(i, mode))
    ensures RelaysSound(Relayed(s, i, mode))
  {
    var r := s.subs[i].relay;
    if !r.Arming? && !(r.Aligning? && r.sync.SyncResubscribe?) {
      assert Gen(RelayMoved(s, s.subs[i]).relay) <= Gen(r);
    }
  }

  lemma SyncKeepsRelays(s: System, sync: Sync, mode: Mode)
    requires RelaysSound(s)
    ensures RelaysSound(Synced(s, sync, mode))
  {
  }

  lemma CatchUpKeepsRelays(s: System, c: CatchUp)
    requires RelaysSound(s) && s.b.sub < |s.subs| && Readable(s, c)
    ensures RelaysSound(CaughtUp(s, c))
  {
  }

  lemma LocalKeepsRelays(s: System, step: Step)
    requires RelaysSound(s) && Enabled(s, step) && Local(step)
    ensures RelaysSound(Apply(s, step))
  {
  }

  lemma WorkKeepsRelays(s: System, step: Step)
    requires RelaysSound(s) && Enabled(s, step) && !Local(step)
    ensures RelaysSound(Apply(s, step))
  {
    hide Relayed, Synced, CaughtUp, Published;
    if step.RelayStep? {
      RelayKeepsRelays(s, step.i, step.mode);
    } else if step.SyncStep? {
      SyncKeepsRelays(s.(syncs := s.syncs - multiset{step.sync}), step.sync, step.mode);
    } else if step.CatchUpStep? {
      CatchUpKeepsRelays(s.(catchUps := s.catchUps - multiset{step.catchUp}), step.catchUp);
    } else {
      PublishKeepsFields(s, if step.Publish? then step.event else step.notice);
    }
  }

  lemma StepKeepsRelays(s: System, step: Step)
    requires RelaysSound(s) && Enabled(s, step)
    ensures RelaysSound(Apply(s, step))
  {
    hide Apply, RelaysSound;
    if Local(step) {
      LocalKeepsRelays(s, step);
    } else {
      WorkKeepsRelays(s, step);
    }
  }

  /** No subscription goes away and no watermark falls; the decided resends are still there. */
  ghost predicate Grown(s: System, t: System) {
    && |s.subs| <= |t.subs| && (forall c :: c in t.catchUps && c.Replaying? ==> c in s.catchUps)
    && forall i :: 0 <= i < |s.subs| ==> s.subs[i].hub.delivered <= t.subs[i].hub.delivered
  }

  lemma GrownKeepsReplays(s: System, t: System)
    requires ReplaysSound(s) && Grown(s, t)
    ensures ReplaysSound(t)
  {
  }

  lemma PublishGrows(s: System, e: Event)
    ensures Grown(s, Published(s, e))
  {
  }

  lemma ResubscribeGrows(s: System, mode: Mode)
    ensures Grown(s, Resubscribed(s, mode))
  {
  }

  lemma RelayGrows(s: System, i: nat, mode: Mode)
    requires Enabled(s, RelayStep(i, mode))
    ensures Grown(s, Relayed(s, i, mode))
  {
    var r := s.subs[i].relay;
    if r.Aligning? && r.sync.SyncResubscribe? {
      ResubscribeGrows(SetRelay(s, i, Exited), mode);
    } else if !r.Arming? {
      assert RelayMoved(s, s.subs[i]).hub.delivered == s.subs[i].hub.delivered;
    }
  }

  lemma SyncGrows(s: System, sync: Sync, mode: Mode)
    ensures Grown(s, Synced(s, sync, mode))
  {
    if sync.SyncResubscribe? {
      ResubscribeGrows(s, mode);
    }
  }

  lemma LocalGrows(s: System, step: Step)
    requires Enabled(s, step) && Local(step)
    ensures Grown(s, Apply(s, step))
  {
  }

  lemma WorkGrows(s: System, step: Step)
    requires Enabled(s, step) && !Local(step) && !step.CatchUpStep?
    ensures Grown(s, Apply(s, step))
  {
    hide Relayed, Synced, Published;
    if step.RelayStep? {
      RelayGrows(s, step.i, step.mode);
    } else if step.SyncStep? {
      SyncGrows(s.(syncs := s.syncs - multiset{step.sync}), step.sync, step.mode);
    } else {
      PublishGrows(s, if step.Publish? then step.event else step.notice);
    }
  }

  /** The decision is the one step that starts a resend. */
  lemma CatchUpKeepsReplays(s: System, c: CatchUp)
    requires ReplaysSound(s) && s.b.sub < |s.subs| && Readable(s, c)
    ensures ReplaysSound(CaughtUp(s, c))
  {
    hide Answer;
    if c.Pending? && Decide(s.b, s.subs[s.b.sub].hub.delivered).Resend? {
      AddedReplay(s, Replaying(s.bursts, s.b.sub, s.subs[s.b.sub].hub.delivered, s.b.ackedSeq), CaughtUp(s, c));
    } else if c.Replaying? {
      AnswerIsNoReplay(c.id, c.sub, s.subs[c.sub].hub, c.watermark, c.acked);
    }
  }

  lemma AddedReplay(s: System, r: CatchUp, t: System)
    requires ReplaysSound(s) && t.subs == s.subs && t.catchUps == s.catchUps + multiset{r}
    requires r.Replaying? && r.sub < |s.subs| && r.acked < r.watermark <= s.subs[r.sub].hub.delivered
    ensures ReplaysSound(t)
  {
  }

  lemma AnswerIsNoReplay(id: nat, sub: nat, hub: Subscriber, watermark: nat, acked: nat)
    ensures !Answer(id, sub, hub, watermark, acked).Replaying?
  {
  }

  lemma StepKeepsReplays(s: System, step: Step)
    requires ReplaysSound(s) && Enabled(s, step)
    ensures ReplaysSound(Apply(s, step))
  {
    hide ReplaysSound, Grown;
    if step.CatchUpStep? {
      var t := s.(catchUps := s.catchUps - multiset{step.catchUp});
      assert Grown(s, t) by { FewerCatchUps(s, step.catchUp); }
      GrownKeepsReplays(s, t);
      CatchUpKeepsReplays(t, step.catchUp);
    } else {
      if Local(step) {
        LocalGrows(s, step);
      } else {
        WorkGrows(s, step);
      }
      GrownKeepsReplays(s, Apply(s, step));
    }
  }

  lemma FewerCatchUps(s: System, c: CatchUp)
    ensures Grown(s, s.(catchUps := s.catchUps - multiset{c}))
  {
  }

  lemma StepKeepsSound(s: System, step: Step)
    requires Sound(s) && Enabled(s, step)
    ensures Sound(Apply(s, step))
  {
    StepKeepsSubs(s, step);
    StepKeepsTimers(s, step);
    StepKeepsRelays(s, step);
    StepKeepsReplays(s, step);
  }
}
