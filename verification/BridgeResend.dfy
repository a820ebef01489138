/** What reaches the renderer: a resend emits the whole gap, each delivery once and in order,
    whatever happens in between; and a relay emits whatever it takes from its channel. */
module BridgeResend {
  import opened EventHub
  import opened BridgeModel
  import opened BridgeWakeup
  import opened BridgeRelay

  // ---- resends ----

  datatype Emission = Item(seqNo: nat) | ResyncAt(watermark: nat)

  /** The emissions a run makes for one resend, in order: each burst step emits the delivery it
      has come to, and a resync step one resync. */
  function Emitted(step: Step, id: nat): seq<Emission> {
    if !step.CatchUpStep? then []
    else match step.catchUp
      case Burst(n, _, next, _) => if n == id then [Item(next)] else []
      case Resync(n, _, watermark) => if n == id then [ResyncAt(watermark)] else []
      case _ => []
  }

  function RunEmits(steps: seq<Step>, id: nat): seq<Emission> {
    if steps == [] then [] else Emitted(steps[0], id) + RunEmits(steps[1..], id)
  }

  /** The deliveries first..last. */
  function Items(first: nat, last: nat): seq<Emission> {
    seq(if first <= last then last + 1 - first else 0, i requires 0 <= i => Item(first + i))
  }

  /** What a resend that has read the window has still to emit. */
  function Todo(c: CatchUp): seq<Emission> {
    match c
    case Burst(_, _, next, last) => Items(next, last)
    case Resync(_, _, watermark) => [ResyncAt(watermark)]
    case _ => []
  }

  predicate Carries(c: CatchUp, id: nat) {
    !c.Pending? && c.id == id
  }

  /** At most one catch-up works on each resend, and new resends have new numbers. */
  ghost predicate Apart(s: System) {
    forall c :: c in s.catchUps && !c.Pending? ==>
      && c.id < s.bursts && s.catchUps[c] == 1 && (c.Burst? ==> c.next <= c.last)
      && forall d :: d in s.catchUps && Carries(d, c.id) ==> d == c
  }

  /** What is left of a resend; nothing when it is over. */
  ghost function Left(s: System, id: nat): seq<Emission> {
    if exists c :: c in s.catchUps && Carries(c, id) then
      var c :| c in s.catchUps && Carries(c, id); Todo(c)
    else []
  }

  lemma LeftIs(s: System, c: CatchUp)
    requires Apart(s) && c in s.catchUps && !c.Pending?
    ensures Left(s, c.id) == Todo(c)
  {
    assert Carries(c, c.id);
  }

  /** What a step other than a catch-up's does to the catch-ups in flight. */
  lemma OtherStepsLeaveResends(s: System, step: Step)
    requires Enabled(s, step) && !step.CatchUpStep?
    ensures var t := Apply(s, step);
            t.bursts == s.bursts && (t.catchUps == s.catchUps || t.catchUps == s.catchUps + multiset{Pending})
  {
    hide Relayed, Synced, Published;
    if step.RelayStep? {
      RelayLeavesResends(s, step.i, step.mode);
    } else if step.SyncStep? {
      SyncLeavesResends(s.(syncs := s.syncs - multiset{step.sync}), step.sync, step.mode);
    } else if step.Publish? {
      PublishKeepsFields(s, step.event);
    } else if step.PublishNotice? {
      PublishKeepsFields(s, step.notice);
    }
  }

  lemma RelayLeavesResends(s: System, i: nat, mode: Mode)
    requires Enabled(s, RelayStep(i, mode))
    ensures var t := Relayed(s, i, mode); t.bursts == s.bursts && t.catchUps == s.catchUps
  {
    hide RelayMoved;
  }

  lemma SyncLeavesResends(s: System, sync: Sync, mode: Mode)
    ensures var t := Synced(s, sync, mode); t.bursts == s.bursts && t.catchUps == s.catchUps
  {
  }

  lemma PendingKeepsApart(s: System, t: System)
    requires Apart(s) && t.bursts == s.bursts
    requires t.catchUps == s.catchUps || t.catchUps == s.catchUps + multiset{Pending}
    ensures Apart(t) && forall id :: Left(t, id) == Left(s, id)
  {
    assert forall c: CatchUp :: !c.Pending? ==> t.catchUps[c] == s.catchUps[c];
    assert forall c: CatchUp :: !c.Pending? ==> (c in t.catchUps <==> c in s.catchUps);
    forall id ensures Left(t, id) == Left(s, id) {
      if c :| c in s.catchUps && Carries(c, id) {
        LeftIs(s, c);
        LeftIs(t, c);
      }
    }
  }

  /** One resend goes on: the catch-up is replaced by its successor, or is over. */
  lemma SuccessorKeepsApart(s: System, t: System, c: CatchUp, d: CatchUp)
    requires Apart(s) && c in s.catchUps && !c.Pending? && t.bursts == s.bursts
    requires Carries(d, c.id) && (d.Burst? ==> d.next <= d.last)
    requires t.catchUps == s.catchUps - multiset{c} + multiset{d}
    ensures Apart(t) && Left(t, c.id) == Todo(d) && forall id :: id != c.id ==> Left(t, id) == Left(s, id)
  {
    assert forall e :: e in t.catchUps && Carries(e, c.id) ==> e == d;
    assert forall e :: !Carries(e, c.id) ==> t.catchUps[e] == s.catchUps[e];
    assert t.catchUps[d] == 1;
    LeftIs(t, d);
    forall id | id != c.id ensures Left(t, id) == Left(s, id) {
      if e :| e in s.catchUps && Carries(e, id) {
        LeftIs(s, e);
        LeftIs(t, e);
      }
    }
  }

  lemma OverKeepsApart(s: System, t: System, c: CatchUp)
    requires Apart(s) && c in s.catchUps && t.bursts == s.bursts && t.catchUps == s.catchUps - multiset{c}
    ensures Apart(t) && forall id :: (!Carries(c, id) || Todo(c) == []) ==> Left(t, id) == Left(s, id)
  {
    assert forall e :: e != c ==> t.catchUps[e] == s.catchUps[e];
    forall id | !Carries(c, id) || Todo(c) == [] ensures Left(t, id) == Left(s, id) {
      if Carries(c, id) {
        LeftIs(s, c);
        assert forall e :: e in t.catchUps ==> !Carries(e, id);
      } else if e :| e in s.catchUps && Carries(e, id) {
        LeftIs(s, e);
        LeftIs(t, e);
      }
    }
  }

  lemma NewKeepsApart(s: System, t: System, d: CatchUp)
    requires Apart(s) && Carries(d, s.bursts) && !d.Burst? && t.bursts == s.bursts + 1
    requires t.catchUps == s.catchUps + multiset{d}
    ensures Apart(t) && forall id: nat :: id < s.bursts ==> Left(t, id) == Left(s, id)
  {
    assert d !in s.catchUps;
    assert forall e :: e != d ==> t.catchUps[e] == s.catchUps[e];
    forall id: nat | id < s.bursts ensures Left(t, id) == Left(s, id) {
      if e :| e in s.catchUps && Carries(e, id) {
        LeftIs(s, e);
        LeftIs(t, e);
      }
    }
  }

  lemma ItemsFirst(first: nat, last: nat)
    requires first <= last
    ensures Items(first, last) == [Item(first)] + Items(first + 1, last)
  {
  }

  /** No resend of this number is still to read the window. */
  ghost predicate HasRead(s: System, id: nat) {
    id < s.bursts && forall c :: c in s.catchUps && Carries(c, id) ==> !c.Replaying?
  }

  lemma AnswerIsWhole(id: nat, sub: nat, hub: Subscriber, watermark: nat, acked: nat)
    requires Valid(hub) && acked < watermark <= hub.delivered
    ensures var d := Answer(id, sub, hub, watermark, acked); Carries(d, id) && (d.Burst? ==> d.next <= d.last)
  {
    if hub.window > 0 && !hub.closed {
      ReplayIsExact(hub, acked);
    }
  }

  /** What a catch-up step does to the catch-ups in flight. */
  lemma CatchUpMoves(s: System, c: CatchUp)
    requires Enabled(s, CatchUpStep(c))
    ensures var t := Apply(s, CatchUpStep(c));
            match c
            case Pending =>
              || (t.bursts == s.bursts && t.catchUps == s.catchUps - multiset{c})
              || (t.bursts == s.bursts + 1
                  && t.catchUps == s.catchUps - multiset{c}
                                   + multiset{Replaying(s.bursts, s.b.sub, s.subs[s.b.sub].hub.delivered, s.b.ackedSeq)})
            case Replaying(id, sub, watermark, acked) =>
              t.bursts == s.bursts
              && t.catchUps == s.catchUps - multiset{c} + multiset{Answer(id, sub, s.subs[sub].hub, watermark, acked)}
            case Burst(id, sub, next, last) =>
              t.bursts == s.bursts
              && t.catchUps == s.catchUps - multiset{c}
                               + multiset{if next < last then Burst(id, sub, next + 1, last) else Rearm(id)}
            case Resync(id, _, _) => t.bursts == s.bursts && t.catchUps == s.catchUps - multiset{c} + multiset{Rearm(id)}
            case Rearm(_) => t.bursts == s.bursts && t.catchUps == s.catchUps - multiset{c}
  {
    hide Answer;
  }

  lemma DecisionEmits(s: System, id: nat)
    requires Apart(s) && Enabled(s, CatchUpStep(Pending))
    ensures var t := Apply(s, CatchUpStep(Pending));
            Apart(t) && s.bursts <= t.bursts && (HasRead(s, id) ==> Left(s, id) == Left(t, id) && HasRead(t, id))
  {
    hide Apply;
    var t, r := Apply(s, CatchUpStep(Pending)), s.(catchUps := s.catchUps - multiset{Pending});
    CatchUpMoves(s, Pending);
    PendingGone(s, r);
    if t.bursts == s.bursts {
      PendingGone(s, t);
    } else {
      NewKeepsApart(r, t, Replaying(s.bursts, s.b.sub, s.subs[s.b.sub].hub.delivered, s.b.ackedSeq));
    }
  }

  /** What a catch-up in flight becomes. */
  function Successor(s: System, c: CatchUp): CatchUp
    requires Readable(s, c)
  {
    match c
    case Replaying(id, sub, watermark, acked) => Answer(id, sub, s.subs[sub].hub, watermark, acked)
    case Burst(id, sub, next, last) => if next < last then Burst(id, sub, next + 1, last) else Rearm(id)
    case Resync(id, _, _) => Rearm(id)
    case _ => c
  }

  lemma SuccessorEmits(s: System, c: CatchUp)
    requires Sound(s) && Apart(s) && c in s.catchUps && (c.Replaying? || c.Burst? || c.Resync?)
    ensures Readable(s, c)
    ensures var d := Successor(s, c);
            && Carries(d, c.id) && (d.Burst? ==> d.next <= d.last)
            && (!c.Replaying? ==> Todo(c) == Emitted(CatchUpStep(c), c.id) + Todo(d) && !d.Replaying?)
  {
    if c.Replaying? {
      AnswerIsWhole(c.id, c.sub, s.subs[c.sub].hub, c.watermark, c.acked);
    } else if c.Burst? {
      ItemsFirst(c.next, c.last);
      BurstLeaves(c.next, c.last, c.id);
    }
  }

  /** A catch-up step of a resend emits the first of what is left, or reads the window. */
  lemma CatchUpEmits(s: System, c: CatchUp, id: nat)
    requires Sound(s) && Apart(s) && Enabled(s, CatchUpStep(c))
    ensures var t := Apply(s, CatchUpStep(c));
            && Apart(t) && s.bursts <= t.bursts
            && (HasRead(s, id) ==> Left(s, id) == Emitted(CatchUpStep(c), id) + Left(t, id) && HasRead(t, id))
  {
    hide Apply, Sound, Apart, Answer, Left, Todo;
    var t := Apply(s, CatchUpStep(c));
    SameTodo(s, t, id);
    if c.Pending? {
      DecisionEmits(s, id);
    } else {
      CatchUpMoves(s, c);
      LeftIs(s, c);
      if c.Rearm? {
        OverKeepsApart(s, t, c);
        assert Todo(c) == [] by { RearmIsDone(c); }
      } else {
        SuccessorEmits(s, c);
        SuccessorKeepsApart(s, t, c, Successor(s, c));
      }
    }
  }

  lemma RearmIsDone(c: CatchUp)
    ensures c.Rearm? ==> Todo(c) == []
  {
  }

  lemma BurstLeaves(next: nat, last: nat, id: nat)
    ensures next >= last ==> Items(next + 1, last) == Todo(Rearm(id))
  {
  }

  lemma PendingGone(s: System, r: System)
    requires Apart(s) && r.bursts == s.bursts && r.catchUps == s.catchUps - multiset{Pending}
    ensures Apart(r) && forall id :: Left(r, id) == Left(s, id)
  {
    assert forall c: CatchUp :: !c.Pending? ==> r.catchUps[c] == s.catchUps[c];
    forall id ensures Left(r, id) == Left(s, id) {
      if c :| c in s.catchUps && Carries(c, id) {
        LeftIs(s, c);
        LeftIs(r, c);
      }
    }
  }

  lemma SameTodo(s: System, t: System, id: nat)
    ensures Left(s, id) == Left(t, id) ==> Left(s, id) == [] + Left(t, id)
  {
  }

  lemma StepEmits(s: System, step: Step, id: nat)
    requires Sound(s) && Apart(s) && Enabled(s, step)
    ensures var t := Apply(s, step);
            && Apart(t) && s.bursts <= t.bursts
            && (HasRead(s, id) ==> Left(s, id) == Emitted(step, id) + Left(t, id) && HasRead(t, id))
  {
    hide Apply, Sound;
    if step.CatchUpStep? {
      CatchUpEmits(s, step.catchUp, id);
    } else {
      OtherStepsLeaveResends(s, step);
      PendingKeepsApart(s, Apply(s, step));
    }
  }

  lemma {:induction false} RunEmitsWhatIsLeft(s: System, steps: seq<Step>, id: nat)
    requires Sound(s) && Apart(s) && Executes(s, steps) && HasRead(s, id)
    ensures Left(s, id) == RunEmits(steps, id) + Left(Run(s, steps), id)
    decreases |steps|
  {
    hide Apply, Sound, Apart, HasRead, Emitted, Enabled;
    if steps != [] {
      var t := Apply(s, steps[0]);
      StepKeepsSound(s, steps[0]);
      StepEmits(s, steps[0], id);
      RunEmitsWhatIsLeft(t, steps[1..], id);
      Regroup(Emitted(steps[0], id), RunEmits(steps[1..], id), Left(Run(s, steps), id));
    }
  }

  lemma Regroup(a: seq<Emission>, b: seq<Emission>, c: seq<Emission>)
    ensures a + (b + c) == (a + b) + c
  {
  }

  lemma {:induction false} RunKeepsApart(s: System, steps: seq<Step>)
    requires Sound(s) && Apart(s) && Executes(s, steps)
    ensures Sound(Run(s, steps)) && Apart(Run(s, steps))
    decreases |steps|
  {
    hide Apply, Sound, Apart, Enabled;
    if steps != [] {
      StepKeepsSound(s, steps[0]);
      StepEmits(s, steps[0], 0);
      RunKeepsApart(Apply(s, steps[0]), steps[1..]);
    }
  }

  /** What a resend that reads the window now is to emit. */
  function Whole(hub: Subscriber, c: CatchUp): seq<Emission>
    requires c.Replaying?
  {
    if !hub.closed && hub.window > 0 && hub.delivered <= c.acked + hub.window then Items(c.acked + 1, hub.delivered)
    else [ResyncAt(c.watermark)]
  }

  lemma WholeIsTodo(s: System, c: CatchUp)
    requires Sound(s) && c in s.catchUps && c.Replaying?
    ensures c.sub < |s.subs|
    ensures var hub := s.subs[c.sub].hub; Todo(Answer(c.id, c.sub, hub, c.watermark, c.acked)) == Whole(hub, c)
  {
    hide Sound, Answer;
    ResendCarriesTheGap(s, c);
  }

  lemma ResendFrom(s: System, c: CatchUp, after: seq<Step>)
    requires Sound(s) && Apart(s) && c.Replaying? && Enabled(s, CatchUpStep(c)) && Executes(Apply(s, CatchUpStep(c)), after)
    ensures c.sub < |s.subs|
    ensures var t := Run(Apply(s, CatchUpStep(c)), after);
            && Sound(t) && Apart(t) && RunEmits(after, c.id) + Left(t, c.id) == Whole(s.subs[c.sub].hub, c)
  {
    hide Apply, Apart, Answer, Sound, Left, HasRead, Todo, Whole, RunEmits;
    var u := Apply(s, CatchUpStep(c));
    WholeIsTodo(s, c);
    StepKeepsSound(s, CatchUpStep(c));
    ReadingStarts(s, c);
    RunKeepsApart(u, after);
    RunEmitsWhatIsLeft(u, after, c.id);
  }

  /** The whole of a resend: in every run, whatever other steps come between and however many
      other resends, one that has read the window has emitted a beginning of the unacknowledged
      run up to the newest delivery it read, or of its one resync; and all of it, each once and
      in order, by the time it arms the timer again. */
  lemma ResendIsEmitted(view: string, mode: Mode, before: seq<Step>, c: CatchUp, after: seq<Step>)
    requires Executes(Start(view, mode), before)
    requires var s := Run(Start(view, mode), before);
             c.Replaying? && Enabled(s, CatchUpStep(c)) && Executes(Apply(s, CatchUpStep(c)), after)
    ensures var s := Run(Start(view, mode), before);
            var t, whole := Run(Apply(s, CatchUpStep(c)), after), Whole(s.subs[c.sub].hub, c);
            && RunEmits(after, c.id) <= whole
            && (Rearm(c.id) in t.catchUps ==> RunEmits(after, c.id) == whole)
            && (RunEmits(after, c.id) == whole || exists d :: d in t.catchUps && Carries(d, c.id) && !d.Rearm?)
  {
    hide Apply, Apart, Sound, Left, Whole, RunEmits, Enabled, Executes;
    var s := Run(Start(view, mode), before);
    StartIsSound(view, mode);
    StartIsApart(view, mode);
    RunKeepsApart(Start(view, mode), before);
    ResendFrom(s, c, after);
    var t := Run(Apply(s, CatchUpStep(c)), after);
    NothingLeft(t, c.id);
    NothingMore(RunEmits(after, c.id), Left(t, c.id));
  }

  lemma NothingMore(a: seq<Emission>, b: seq<Emission>)
    ensures a <= a + b && (b == [] ==> a + b == a)
  {
  }

  lemma StartIsApart(view: string, mode: Mode)
    ensures Apart(Start(view, mode))
  {
  }

  lemma ReadingStarts(s: System, c: CatchUp)
    requires Sound(s) && Apart(s) && c.Replaying? && Enabled(s, CatchUpStep(c))
    ensures var u := Apply(s, CatchUpStep(c));
            Apart(u) && HasRead(u, c.id) && Left(u, c.id) == Todo(Answer(c.id, c.sub, s.subs[c.sub].hub, c.watermark, c.acked))
  {
    var u, d := Apply(s, CatchUpStep(c)), Answer(c.id, c.sub, s.subs[c.sub].hub, c.watermark, c.acked);
    AnswerIsWhole(c.id, c.sub, s.subs[c.sub].hub, c.watermark, c.acked);
    SuccessorKeepsApart(s, u, c, d);
    assert d in u.catchUps && forall e :: e in u.catchUps && Carries(e, c.id) ==> e == d;
    AnswerIsNoReplay(c.id, c.sub, s.subs[c.sub].hub, c.watermark, c.acked);
  }

  lemma NothingLeft(t: System, id: nat)
    requires Apart(t)
    ensures Rearm(id) in t.catchUps || !(exists d :: d in t.catchUps && Carries(d, id)) ==> Left(t, id) == []
    ensures !(exists d :: d in t.catchUps && Carries(d, id) && !d.Rearm?) ==> Left(t, id) == []
  {
    if Rearm(id) in t.catchUps {
      LeftIs(t, Rearm(id));
    }
  }

  // ---- what a relay passes on ----

  /** The relay lets go of the event in its hands: it is superseded, or the event is a notice
      for the bridge itself. */
  predicate LetsGo(s: System, i: nat)
    requires i < |s.subs|
  {
    var r := s.subs[i].relay;
    r.Holding? && (!CurrentRelay(s.b, r.gen) || r.event.kind == ViewSessionChanged)
  }

  /** A relay step passes on what it holds and keeps the rest in line, unless it lets go of it. */
  lemma RelayStepPassesOn(s: System, i: nat, mode: Mode)
    requires Enabled(s, RelayStep(i, mode))
    ensures var sub, t := s.subs[i], Relayed(s, i, mode);
            && i < |t.subs| && t.subs[i].hub.window == sub.hub.window
            && Pipeline(t.subs[i]) == (if LetsGo(s, i) then sub.sent + Numbers(sub.hub.queue) else Pipeline(sub))
            && t.subs[i].sent == sub.sent + (if sub.relay.Cleared? then [sub.relay.event.deliverySeq] else [])
  {
    var sub := s.subs[i];
    if sub.relay.Arming? || (sub.relay.Aligning? && sub.relay.sync.SyncResubscribe?) {
      assert Pipeline(sub.(relay := Exited)) == Pipeline(sub);
      NothingHeld(sub);
    } else {
      RelayMovePassesOn(s, sub);
    }
  }

  lemma NothingHeld(sub: Subscription)
    ensures forall r :: Held(r) == Held(sub.relay) ==> Pipeline(sub.(relay := r)) == Pipeline(sub)
    ensures sub.sent + [] == sub.sent
  {
  }

  lemma RelayMovePassesOn(s: System, sub: Subscription)
    ensures var t, r := RelayMoved(s, sub), sub.relay;
            && t.hub.window == sub.hub.window
            && Pipeline(t) == (if r.Holding? && (!CurrentRelay(s.b, r.gen) || r.event.kind == ViewSessionChanged)
                               then sub.sent + Numbers(sub.hub.queue) else Pipeline(sub))
            && t.sent == sub.sent + (if r.Cleared? then [r.event.deliverySeq] else [])
  {
    var t, r := RelayMoved(s, sub), sub.relay;
    if r.Waiting? && sub.hub.queue != [] {
      assert Numbers(sub.hub.queue) == [sub.hub.queue[0].deliverySeq] + Numbers(sub.hub.queue[1..]);
      assert Pipeline(t) == Pipeline(sub);
    } else if r.Holding? && !t.relay.Cleared? {
      assert Pipeline(t) == sub.sent + Numbers(sub.hub.queue);
    } else {
      assert Pipeline(t) == Pipeline(sub);
    }
  }

  /** The relay alone goes on until it waits for the next event or has exited. */
  function Finishes(s: System, i: nat, mode: Mode, fuel: nat): System
    requires s.b.sub < |s.subs| && i < |s.subs|
    decreases fuel
  {
    if fuel == 0 || !Enabled(s, RelayStep(i, mode)) || s.subs[i].relay.Waiting? then s
    else
      var t := Relayed(s, i, mode);
      if t.b.sub < |t.subs| && i < |t.subs| then Finishes(t, i, mode, fuel - 1) else t
  }

  predicate IsNotice(e: Event) {
    e.kind == ViewSessionChanged
  }

  /** The event shows that the subscription is behind the view. */
  predicate Drifts(s: System, e: Event) {
    if IsNotice(e) then s.b.subscribedKey != s.view else e.session != "" && e.session != s.b.subscribedKey
  }

  lemma MovesTo(s: System, i: nat, mode: Mode, fuel: nat, sub: Subscription) returns (t: System)
    requires Enabled(s, RelayStep(i, mode)) && fuel > 0
    requires !s.subs[i].relay.Waiting? && !s.subs[i].relay.Arming?
    requires !(s.subs[i].relay.Aligning? && s.subs[i].relay.sync.SyncResubscribe?)
    requires sub == RelayMoved(s, s.subs[i])
    ensures t == s.(subs := s.subs[i := sub]) && Finishes(s, i, mode, fuel) == Finishes(t, i, mode, fuel - 1)
  {
    hide RelayMoved;
    t := Relayed(s, i, mode);
  }

  lemma AtRest(s: System, i: nat, mode: Mode, fuel: nat)
    requires s.b.sub < |s.subs| && i < |s.subs| && (s.subs[i].relay.Waiting? || s.subs[i].relay.Exited?)
    ensures Finishes(s, i, mode, fuel) == s
  {
  }

  lemma EndsAligned(s: System, i: nat, mode: Mode, g: nat)
    requires Enabled(s, RelayStep(i, mode)) && s.subs[i].relay == Aligning(g, SyncResubscribe) && s.b.running
    ensures var t := Finishes(s, i, mode, 2);
            Anew(s, t, mode) && t.subs[i] == s.subs[i].(relay := Exited)
  {
    hide Anew, Resubscribed, Finishes;
    var u := SetRelay(s, i, Exited);
    ResubscribedAnew(u, mode);
    AnewAlike(s, u, Resubscribed(u, mode), mode);
    ResubscribedKeeps(u, mode, i);
    OneMoreStep(s, i, mode, 1);
    AtRest(Resubscribed(u, mode), i, mode, 1);
  }

  lemma OneMoreStep(s: System, i: nat, mode: Mode, fuel: nat)
    requires Enabled(s, RelayStep(i, mode)) && !s.subs[i].relay.Waiting?
    requires var t := Relayed(s, i, mode); t.b.sub < |t.subs| && i < |t.subs|
    ensures Finishes(s, i, mode, fuel + 1) == Finishes(Relayed(s, i, mode), i, mode, fuel)
  {
    hide Relayed;
  }

  lemma ResubscribedKeeps(s: System, mode: Mode, i: nat)
    requires s.b.running && i < |s.subs|
    ensures var t := Resubscribed(s, mode); t.b.sub < |t.subs| && i < |t.subs| && t.subs[i] == s.subs[i]
  {
  }

  lemma EndsArmed(s: System, i: nat, mode: Mode, g: nat)
    requires Sound(s) && Enabled(s, RelayStep(i, mode)) && s.subs[i].relay == Arming(g) && s.b.running
    ensures var t := Finishes(s, i, mode, 2);
            && t.b == s.b.(resendTimer := t.b.resendTimer) && t.b.resendTimer.Some? && t.b.resendTimer.value in t.timers
            && t.subs == s.subs[i := s.subs[i].(relay := Waiting(g))]
  {
    hide Finishes, Valid;
    OneMoreStep(s, i, mode, 1);
    AtRest(Relayed(s, i, mode), i, mode, 1);
  }

  /** A current relay passes every event on but the notice for the bridge, and passes it on
      first, even if it ends the subscription: that is resubscribed to the view exactly when the
      event shows that it is behind. Otherwise the resend timer is armed and the relay waits
      for the next event; after a notice it exits. */
  lemma RelayHandlesExactly(s: System, i: nat, mode: Mode)
    requires Sound(s) && Enabled(s, RelayStep(i, mode)) && s.subs[i].relay.Holding?
    requires CurrentRelay(s.b, s.subs[i].relay.gen)
    ensures var sub, e, t := s.subs[i], s.subs[i].relay.event, Finishes(s, i, mode, 5);
            && i < |t.subs| && t.subs[i].hub == sub.hub
            && t.subs[i].sent == sub.sent + (if IsNotice(e) then [] else [e.deliverySeq])
            && (Drifts(s, e) ==> Anew(s, t, mode) && t.subs[i].relay.Exited?)
            && (!Drifts(s, e) && IsNotice(e) ==> t.b == s.b && t.subs[i].relay.Exited?)
            && (!Drifts(s, e) && !IsNotice(e) ==>
                  t.b == s.b.(resendTimer := t.b.resendTimer) && t.b.resendTimer.Some? && t.subs[i].relay.Waiting?)
  {
    hide Finishes, Anew;
    var sub, e := s.subs[i], s.subs[i].relay.event;
    if IsNotice(e) {
      NoticeHandled(s, i, mode);
    } else {
      EventHandled(s, i, mode);
    }
  }

  lemma NoticeHandled(s: System, i: nat, mode: Mode)
    requires Sound(s) && Enabled(s, RelayStep(i, mode)) && s.subs[i].relay.Holding?
    requires CurrentRelay(s.b, s.subs[i].relay.gen) && IsNotice(s.subs[i].relay.event)
    ensures var sub, t := s.subs[i], Finishes(s, i, mode, 5);
            && i < |t.subs| && t.subs[i] == sub.(relay := Exited)
            && if s.b.subscribedKey != s.view then Anew(s, t, mode) else t.b == s.b
  {
    hide Finishes, Anew, Relayed, Valid;
    var sub, g := s.subs[i], s.subs[i].relay.gen;
    var a := MovesTo(s, i, mode, 5, sub.(relay := Aligning(g, SyncBegin)));
    var b := MovesTo(a, i, mode, 4, sub.(relay := Aligning(g, SyncCompare(s.b.subscribedKey))));
    if s.b.subscribedKey == s.view {
      var c := MovesTo(b, i, mode, 3, sub.(relay := Exited));
      AtRest(c, i, mode, 2);
    } else {
      var c := MovesTo(b, i, mode, 3, sub.(relay := Aligning(g, SyncResubscribe)));
      EndsAligned(c, i, mode, g);
      AnewAlike(s, c, Finishes(c, i, mode, 2), mode);
    }
  }

  lemma EventHandled(s: System, i: nat, mode: Mode)
    requires Sound(s) && Enabled(s, RelayStep(i, mode)) && s.subs[i].relay.Holding?
    requires CurrentRelay(s.b, s.subs[i].relay.gen) && !IsNotice(s.subs[i].relay.event)
    ensures var sub, e, t := s.subs[i], s.subs[i].relay.event, Finishes(s, i, mode, 5);
            && i < |t.subs| && t.subs[i].hub == sub.hub && t.subs[i].sent == sub.sent + [e.deliverySeq]
            && if Drifts(s, e) then Anew(s, t, mode) && t.subs[i].relay.Exited?
               else t.b == s.b.(resendTimer := t.b.resendTimer) && t.b.resendTimer.Some? && t.subs[i].relay.Waiting?
  {
    hide Finishes, Anew, Relayed, Valid, Sound;
    var sub, g, e := s.subs[i], s.subs[i].relay.gen, s.subs[i].relay.event;
    var a := MovesTo(s, i, mode, 5, sub.(relay := Cleared(g, e)));
    var next := RelayMoved(a, a.subs[i]);
    var b := MovesTo(a, i, mode, 4, next);
    assert next.relay == Sent(g, e) && next.hub == sub.hub && next.sent == sub.sent + [e.deliverySeq];
    var last := RelayMoved(b, b.subs[i]);
    var c := MovesTo(b, i, mode, 3, last);
    if Drifts(s, e) {
      EndsAligned(c, i, mode, g);
      AnewAlike(s, c, Finishes(c, i, mode, 2), mode);
    } else {
      SoundAside(s, c, i);
      EndsArmed(c, i, mode, g);
    }
  }

  /** What a relay emits or is about to do has no part in the rules of the rest. */
  lemma SoundAside(s: System, t: System, i: nat)
    requires Sound(s) && i < |s.subs| == |t.subs| && t == s.(subs := s.subs[i := t.subs[i]])
    requires t.subs[i].hub == s.subs[i].hub && Gen(t.subs[i].relay) == Gen(s.subs[i].relay)
    ensures Sound(t)
  {
    hide Valid;
  }

  lemma ReceiveFeeds(sub: Subscription, view: string, e: Event)
    requires sub.hub.window > 0
    ensures var t := Receive(sub, view, e); t.hub.window == sub.hub.window && Pipeline(sub) <= Pipeline(t)
  {
    var t := Receive(sub, view, e);
    if t.hub.queue == sub.hub.queue {
      assert Pipeline(t) == Pipeline(sub);
    } else {
      assert Pipeline(t) == Pipeline(sub) + [sub.hub.delivered + 1];
    }
  }

  lemma LocalFeeds(s: System, step: Step, i: nat)
    requires Enabled(s, step) && i < |s.subs| && Local(step)
    ensures var t := Apply(s, step);
            i < |t.subs| && t.subs[i].hub.window == s.subs[i].hub.window && Pipeline(s.subs[i]) == Pipeline(t.subs[i])
  {
    hide Numbers;
    assert Held(Exited) == [];
  }

  lemma WorkFeeds(s: System, step: Step, i: nat)
    requires Enabled(s, step) && i < |s.subs| && s.subs[i].hub.window > 0 && !Local(step)
    requires !(step.RelayStep? && step.i == i)
    ensures var t := Apply(s, step);
            i < |t.subs| && t.subs[i].hub.window == s.subs[i].hub.window && Pipeline(s.subs[i]) <= Pipeline(t.subs[i])
  {
    hide Relayed, Synced, CaughtUp, Receive, Pipeline;
    match step
    case Publish(event) => ReceiveFeeds(s.subs[i], s.view, event);
    case PublishNotice(notice) => ReceiveFeeds(s.subs[i], s.view, notice);
    case RelayStep(j, mode) => OtherRelayLeaves(s, j, mode, i);
    case SyncStep(sync, mode) => SyncLeaves(s.(syncs := s.syncs - multiset{sync}), sync, mode, i);
    case CatchUpStep(c) => CatchUpLeaves(s.(catchUps := s.catchUps - multiset{c}), c);
    case _ =>
  }

  /** Every other step leaves the line as it is, or adds to its end. */
  lemma OtherStepsFeed(s: System, step: Step, i: nat)
    requires Enabled(s, step) && i < |s.subs| && s.subs[i].hub.window > 0
    requires !(step.RelayStep? && step.i == i)
    ensures var t := Apply(s, step);
            i < |t.subs| && t.subs[i].hub.window == s.subs[i].hub.window && Pipeline(s.subs[i]) <= Pipeline(t.subs[i])
  {
    hide Apply, Pipeline;
    if Local(step) {
      LocalFeeds(s, step, i);
    } else {
      WorkFeeds(s, step, i);
    }
  }

  lemma OtherRelayLeaves(s: System, j: nat, mode: Mode, i: nat)
    requires Enabled(s, RelayStep(j, mode)) && i < |s.subs| && j != i
    ensures var t := Relayed(s, j, mode); i < |t.subs| && t.subs[i] == s.subs[i]
  {
    hide RelayMoved;
  }

  lemma SyncLeaves(s: System, sync: Sync, mode: Mode, i: nat)
    requires i < |s.subs|
    ensures var t := Synced(s, sync, mode); i < |t.subs| && t.subs[i] == s.subs[i]
  {
  }

  lemma CatchUpLeaves(s: System, c: CatchUp)
    requires s.b.sub < |s.subs| && Readable(s, c)
    ensures CaughtUp(s, c).subs == s.subs
  {
    hide Answer;
  }

  /** At no point of the run does this relay let go of an event. */
  predicate HoldsOn(s: System, steps: seq<Step>, i: nat)
    requires Executes(s, steps) && i < |s.subs|
    decreases |steps|
  {
    steps == [] ||
    (!(steps[0].RelayStep? && steps[0].i == i && LetsGo(s, i))
     && i < |Apply(s, steps[0]).subs| && HoldsOn(Apply(s, steps[0]), steps[1..], i))
  }

  lemma {:induction false} LineIsKept(s: System, steps: seq<Step>, i: nat)
    requires Executes(s, steps) && i < |s.subs| && s.subs[i].hub.window > 0 && HoldsOn(s, steps, i)
    ensures i < |Run(s, steps).subs| && Pipeline(s.subs[i]) <= Pipeline(Run(s, steps).subs[i])
    decreases |steps|
  {
    hide Apply, Pipeline, LetsGo;
    if steps != [] {
      if steps[0].RelayStep? && steps[0].i == i {
        RelayStepPassesOn(s, i, steps[0].mode);
        RelayIsApplied(s, i, steps[0].mode);
      } else {
        OtherStepsFeed(s, steps[0], i);
      }
      LineIsKept(Apply(s, steps[0]), steps[1..], i);
    }
  }

  lemma RelayIsApplied(s: System, i: nat, mode: Mode)
    requires Enabled(s, RelayStep(i, mode))
    ensures Apply(s, RelayStep(i, mode)) == Relayed(s, i, mode)
  {
  }

  /** What once stood in the channel of a subscription with a window has been emitted, in that
      order, when its relay comes to an empty channel: unless it let go of an event on the way. */
  lemma EverythingQueuedIsEmitted(s: System, steps: seq<Step>, i: nat)
    requires Executes(s, steps) && i < |s.subs| && s.subs[i].hub.window > 0 && HoldsOn(s, steps, i)
    ensures i < |Run(s, steps).subs|
    ensures var t := Run(s, steps).subs[i];
            t.relay.Waiting? && t.hub.queue == [] ==> Pipeline(s.subs[i]) <= t.sent
  {
    hide Run, Executes, HoldsOn;
    LineIsKept(s, steps, i);
    var t := Run(s, steps).subs[i];
    if t.relay.Waiting? && t.hub.queue == [] {
      assert Pipeline(t) == t.sent;
    }
  }
}
