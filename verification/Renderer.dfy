/** The renderer's side of the event link within one subscription: deduplication, gap
    replay, snapshots and the applied watermark (gui/frontend/dist/protocol.js and
    client-state.js). The link may lose, repeat and reorder. */
module Renderer {
  datatype Option<T> = None | Some(value: T)

  /** What a published event asks of the reducer: extend the view, extend it with a payload
      that cannot be applied, or reload the snapshot. */
  datatype Effect = Increment | Unusable | Rebuild

  /** Revision 0 marks an event that no snapshot is to swallow, such as chat.changed; it
      replaces the state of its topic. */
  datatype Delivery = Delivery(effect: Effect, revision: nat, topic: nat)

  /** Taken when `upTo` deliveries had been made. It shows every numbered event up to its
      revision, some of which may not have been delivered yet. */
  datatype Snapshot = Snapshot(upTo: nat, revision: nat)

  /** What is on view: the snapshot accepted last, and on top of it the deliveries `applied`,
      in that order. These and `base.upTo` are history. */
  datatype Client = Client(base: Snapshot, applied: seq<nat>, revision: nat, lastSeq: nat)

  /** `log` is everything the subscription has delivered, event n at log[n - 1]; `revision` is
      the application's counter. */
  datatype World = World(log: seq<Delivery>, revision: nat, window: nat, client: Client)

  datatype Outcome = Ignored | Applied(client: Client) | Refresh(mark: nat) | Gap(mark: nat)

  function Max(a: nat, b: nat): nat {
    if a < b then b else a
  }

  // ---- one event ----

  function ApplyEvent(log: seq<Delivery>, c: Client, seqNo: nat): Outcome
    requires seqNo <= |log|
  {
    if seqNo == 0 || (c.lastSeq != 0 && seqNo > c.lastSeq + 1) then Gap(Max(c.lastSeq, seqNo))
    else if c.lastSeq != 0 && seqNo <= c.lastSeq then Ignored
    else
      var d := log[seqNo - 1];
      if d.effect.Rebuild? then Refresh(seqNo)
      else if d.revision != 0 && d.revision <= c.base.revision then Applied(c.(lastSeq := seqNo))
      else if d.effect.Unusable? then Refresh(seqNo)
      else Applied(c.(applied := c.applied + [seqNo], revision := Max(c.revision, d.revision), lastSeq := seqNo))
  }

  function Accepted(c: Client, s: Snapshot): Client {
    if s.revision < c.revision then c else Client(s, [], s.revision, c.lastSeq)
  }

  /** A reload yields a snapshot, or fails and leaves the view. */
  function Refreshed(c: Client, reload: Option<Snapshot>): Client {
    match reload case None => c case Some(s) => Accepted(c, s)
  }

  predicate Replayable(log: seq<Delivery>, window: nat, c: Client) {
    0 < window && 0 < |log| <= c.lastSeq + window
  }

  datatype Catchup = Catchup(client: Client, complete: bool)

  /** The replayed deliveries next.. applied one by one, up to the first that is not incremental. */
  function Replayed(log: seq<Delivery>, c: Client, next: nat): Catchup
    requires 0 < next
    decreases |log| - next
  {
    if next > |log| then Catchup(c, true)
    else match ApplyEvent(log, c, next)
      case Ignored => Replayed(log, c, next + 1)
      case Applied(d) => Replayed(log, d, next + 1)
      case _ => Catchup(c, false)
  }

  function Replay(log: seq<Delivery>, window: nat, c: Client, answered: bool): Catchup {
    if answered && Replayable(log, window, c) then Replayed(log, c, c.lastSeq + 1) else Catchup(c, false)
  }

  function Handled(log: seq<Delivery>, window: nat, c: Client, seqNo: nat, answered: bool, reload: Option<Snapshot>): Client
    requires seqNo <= |log|
  {
    match ApplyEvent(log, c, seqNo)
    case Ignored => c
    case Applied(d) => d
    case Refresh(mark) => Refreshed(c.(lastSeq := mark), reload)
    case Gap(mark) =>
      var replay := Replay(log, window, c, answered);
      if replay.complete then replay.client else Refreshed(replay.client.(lastSeq := mark), reload)
  }

  function Resynced(c: Client, mark: nat, reload: Option<Snapshot>): Client {
    Refreshed(c.(lastSeq := mark), reload)
  }

  function Rebased(c: Client, s: Snapshot): Client {
    if s.revision < c.revision then c else Accepted(c, s).(lastSeq := 0)
  }

  // ---- the client object ----

  class ClientState {
    var floorRevision: nat
    var revision: nat
    var lastSeq: nat
    /** History: what the accepted snapshot shows, and what was applied on top of it. */
    ghost var floor: nat
    ghost var applied: seq<nat>

    ghost function View(): Client
      reads this
    {
      Client(Snapshot(floor, floorRevision), applied, revision, lastSeq)
    }

    constructor (s: Snapshot)
      ensures View() == Client(s, [], s.revision, 0)
    {
      floorRevision, revision, lastSeq, floor, applied := s.revision, s.revision, 0, s.upTo, [];
    }

    method AcceptSnapshot(s: Snapshot) returns (accepted: bool)
      modifies this
      ensures View() == Accepted(old(View()), s) && accepted == (old(revision) <= s.revision)
    {
      if s.revision < revision {
        return false;
      }
      floorRevision, revision, floor, applied := s.revision, s.revision, s.upTo, [];
      accepted := true;
    }

    method AcceptBaseline(s: Snapshot)
      modifies this
      ensures View() == Rebased(old(View()), s)
    {
      var accepted := AcceptSnapshot(s);
      if accepted {
        lastSeq := 0;
      }
    }

    /** applyEvent, as far as it moves the revision and the mark. */
    method Apply(log: seq<Delivery>, seqNo: nat) returns (refresh: bool, gap: bool)
      requires seqNo <= |log|
      modifies this
      ensures match ApplyEvent(log, old(View()), seqNo)
              case Ignored => !refresh && !gap && View() == old(View())
              case Applied(c) => !refresh && !gap && View() == c
              case Refresh(_) => refresh && !gap && View() == old(View())
              case Gap(_) => !refresh && gap && View() == old(View())
    {
      refresh, gap := false, false;
      if seqNo == 0 || (lastSeq != 0 && seqNo > lastSeq + 1) {
        gap := true;
        return;
      }
      if lastSeq != 0 && seqNo <= lastSeq {
        return;
      }
      var d := log[seqNo - 1];
      if d.effect.Rebuild? {
        refresh := true;
      } else if d.revision != 0 && d.revision <= floorRevision {
        lastSeq := seqNo;
      } else if d.effect.Unusable? {
        refresh := true;
      } else {
        applied := applied + [seqNo];
        if revision < d.revision {
          revision := d.revision;
        }
        lastSeq := seqNo;
      }
    }

    method ReplayGap(log: seq<Delivery>, window: nat, answered: bool) returns (complete: bool)
      modifies this
      ensures Catchup(View(), complete) == Replay(log, window, old(View()), answered)
    {
      if !answered || window == 0 || |log| == 0 || |log| > lastSeq + window {
        return false;
      }
      ghost var start := View();
      var next := lastSeq + 1;
      while next <= |log|
        invariant 0 < next
        invariant Replayed(log, start, start.lastSeq + 1) == Replayed(log, View(), next)
        decreases |log| + 1 - next
      {
        var refresh, gap := Apply(log, next);
        if refresh || gap {
          return false;
        }
        next := next + 1;
      }
      complete := true;
    }

    method HandleEvent(log: seq<Delivery>, window: nat, seqNo: nat, answered: bool, reload: Option<Snapshot>)
      requires seqNo <= |log|
      modifies this
      ensures View() == Handled(log, window, old(View()), seqNo, answered, reload)
    {
      var mark := if lastSeq < seqNo then seqNo else lastSeq;
      var refresh, gap := Apply(log, seqNo);
      if gap {
        var complete := ReplayGap(log, window, answered);
        if complete {
          return;
        }
      }
      if refresh || gap {
        lastSeq := mark;
        if reload.Some? {
          var _ := AcceptSnapshot(reload.value);
        }
      }
    }
  }

  // ---- what a snapshot and a client look like ----

  /** The snapshot shows this delivery: a numbered one by its revision, another if it had been
      made when the snapshot was taken. */
  predicate Shows(log: seq<Delivery>, base: Snapshot, m: nat) {
    0 < m <= |log| && if log[m - 1].revision == 0 then m <= base.upTo else log[m - 1].revision <= base.revision
  }

  /** Of the deliveries 1..n those the snapshot does not show. */
  function Missing(log: seq<Delivery>, base: Snapshot, n: nat): seq<nat> {
    if n == 0 then [] else Missing(log, base, n - 1) + if Shows(log, base, n) then [] else [n]
  }

  /** The snapshot belongs to this log: what had been delivered by then is not newer. */
  predicate Belongs(log: seq<Delivery>, base: Snapshot) {
    base.upTo <= |log| && forall m :: 0 <= m < base.upTo ==> log[m].revision <= base.revision
  }

  predicate Fits(log: seq<Delivery>, revision: nat, c: Client) {
    && c.lastSeq <= |log| && Belongs(log, c.base)
    && c.revision <= revision && c.base.revision <= revision
    && forall m :: 0 <= m < |log| ==> log[m].revision <= revision
  }

  predicate Within(w: World) {
    Fits(w.log, w.revision, w.client)
  }

  /** What a successful reload brings: everything published by then. */
  function Fresh(w: World): Snapshot {
    Snapshot(|w.log|, w.revision)
  }

  function Reload(w: World, loaded: bool): Option<Snapshot> {
    if loaded then Some(Fresh(w)) else None
  }

  /** On top of the snapshot lie the deliveries up to the mark that it does not show, each once
      and in order. */
  predicate Faithful(log: seq<Delivery>, c: Client) {
    c.applied == Missing(log, c.base, c.lastSeq)
  }

  predicate Increasing(view: seq<nat>) {
    forall i, j :: 0 <= i < j < |view| ==> view[i] < view[j]
  }

  lemma {:induction false} MissingExactly(log: seq<Delivery>, base: Snapshot, n: nat)
    ensures var missing := Missing(log, base, n);
            && Increasing(missing) && (forall m: nat :: m in missing <==> 0 < m <= n && !Shows(log, base, m))
            && forall i :: 0 <= i < |missing| ==> 0 < missing[i] <= n
    decreases n
  {
    if n > 0 {
      MissingExactly(log, base, n - 1);
    }
  }

  /** Every delivery up to the mark is on view, in the snapshot or, once and in order, on top of
      it; none is in both. */
  lemma FaithfulShowsAllOnce(log: seq<Delivery>, c: Client)
    requires Faithful(log, c)
    ensures Increasing(c.applied) && forall m: nat :: m in c.applied <==> 0 < m <= c.lastSeq && !Shows(log, c.base, m)
  {
    MissingExactly(log, c.base, c.lastSeq);
  }

  /** A delivery between the two marks is not in the snapshot. */
  predicate Uncovered(log: seq<Delivery>, base: Snapshot, a: nat, b: nat) {
    exists m: nat :: (if a < b then a else b) < m <= Max(a, b) && !Shows(log, base, m)
  }

  lemma {:induction false} MissingBetween(log: seq<Delivery>, base: Snapshot, a: nat, b: nat)
    requires a <= b
    ensures if Uncovered(log, base, a, b) then |Missing(log, base, a)| < |Missing(log, base, b)|
            else Missing(log, base, a) == Missing(log, base, b)
    decreases b
  {
    if a < b {
      MissingBetween(log, base, a, b - 1);
      if m: nat :| a < m <= b - 1 && !Shows(log, base, m) {
        assert Uncovered(log, base, a, b);
      }
    }
  }

  lemma ReloadFits(w: World, c: Client)
    requires Fits(w.log, w.revision, c)
    ensures var d := Refreshed(c, Some(Fresh(w)));
            Fits(w.log, w.revision, d) && d == Client(Fresh(w), [], w.revision, c.lastSeq) && Faithful(w.log, d)
  {
    NothingMissing(w.log, Fresh(w), c.lastSeq);
  }

  lemma NothingMissing(log: seq<Delivery>, base: Snapshot, n: nat)
    requires forall m: nat :: 0 < m <= n ==> Shows(log, base, m)
    ensures Missing(log, base, n) == []
  {
    MissingBetween(log, base, 0, n);
  }

  // ---- what an event does ----

  /** The event is in the snapshot by its revision. */
  predicate InSnapshot(log: seq<Delivery>, base: Snapshot, n: nat) {
    0 < n <= |log| && log[n - 1].revision != 0 && log[n - 1].revision <= base.revision
  }

  /** No increment: only a fresh snapshot can show what it did. */
  predicate NeedsSnapshot(log: seq<Delivery>, base: Snapshot, n: nat) {
    0 < n <= |log| && (log[n - 1].effect.Rebuild? || (log[n - 1].effect.Unusable? && !InSnapshot(log, base, n)))
  }

  /** The next event, or the first of a subscription. */
  predicate InLine(c: Client, n: nat) {
    0 < n && (c.lastSeq == 0 || n == c.lastSeq + 1)
  }

  /** Events are missing before this one. */
  predicate Jumps(c: Client, n: nat) {
    n == 0 || (c.lastSeq != 0 && n > c.lastSeq + 1)
  }

  /** How far a replay from `from` gets: up to the first event that needs a snapshot. */
  function Reach(log: seq<Delivery>, base: Snapshot, from: nat): nat
    requires from <= |log|
    decreases |log| - from
  {
    if from < |log| && !NeedsSnapshot(log, base, from + 1) then Reach(log, base, from + 1) else from
  }

  lemma {:induction false} ReachExactly(log: seq<Delivery>, base: Snapshot, from: nat)
    requires from <= |log|
    ensures var to := Reach(log, base, from);
            && from <= to <= |log| && (to < |log| ==> NeedsSnapshot(log, base, to + 1))
            && forall n: nat :: from < n <= to ==> !NeedsSnapshot(log, base, n)
    decreases |log| - from
  {
    if from < |log| && !NeedsSnapshot(log, base, from + 1) {
      ReachExactly(log, base, from + 1);
    }
  }

  /** The deliveries a+1..b that are not in the snapshot by their revision, and the greatest
      revision among them. */
  function Fresher(log: seq<Delivery>, base: Snapshot, a: nat, b: nat): seq<nat>
    requires a <= b
  {
    if a == b then [] else Fresher(log, base, a, b - 1) + if InSnapshot(log, base, b) then [] else [b]
  }

  function Newest(log: seq<Delivery>, base: Snapshot, revision: nat, a: nat, b: nat): nat
    requires a <= b <= |log|
  {
    if a == b then revision
    else
      var before := Newest(log, base, revision, a, b - 1);
      if InSnapshot(log, base, b) then before else Max(before, log[b - 1].revision)
  }

  /** What a client looks like after the deliveries up to b have been applied to it. */
  function Advanced(log: seq<Delivery>, c: Client, b: nat): Client
    requires c.lastSeq <= b <= |log|
  {
    Client(c.base, c.applied + Fresher(log, c.base, c.lastSeq, b), Newest(log, c.base, c.revision, c.lastSeq, b), b)
  }

  lemma {:induction false} AdvancesTwice(log: seq<Delivery>, c: Client, a: nat, b: nat)
    requires c.lastSeq <= a <= b <= |log|
    ensures Advanced(log, Advanced(log, c, a), b) == Advanced(log, c, b)
    decreases b - a
  {
    var first := Fresher(log, c.base, c.lastSeq, a);
    if a < b {
      var last := if InSnapshot(log, c.base, b) then [] else [b];
      AdvancesTwice(log, c, a, b - 1);
      Regroup(c.applied + first, Fresher(log, c.base, a, b - 1), last);
      Regroup(c.applied, Fresher(log, c.base, c.lastSeq, b - 1), last);
    } else {
      assert c.applied + first + [] == c.applied + first;
    }
  }

  lemma Regroup(a: seq<nat>, b: seq<nat>, c: seq<nat>)
    ensures a + (b + c) == (a + b) + c
  {
  }

  lemma AdvancesOne(log: seq<Delivery>, c: Client)
    requires c.lastSeq < |log|
    ensures var n := c.lastSeq + 1;
            Advanced(log, c, n) == if InSnapshot(log, c.base, n) then c.(lastSeq := n)
                                   else c.(applied := c.applied + [n], revision := Max(c.revision, log[n - 1].revision), lastSeq := n)
  {
    var n := c.lastSeq + 1;
    assert Fresher(log, c.base, n - 1, n - 1) == [] && Newest(log, c.base, c.revision, n - 1, n - 1) == c.revision;
    assert Fresher(log, c.base, n - 1, n) == if InSnapshot(log, c.base, n) then [] else [n];
    assert c.applied + [] == c.applied;
  }

  /** A replay applies everything up to the first event that needs a snapshot, and is complete
      exactly when there is none. */
  lemma {:induction false} ReplayedExactly(log: seq<Delivery>, c: Client)
    requires c.lastSeq <= |log|
    ensures var r := Replayed(log, c, c.lastSeq + 1); var to := Reach(log, c.base, c.lastSeq);
            c.lastSeq <= to <= |log| && r.client == Advanced(log, c, to) && (r.complete <==> to == |log|)
    decreases |log| - c.lastSeq
  {
    hide Fresher, Newest;
    ReachExactly(log, c.base, c.lastSeq);
    if c.lastSeq < |log| && !NeedsSnapshot(log, c.base, c.lastSeq + 1) {
      var d := Advanced(log, c, c.lastSeq + 1);
      AdvancesOne(log, c);
      assert ApplyEvent(log, c, c.lastSeq + 1) == Applied(d);
      ReplayedExactly(log, d);
      AdvancesTwice(log, c, c.lastSeq + 1, Reach(log, c.base, c.lastSeq));
    } else {
      NothingAdvanced(log, c);
    }
  }

  lemma NothingAdvanced(log: seq<Delivery>, c: Client)
    requires c.lastSeq <= |log|
    ensures Advanced(log, c, c.lastSeq) == c
  {
    assert c.applied + [] == c.applied;
  }

  /** An increment in line that the snapshot does not show by its revision is applied at once,
      whether the host answers and a snapshot can be loaded or not; one that it shows only moves
      the mark. */
  lemma InLineIsApplied(log: seq<Delivery>, window: nat, c: Client, n: nat, answered: bool, reload: Option<Snapshot>)
    requires n <= |log| && InLine(c, n) && !NeedsSnapshot(log, c.base, n)
    ensures Handled(log, window, c, n, answered, reload)
         == if InSnapshot(log, c.base, n) then c.(lastSeq := n)
            else c.(applied := c.applied + [n], revision := Max(c.revision, log[n - 1].revision), lastSeq := n)
  {
  }

  /** One in line that needs a snapshot moves the mark, loaded or not; one seen before changes
      nothing. */
  lemma OthersExactly(log: seq<Delivery>, window: nat, c: Client, n: nat, answered: bool, reload: Option<Snapshot>)
    requires n <= |log|
    ensures InLine(c, n) && NeedsSnapshot(log, c.base, n) ==>
              Handled(log, window, c, n, answered, reload)
              == match reload
                 case Some(s) => if s.revision >= c.revision then Client(s, [], s.revision, n) else c.(lastSeq := n)
                 case None => c.(lastSeq := n)
    ensures !InLine(c, n) && !Jumps(c, n) ==> Handled(log, window, c, n, answered, reload) == c
  {
  }

  /** The replay brings everything that has been delivered. */
  predicate Replays(log: seq<Delivery>, window: nat, c: Client, answered: bool) {
    answered && c.lastSeq <= |log| && 0 < window && 0 < |log| <= c.lastSeq + window && Reach(log, c.base, c.lastSeq) == |log|
  }

  /** What is applied of a replay that is asked for. */
  function Reached(log: seq<Delivery>, window: nat, c: Client, answered: bool): nat {
    if answered && c.lastSeq <= |log| && 0 < window && 0 < |log| <= c.lastSeq + window
    then Reach(log, c.base, c.lastSeq) else c.lastSeq
  }

  /** An event after a hole is answered by a replay, and by a reload at its number, on top of
      what could be replayed, where that does not bring everything. */
  lemma JumpIsFilled(log: seq<Delivery>, window: nat, c: Client, n: nat, answered: bool, reload: Option<Snapshot>)
    requires n <= |log| && c.lastSeq <= |log| && Jumps(c, n)
    ensures c.lastSeq <= Reached(log, window, c, answered) <= |log|
    ensures var d := Advanced(log, c, Reached(log, window, c, answered));
            && (Replays(log, window, c, answered) ==> Handled(log, window, c, n, answered, reload) == d)
            && (!Replays(log, window, c, answered) ==>
                  Handled(log, window, c, n, answered, reload) == Refreshed(d.(lastSeq := Max(c.lastSeq, n)), reload))
  {
    ReplayedExactly(log, c);
    NothingAdvanced(log, c);
  }

  /** A snapshot is asked for exactly when the event in line needs one, or one jumps and the
      replay is unanswered, not covered by the window, or interrupted by an event that needs one. */
  lemma ReloadsExactly(log: seq<Delivery>, window: nat, c: Client, n: nat, answered: bool)
    requires n <= |log| && c.lastSeq <= |log|
    ensures (exists a, b :: Handled(log, window, c, n, answered, a) != Handled(log, window, c, n, answered, b))
       <==> (InLine(c, n) && NeedsSnapshot(log, c.base, n)) || (Jumps(c, n) && !Replays(log, window, c, answered))
  {
    var reached := Reached(log, window, c, answered);
    if Jumps(c, n) {
      JumpIsFilled(log, window, c, n, answered, None);
      var newer := Snapshot(c.base.upTo + 1, Advanced(log, c, reached).revision);
      forall reload { JumpIsFilled(log, window, c, n, answered, reload); }
      assert !Replays(log, window, c, answered) ==>
               Handled(log, window, c, n, answered, None).base != Handled(log, window, c, n, answered, Some(newer)).base;
    } else if InLine(c, n) && NeedsSnapshot(log, c.base, n) {
      var newer := Snapshot(c.base.upTo + 1, c.revision);
      assert Handled(log, window, c, n, answered, None).base != Handled(log, window, c, n, answered, Some(newer)).base;
    }
  }

  // ---- exactly once ----

  /** An unnumbered increment the snapshot shows already: the reducer applies it all the same. */
  predicate Overlays(log: seq<Delivery>, base: Snapshot, seqNo: nat) {
    0 < seqNo <= base.upTo && seqNo <= |log| && log[seqNo - 1].effect.Increment? && log[seqNo - 1].revision == 0
  }

  /** Something the snapshot shows has been applied on top of it. */
  predicate Doubled(log: seq<Delivery>, c: Client) {
    exists i :: 0 <= i < |c.applied| && Shows(log, c.base, c.applied[i])
  }

  lemma DoubledIsUnfaithful(log: seq<Delivery>, c: Client, n: nat)
    requires Doubled(log, c)
    ensures c.applied != Missing(log, c.base, n)
  {
    MissingExactly(log, c.base, n);
    var i :| 0 <= i < |c.applied| && Shows(log, c.base, c.applied[i]);
    assert c.applied[i] in c.applied;
  }

  /** The next delivery in line never opens a hole. */
  lemma NextIsFaithful(log: seq<Delivery>, revision: nat, c: Client)
    requires Fits(log, revision, c) && c.lastSeq < |log| && ApplyEvent(log, c, c.lastSeq + 1).Applied?
    ensures var d := ApplyEvent(log, c, c.lastSeq + 1).client;
            && Fits(log, revision, d) && d.base == c.base && d.lastSeq == c.lastSeq + 1
            && (Doubled(log, c) ==> Doubled(log, d))
            && (Faithful(log, c) ==> if Overlays(log, c.base, c.lastSeq + 1) then Doubled(log, d) else Faithful(log, d))
  {
    var d := ApplyEvent(log, c, c.lastSeq + 1).client;
    if Doubled(log, c) {
      var i :| 0 <= i < |c.applied| && Shows(log, c.base, c.applied[i]);
      assert d.applied[i] == c.applied[i];
    }
    if Overlays(log, c.base, c.lastSeq + 1) {
      assert d.applied[|c.applied|] == c.lastSeq + 1;
    }
  }

  /** Which deliveries a replay that reaches `reached` applies a second time. */
  predicate ReplayOverlays(log: seq<Delivery>, c: Client, reached: nat) {
    exists m :: c.lastSeq < m <= reached && Overlays(log, c.base, m)
  }

  lemma {:induction false} ReplayAdvances(log: seq<Delivery>, revision: nat, c: Client)
    requires Fits(log, revision, c)
    ensures var r := Replayed(log, c, c.lastSeq + 1);
            && Fits(log, revision, r.client) && r.client.base == c.base
            && c.lastSeq <= r.client.lastSeq && (r.complete ==> r.client.lastSeq == |log|)
            && (Doubled(log, c) ==> Doubled(log, r.client))
    decreases |log| - c.lastSeq
  {
    hide Doubled;
    if c.lastSeq < |log| && ApplyEvent(log, c, c.lastSeq + 1).Applied? {
      NextIsFaithful(log, revision, c);
      ReplayAdvances(log, revision, ApplyEvent(log, c, c.lastSeq + 1).client);
    }
  }

  /** A replay from an exact view leaves an exact view, or one that shows a delivery twice. */
  lemma {:induction false} ReplayIsFaithful(log: seq<Delivery>, revision: nat, c: Client)
    requires Fits(log, revision, c) && Faithful(log, c)
    ensures var r := Replayed(log, c, c.lastSeq + 1).client;
            if ReplayOverlays(log, c, r.lastSeq) then Doubled(log, r) && !Faithful(log, r) else Faithful(log, r)
    decreases |log| - c.lastSeq
  {
    hide Doubled, Fits, Missing;
    ReplayAdvances(log, revision, c);
    if c.lastSeq < |log| && ApplyEvent(log, c, c.lastSeq + 1).Applied? {
      var d := ApplyEvent(log, c, c.lastSeq + 1).client;
      NextIsFaithful(log, revision, c);
      ReplayAdvances(log, revision, d);
      var r := Replayed(log, d, d.lastSeq + 1).client;
      if Overlays(log, c.base, c.lastSeq + 1) {
        assert ReplayOverlays(log, c, r.lastSeq);
        DoubledIsUnfaithful(log, r, r.lastSeq);
      } else {
        ReplayIsFaithful(log, revision, d);
        assert ReplayOverlays(log, c, r.lastSeq) <==> ReplayOverlays(log, d, r.lastSeq);
      }
    }
  }

  /** The first event of all is accepted although some before it are not in the snapshot. */
  predicate OpensHole(w: World, seqNo: nat)
    requires seqNo <= |w.log|
  {
    w.client.lastSeq == 0 && seqNo > 0 && !NeedsSnapshot(w.log, w.client.base, seqNo)
    && Uncovered(w.log, w.client.base, 0, seqNo - 1)
  }

  /** A reload fails after the mark has been moved over what the snapshot does not show. */
  predicate FailsReload(w: World, seqNo: nat, answered: bool, loaded: bool)
    requires seqNo <= |w.log|
  {
    var c := w.client;
    !loaded &&
    ((InLine(c, seqNo) && NeedsSnapshot(w.log, c.base, seqNo) && Uncovered(w.log, c.base, c.lastSeq, seqNo))
     || (Jumps(c, seqNo) && !Replays(w.log, w.window, c, answered)
         && Uncovered(w.log, c.base, Reached(w.log, w.window, c, answered), Max(c.lastSeq, seqNo))))
  }

  /** An unnumbered increment that the snapshot shows is applied over it, directly or by a
      replay that no reload follows. */
  predicate AppliesAgain(w: World, seqNo: nat, answered: bool, loaded: bool)
    requires seqNo <= |w.log|
  {
    var c := w.client;
    (InLine(c, seqNo) && Overlays(w.log, c.base, seqNo))
    || (Jumps(c, seqNo) && (Replays(w.log, w.window, c, answered) || !loaded)
        && ReplayOverlays(w.log, c, Reached(w.log, w.window, c, answered)))
  }

  lemma MarkMoved(log: seq<Delivery>, c: Client, mark: nat)
    requires Faithful(log, c)
    ensures Faithful(log, c.(lastSeq := mark)) <==> !Uncovered(log, c.base, c.lastSeq, mark)
  {
    if c.lastSeq <= mark {
      MissingBetween(log, c.base, c.lastSeq, mark);
    } else {
      MissingBetween(log, c.base, mark, c.lastSeq);
      assert Uncovered(log, c.base, c.lastSeq, mark) <==> Uncovered(log, c.base, mark, c.lastSeq);
    }
  }

  lemma ReloadIsFaithful(w: World, c: Client, mark: nat, loaded: bool)
    requires Fits(w.log, w.revision, c) && (Faithful(w.log, c) || Doubled(w.log, c)) && mark <= |w.log|
    ensures var d := Refreshed(c.(lastSeq := mark), Reload(w, loaded));
            && Fits(w.log, w.revision, d)
            && (Faithful(w.log, d) <==> loaded || (Faithful(w.log, c) && !Uncovered(w.log, c.base, c.lastSeq, mark)))
  {
    hide Missing, Doubled;
    if loaded {
      ReloadFits(w, c.(lastSeq := mark));
    } else if Faithful(w.log, c) {
      MarkMoved(w.log, c, mark);
    } else {
      DoubledIsUnfaithful(w.log, c, mark);
    }
  }

  function HandledBy(w: World, seqNo: nat, answered: bool, loaded: bool): Client
    requires seqNo <= |w.log|
  {
    Handled(w.log, w.window, w.client, seqNo, answered, Reload(w, loaded))
  }

  lemma AppliedExactly(w: World, seqNo: nat)
    requires Within(w) && Faithful(w.log, w.client) && seqNo <= |w.log| && ApplyEvent(w.log, w.client, seqNo).Applied?
    ensures InLine(w.client, seqNo) && !NeedsSnapshot(w.log, w.client.base, seqNo)
    ensures var d := ApplyEvent(w.log, w.client, seqNo).client;
            && Fits(w.log, w.revision, d)
            && (Faithful(w.log, d) <==> !OpensHole(w, seqNo) && !Overlays(w.log, w.client.base, seqNo))
  {
    var c, d := w.client, ApplyEvent(w.log, w.client, seqNo).client;
    MissingBetween(w.log, c.base, c.lastSeq, seqNo - 1);
    if Overlays(w.log, c.base, seqNo) {
      assert d.applied[|c.applied|] == seqNo;
      DoubledIsUnfaithful(w.log, d, seqNo);
    }
  }

  lemma GapExactly(w: World, seqNo: nat, answered: bool, loaded: bool)
    requires Within(w) && Faithful(w.log, w.client) && seqNo <= |w.log| && ApplyEvent(w.log, w.client, seqNo).Gap?
    ensures Within(w.(client := HandledBy(w, seqNo, answered, loaded)))
    ensures Faithful(w.log, HandledBy(w, seqNo, answered, loaded))
       <==> !FailsReload(w, seqNo, answered, loaded) && !AppliesAgain(w, seqNo, answered, loaded)
  {
    hide Doubled, Overlays, Faithful, Uncovered, Fresher, Newest;
    var c, mark := w.client, ApplyEvent(w.log, w.client, seqNo).mark;
    ReplayedExactly(w.log, c);
    var replay := Replay(w.log, w.window, c, answered);
    if answered && Replayable(w.log, w.window, c) {
      ReplayAdvances(w.log, w.revision, c);
      ReplayIsFaithful(w.log, w.revision, c);
    } else {
      assert !ReplayOverlays(w.log, c, c.lastSeq);
    }
    if !replay.complete {
      ReloadIsFaithful(w, replay.client, mark, loaded);
    }
  }

  /** One handled event keeps the view exact unless it is accepted across a hole, its reload
      fails, or an unnumbered increment comes in again over a snapshot that shows it; those
      are the only three ways. */
  lemma HandledExactly(w: World, seqNo: nat, answered: bool, loaded: bool)
    requires Within(w) && Faithful(w.log, w.client) && seqNo <= |w.log|
    ensures Within(w.(client := HandledBy(w, seqNo, answered, loaded)))
    ensures Faithful(w.log, HandledBy(w, seqNo, answered, loaded))
       <==> && !OpensHole(w, seqNo) && !FailsReload(w, seqNo, answered, loaded)
            && !AppliesAgain(w, seqNo, answered, loaded)
  {
    hide Uncovered, Missing;
    match ApplyEvent(w.log, w.client, seqNo)
    case Ignored =>
    case Applied(_) => AppliedExactly(w, seqNo);
    case Refresh(mark) => ReloadIsFaithful(w, w.client, mark, loaded);
    case Gap(_) => GapExactly(w, seqNo, answered, loaded);
  }

  // ---- runs ----

  datatype Step =
    | Publish(event: Delivery, revision: nat)
    | Receive(seqNo: nat, answered: bool, loaded: bool)
    | ReceiveResync(mark: nat, loaded: bool)
    | ReceiveReady(snapshot: Snapshot)

  /** Anything ever published may arrive, at any time and any number of times. The counter
      only grows; events may be published in any order and after a snapshot that shows them. */
  predicate Possible(w: World, step: Step) {
    match step
    case Publish(event, revision) => w.revision <= revision && event.revision <= revision
    case Receive(seqNo, _, _) => seqNo <= |w.log|
    case ReceiveResync(mark, _) => mark <= |w.log|
    case ReceiveReady(s) => s.revision <= w.revision && Belongs(w.log, s)
  }

  function Next(w: World, step: Step): World
    requires Possible(w, step)
  {
    match step
    case Publish(event, revision) => w.(log := w.log + [event], revision := revision)
    case Receive(seqNo, answered, loaded) => w.(client := HandledBy(w, seqNo, answered, loaded))
    case ReceiveResync(mark, loaded) => w.(client := Resynced(w.client, mark, Reload(w, loaded)))
    case ReceiveReady(s) => w.(client := Rebased(w.client, s))
  }

  lemma {:induction false} NewestRises(log: seq<Delivery>, base: Snapshot, revision: nat, a: nat, b: nat)
    requires a <= b <= |log|
    ensures Newest(log, base, revision, a, b) >= revision
    decreases b
  {
    if a < b {
      NewestRises(log, base, revision, a, b - 1);
    }
  }

  /** The view never goes back to an older revision, whatever arrives and in whatever order; a
      greeting with an older snapshot is ignored, and any other starts the link over. */
  lemma RevisionNeverFalls(w: World, step: Step)
    requires Within(w) && Possible(w, step)
    ensures Next(w, step).client.revision >= w.client.revision
    ensures step.ReceiveReady? ==>
              var s := step.snapshot;
              Next(w, step).client == if s.revision < w.client.revision then w.client else Client(s, [], s.revision, 0)
  {
    var c := w.client;
    if step.Receive? && Jumps(c, step.seqNo) {
      var to := Reached(w.log, w.window, c, step.answered);
      JumpIsFilled(w.log, w.window, c, step.seqNo, step.answered, Reload(w, step.loaded));
      NewestRises(w.log, c.base, c.revision, c.lastSeq, to);
    }
  }

  predicate Tears(w: World, step: Step)
    requires Possible(w, step)
  {
    match step
    case Receive(seqNo, answered, loaded) =>
      OpensHole(w, seqNo) || FailsReload(w, seqNo, answered, loaded) || AppliesAgain(w, seqNo, answered, loaded)
    case ReceiveResync(mark, loaded) => !loaded && Uncovered(w.log, w.client.base, w.client.lastSeq, mark)
    case _ => false
  }

  lemma {:induction false} LogKeepsMissing(log: seq<Delivery>, d: Delivery, base: Snapshot, n: nat)
    requires n <= |log|
    ensures Missing(log + [d], base, n) == Missing(log, base, n)
    decreases n
  {
    if n > 0 {
      LogKeepsMissing(log, d, base, n - 1);
    }
  }

  lemma StepIsFaithful(w: World, step: Step)
    requires Within(w) && Faithful(w.log, w.client) && Possible(w, step)
    ensures Within(Next(w, step))
    ensures Faithful(Next(w, step).log, Next(w, step).client) <==> !Tears(w, step)
  {
    hide HandledBy, OpensHole, FailsReload, AppliesAgain, Uncovered;
    match step
    case Publish(event, _) => LogKeepsMissing(w.log, event, w.client.base, w.client.lastSeq);
    case Receive(seqNo, answered, loaded) => HandledExactly(w, seqNo, answered, loaded);
    case ReceiveResync(mark, loaded) => ReloadIsFaithful(w, w.client, mark, loaded);
    case ReceiveReady(_) =>
  }

  predicate Plays(w: World, steps: seq<Step>)
    decreases |steps|
  {
    steps == [] || (Possible(w, steps[0]) && !Tears(w, steps[0]) && Plays(Next(w, steps[0]), steps[1..]))
  }

  function Played(w: World, steps: seq<Step>): World
    requires Plays(w, steps)
    decreases |steps|
  {
    if steps == [] then w else Played(Next(w, steps[0]), steps[1..])
  }

  lemma {:induction false} RunIsFaithful(w: World, steps: seq<Step>)
    requires Within(w) && Faithful(w.log, w.client) && Plays(w, steps)
    ensures Within(Played(w, steps)) && Faithful(Played(w, steps).log, Played(w, steps).client)
    decreases |steps|
  {
    hide Within, Faithful, Next, Tears, Possible;
    if steps != [] {
      StepIsFaithful(w, steps[0]);
      RunIsFaithful(Next(w, steps[0]), steps[1..]);
    }
  }

  /** Over a link that loses, repeats and reorders at will, and as long as no step tears the
      view, every delivery up to the mark is on it once: in the snapshot or, in order, on top. */
  lemma ExactlyOnce(w: World, steps: seq<Step>)
    requires Within(w) && Faithful(w.log, w.client) && Plays(w, steps)
    ensures var t := Played(w, steps); var c := t.client;
            && c.lastSeq <= |t.log| && Increasing(c.applied)
            && forall m: nat :: m in c.applied <==> 0 < m <= c.lastSeq && !Shows(t.log, c.base, m)
  {
    RunIsFaithful(w, steps);
    FaithfulShowsAllOnce(Played(w, steps).log, Played(w, steps).client);
  }

  // ---- what holds in spite of repetitions ----

  predicate IsNumbered(log: seq<Delivery>, n: nat) {
    0 < n <= |log| && log[n - 1].revision != 0
  }

  /** An unnumbered event about this topic: it replaces the state it is about. */
  predicate IsAbout(log: seq<Delivery>, topic: nat, n: nat) {
    0 < n <= |log| && log[n - 1].revision == 0 && log[n - 1].topic == topic
  }

  /** The numbered deliveries of a view. */
  function Numbered(log: seq<Delivery>, view: seq<nat>): seq<nat> {
    if view == [] then []
    else Numbered(log, view[..|view| - 1]) + if IsNumbered(log, view[|view| - 1]) then [view[|view| - 1]] else []
  }

  /** The unnumbered delivery about a topic that a view shows last, 0 if there is none. */
  function State(log: seq<Delivery>, view: seq<nat>, topic: nat): nat {
    if view == [] then 0
    else if IsAbout(log, topic, view[|view| - 1]) then view[|view| - 1]
    else State(log, view[..|view| - 1], topic)
  }

  /** The deliveries 1..n in order. */
  function Upto(n: nat): (numbers: seq<nat>)
    ensures |numbers| == n && forall i :: 0 <= i < n ==> numbers[i] == i + 1
  {
    seq(n, i => i + 1)
  }

  /** What is on view, the snapshot's deliveries first. */
  function OnView(c: Client): seq<nat> {
    Upto(c.base.upTo) + c.applied
  }

  /** How far the deliveries have come, or the snapshot. */
  function Shown(c: Client): nat {
    Max(c.lastSeq, c.base.upTo)
  }

  predicate Known(log: seq<Delivery>, view: seq<nat>) {
    forall i :: 0 <= i < |view| ==> 0 < view[i] <= |log|
  }

  /** Of the numbered deliveries, what the snapshot does not show is on top of it once and in
      order; the state of the topic is the newest there is, or, while the deliveries a snapshot
      shows are still coming in, the newest of those that have come. */
  predicate Settled(log: seq<Delivery>, c: Client, topic: nat) {
    && Known(log, c.applied)
    && Numbered(log, c.applied) == Numbered(log, Missing(log, c.base, c.lastSeq))
    && (State(log, OnView(c), topic) == State(log, Upto(Shown(c)), topic)
        || (0 < c.lastSeq < c.base.upTo && State(log, OnView(c), topic) == State(log, Upto(c.lastSeq), topic)))
  }

  lemma OneMore(log: seq<Delivery>, view: seq<nat>, n: nat, topic: nat)
    ensures Numbered(log, view + [n]) == Numbered(log, view) + if IsNumbered(log, n) then [n] else []
    ensures State(log, view + [n], topic) == if IsAbout(log, topic, n) then n else State(log, view, topic)
  {
    assert (view + [n])[..|view|] == view;
  }

  lemma {:induction false} LogGrows(log: seq<Delivery>, d: Delivery, view: seq<nat>, topic: nat)
    requires Known(log, view)
    ensures Known(log + [d], view) && Numbered(log + [d], view) == Numbered(log, view)
    ensures State(log + [d], view, topic) == State(log, view, topic)
    decreases |view|
  {
    if view != [] {
      var n := view[|view| - 1];
      assert (log + [d])[n - 1] == log[n - 1];
      LogGrows(log, d, view[..|view| - 1], topic);
    }
  }

  /** One more delivery in line. */
  lemma UptoAdds(log: seq<Delivery>, n: nat, topic: nat)
    ensures State(log, Upto(n + 1), topic) == if IsAbout(log, topic, n + 1) then n + 1 else State(log, Upto(n), topic)
  {
    assert Upto(n + 1) == Upto(n) + [n + 1];
    OneMore(log, Upto(n), n + 1, topic);
  }

  lemma ViewAdds(log: seq<Delivery>, c: Client, n: nat, topic: nat)
    ensures State(log, OnView(c.(applied := c.applied + [n])), topic)
         == if IsAbout(log, topic, n) then n else State(log, OnView(c), topic)
    ensures Numbered(log, c.applied + [n]) == Numbered(log, c.applied) + if IsNumbered(log, n) then [n] else []
  {
    assert Upto(c.base.upTo) + (c.applied + [n]) == (Upto(c.base.upTo) + c.applied) + [n];
    OneMore(log, OnView(c), n, topic);
    OneMore(log, c.applied, n, topic);
  }

  /** Numbered deliveries do not change a state. */
  lemma {:induction false} StateOverNumbered(log: seq<Delivery>, a: nat, b: nat, topic: nat)
    requires a <= b && forall m: nat :: a < m <= b ==> IsNumbered(log, m)
    ensures State(log, Upto(b), topic) == State(log, Upto(a), topic)
    decreases b
  {
    if a < b {
      StateOverNumbered(log, a, b - 1, topic);
      UptoAdds(log, b - 1, topic);
      assert IsNumbered(log, b);
    }
  }

  lemma NothingAdded(view: seq<nat>)
    ensures view + [] == view
  {
  }

  lemma {:induction false} MissingState(log: seq<Delivery>, base: Snapshot, n: nat, topic: nat)
    requires Belongs(log, base) && n <= |log|
    ensures State(log, Upto(base.upTo) + Missing(log, base, n), topic) == State(log, Upto(Max(n, base.upTo)), topic)
    decreases n
  {
    hide Upto, State;
    var view := Upto(base.upTo);
    if n > 0 {
      var missing := Missing(log, base, n - 1);
      MissingState(log, base, n - 1, topic);
      UptoAdds(log, n - 1, topic);
      Regroup(view, missing, [n]);
      Regroup(view, missing, []);
      OneMore(log, view + missing, n, topic);
    }
    NothingAdded(view);
    NothingAdded(Missing(log, base, if n > 0 then n - 1 else 0));
  }

  lemma ExactIsSettled(log: seq<Delivery>, revision: nat, c: Client, topic: nat)
    requires Fits(log, revision, c) && Faithful(log, c)
    ensures Settled(log, c, topic)
  {
    MissingState(log, c.base, c.lastSeq, topic);
    MissingExactly(log, c.base, c.lastSeq);
  }

  /** The first event of all leaves nothing out. */
  predicate LeavesNothingOut(log: seq<Delivery>, c: Client, seqNo: nat) {
    c.lastSeq == 0 && seqNo > 0 ==> !Uncovered(log, c.base, 0, seqNo - 1)
  }

  lemma NumberedMissing(log: seq<Delivery>, c: Client, seqNo: nat)
    requires 0 < seqNo <= |log| && (c.lastSeq == seqNo - 1 || (c.lastSeq == 0 && LeavesNothingOut(log, c, seqNo)))
    ensures Numbered(log, Missing(log, c.base, seqNo))
         == Numbered(log, Missing(log, c.base, c.lastSeq)) + if IsNumbered(log, seqNo) && !Shows(log, c.base, seqNo) then [seqNo] else []
  {
    var missing := Missing(log, c.base, seqNo - 1);
    if c.lastSeq == 0 {
      MissingBetween(log, c.base, 0, seqNo - 1);
    }
    OneMore(log, missing, seqNo, 0);
    assert missing + [] == missing;
    assert Numbered(log, missing) + [] == Numbered(log, missing);
  }

  /** The state up to the delivery before an accepted one. */
  lemma StateBefore(log: seq<Delivery>, revision: nat, c: Client, seqNo: nat, topic: nat)
    requires Fits(log, revision, c) && 0 < seqNo <= |log| && (c.lastSeq == seqNo - 1 || (c.lastSeq == 0 && LeavesNothingOut(log, c, seqNo)))
    ensures seqNo - 1 >= c.base.upTo ==> State(log, Upto(seqNo - 1), topic) == State(log, Upto(Shown(c)), topic)
  {
    if c.lastSeq == 0 && seqNo - 1 >= c.base.upTo {
      forall m: nat | c.base.upTo < m <= seqNo - 1 ensures IsNumbered(log, m) {
        assert Shows(log, c.base, m);
      }
      StateOverNumbered(log, c.base.upTo, seqNo - 1, topic);
    }
  }

  lemma AppliedStaysSettled(log: seq<Delivery>, revision: nat, c: Client, seqNo: nat, topic: nat)
    requires Fits(log, revision, c) && Settled(log, c, topic) && seqNo <= |log| && ApplyEvent(log, c, seqNo).Applied?
    requires LeavesNothingOut(log, c, seqNo)
    ensures var d := ApplyEvent(log, c, seqNo).client; Fits(log, revision, d) && Settled(log, d, topic)
  {
    hide Numbered, State, Missing, LeavesNothingOut, OnView;
    var d := ApplyEvent(log, c, seqNo).client;
    UptoAdds(log, seqNo - 1, topic);
    ViewAdds(log, c, seqNo, topic);
    NumberedMissing(log, c, seqNo);
    StateBefore(log, revision, c, seqNo, topic);
    assert Numbered(log, c.applied) + [] == Numbered(log, c.applied);
    SameView(c, d);
  }

  lemma SameView(c: Client, d: Client)
    ensures c.base == d.base && c.applied == d.applied ==> OnView(c) == OnView(d)
    ensures forall n :: c.base == d.base && d.applied == c.applied + [n] ==> OnView(d) == OnView(c.(applied := c.applied + [n]))
  {
  }

  lemma {:induction false} ReplayStaysSettled(log: seq<Delivery>, revision: nat, c: Client, topic: nat)
    requires Fits(log, revision, c) && Settled(log, c, topic)
    ensures var r := Replayed(log, c, c.lastSeq + 1).client; Fits(log, revision, r) && Settled(log, r, topic)
    decreases |log| - c.lastSeq
  {
    hide Settled, Fits;
    if c.lastSeq < |log| && ApplyEvent(log, c, c.lastSeq + 1).Applied? {
      AppliedStaysSettled(log, revision, c, c.lastSeq + 1, topic);
      ReplayStaysSettled(log, revision, ApplyEvent(log, c, c.lastSeq + 1).client, topic);
    }
  }

  lemma FreshIsSettled(w: World, c: Client, topic: nat)
    requires Fits(w.log, w.revision, c)
    ensures var d := Refreshed(c, Some(Fresh(w))); Settled(w.log, d, topic) && Fits(w.log, w.revision, d)
  {
    hide Faithful, Fits;
    ReloadFits(w, c);
    ExactIsSettled(w.log, w.revision, Refreshed(c, Some(Fresh(w))), topic);
  }

  lemma HandledStaysSettled(w: World, seqNo: nat, answered: bool, topic: nat)
    requires Within(w) && Settled(w.log, w.client, topic) && seqNo <= |w.log| && !OpensHole(w, seqNo)
    ensures var c := HandledBy(w, seqNo, answered, true); Fits(w.log, w.revision, c) && Settled(w.log, c, topic)
    ensures Max(seqNo, w.client.lastSeq) <= HandledBy(w, seqNo, answered, true).lastSeq
  {
    hide Settled, Accepted, Replayed, Uncovered, Doubled;
    var c := w.client;
    match ApplyEvent(w.log, c, seqNo)
    case Ignored =>
    case Applied(_) => AppliedStaysSettled(w.log, w.revision, c, seqNo, topic);
    case Refresh(mark) =>
      ReloadFits(w, c.(lastSeq := mark));
      FreshIsSettled(w, c.(lastSeq := mark), topic);
    case Gap(mark) =>
      var r := Replay(w.log, w.window, c, answered);
      ReplayAdvances(w.log, w.revision, c);
      ReplayStaysSettled(w.log, w.revision, c, topic);
      ReloadFits(w, r.client.(lastSeq := mark));
      FreshIsSettled(w, r.client.(lastSeq := mark), topic);
  }

  /** No event is accepted across a hole and no reload fails; repetitions are allowed. */
  predicate Smooth(w: World, step: Step)
    requires Possible(w, step)
  {
    match step
    case Receive(seqNo, _, loaded) => loaded && !OpensHole(w, seqNo)
    case ReceiveResync(_, loaded) => loaded
    case _ => true
  }

  lemma PublishStaysSettled(w: World, event: Delivery, revision: nat, topic: nat)
    requires Within(w) && Settled(w.log, w.client, topic) && Possible(w, Publish(event, revision))
    ensures var t := Next(w, Publish(event, revision)); Within(t) && Settled(t.log, t.client, topic)
  {
    hide State, Numbered, Missing;
    var c := w.client;
    LogKeepsMissing(w.log, event, c.base, c.lastSeq);
    MissingExactly(w.log, c.base, c.lastSeq);
    LogGrows(w.log, event, c.applied, topic);
    LogGrows(w.log, event, Missing(w.log, c.base, c.lastSeq), topic);
    LogGrows(w.log, event, OnView(c), topic);
    LogGrows(w.log, event, Upto(Shown(c)), topic);
    LogGrows(w.log, event, Upto(c.lastSeq), topic);
  }

  lemma StepStaysSettled(w: World, step: Step, topic: nat)
    requires Within(w) && Settled(w.log, w.client, topic) && Possible(w, step) && Smooth(w, step)
    ensures Within(Next(w, step)) && Settled(Next(w, step).log, Next(w, step).client, topic)
  {
    hide Settled, HandledBy;
    match step
    case Publish(event, revision) => PublishStaysSettled(w, event, revision, topic);
    case Receive(seqNo, answered, _) => HandledStaysSettled(w, seqNo, answered, topic);
    case ReceiveResync(mark, _) => FreshIsSettled(w, w.client.(lastSeq := mark), topic);
    case ReceiveReady(snapshot) =>
      if snapshot.revision >= w.client.revision {
        ExactIsSettled(w.log, w.revision, Rebased(w.client, snapshot), topic);
      }
  }

  predicate PlaysSmoothly(w: World, steps: seq<Step>)
    decreases |steps|
  {
    steps == [] || (Possible(w, steps[0]) && Smooth(w, steps[0]) && PlaysSmoothly(Next(w, steps[0]), steps[1..]))
  }

  function PlayedSmoothly(w: World, steps: seq<Step>): World
    requires PlaysSmoothly(w, steps)
    decreases |steps|
  {
    if steps == [] then w else PlayedSmoothly(Next(w, steps[0]), steps[1..])
  }

  lemma {:induction false} SmoothRunIsSettled(w: World, steps: seq<Step>, topic: nat)
    requires Within(w) && Settled(w.log, w.client, topic) && PlaysSmoothly(w, steps)
    ensures var t := PlayedSmoothly(w, steps); Within(t) && Settled(t.log, t.client, topic)
    decreases |steps|
  {
    hide Within, Settled, Next, Smooth, Possible;
    if steps != [] {
      StepStaysSettled(w, steps[0], topic);
      SmoothRunIsSettled(Next(w, steps[0]), steps[1..], topic);
    }
  }

  /** With unnumbered increments coming in again at will, the numbered ones are still shown
      once and in order, and as soon as the client has received what its snapshot shows, the
      state of every topic on view is the newest one. */
  lemma NewestStateIsShown(w: World, steps: seq<Step>, topic: nat)
    requires Within(w) && Faithful(w.log, w.client) && PlaysSmoothly(w, steps)
    ensures var t := PlayedSmoothly(w, steps); var c := t.client;
            && Numbered(t.log, c.applied) == Numbered(t.log, Missing(t.log, c.base, c.lastSeq))
            && (c.lastSeq >= c.base.upTo || c.lastSeq == 0 ==>
                  State(t.log, OnView(c), topic) == State(t.log, Upto(Shown(c)), topic))
  {
    ExactIsSettled(w.log, w.revision, w.client, topic);
    SmoothRunIsSettled(w, steps, topic);
  }

  // ---- one burst is enough ----

  function Received(w: World, from: nat, to: nat): World
    requires from <= to <= |w.log|
    decreases |w.log| - from
  {
    if from == to then w
    else Received(w.(client := HandledBy(w, from + 1, true, true)), from + 1, to)
  }

  /** Nothing the client has yet to receive is an unnumbered increment. */
  predicate AllNumbered(log: seq<Delivery>, from: nat) {
    forall m :: from <= m < |log| ==> !(log[m].effect.Increment? && log[m].revision == 0)
  }

  lemma NumberedIsExact(w: World, seqNo: nat)
    requires Within(w) && Faithful(w.log, w.client) && seqNo <= |w.log| && !OpensHole(w, seqNo)
    requires AllNumbered(w.log, w.client.lastSeq)
    ensures Faithful(w.log, HandledBy(w, seqNo, true, true))
  {
    hide Missing, Doubled, Uncovered;
    HandledExactly(w, seqNo, true, true);
  }

  /** A delivered burst acked+1..watermark brings the view and the acknowledgement up to the
      watermark, whatever the renderer had lost before; the view is then exact unless an
      unnumbered increment came in again. */
  lemma {:induction false} BurstCatchesUp(w: World, acked: nat, watermark: nat, topic: nat)
    requires Within(w) && Settled(w.log, w.client, topic) && acked <= watermark <= |w.log|
    requires w.client.lastSeq == 0 ==> acked <= w.client.base.upTo
    ensures var t := Received(w, acked, watermark); var c := t.client;
            && t.log == w.log && Settled(t.log, c, topic) && w.client.lastSeq <= c.lastSeq
            && watermark <= Max(c.lastSeq, acked)
            && (Faithful(w.log, w.client) && AllNumbered(w.log, w.client.lastSeq) ==> Faithful(t.log, c))
    decreases |w.log| - acked
  {
    hide HandledBy, Faithful, Upto, Settled, Fits, Uncovered;
    if acked < watermark {
      var next := w.(client := HandledBy(w, acked + 1, true, true));
      AckedIsInLine(w, acked);
      HandledStaysSettled(w, acked + 1, true, topic);
      if Faithful(w.log, w.client) && AllNumbered(w.log, w.client.lastSeq) {
        NumberedIsExact(w, acked + 1);
      }
      BurstCatchesUp(next, acked + 1, watermark, topic);
    }
  }

  lemma AckedIsInLine(w: World, acked: nat)
    requires Within(w) && acked < |w.log| && (w.client.lastSeq == 0 ==> acked <= w.client.base.upTo)
    ensures !OpensHole(w, acked + 1)
  {
  }

  /** A resync at the watermark makes the whole log visible, wherever the renderer stood and
      whatever it showed. */
  lemma ResyncCatchesUp(w: World, mark: nat)
    requires Within(w) && mark <= |w.log|
    ensures var c := Resynced(w.client, mark, Reload(w, true));
            Faithful(w.log, c) && OnView(c) == Upto(|w.log|) && c.lastSeq == mark
  {
    ReloadFits(w, w.client.(lastSeq := mark));
    assert Upto(|w.log|) + [] == Upto(|w.log|);
  }

  // ---- runs on which the view goes wrong ----

  const EMPTY := Snapshot(0, 0)
  const NUMBERED_LOG := [Delivery(Increment, 1, 0), Delivery(Increment, 2, 0)]

  /** The first delivery lost and the second accepted: the renderer acknowledges 2 without
      ever having shown 1, and ignores 1 when it is resent. */
  lemma FirstDeliveryLost() returns (w: World)
    ensures w == World(NUMBERED_LOG, 2, 1024, Client(EMPTY, [2], 2, 2))
    ensures w.client == HandledBy(World(NUMBERED_LOG, 2, 1024, Client(EMPTY, [], 0, 0)), 2, true, true)
    ensures Within(w) && !Faithful(w.log, w.client) && HandledBy(w, 1, true, true) == w.client
  {
    var before := World(NUMBERED_LOG, 2, 1024, Client(EMPTY, [], 0, 0));
    w := before.(client := HandledBy(before, 2, true, true));
    assert [] + [2 as nat] == [2];
    assert !Shows(w.log, EMPTY, 1);
    MissingExactly(w.log, EMPTY, 2);
  }

  /** Two changes of the chat state, both in the first snapshot. */
  function ChatShown(): World {
    World([Delivery(Increment, 0, 7), Delivery(Increment, 0, 7)], 0, 1024, Client(Snapshot(2, 0), [], 0, 0))
  }

  /** The greeting's snapshot shows both; the first, arriving after it, puts the older state
      back on view although no hole opens and no reload fails. */
  lemma OlderStateReturns() returns (c: Client)
    ensures Within(ChatShown()) && Faithful(ChatShown().log, ChatShown().client)
    ensures c == HandledBy(ChatShown(), 1, true, true) && OnView(c) == [1, 2, 1] && !Faithful(ChatShown().log, c)
    ensures !OpensHole(ChatShown(), 1) && !FailsReload(ChatShown(), 1, true, true)
    ensures State(ChatShown().log, OnView(c), 7) == 1 && State(ChatShown().log, OnView(ChatShown().client), 7) == 2
  {
    var w := ChatShown();
    c := HandledBy(w, 1, true, true);
    assert Upto(2) == [1, 2] && [1, 2] + [1 as nat] == [1, 2, 1] && [1, 2] + [] == [1 as nat, 2];
    assert Shows(w.log, w.client.base, 1);
  }
}
