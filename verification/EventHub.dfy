/** One subscription of the application event hub: delivery numbering, the
    bounded channel, and the bounded replay window (kernel/event/hub.go). */
module EventHub {
  datatype Kind = ViewSessionChanged | SessionsChanged | ResyncRequired | ExitRequested | Content

  /** `session` is the routing key; the empty string marks a process-level event. */
  datatype Event = Event(deliverySeq: nat, kind: Kind, session: string, payload: string)

  datatype Replay = NotCovered | Covered(events: seq<Event>)

  /** `delivered` is the last delivery number handed out; `queue` is the Go channel. */
  datatype Subscriber = Subscriber(
    delivered: nat, replay: seq<Event>, window: nat, queue: seq<Event>, buffer: nat, closed: bool)

  function Min(a: nat, b: nat): nat {
    if a < b then a else b
  }

  function Open(buffer: int, window: int): Subscriber {
    var room := if buffer < 1 then 1 else buffer;
    var kept := if window <= 0 then 0 else if window < room then room else window;
    Subscriber(0, [], kept, [], room, false)
  }

  function Stamped(s: Subscriber, e: Event): Event {
    e.(deliverySeq := s.delivered + 1)
  }

  function Delivery(s: Subscriber, e: Event): Subscriber {
    if s.closed then s else
    var item := Stamped(s, e);
    var counted := s.(delivered := s.delivered + 1);
    if s.window > 0 then
      counted.(replay := Newest(s.replay + [item], s.window),
               queue := if |s.queue| < s.buffer then s.queue + [item] else s.queue)
    else if |s.queue| < s.buffer then
      counted.(queue := s.queue + [item])
    else
      counted.(queue := [item.(kind := ResyncRequired, session := "", payload := "")])
  }

  function Newest(items: seq<Event>, limit: nat): seq<Event> {
    if |items| <= limit then items else items[|items| - limit..]
  }

  function Take(s: Subscriber): Subscriber
    requires s.queue != []
  {
    s.(queue := s.queue[1..])
  }

  function Close(s: Subscriber): Subscriber {
    s.(closed := true, replay := [])
  }

  /** The index of the first item numbered above `since`; |items| when there is none. */
  function FirstAfter(items: seq<Event>, since: nat): (k: nat)
    ensures k <= |items|
    ensures k < |items| ==> items[k].deliverySeq > since
    ensures forall i :: 0 <= i < k ==> items[i].deliverySeq <= since
  {
    if items == [] || items[0].deliverySeq > since then 0
    else 1 + FirstAfter(items[1..], since)
  }

  function ReplayOf(s: Subscriber, since: nat): Replay {
    if s.closed || s.window == 0 || s.replay == [] || s.replay[0].deliverySeq > since + 1 then NotCovered
    else Covered(s.replay[FirstAfter(s.replay, since)..])
  }

  ghost predicate Increasing(items: seq<Event>) {
    forall i, j :: 0 <= i < j < |items| ==> items[i].deliverySeq < items[j].deliverySeq
  }

  /** The items carry consecutive numbers ending at `last`. */
  ghost predicate Numbered(items: seq<Event>, last: nat) {
    && |items| <= last
    && forall i :: 0 <= i < |items| ==> items[i].deliverySeq == last - |items| + 1 + i
  }

  ghost predicate ValidQueue(s: Subscriber) {
    && s.buffer >= 1
    && |s.queue| <= s.buffer
    && Increasing(s.queue)
    && forall i :: 0 <= i < |s.queue| ==> 1 <= s.queue[i].deliverySeq <= s.delivered
  }

  ghost predicate ValidWindow(s: Subscriber) {
    s.window > 0 && !s.closed ==> |s.replay| == Min(s.delivered, s.window) && Numbered(s.replay, s.delivered)
  }

  /** What every sequence of deliveries, takes and closes keeps. */
  ghost predicate Valid(s: Subscriber) {
    ValidQueue(s) && ValidWindow(s)
  }

  lemma OpenIsValid(buffer: int, window: int)
    ensures Valid(Open(buffer, window))
    ensures var s := Open(buffer, window);
            && s.delivered == 0 && s.queue == [] && s.replay == [] && !s.closed
            && (s.buffer == buffer || (buffer < 1 && s.buffer == 1))
            && (s.window > 0 <==> window > 0)
            && (window > 0 ==> s.window >= window && s.window >= s.buffer && (s.window == window || s.window == s.buffer))
  {
  }

  lemma NewestIsNumbered(items: seq<Event>, last: nat, limit: nat)
    requires Numbered(items, last)
    ensures Numbered(Newest(items, limit), last)
    ensures |Newest(items, limit)| == Min(|items|, limit)
  {
  }

  lemma DeliverKeepsQueue(s: Subscriber, e: Event)
    requires ValidQueue(s)
    ensures ValidQueue(Delivery(s, e))
    ensures !s.closed ==> Delivery(s, e).queue != []
  {
  }

  lemma DeliverKeepsValid(s: Subscriber, e: Event)
    requires Valid(s)
    ensures Valid(Delivery(s, e))
    ensures !s.closed ==> Delivery(s, e).queue != [] && Delivery(s, e).delivered == s.delivered + 1
  {
    DeliverKeepsQueue(s, e);
    if !s.closed && s.window > 0 {
      NewestIsNumbered(s.replay + [Stamped(s, e)], s.delivered + 1, s.window);
    }
  }

  lemma TakeKeepsValid(s: Subscriber)
    requires Valid(s) && s.queue != []
    ensures Valid(Take(s))
    ensures forall i :: 0 <= i < |Take(s).queue| ==> s.queue[0].deliverySeq < Take(s).queue[i].deliverySeq
  {
  }

  lemma FirstAfterNumbered(items: seq<Event>, last: nat, since: nat)
    requires Numbered(items, last) && items != [] && items[0].deliverySeq <= since + 1 && since <= last
    ensures FirstAfter(items, since) == |items| - (last - since)
  {
    var k := FirstAfter(items, since);
    var expected := |items| - (last - since);
    assert expected < |items| ==> items[expected].deliverySeq == since + 1;
    assert expected > 0 ==> items[expected - 1].deliverySeq == since;
  }

  /** A replay is offered exactly when nothing after `since` has left the window, and
      then it is precisely the run since+1 .. delivered. */
  lemma ReplayIsExact(s: Subscriber, since: nat)
    requires Valid(s)
    ensures ReplayOf(s, since).Covered? <==> s.window > 0 && !s.closed && 0 < s.delivered <= since + s.window
    ensures ReplayOf(s, since).Covered? && since >= s.delivered ==> ReplayOf(s, since).events == []
    ensures ReplayOf(s, since).Covered? && since <= s.delivered ==>
              && |ReplayOf(s, since).events| == s.delivered - since <= |s.replay|
              && Numbered(ReplayOf(s, since).events, s.delivered)
              && ReplayOf(s, since).events == s.replay[|s.replay| - (s.delivered - since)..]
  {
    if s.window > 0 && !s.closed && s.replay != [] && s.replay[0].deliverySeq <= since + 1 {
      if since <= s.delivered {
        FirstAfterNumbered(s.replay, s.delivered, since);
      } else {
        assert forall i :: 0 <= i < |s.replay| ==> s.replay[i].deliverySeq <= since;
      }
    }
  }

  // ---- the whole history of one windowed subscription ----

  function DeliverAll(s: Subscriber, events: seq<Event>): Subscriber {
    if events == [] then s
    else Delivery(DeliverAll(s, events[..|events| - 1]), events[|events| - 1])
  }

  /** The unbounded log: every event that passed the filter, numbered from 1. */
  function Log(events: seq<Event>): (log: seq<Event>)
    ensures |log| == |events|
    ensures forall i :: 0 <= i < |log| ==> log[i] == events[i].(deliverySeq := i + 1)
  {
    seq(|events|, i requires 0 <= i < |events| => events[i].(deliverySeq := i + 1))
  }

  /** The bounded window is the newest part of the unbounded log, contents included. */
  lemma {:induction false} WindowIsNewestLog(buffer: int, window: int, events: seq<Event>)
    requires window > 0
    ensures Valid(DeliverAll(Open(buffer, window), events))
    ensures DeliverAll(Open(buffer, window), events).(replay := [], queue := [])
         == Open(buffer, window).(delivered := |events|)
    ensures DeliverAll(Open(buffer, window), events).replay == Newest(Log(events), Open(buffer, window).window)
  {
    if events == [] {
      OpenIsValid(buffer, window);
    } else {
      var n := |events| - 1;
      WindowIsNewestLog(buffer, window, events[..n]);
      var s := DeliverAll(Open(buffer, window), events[..n]);
      DeliverKeepsValid(s, events[n]);
      LogGrows(events);
      NewestOfNewest(Log(events[..n]), Stamped(s, events[n]), s.window);
    }
  }

  lemma LogGrows(events: seq<Event>)
    requires events != []
    ensures var n := |events| - 1; Log(events) == Log(events[..n]) + [events[n].(deliverySeq := n + 1)]
  {
  }

  lemma NewestOfNewest(items: seq<Event>, item: Event, limit: nat)
    requires limit > 0
    ensures Newest(Newest(items, limit) + [item], limit) == Newest(items + [item], limit)
  {
  }

  lemma HistoryShape(buffer: int, window: int, events: seq<Event>)
    requires window > 0
    ensures var s := DeliverAll(Open(buffer, window), events);
            && Valid(s) && s.window > 0 && !s.closed && s.delivered == |events|
            && s.replay == Newest(Log(events), s.window)
  {
    hide DeliverAll, Valid, Newest, Log;
    WindowIsNewestLog(buffer, window, events);
  }

  lemma NewestTail(items: seq<Event>, limit: nat, k: nat)
    requires k <= |Newest(items, limit)|
    ensures Newest(items, limit)[|Newest(items, limit)| - k..] == items[|items| - k..]
  {
  }

  /** A covered replay hands back the log itself, so a consumer that applies it misses
      nothing and repeats nothing. */
  lemma ReplayReturnsLog(buffer: int, window: int, events: seq<Event>, since: nat)
    requires window > 0 && since <= |events|
    ensures var replay := ReplayOf(DeliverAll(Open(buffer, window), events), since);
            replay.Covered? ==> replay.events == Log(events)[since..]
  {
    hide DeliverAll, Open, Numbered, Increasing, FirstAfter, Newest, ReplayOf, Valid, Log;
    var s := DeliverAll(Open(buffer, window), events);
    HistoryShape(buffer, window, events);
    assert |Log(events)| == |events|;
    if ReplayOf(s, since).Covered? {
      ReplayIsExact(s, since);
      NewestTail(Log(events), s.window, |events| - since);
    }
  }

  // ---- what the consumer hears ----

  /** A subscription in use: `heard` is what its consumer has taken, `log` what was delivered. */
  datatype Session = Session(s: Subscriber, heard: seq<Event>, log: seq<Event>)

  datatype Act = Hand(event: Event) | Hear

  function Acted(h: Session, a: Act): Session {
    match a
    case Hand(e) =>
      Session(Delivery(h.s, e), h.heard, h.log + [e.(deliverySeq := |h.log| + 1)])
    case Hear =>
      if h.s.queue == [] then h else Session(Take(h.s), h.heard + [h.s.queue[0]], h.log)
  }

  function AllActed(h: Session, acts: seq<Act>): Session {
    if acts == [] then h else Acted(AllActed(h, acts[..|acts| - 1]), acts[|acts| - 1])
  }

  /** Taken already, or waiting in the channel. */
  function Heard(h: Session): seq<Event> {
    h.heard + h.s.queue
  }

  /** The event as it was delivered. */
  predicate IsDelivery(h: Session, e: Event) {
    0 < e.deliverySeq <= |h.log| && h.log[e.deliverySeq - 1] == e
  }

  /** A request for a full reload, which every filter lets through, in the place of an event. */
  predicate IsReload(h: Session, e: Event) {
    0 < e.deliverySeq <= |h.log| && e.kind == ResyncRequired && e.session == "" && e.payload == ""
  }

  ghost predicate Covers(h: Session, e: Event, n: nat) {
    (e.deliverySeq == n && IsDelivery(h, e)) || (IsReload(h, e) && n <= e.deliverySeq)
  }

  ghost predicate Reaches(h: Session, n: nat) {
    exists e :: e in Heard(h) && Covers(h, e, n)
  }

  /** Nothing is made up, and without a window nothing is lost without a later reload. */
  ghost predicate Accounted(h: Session) {
    && h.s.delivered == |h.log| && !h.s.closed
    && (forall e :: e in Heard(h) ==> IsDelivery(h, e) || (h.s.window == 0 && IsReload(h, e)))
    && (h.s.window == 0 ==> forall n: nat :: 0 < n <= |h.log| ==> Reaches(h, n))
  }

  lemma TakingKeepsAccount(h: Session)
    requires Accounted(h)
    ensures Accounted(Acted(h, Hear))
  {
    var t := Acted(h, Hear);
    if h.s.queue != [] {
      assert h.s.queue == [h.s.queue[0]] + h.s.queue[1..];
      assert Heard(t) == Heard(h);
      assert forall e :: IsDelivery(t, e) == IsDelivery(h, e);
      forall n: nat | Reaches(h, n) ensures Reaches(t, n) {
        var e :| e in Heard(h) && Covers(h, e, n);
        assert Covers(t, e, n);
      }
    }
  }

  lemma DeliveryKeepsAccount(h: Session, e: Event)
    requires Accounted(h)
    ensures Accounted(Acted(h, Hand(e)))
  {
    var t, item := Acted(h, Hand(e)), e.(deliverySeq := |h.log| + 1);
    var before, after := Heard(h), Heard(t);
    assert forall x :: IsDelivery(h, x) ==> IsDelivery(t, x);
    assert IsDelivery(t, item);
    forall x | x in after ensures IsDelivery(t, x) || (t.s.window == 0 && IsReload(t, x)) {
      assert x in h.heard || x in t.s.queue;
      assert x in h.heard ==> x in before;
    }
    if h.s.window == 0 {
      var last := if |h.s.queue| < h.s.buffer then item else item.(kind := ResyncRequired, session := "", payload := "");
      assert last in t.s.queue && last in after;
      forall n: nat | 0 < n <= |t.log| ensures Reaches(t, n) {
        if n == |t.log| || |h.s.queue| >= h.s.buffer {
          assert Covers(t, last, n);
        } else {
          assert Reaches(h, n);
          var x :| x in before && Covers(h, x, n);
          assert x in after && Covers(t, x, n);
        }
      }
    }
  }

  /** Over any run of deliveries and takes the consumer hears nothing but what was delivered,
      each event as it was; and without a replay window every event it does not hear is made up
      for by a reload request of that number or a later one. */
  lemma {:induction false} NothingIsLostSilently(buffer: int, window: int, acts: seq<Act>)
    ensures Accounted(AllActed(Session(Open(buffer, window), [], []), acts))
    decreases |acts|
  {
    hide Accounted, Acted;
    var start := Session(Open(buffer, window), [], []);
    if acts == [] {
      StartIsAccounted(buffer, window);
    } else {
      NothingIsLostSilently(buffer, window, acts[..|acts| - 1]);
      var h := AllActed(start, acts[..|acts| - 1]);
      match acts[|acts| - 1]
      case Hand(e) => DeliveryKeepsAccount(h, e);
      case Hear => TakingKeepsAccount(h);
    }
  }

  lemma StartIsAccounted(buffer: int, window: int)
    ensures Accounted(Session(Open(buffer, window), [], []))
  {
  }

  /** An event waits in the channel if there is room. If not, with a window what waits stays
      as it is; without one it gives way to a single reload request of the event's number.
      The window takes every event, and a closed subscription none. */
  lemma ChannelExactly(s: Subscriber, e: Event)
    ensures var t, item := Delivery(s, e), e.(deliverySeq := s.delivered + 1);
            if s.closed then t == s
            else && t.delivered == s.delivered + 1
                 && t.queue == (if |s.queue| < s.buffer then s.queue + [item]
                                else if s.window > 0 then s.queue
                                else [Event(s.delivered + 1, ResyncRequired, "", "")])
                 && (s.window > 0 ==> t.replay != [] && t.replay[|t.replay| - 1] == item)
                 && (s.window == 0 ==> t.replay == s.replay)
  {
  }

  /** The subscriber as the hub keeps it: fields updated under its own lock. */
  class EventSubscriber {
    var delivered: nat
    var replay: seq<Event>
    const window: nat
    var queue: seq<Event>
    const buffer: nat
    var closed: bool

    ghost function View(): Subscriber
      reads this
    {
      Subscriber(delivered, replay, window, queue, buffer, closed)
    }

    constructor (buffer: int, window: int)
      ensures View() == Open(buffer, window)
    {
      var room := if buffer < 1 then 1 else buffer;
      this.buffer := room;
      this.window := if window <= 0 then 0 else if window < room then room else window;
      delivered, replay, queue, closed := 0, [], [], false;
    }

    method Deliver(event: Event)
      modifies this
      ensures View() == Delivery(old(View()), event)
    {
      if closed {
        return;
      }
      delivered := delivered + 1;
      var item := event.(deliverySeq := delivered);
      if window > 0 {
        replay := replay + [item];
        var over := |replay| - window;
        if over > 0 {
          replay := replay[over..];
        }
        if |queue| < buffer {
          queue := queue + [item];
        }
        return;
      }
      if |queue| < buffer {
        queue := queue + [item];
      } else {
        while queue != []
          invariant delivered == old(delivered) + 1 && replay == old(replay) && closed == old(closed)
          decreases |queue|
        {
          queue := queue[1..];
        }
        queue := [item.(kind := ResyncRequired, session := "", payload := "")];
      }
    }

    method ReplaySince(since: nat) returns (result: Replay)
      ensures result == ReplayOf(View(), since)
    {
      if closed || window == 0 || |replay| == 0 {
        return NotCovered;
      }
      if replay[0].deliverySeq > since + 1 {
        return NotCovered;
      }
      var start := |replay|;
      var index := 0;
      while index < |replay|
        invariant 0 <= index <= |replay| && start == |replay|
        invariant forall i :: 0 <= i < index ==> replay[i].deliverySeq <= since
      {
        if replay[index].deliverySeq > since {
          start := index;
          break;
        }
        index := index + 1;
      }
      result := Covered(replay[start..]);
    }
  }
}
