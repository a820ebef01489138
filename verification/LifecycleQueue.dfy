/** The durable input queue with its consumption records (store/queue_consume.go,
    store/lifecycle.go, store/session/session.go): which accepted inputs survive which
    interleavings of enqueue, consume, confirm, fail, crash and recover. */
module LifecycleQueue {
  datatype Option<T> = None | Some(value: T)

  datatype ItemState = Queued | Sending | Sent | Failed

  /** `carries` is history: the numbers of the accepted inputs whose content this holds. */
  datatype Item = Item(seqNo: nat, requestId: string, content: string, state: ItemState,
                       consumedBy: string, sendCount: nat, carries: seq<nat>)

  datatype Draft = Draft(content: string, returned: bool, carries: seq<nat>)

  /** The two files a lifecycle change writes, the draft's first. */
  datatype Files = Files(draft: Option<Draft>, queue: seq<Item>)

  /** `published` are the turns and requests the message log shows; `settled` the inputs that
      left the files because of that; `inputs` the texts accepted so far; `flight` the texts
      sent directly, which are in memory only until they are published or fail. */
  datatype World = World(files: Files, published: set<string>, settled: seq<nat>, inputs: seq<string>, flight: seq<Item>)

  // ---- the changes ----

  function NextSeq(queue: seq<Item>): (n: nat)
    ensures n > 0 && forall i :: 0 <= i < |queue| ==> queue[i].seqNo < n
    ensures n == 1 || exists i :: 0 <= i < |queue| && queue[i].seqNo == n - 1
  {
    if queue == [] then 1
    else
      var before := NextSeq(queue[..|queue| - 1]);
      if queue[|queue| - 1].seqNo >= before then queue[|queue| - 1].seqNo + 1 else before
  }

  function NewItem(queue: seq<Item>, requestId: string, content: string, carries: seq<nat>): Item {
    Item(NextSeq(queue), requestId, content, Queued, "", 0, carries)
  }

  predicate Known(queue: seq<Item>, requestId: string) {
    requestId != "" && exists i :: 0 <= i < |queue| && queue[i].requestId == requestId
  }

  predicate Waiting(item: Item) {
    item.state == Queued && item.consumedBy == ""
  }

  function Marked(queue: seq<Item>, turn: string): seq<Item> {
    if queue == [] then []
    else
      var item := queue[0];
      [if Waiting(item) then item.(state := Sent, consumedBy := turn, sendCount := item.sendCount + 1) else item]
      + Marked(queue[1..], turn)
  }

  /** The items that `turn` consumed, in order, and the others. */
  function Of(queue: seq<Item>, turn: string): seq<Item> {
    if queue == [] then [] else (if queue[0].consumedBy == turn then [queue[0]] else []) + Of(queue[1..], turn)
  }

  function Without(queue: seq<Item>, turn: string): seq<Item> {
    if queue == [] then [] else (if queue[0].consumedBy == turn then [] else [queue[0]]) + Without(queue[1..], turn)
  }

  const SEPARATOR := "\n---\n"

  function Joined(items: seq<Item>): string {
    if items == [] then ""
    else if |items| == 1 then items[0].content
    else Joined(items[..|items| - 1]) + SEPARATOR + items[|items| - 1].content
  }

  predicate IsSettled(item: Item, published: set<string>) {
    if item.consumedBy != "" then item.consumedBy in published
    else item.requestId != "" && item.requestId in published
  }

  predicate IsResent(item: Item) {
    item.consumedBy != "" || item.state == Sending || item.state == Sent
  }

  /** What recovery keeps of one item, hands back for resending, and drops as settled. */
  function KeptOf(item: Item, published: set<string>): seq<Item> {
    if IsSettled(item, published) then []
    else if IsResent(item) then [item.(state := Queued, consumedBy := "")]
    else [item]
  }

  function ResentOf(item: Item, published: set<string>): seq<Item> {
    if !IsSettled(item, published) && IsResent(item) then [item.(state := Queued, consumedBy := "")] else []
  }

  function SettledOf(item: Item, published: set<string>): seq<Item> {
    if IsSettled(item, published) then [item] else []
  }

  function Recovered(queue: seq<Item>, published: set<string>): seq<Item> {
    if queue == [] then [] else KeptOf(queue[0], published) + Recovered(queue[1..], published)
  }

  function Resent(queue: seq<Item>, published: set<string>): seq<Item> {
    if queue == [] then [] else ResentOf(queue[0], published) + Resent(queue[1..], published)
  }

  function Settling(queue: seq<Item>, published: set<string>): seq<Item> {
    if queue == [] then [] else SettledOf(queue[0], published) + Settling(queue[1..], published)
  }

  function CarriedBy(items: seq<Item>): seq<nat> {
    if items == [] then [] else items[0].carries + CarriedBy(items[1..])
  }

  function DraftCarries(draft: Option<Draft>): seq<nat> {
    match draft case None => [] case Some(d) => d.carries
  }

  predicate Keeps(draft: Option<Draft>, content: string) {
    draft.Some? && draft.value.content == content
  }

  /** The inputs a text taken over from the draft stands for: those of the draft if it is the
      same text, none if it is another. */
  function KeptCarries(draft: Option<Draft>, content: string): seq<nat> {
    if Keeps(draft, content) then DraftCarries(draft) else []
  }

  /** The inputs lost when this text takes the place of the draft's. */
  function Dropped(draft: Option<Draft>, content: string): seq<nat> {
    if Keeps(draft, content) then [] else DraftCarries(draft)
  }

  /** A submission that repeats the inputs in the draft, or else is a new input. */
  function SubmittedCarries(draft: Option<Draft>, content: string, next: nat): seq<nat> {
    if KeptCarries(draft, content) == [] then [next] else KeptCarries(draft, content)
  }

  datatype Change =
    | Enqueue(requestId: string, content: string)
    | SaveDraft(content: string)
    | SubmitDraft(content: string)
    | MarkConsumed(turn: string)
    | ConfirmConsumed(turn: string)
    | FailConsumed(turn: string)
    | SendFront
    | ConfirmFront(requestId: string)
    | FailFront
    | DirectSend(content: string)
    | FailDirect(k: nat, sent: Item)
    | Recover

  /** The front item may be sent: it is not being sent already. */
  predicate Sendable(queue: seq<Item>) {
    queue != [] && queue[0].state != Sending && queue[0].state != Sent
  }

  /** The front item was sent, under this request if both have a name. */
  predicate Confirms(queue: seq<Item>, requestId: string) {
    queue != [] && (queue[0].state == Sending || queue[0].state == Sent)
    && (requestId == "" || queue[0].requestId == "" || queue[0].requestId == requestId)
  }

  function SentFront(item: Item): Item {
    item.(state := Sending, sendCount := item.sendCount + 1)
  }

  /** A text on its way to the message log that no file holds. */
  function InFlight(content: string, carries: seq<nat>): Item {
    Item(0, "", content, Sending, "", 1, carries)
  }

  /** The new files, or the old ones where the code returns without writing. `next` numbers
      the input the change accepts, if it accepts one. */
  function Changed(f: Files, published: set<string>, next: nat, c: Change): Files {
    match c
    case Enqueue(requestId, content) =>
      if Known(f.queue, requestId) then f
      else f.(queue := f.queue + [NewItem(f.queue, requestId, content, [next])])
    case SaveDraft(content) => f.(draft := Some(Draft(content, false, KeptCarries(f.draft, content))))
    case SubmitDraft(content) =>
      Files(None, f.queue + [NewItem(f.queue, "", content, SubmittedCarries(f.draft, content, next))])
    case MarkConsumed(turn) =>
      if exists i :: 0 <= i < |f.queue| && Waiting(f.queue[i]) then Files(None, Marked(f.queue, turn)) else f
    case ConfirmConsumed(turn) => f.(queue := Without(f.queue, turn))
    case FailConsumed(turn) =>
      var failed := Of(f.queue, turn);
      if failed == [] then f
      else Files(Some(Draft(Joined(failed), true, CarriedBy(failed))), Without(f.queue, turn))
    case SendFront => if Sendable(f.queue) then f.(queue := [SentFront(f.queue[0])] + f.queue[1..]) else f
    case ConfirmFront(requestId) => if Confirms(f.queue, requestId) then f.(queue := f.queue[1..]) else f
    case FailFront =>
      if f.queue == [] then f
      else Files(Some(Draft(f.queue[0].content, true, f.queue[0].carries)), f.queue[1..])
    case DirectSend(content) =>
      Files(None, if f.queue == [] then []
                  else f.queue + [NewItem(f.queue, "", content, SubmittedCarries(f.draft, content, next))])
    case FailDirect(_, sent) => f.(draft := Some(Draft(sent.content, true, sent.carries)))
    case Recover => f.(queue := Recovered(f.queue, published))
  }

  predicate Accepts(f: Files, c: Change) {
    (c.Enqueue? && !Known(f.queue, c.requestId))
    || ((c.SubmitDraft? || c.DirectSend?) && KeptCarries(f.draft, c.content) == [])
  }

  function NewlySettled(f: Files, published: set<string>, c: Change): seq<nat> {
    match c
    case ConfirmConsumed(turn) => CarriedBy(Of(f.queue, turn))
    case ConfirmFront(requestId) => if Confirms(f.queue, requestId) then f.queue[0].carries else []
    case Recover => CarriedBy(Settling(f.queue, published))
    case _ => []
  }

  function Removed(items: seq<Item>, k: nat): seq<Item>
    requires k < |items|
  {
    items[..k] + items[k + 1..]
  }

  /** A direct send onto an empty queue goes out at once; a failed one comes back. */
  function Flown(f: Files, flight: seq<Item>, next: nat, c: Change): seq<Item> {
    match c
    case DirectSend(content) =>
      if f.queue == [] then flight + [InFlight(content, SubmittedCarries(f.draft, content, next))] else flight
    case FailDirect(k, _) => if k < |flight| then Removed(flight, k) else flight
    case _ => flight
  }

  // ---- the world ----

  datatype Step =
    | Complete(change: Change)
    | CrashBetweenFiles(change: Change)
    | PublishTurn(turn: string)
    | PublishDirect(k: nat)

  /** A turn or request is confirmed only once published, a turn failed only if it was not, and
      a direct send failed only while it is under way; rows reach the log while the queue still
      holds their items. */
  predicate Possible(w: World, step: Step) {
    match step
    case Complete(c) => Allowed(w, c)
    case CrashBetweenFiles(c) => Allowed(w, c)
    case PublishTurn(turn) => turn != ""
    case PublishDirect(k) => k < |w.flight|
  }

  predicate Allowed(w: World, c: Change) {
    match c
    case MarkConsumed(turn) => turn != ""
    case ConfirmConsumed(turn) => turn != "" && turn in w.published
    case FailConsumed(turn) => turn != "" && turn !in w.published
    case ConfirmFront(requestId) => requestId in w.published
    case FailDirect(k, sent) => k < |w.flight| && w.flight[k] == sent
    case _ => true
  }

  function Apply(w: World, step: Step): World
    requires Possible(w, step)
  {
    match step
    case Complete(c) =>
      World(Changed(w.files, w.published, |w.inputs|, c), w.published,
            w.settled + NewlySettled(w.files, w.published, c), w.inputs + (if Accepts(w.files, c) then [c.content] else []),
            Flown(w.files, w.flight, |w.inputs|, c))
    case CrashBetweenFiles(c) =>
      w.(files := w.files.(draft := Changed(w.files, w.published, |w.inputs|, c).draft), flight := [])
    case PublishTurn(turn) => w.(published := w.published + {turn})
    case PublishDirect(k) => w.(flight := Removed(w.flight, k), settled := w.settled + w.flight[k].carries)
  }

  // ---- conservation ----

  /** Every place an accepted input can be. */
  function Places(w: World): multiset<nat> {
    multiset(CarriedBy(w.files.queue)) + multiset(DraftCarries(w.files.draft)) + multiset(w.settled)
    + multiset(CarriedBy(w.flight))
  }

  function Everything(n: nat): multiset<nat> {
    if n == 0 then multiset{} else Everything(n - 1) + multiset{n - 1}
  }

  /** Each accepted input is in exactly one place: queued or consumed, returned, settled, or
      under way by a direct send. */
  predicate Conserved(w: World) {
    Places(w) == Everything(|w.inputs|)
  }

  lemma {:induction false} EverythingOnce(n: nat, x: nat)
    ensures Everything(n)[x] == if x < n then 1 else 0
    decreases n
  {
    if n > 0 {
      EverythingOnce(n - 1, x);
    }
  }

  /** Conservation, input by input. */
  lemma InputIsInOnePlace(w: World, x: nat)
    requires Conserved(w)
    ensures multiset(CarriedBy(w.files.queue))[x] + multiset(DraftCarries(w.files.draft))[x] + multiset(w.settled)[x]
            + multiset(CarriedBy(w.flight))[x]
         == if x < |w.inputs| then 1 else 0
  {
    EverythingOnce(|w.inputs|, x);
    assert Places(w)[x] == Everything(|w.inputs|)[x];
  }

  lemma {:induction false} CarriedConcat(a: seq<Item>, b: seq<Item>)
    ensures CarriedBy(a + b) == CarriedBy(a) + CarriedBy(b)
    decreases |a|
  {
    if a == [] {
      assert a + b == b;
    } else {
      assert (a + b)[1..] == a[1..] + b;
      CarriedConcat(a[1..], b);
    }
  }

  lemma CarriedOne(item: Item)
    ensures CarriedBy([item]) == item.carries
  {
    assert [item][1..] == [];
  }

  lemma {:induction false} MarkedCarries(queue: seq<Item>, turn: string)
    ensures CarriedBy(Marked(queue, turn)) == CarriedBy(queue)
    decreases |queue|
  {
    if queue != [] {
      var item := queue[0];
      var first := if Waiting(item) then item.(state := Sent, consumedBy := turn, sendCount := item.sendCount + 1) else item;
      MarkedCarries(queue[1..], turn);
      CarriedConcat([first], Marked(queue[1..], turn));
      CarriedOne(first);
    }
  }

  lemma {:induction false} SplitCarries(queue: seq<Item>, turn: string)
    ensures multiset(CarriedBy(Of(queue, turn))) + multiset(CarriedBy(Without(queue, turn))) == multiset(CarriedBy(queue))
    decreases |queue|
  {
    hide CarriedBy;
    if queue != [] {
      CarriedFirst(queue);
      var taken, left, all := Of(queue[1..], turn), Without(queue[1..], turn), CarriedBy(queue[1..]);
      SplitCarries(queue[1..], turn);
      NothingBefore(taken);
      NothingBefore(left);
      FirstCarries(queue[0], taken);
      FirstCarries(queue[0], left);
    } else {
      NothingCarried();
    }
  }

  lemma FirstCarries(item: Item, rest: seq<Item>)
    ensures multiset(CarriedBy([item] + rest)) == multiset(item.carries) + multiset(CarriedBy(rest))
  {
    CarriedConcat([item], rest);
    CarriedOne(item);
  }

  lemma CarriedFirst(queue: seq<Item>)
    requires queue != []
    ensures multiset(CarriedBy(queue)) == multiset(queue[0].carries) + multiset(CarriedBy(queue[1..]))
  {
  }

  lemma SettledMore(settled: seq<nat>, more: seq<nat>)
    ensures multiset(settled + more) == multiset(settled) + multiset(more)
  {
  }

  lemma NothingBefore(items: seq<Item>)
    ensures [] + items == items
  {
  }

  lemma CarriedSum(a: seq<Item>, b: seq<Item>)
    ensures multiset(CarriedBy(a + b)) == multiset(CarriedBy(a)) + multiset(CarriedBy(b))
  {
    CarriedConcat(a, b);
  }

  lemma ItemSplits(item: Item, published: set<string>)
    ensures multiset(CarriedBy(SettledOf(item, published))) + multiset(CarriedBy(KeptOf(item, published)))
         == multiset(item.carries)
  {
    NothingCarried();
    CarriedOne(item);
    CarriedOne(item.(state := Queued, consumedBy := ""));
  }

  lemma {:induction false} RecoveredCarries(queue: seq<Item>, published: set<string>)
    ensures multiset(CarriedBy(Settling(queue, published))) + multiset(CarriedBy(Recovered(queue, published)))
         == multiset(CarriedBy(queue))
    decreases |queue|
  {
    hide CarriedBy, SettledOf, KeptOf;
    if queue != [] {
      RecoveredCarries(queue[1..], published);
      ItemSplits(queue[0], published);
      CarriedFirst(queue);
      CarriedSum(SettledOf(queue[0], published), Settling(queue[1..], published));
      CarriedSum(KeptOf(queue[0], published), Recovered(queue[1..], published));
    } else {
      NothingCarried();
    }
  }

  /** The inputs a completed change overwrites: those in a draft that another text, the
      contents of a failed turn, or a new turn that clears it, replaces. */
  function Overwritten(f: Files, c: Change): seq<nat> {
    match c
    case SaveDraft(content) => Dropped(f.draft, content)
    case SubmitDraft(content) => Dropped(f.draft, content)
    case MarkConsumed(_) =>
      if exists i :: 0 <= i < |f.queue| && Waiting(f.queue[i]) then DraftCarries(f.draft) else []
    case FailConsumed(turn) => if Of(f.queue, turn) != [] then DraftCarries(f.draft) else []
    case FailFront => if f.queue != [] then DraftCarries(f.draft) else []
    case DirectSend(content) => Dropped(f.draft, content)
    case FailDirect(_, _) => DraftCarries(f.draft)
    case _ => []
  }

  lemma AppendCarries(queue: seq<Item>, item: Item)
    ensures multiset(CarriedBy(queue + [item])) == multiset(CarriedBy(queue)) + multiset(item.carries)
  {
    CarriedConcat(queue, [item]);
    CarriedOne(item);
  }

  predicate Balanced(w: World, c: Change)
    requires Possible(w, Complete(c))
  {
    Places(Apply(w, Complete(c))) + multiset(Overwritten(w.files, c))
    == Places(w) + if Accepts(w.files, c) then multiset{|w.inputs|} else multiset{}
  }

  lemma DraftSplits(draft: Option<Draft>, content: string)
    ensures multiset(KeptCarries(draft, content)) + multiset(Dropped(draft, content)) == multiset(DraftCarries(draft))
  {
  }

  lemma EnqueueBalances(w: World, c: Change)
    requires Possible(w, Complete(c)) && c.Enqueue?
    ensures Balanced(w, c)
  {
    hide CarriedBy, NextSeq, Known;
    AppendCarries(w.files.queue, NewItem(w.files.queue, c.requestId, c.content, [|w.inputs|]));
    assert multiset([|w.inputs|]) == multiset{|w.inputs|};
  }

  lemma SubmissionBalances(w: World, c: Change)
    requires Possible(w, Complete(c)) && c.SubmitDraft?
    ensures Balanced(w, c)
  {
    hide CarriedBy, NextSeq, Known, Keeps;
    var f := w.files;
    AppendCarries(f.queue, NewItem(f.queue, "", c.content, SubmittedCarries(f.draft, c.content, |w.inputs|)));
    assert multiset([|w.inputs|]) == multiset{|w.inputs|};
  }

  lemma DirectSendBalances(w: World, c: Change)
    requires Possible(w, Complete(c)) && c.DirectSend?
    ensures Balanced(w, c)
  {
    hide CarriedBy, NextSeq, Known, Keeps;
    var f, carries := w.files, SubmittedCarries(w.files.draft, c.content, |w.inputs|);
    if f.queue == [] {
      AppendCarries(w.flight, InFlight(c.content, carries));
    } else {
      AppendCarries(f.queue, NewItem(f.queue, "", c.content, carries));
    }
    assert multiset([|w.inputs|]) == multiset{|w.inputs|};
  }

  lemma AcceptingBalances(w: World, c: Change)
    requires Possible(w, Complete(c)) && (c.Enqueue? || c.SubmitDraft? || c.SaveDraft? || c.DirectSend?)
    ensures Balanced(w, c)
  {
    if c.Enqueue? {
      EnqueueBalances(w, c);
    } else if c.SubmitDraft? {
      SubmissionBalances(w, c);
    } else if c.DirectSend? {
      DirectSendBalances(w, c);
    } else {
      hide CarriedBy;
      DraftSplits(w.files.draft, c.content);
    }
  }

  predicate AtFront(c: Change) {
    c.SendFront? || c.ConfirmFront? || c.FailFront?
  }

  lemma {:induction false} RemovedCarries(items: seq<Item>, k: nat)
    requires k < |items|
    ensures multiset(CarriedBy(Removed(items, k))) + multiset(items[k].carries) == multiset(CarriedBy(items))
  {
    hide CarriedBy;
    var front, rest := items[..k], items[k + 1..];
    assert items == front + ([items[k]] + rest);
    CarriedSum(front, rest);
    CarriedSum(front, [items[k]] + rest);
    FirstCarries(items[k], rest);
  }

  lemma FrontBalances(w: World, c: Change)
    requires Possible(w, Complete(c)) && AtFront(c)
    ensures Balanced(w, c)
  {
    hide CarriedBy;
    var f := w.files;
    SettledMore(w.settled, NewlySettled(f, w.published, c));
    if f.queue != [] {
      CarriedFirst(f.queue);
      FirstCarries(SentFront(f.queue[0]), f.queue[1..]);
    }
  }

  lemma FailDirectBalances(w: World, c: Change)
    requires Possible(w, Complete(c)) && c.FailDirect?
    ensures Balanced(w, c)
  {
    hide CarriedBy, Removed;
    RemovedCarries(w.flight, c.k);
  }

  lemma MarkBalances(w: World, c: Change)
    requires Possible(w, Complete(c)) && c.MarkConsumed?
    ensures Balanced(w, c)
  {
    hide CarriedBy, Marked;
    MarkedCarries(w.files.queue, c.turn);
  }

  lemma RecoveryBalances(w: World, c: Change)
    requires Possible(w, Complete(c)) && c.Recover?
    ensures Balanced(w, c)
  {
    hide CarriedBy, Recovered, Settling, IsSettled;
    SettledMore(w.settled, NewlySettled(w.files, w.published, c));
    RecoveredCarries(w.files.queue, w.published);
  }

  lemma TurnBalances(w: World, c: Change)
    requires Possible(w, Complete(c)) && (c.ConfirmConsumed? || c.FailConsumed?)
    ensures Balanced(w, c)
  {
    hide CarriedBy, Of, Without, Joined;
    SettledMore(w.settled, NewlySettled(w.files, w.published, c));
    SplitCarries(w.files.queue, c.turn);
    NothingCarried();
  }

  /** What a completed change does to the places, input by input: it adds the one it accepts
      and takes away the ones it overwrites. */
  lemma ChangeBalances(w: World, c: Change)
    requires Possible(w, Complete(c))
    ensures Balanced(w, c)
  {
    hide Balanced;
    if c.Enqueue? || c.SubmitDraft? || c.SaveDraft? || c.DirectSend? {
      AcceptingBalances(w, c);
    } else if AtFront(c) {
      FrontBalances(w, c);
    } else if c.FailDirect? {
      FailDirectBalances(w, c);
    } else if c.MarkConsumed? {
      MarkBalances(w, c);
    } else if c.Recover? {
      RecoveryBalances(w, c);
    } else {
      TurnBalances(w, c);
    }
  }

  lemma NothingCarried()
    ensures CarriedBy([]) == []
  {
  }

  lemma AcceptedOneMore(w: World, c: Change)
    requires Possible(w, Complete(c))
    ensures Everything(|Apply(w, Complete(c)).inputs|)
         == Everything(|w.inputs|) + if Accepts(w.files, c) then multiset{|w.inputs|} else multiset{}
  {
  }

  lemma Cancels(rest: multiset<nat>, a: multiset<nat>, b: multiset<nat>)
    ensures rest + a == rest + b <==> a == b
  {
    if rest + a == rest + b {
      forall x ensures a[x] == b[x] {
        assert (rest + a)[x] == (rest + b)[x];
      }
    }
  }

  lemma EmptyWhenLost(places: multiset<nat>, lost: seq<nat>, all: multiset<nat>)
    requires places + multiset(lost) == all
    ensures places == all <==> lost == []
  {
    assert places + multiset{} == places;
    Cancels(places, multiset(lost), multiset{});
    assert |multiset(lost)| == |lost|;
  }

  /** A completed change conserves every accepted input exactly when it overwrites no draft
      that still holds one, by saving or submitting another text, by taking a turn, or by
      failing one. */
  lemma CompleteConservesExactly(w: World, c: Change)
    requires Conserved(w) && Possible(w, Complete(c))
    ensures Conserved(Apply(w, Complete(c))) <==> Overwritten(w.files, c) == []
  {
    hide Places, Overwritten, Changed, NewlySettled, Everything, Flown;
    assert Balanced(w, c) by { ChangeBalances(w, c); }
    AcceptedOneMore(w, c);
    EmptyWhenLost(Places(Apply(w, Complete(c))), Overwritten(w.files, c), Everything(|Apply(w, Complete(c)).inputs|));
  }

  /** An input that a completed change overwrites is nowhere any more. */
  lemma OverwrittenIsNowhere(w: World, c: Change, x: nat)
    requires Conserved(w) && Possible(w, Complete(c)) && x in Overwritten(w.files, c) && x < |w.inputs|
    ensures x !in Places(Apply(w, Complete(c)))
  {
    hide Places, Overwritten, Changed, NewlySettled, Flown;
    assert Balanced(w, c) by { ChangeBalances(w, c); }
    EverythingOnce(|w.inputs|, x);
    var lost := multiset(Overwritten(w.files, c));
    assert x in lost;
    assert (Places(Apply(w, Complete(c))) + lost)[x] == Places(w)[x];
  }

  // ---- the texts ----

  function Text(inputs: seq<string>, n: nat): string {
    if n < |inputs| then inputs[n] else ""
  }

  /** The texts of the inputs, joined as a failed batch is. */
  function JoinedTexts(inputs: seq<string>, carries: seq<nat>): string {
    if carries == [] then ""
    else if |carries| == 1 then Text(inputs, carries[0])
    else JoinedTexts(inputs, carries[..|carries| - 1]) + SEPARATOR + Text(inputs, carries[|carries| - 1])
  }

  predicate Bounded(inputs: seq<string>, carries: seq<nat>) {
    forall k :: 0 <= k < |carries| ==> carries[k] < |inputs|
  }

  /** What is stored is, to the letter, the join of the inputs it stands for. */
  predicate Spells(inputs: seq<string>, carries: seq<nat>, content: string) {
    carries != [] && Bounded(inputs, carries) && content == JoinedTexts(inputs, carries)
  }

  /** Every item holds some accepted input, and its text. */
  predicate QueueSpelled(inputs: seq<string>, queue: seq<Item>) {
    forall i :: 0 <= i < |queue| ==> Spells(inputs, queue[i].carries, queue[i].content)
  }

  /** A draft either holds no accepted input or the text of those it holds. */
  predicate DraftSpelled(inputs: seq<string>, draft: Option<Draft>) {
    DraftCarries(draft) != [] ==> Spells(inputs, draft.value.carries, draft.value.content)
  }

  predicate Spelled(w: World) {
    QueueSpelled(w.inputs, w.files.queue) && DraftSpelled(w.inputs, w.files.draft) && QueueSpelled(w.inputs, w.flight)
  }

  lemma JoinLast(inputs: seq<string>, carries: seq<nat>, n: nat)
    requires carries != []
    ensures JoinedTexts(inputs, carries + [n]) == JoinedTexts(inputs, carries) + SEPARATOR + Text(inputs, n)
  {
    assert (carries + [n])[..|carries|] == carries;
  }

  lemma {:induction false} JoinConcat(inputs: seq<string>, a: seq<nat>, b: seq<nat>)
    requires a != [] && b != []
    ensures JoinedTexts(inputs, a + b) == JoinedTexts(inputs, a) + (SEPARATOR + JoinedTexts(inputs, b))
    decreases |b|
  {
    hide JoinedTexts, Text;
    var front, last := b[..|b| - 1], b[|b| - 1];
    assert b == front + [last];
    if front == [] {
      assert b == [last];
      JoinLast(inputs, a, last);
      JoinOne(inputs, last);
      assert JoinedTexts(inputs, a) + SEPARATOR + Text(inputs, last) == JoinedTexts(inputs, a) + (SEPARATOR + Text(inputs, last));
    } else {
      assert a + b == (a + front) + [last];
      JoinConcat(inputs, a, front);
      JoinLast(inputs, a + front, last);
      JoinLast(inputs, front, last);
      var x, y, z := JoinedTexts(inputs, a), JoinedTexts(inputs, front), Text(inputs, last);
      Rejoined(x, y, z);
    }
  }

  lemma Rejoined(x: string, y: string, z: string)
    ensures (x + (SEPARATOR + y)) + SEPARATOR + z == x + (SEPARATOR + (y + SEPARATOR + z))
  {
  }

  lemma JoinOne(inputs: seq<string>, n: nat)
    ensures JoinedTexts(inputs, [n]) == Text(inputs, n)
  {
  }

  /** The contents of a failed batch, joined, are the join of all the inputs it stands for. */
  lemma {:induction false} JoinOfJoins(inputs: seq<string>, items: seq<Item>)
    requires items != [] && QueueSpelled(inputs, items)
    ensures Spells(inputs, CarriedBy(items), Joined(items))
    decreases |items|
  {
    hide Spells, JoinedTexts;
    var front, last := items[..|items| - 1], items[|items| - 1];
    assert items == front + [last];
    CarriedConcat(front, [last]);
    CarriedOne(last);
    if front == [] {
      NothingBefore([last]);
    } else {
      assert forall i :: 0 <= i < |front| ==> front[i] == items[i];
      JoinOfJoins(inputs, front);
      JoinConcatSpells(inputs, CarriedBy(front), Joined(front), last.carries, last.content);
    }
  }

  lemma JoinConcatSpells(inputs: seq<string>, a: seq<nat>, s: string, b: seq<nat>, t: string)
    requires Spells(inputs, a, s) && Spells(inputs, b, t)
    ensures Spells(inputs, a + b, s + SEPARATOR + t)
  {
    JoinConcat(inputs, a, b);
    assert s + SEPARATOR + t == s + (SEPARATOR + t);
  }

  lemma {:induction false} InputsGrow(inputs: seq<string>, more: seq<string>, carries: seq<nat>)
    requires Bounded(inputs, carries)
    ensures Bounded(inputs + more, carries) && JoinedTexts(inputs + more, carries) == JoinedTexts(inputs, carries)
    decreases |carries|
  {
    if |carries| > 1 {
      InputsGrow(inputs, more, carries[..|carries| - 1]);
    }
  }

  lemma StillSpells(inputs: seq<string>, more: seq<string>, carries: seq<nat>, content: string)
    requires Spells(inputs, carries, content)
    ensures Spells(inputs + more, carries, content)
  {
    InputsGrow(inputs, more, carries);
  }

  predicate Occurs(text: string, content: string) {
    text <= content || (content != [] && Occurs(text, content[1..]))
  }

  lemma {:induction false} OccursBefore(text: string, content: string, after: string)
    requires Occurs(text, content)
    ensures Occurs(text, content + after)
    decreases |content|
  {
    if !(text <= content) {
      assert (content + after)[1..] == content[1..] + after;
      OccursBefore(text, content[1..], after);
    }
  }

  lemma {:induction false} OccursAtEnd(before: string, text: string)
    ensures Occurs(text, before + text)
    decreases |before|
  {
    if before == "" {
      assert before + text == text;
    } else {
      assert (before + text)[1..] == before[1..] + text;
      OccursAtEnd(before[1..], text);
    }
  }

  lemma {:induction false} TextOccurs(inputs: seq<string>, carries: seq<nat>, k: nat)
    requires k < |carries|
    ensures Occurs(Text(inputs, carries[k]), JoinedTexts(inputs, carries))
    decreases |carries|
  {
    hide Occurs;
    var n := |carries| - 1;
    if n == 0 {
      OccursAtEnd("", Text(inputs, carries[0]));
      assert "" + Text(inputs, carries[0]) == Text(inputs, carries[0]);
    } else if k == n {
      OccursAtEnd(JoinedTexts(inputs, carries[..n]) + SEPARATOR, Text(inputs, carries[n]));
    } else {
      TextOccurs(inputs, carries[..n], k);
      OccursBefore(Text(inputs, carries[k]), JoinedTexts(inputs, carries[..n]), SEPARATOR + Text(inputs, carries[n]));
      assert JoinedTexts(inputs, carries) == JoinedTexts(inputs, carries[..n]) + (SEPARATOR + Text(inputs, carries[n]));
    }
  }

  lemma {:induction false} CarriedBySome(items: seq<Item>, x: nat) returns (i: nat)
    requires x in CarriedBy(items)
    ensures i < |items| && x in items[i].carries
    decreases |items|
  {
    if x in items[0].carries {
      i := 0;
    } else {
      i := CarriedBySome(items[1..], x);
      i := i + 1;
    }
  }

  /** An accepted input that is neither settled nor under way is on disk, word for word. */
  lemma InputIsStored(w: World, x: nat)
    requires Conserved(w) && Spelled(w) && x < |w.inputs| && x !in w.settled && x !in CarriedBy(w.flight)
    ensures (exists i :: 0 <= i < |w.files.queue| && Occurs(w.inputs[x], w.files.queue[i].content))
            || (w.files.draft.Some? && Occurs(w.inputs[x], w.files.draft.value.content))
  {
    hide Occurs, Conserved, JoinedTexts, CarriedBy;
    InputIsInOnePlace(w, x);
    if x in CarriedBy(w.files.queue) {
      var i := CarriedBySome(w.files.queue, x);
      var item := w.files.queue[i];
      var k :| 0 <= k < |item.carries| && item.carries[k] == x;
      TextOccurs(w.inputs, item.carries, k);
    } else {
      assert x !in multiset(CarriedBy(w.files.queue)) && x !in multiset(w.settled) && x !in multiset(CarriedBy(w.flight));
      assert x in multiset(DraftCarries(w.files.draft));
      var carries := DraftCarries(w.files.draft);
      var k :| 0 <= k < |carries| && carries[k] == x;
      TextOccurs(w.inputs, carries, k);
    }
  }

  // ---- crashes ----

  lemma {:induction false} OfIsLaden(inputs: seq<string>, queue: seq<Item>, turn: string)
    requires QueueSpelled(inputs, queue) && Of(queue, turn) != []
    ensures CarriedBy(Of(queue, turn)) != []
    decreases |queue|
  {
    assert forall i :: 0 <= i < |queue| - 1 ==> queue[1..][i] == queue[i + 1];
    if queue[0].consumedBy == turn {
      assert Of(queue, turn)[0] == queue[0];
    } else {
      OfIsLaden(inputs, queue[1..], turn);
      NothingBefore(Of(queue[1..], turn));
    }
  }

  /** A crash here repeats or loses inputs: the draft is already the new one, and what was
      under way is gone unless it is the very text the draft has just been given. */
  predicate CrashTears(f: Files, flight: seq<Item>, c: Change) {
    match c
    case SaveDraft(content) => Dropped(f.draft, content) != [] || flight != []
    case SubmitDraft(_) => DraftCarries(f.draft) != [] || flight != []
    case DirectSend(_) => DraftCarries(f.draft) != [] || flight != []
    case MarkConsumed(_) => Overwritten(f, c) != [] || flight != []
    case FailConsumed(turn) => Of(f.queue, turn) != [] || flight != []
    case FailFront => f.queue != [] || flight != []
    case FailDirect(_, _) => DraftCarries(f.draft) != [] || |flight| > 1
    case _ => flight != []
  }

  /** The draft a crash leaves holds what the old one held and what was under way. */
  predicate DraftTakesAll(w: World, c: Change) {
    multiset(DraftCarries(Changed(w.files, w.published, |w.inputs|, c).draft))
    == multiset(DraftCarries(w.files.draft)) + multiset(CarriedBy(w.flight))
  }

  lemma CrashMovesDraft(w: World, c: Change)
    requires Conserved(w) && Possible(w, CrashBetweenFiles(c))
    ensures Conserved(Apply(w, CrashBetweenFiles(c))) <==> DraftTakesAll(w, c)
  {
    hide Changed, Everything, CarriedBy;
    var t := Apply(w, CrashBetweenFiles(c));
    NothingCarried();
    var rest := multiset(CarriedBy(w.files.queue)) + multiset(w.settled);
    var before, after := multiset(DraftCarries(w.files.draft)) + multiset(CarriedBy(w.flight)), multiset(DraftCarries(t.files.draft));
    assert Places(w) == rest + before && Places(t) == rest + after;
    Cancels(rest, after, before);
  }

  /** Inputs that are queued are neither in the draft nor under way. */
  lemma QueuedIsElsewhere(w: World, held: seq<nat>)
    requires Conserved(w) && held != [] && multiset(held) <= multiset(CarriedBy(w.files.queue))
    ensures multiset(held) != multiset(DraftCarries(w.files.draft)) + multiset(CarriedBy(w.flight))
  {
    hide CarriedBy;
    var x := held[0];
    EverythingOnce(|w.inputs|, x);
    InputIsInOnePlace(w, x);
    assert x in multiset(held);
  }

  lemma {:induction false} FlightIsLaden(inputs: seq<string>, flight: seq<Item>)
    requires QueueSpelled(inputs, flight)
    ensures flight == [] <==> CarriedBy(flight) == []
  {
    if flight != [] {
      assert flight[0].carries != [];
    }
  }

  lemma SameAsBefore(a: multiset<nat>, b: seq<nat>)
    ensures a == a + multiset(b) <==> b == []
  {
    assert a + multiset{} == a;
    Cancels(a, multiset(b), multiset{});
    assert |multiset(b)| == |b|;
  }

  lemma TogetherNothing(a: seq<nat>, b: seq<nat>)
    ensures multiset([]) == multiset(a) + multiset(b) <==> a == [] && b == []
  {
    assert |multiset(a) + multiset(b)| == |a| + |b|;
  }

  /** The draft holds what was under way, and the rest of it is lost. */
  lemma DirectCrash(w: World, c: Change)
    requires Conserved(w) && Spelled(w) && Possible(w, CrashBetweenFiles(c)) && c.FailDirect?
    ensures DraftTakesAll(w, c) <==> !CrashTears(w.files, w.flight, c)
  {
    hide CarriedBy, Spells;
    var draft, others := DraftCarries(w.files.draft), Removed(w.flight, c.k);
    RemovedCarries(w.flight, c.k);
    assert forall i :: 0 <= i < |others| ==> others[i] == w.flight[if i < c.k then i else i + 1];
    FlightIsLaden(w.inputs, others);
    var lost := draft + CarriedBy(others);
    assert multiset(draft) + multiset(CarriedBy(w.flight)) == multiset(c.sent.carries) + multiset(lost);
    SameAsBefore(multiset(c.sent.carries), lost);
  }

  lemma ClearingCrash(w: World, c: Change)
    requires Spelled(w) && (c.SaveDraft? || c.SubmitDraft? || c.DirectSend? || c.MarkConsumed?)
    ensures DraftTakesAll(w, c) <==> !CrashTears(w.files, w.flight, c)
  {
    hide CarriedBy, Marked, NextSeq, Spelled;
    var draft, flying := DraftCarries(w.files.draft), CarriedBy(w.flight);
    assert w.flight == [] <==> flying == [] by { SpelledFlight(w); }
    SameAsBefore(multiset(draft), flying);
    TogetherNothing(draft, flying);
  }

  lemma SpelledFlight(w: World)
    requires Spelled(w)
    ensures w.flight == [] <==> CarriedBy(w.flight) == []
  {
    hide Spells;
    FlightIsLaden(w.inputs, w.flight);
  }

  lemma FailingCrash(w: World, c: Change)
    requires Conserved(w) && Spelled(w) && Possible(w, CrashBetweenFiles(c)) && (c.FailConsumed? || c.FailFront?)
    ensures DraftTakesAll(w, c) <==> !CrashTears(w.files, w.flight, c)
  {
    hide Conserved, Without, CarriedBy, Of, Spells, Joined;
    SpelledFlight(w);
    SameAsBefore(multiset(DraftCarries(w.files.draft)), CarriedBy(w.flight));
    if c.FailConsumed? && Of(w.files.queue, c.turn) != [] {
      OfIsLaden(w.inputs, w.files.queue, c.turn);
      SplitCarries(w.files.queue, c.turn);
      QueuedIsElsewhere(w, CarriedBy(Of(w.files.queue, c.turn)));
    } else if c.FailFront? && w.files.queue != [] {
      FrontIsLaden(w);
      QueuedIsElsewhere(w, w.files.queue[0].carries);
    }
  }

  lemma QuietCrash(w: World, c: Change)
    requires Spelled(w) && (c.Enqueue? || c.ConfirmConsumed? || c.SendFront? || c.ConfirmFront? || c.Recover?)
    ensures DraftTakesAll(w, c) <==> !CrashTears(w.files, w.flight, c)
  {
    hide CarriedBy, Spelled, NextSeq, Known, Without, Recovered;
    SpelledFlight(w);
    SameAsBefore(multiset(DraftCarries(w.files.draft)), CarriedBy(w.flight));
  }

  /** A crash between writing the draft and writing the queue conserves every accepted input
      exactly when nothing was under way, the draft it replaced held none, or was saved with the
      same text, and no turn or front item was failing, whose contents are otherwise in both
      files; a failing direct send is safe if it was the only one. */
  lemma CrashConservesExactly(w: World, c: Change)
    requires Conserved(w) && Spelled(w) && Possible(w, CrashBetweenFiles(c))
    ensures Conserved(Apply(w, CrashBetweenFiles(c))) <==> !CrashTears(w.files, w.flight, c)
  {
    hide Conserved, Spelled, CrashTears, Changed, Apply;
    CrashMovesDraft(w, c);
    match c
    case FailConsumed(_) => FailingCrash(w, c);
    case FailFront => FailingCrash(w, c);
    case FailDirect(_, _) => DirectCrash(w, c);
    case SaveDraft(_) => ClearingCrash(w, c);
    case SubmitDraft(_) => ClearingCrash(w, c);
    case DirectSend(_) => ClearingCrash(w, c);
    case MarkConsumed(_) => ClearingCrash(w, c);
    case _ => QuietCrash(w, c);
  }

  lemma FrontIsLaden(w: World)
    requires Spelled(w) && w.files.queue != []
    ensures w.files.queue[0].carries != [] && multiset(w.files.queue[0].carries) <= multiset(CarriedBy(w.files.queue))
  {
    hide JoinedTexts;
    CarriedFirst(w.files.queue);
  }

  // ---- runs ----

  lemma {:induction false} TurnKeepsTexts(inputs: seq<string>, queue: seq<Item>, turn: string)
    requires QueueSpelled(inputs, queue)
    ensures QueueSpelled(inputs, Marked(queue, turn)) && QueueSpelled(inputs, Without(queue, turn))
    ensures QueueSpelled(inputs, Of(queue, turn))
    decreases |queue|
  {
    hide Spells;
    if queue != [] {
      assert forall i :: 0 <= i < |queue| - 1 ==> queue[1..][i] == queue[i + 1];
      TurnKeepsTexts(inputs, queue[1..], turn);
    }
  }

  lemma {:induction false} RecoveryKeepsTexts(inputs: seq<string>, queue: seq<Item>, published: set<string>)
    requires QueueSpelled(inputs, queue)
    ensures QueueSpelled(inputs, Recovered(queue, published))
    decreases |queue|
  {
    hide Spells;
    if queue != [] {
      assert forall i :: 0 <= i < |queue| - 1 ==> queue[1..][i] == queue[i + 1];
      RecoveryKeepsTexts(inputs, queue[1..], published);
    }
  }

  lemma FrontKeepsTexts(inputs: seq<string>, queue: seq<Item>)
    requires QueueSpelled(inputs, queue) && queue != []
    ensures QueueSpelled(inputs, queue[1..]) && QueueSpelled(inputs, [SentFront(queue[0])] + queue[1..])
  {
    hide Spells;
  }

  lemma RemovedKeepsTexts(inputs: seq<string>, items: seq<Item>, k: nat)
    requires QueueSpelled(inputs, items) && k < |items|
    ensures QueueSpelled(inputs, Removed(items, k))
  {
    hide Spells;
    forall i | 0 <= i < |Removed(items, k)| ensures Spells(inputs, Removed(items, k)[i].carries, Removed(items, k)[i].content) {
      assert Removed(items, k)[i] == items[if i < k then i else i + 1];
    }
  }

  /** The draft a change leaves spells its inputs, whatever the text given to it. */
  lemma DraftKeepsText(w: World, c: Change)
    requires Spelled(w) && Possible(w, Complete(c))
    ensures DraftSpelled(w.inputs, Changed(w.files, w.published, |w.inputs|, c).draft)
  {
    hide Spells, Of, Joined, CarriedBy;
    if c.FailConsumed? && Of(w.files.queue, c.turn) != [] {
      TurnKeepsTexts(w.inputs, w.files.queue, c.turn);
      JoinOfJoins(w.inputs, Of(w.files.queue, c.turn));
    }
  }

  lemma NewInputSpells(inputs: seq<string>, content: string)
    ensures Spells(inputs + [content], [|inputs|], content)
  {
  }

  lemma QueueStillSpelled(inputs: seq<string>, more: seq<string>, queue: seq<Item>)
    requires QueueSpelled(inputs, queue)
    ensures QueueSpelled(inputs + more, queue)
  {
    hide Spells;
    forall i | 0 <= i < |queue| ensures Spells(inputs + more, queue[i].carries, queue[i].content) {
      StillSpells(inputs, more, queue[i].carries, queue[i].content);
    }
  }

  lemma QueueKeepsText(w: World, c: Change)
    requires Spelled(w) && Possible(w, Complete(c))
    ensures QueueSpelled(Apply(w, Complete(c)).inputs, Apply(w, Complete(c)).files.queue)
  {
    hide Spells, Of, Joined, CarriedBy, NextSeq, Marked, Without, Recovered, Known;
    var t := Apply(w, Complete(c));
    if c.Enqueue? || c.SubmitDraft? || c.DirectSend? {
      QueueStillSpelled(w.inputs, [c.content], w.files.queue);
      NewInputSpells(w.inputs, c.content);
    } else if AtFront(c) {
      if w.files.queue != [] {
        FrontKeepsTexts(w.inputs, w.files.queue);
      }
      SameInputs(w, c);
    } else if c.MarkConsumed? || c.ConfirmConsumed? || c.FailConsumed? {
      TurnKeepsTexts(w.inputs, w.files.queue, c.turn);
      SameInputs(w, c);
    } else {
      RecoveryKeepsTexts(w.inputs, w.files.queue, w.published);
      SameInputs(w, c);
    }
    if !Accepts(w.files, c) {
      SameInputs(w, c);
    }
  }

  lemma FlightKeepsText(w: World, c: Change)
    requires Spelled(w) && Possible(w, Complete(c))
    ensures QueueSpelled(Apply(w, Complete(c)).inputs, Apply(w, Complete(c)).flight)
  {
    hide Spells, CarriedBy, Changed, NewlySettled;
    QueueStillSpelled(w.inputs, if Accepts(w.files, c) then [c.content] else [], w.flight);
    if !Accepts(w.files, c) {
      SameInputs(w, c);
    }
    if c.DirectSend? && w.files.queue == [] {
      NewInputSpells(w.inputs, c.content);
    } else if c.FailDirect? {
      RemovedKeepsTexts(w.inputs, w.flight, c.k);
    }
  }

  lemma SameInputs(w: World, c: Change)
    requires Possible(w, Complete(c)) && !Accepts(w.files, c)
    ensures Apply(w, Complete(c)).inputs == w.inputs
  {
  }

  lemma StepKeepsTexts(w: World, step: Step)
    requires Spelled(w) && Possible(w, step)
    ensures Spelled(Apply(w, step))
  {
    hide Spells, Changed;
    match step
    case Complete(c) =>
      DraftKeepsText(w, c);
      QueueKeepsText(w, c);
      FlightKeepsText(w, c);
      var draft := Changed(w.files, w.published, |w.inputs|, c).draft;
      if DraftCarries(draft) != [] {
        StillSpells(w.inputs, if Accepts(w.files, c) then [c.content] else [], draft.value.carries, draft.value.content);
      }
    case CrashBetweenFiles(c) => DraftKeepsText(w, c);
    case PublishTurn(_) =>
    case PublishDirect(k) => RemovedKeepsTexts(w.inputs, w.flight, k);
  }

  predicate Tears(w: World, step: Step)
    requires Possible(w, step)
  {
    match step
    case Complete(c) => Overwritten(w.files, c) != []
    case CrashBetweenFiles(c) => CrashTears(w.files, w.flight, c)
    case _ => false
  }

  lemma StepConservesExactly(w: World, step: Step)
    requires Conserved(w) && Spelled(w) && Possible(w, step)
    ensures Conserved(Apply(w, step)) <==> !Tears(w, step)
  {
    hide CarriedBy, Spelled, Overwritten, CrashTears, Removed;
    match step
    case Complete(c) => CompleteConservesExactly(w, c);
    case CrashBetweenFiles(c) => CrashConservesExactly(w, c);
    case PublishTurn(_) =>
    case PublishDirect(k) =>
      RemovedCarries(w.flight, k);
      SettledMore(w.settled, w.flight[k].carries);
  }

  predicate Plays(w: World, steps: seq<Step>)
    decreases |steps|
  {
    steps == [] || (Possible(w, steps[0]) && !Tears(w, steps[0]) && Plays(Apply(w, steps[0]), steps[1..]))
  }

  function Played(w: World, steps: seq<Step>): World
    requires Plays(w, steps)
    decreases |steps|
  {
    if steps == [] then w else Played(Apply(w, steps[0]), steps[1..])
  }

  /** Over any interleaving of drafts, turns, crashes and recoveries none of whose steps
      tears, every accepted input is in exactly one place, and there with its text. */
  lemma {:induction false} RunConserves(w: World, steps: seq<Step>)
    requires Conserved(w) && Spelled(w) && Plays(w, steps)
    ensures Conserved(Played(w, steps)) && Spelled(Played(w, steps))
    decreases |steps|
  {
    hide Conserved, QueueSpelled, DraftSpelled, Apply, Tears, Possible;
    if steps != [] {
      StepConservesExactly(w, steps[0]);
      StepKeepsTexts(w, steps[0]);
      RunConserves(Apply(w, steps[0]), steps[1..]);
    }
  }

  // ---- recovery ----

  /** The item takes no part in an unconfirmed sending. */
  predicate AtRest(item: Item) {
    item.consumedBy == "" && item.state != Sending && item.state != Sent
  }

  /** After recovery nothing is half sent, and exactly the items whose turn or request is
      published are gone. */
  lemma {:induction false} RecoveryExactly(queue: seq<Item>, published: set<string>, item: Item)
    ensures forall i :: 0 <= i < |Recovered(queue, published)| ==> AtRest(Recovered(queue, published)[i])
    ensures item in Resent(queue, published)
       <==> item.state == Queued && item.consumedBy == ""
            && exists i :: 0 <= i < |queue| && ResentAs(queue, published, i, item)
    ensures item in Settling(queue, published) <==> item in queue && IsSettled(item, published)
    ensures |Recovered(queue, published)| + |Settling(queue, published)| == |queue|
    decreases |queue|
  {
    if queue != [] {
      RecoveryExactly(queue[1..], published, item);
      assert forall i :: 1 <= i < |queue| ==> queue[i] == queue[1..][i - 1];
      assert item in queue <==> item == queue[0] || item in queue[1..];
      ExistsFirst(queue, published, item);
    }
  }

  predicate ResentAs(queue: seq<Item>, published: set<string>, i: nat, item: Item)
    requires i < |queue|
  {
    IsResent(queue[i]) && !IsSettled(queue[i], published) && queue[i].(state := Queued, consumedBy := "") == item
  }

  lemma ExistsFirst(queue: seq<Item>, published: set<string>, item: Item)
    requires queue != []
    ensures (exists i :: 0 <= i < |queue| && ResentAs(queue, published, i, item))
       <==> ResentAs(queue, published, 0, item)
            || exists i :: 0 <= i < |queue| - 1 && ResentAs(queue[1..], published, i, item)
  {
    if i :| 0 <= i < |queue| && ResentAs(queue, published, i, item) {
      if i > 0 {
        assert ResentAs(queue[1..], published, i - 1, item);
      }
    }
    if i :| 0 <= i < |queue| - 1 && ResentAs(queue[1..], published, i, item) {
      assert ResentAs(queue, published, i + 1, item);
    }
  }

  // ---- what each change does, item by item ----

  /** The message log shows the turn that took the item or, if none did, its request. */
  predicate Shown(item: Item, published: set<string>) {
    (item.consumedBy != "" && item.consumedBy in published)
    || (item.consumedBy == "" && item.requestId != "" && item.requestId in published)
  }

  function Unshown(queue: seq<Item>, published: set<string>): seq<Item> {
    if queue == [] then [] else (if Shown(queue[0], published) then [] else [queue[0]]) + Unshown(queue[1..], published)
  }

  lemma {:induction false} UnshownExactly(queue: seq<Item>, published: set<string>, item: Item)
    ensures item in Unshown(queue, published) <==> item in queue && !Shown(item, published)
    decreases |queue|
  {
    if queue != [] {
      UnshownExactly(queue[1..], published, item);
      assert item in queue <==> item == queue[0] || item in queue[1..];
    }
  }

  /** Recovery leaves the items that are not shown, in their order, each with its number,
      request, content, count and inputs; only its state is reset, and only if it was taken,
      being sent or sent. */
  lemma {:induction false} RecoveredInOrder(queue: seq<Item>, published: set<string>)
    ensures var kept, unshown := Recovered(queue, published), Unshown(queue, published);
            && |kept| == |unshown|
            && forall i :: 0 <= i < |kept| ==>
                 kept[i] == if unshown[i].consumedBy != "" || unshown[i].state == Sending || unshown[i].state == Sent
                            then unshown[i].(state := Queued, consumedBy := "") else unshown[i]
    decreases |queue|
  {
    if queue != [] {
      RecoveredInOrder(queue[1..], published);
    }
  }

  /** What is handed back for resending is what is stored. */
  lemma {:induction false} ResentIsStored(queue: seq<Item>, published: set<string>, item: Item)
    requires item in Resent(queue, published)
    ensures item in Recovered(queue, published)
    decreases |queue|
  {
    var first, rest := ResentOf(queue[0], published), Resent(queue[1..], published);
    assert item in first || item in rest;
    if item in rest {
      ResentIsStored(queue[1..], published, item);
    }
  }

  /** A request is known after recovery exactly when an item of it is not shown. */
  lemma {:induction false} KnownAfterRecovery(queue: seq<Item>, published: set<string>, requestId: string)
    ensures Known(Recovered(queue, published), requestId)
       <==> requestId != "" && exists item :: item in queue && item.requestId == requestId && !Shown(item, published)
  {
    var kept, unshown := Recovered(queue, published), Unshown(queue, published);
    RecoveredInOrder(queue, published);
    if i :| requestId != "" && 0 <= i < |kept| && kept[i].requestId == requestId {
      UnshownExactly(queue, published, unshown[i]);
      assert unshown[i] in queue;
    }
    if item :| requestId != "" && item in queue && item.requestId == requestId && !Shown(item, published) {
      UnshownExactly(queue, published, item);
      var i :| 0 <= i < |unshown| && unshown[i] == item;
      assert kept[i].requestId == requestId;
    }
  }

  /** The request is shown although the turn that took the item is not. */
  predicate ShownOtherwise(item: Item, published: set<string>) {
    !Shown(item, published) && item.requestId != "" && item.requestId in published
  }

  /** Recovering again changes nothing, unless an item was taken by a turn that is not shown
      while its request is: the first recovery hands that back, the second drops it. */
  lemma {:induction false} RecoveringAgainExactly(queue: seq<Item>, published: set<string>)
    ensures var kept := Recovered(queue, published);
            && |Recovered(kept, published)| <= |kept|
            && (Recovered(kept, published) == kept <==> forall item :: item in queue ==> !ShownOtherwise(item, published))
            && (Recovered(kept, published) != kept ==> |Recovered(kept, published)| < |kept|)
    decreases |queue|
  {
    if queue != [] {
      var first, rest := queue[0], Recovered(queue[1..], published);
      RecoveringAgainExactly(queue[1..], published);
      assert forall item :: item in queue <==> item == first || item in queue[1..];
      if !Shown(first, published) {
        var kept := KeptOf(first, published)[0];
        assert Recovered(queue, published) == [kept] + rest && ([kept] + rest)[1..] == rest;
        assert Recovered([kept] + rest, published) == KeptOf(kept, published) + Recovered(rest, published);
        if !ShownOtherwise(first, published) {
          assert KeptOf(kept, published) == [kept];
        } else {
          assert KeptOf(kept, published) == [];
          assert first in queue;
        }
      } else {
        NothingBefore(rest);
      }
    }
  }

  /** Older items stand before newer ones. */
  predicate Ordered(queue: seq<Item>) {
    forall i, j :: 0 <= i < j < |queue| ==> queue[i].seqNo < queue[j].seqNo
  }

  lemma OrderedRest(queue: seq<Item>)
    requires queue != []
    ensures Ordered(queue) <==> Ordered(queue[1..]) && forall item :: item in queue[1..] ==> queue[0].seqNo < item.seqNo
  {
    assert queue == [queue[0]] + queue[1..];
    assert forall i :: 0 < i < |queue| ==> queue[i] == queue[1..][i - 1] && queue[i] in queue[1..];
  }

  lemma OrderedCons(item: Item, rest: seq<Item>)
    requires Ordered(rest) && forall other :: other in rest ==> item.seqNo < other.seqNo
    ensures Ordered([item] + rest)
  {
    assert ([item] + rest)[1..] == rest;
    OrderedRest([item] + rest);
  }

  /** A turn takes every item that is queued and not taken, and changes nothing else. */
  lemma {:induction false} MarkedExactly(queue: seq<Item>, turn: string)
    ensures |Marked(queue, turn)| == |queue|
    ensures forall i :: 0 <= i < |queue| ==>
              Marked(queue, turn)[i] == if queue[i].state == Queued && queue[i].consumedBy == ""
                                        then queue[i].(state := Sent, consumedBy := turn, sendCount := queue[i].sendCount + 1)
                                        else queue[i]
    decreases |queue|
  {
    if queue != [] {
      MarkedExactly(queue[1..], turn);
      assert forall i :: 0 < i < |queue| ==> queue[i] == queue[1..][i - 1];
    }
  }

  /** The items of a turn and the others, both in the order of the queue. */
  lemma {:induction false} TurnSplitsExactly(queue: seq<Item>, turn: string)
    ensures forall item :: item in Of(queue, turn) <==> item in queue && item.consumedBy == turn
    ensures forall item :: item in Without(queue, turn) <==> item in queue && item.consumedBy != turn
    ensures |Of(queue, turn)| + |Without(queue, turn)| == |queue|
    ensures Ordered(queue) ==> Ordered(Of(queue, turn)) && Ordered(Without(queue, turn))
    decreases |queue|
  {
    hide Ordered;
    if queue != [] {
      var first, of, without := queue[0], Of(queue[1..], turn), Without(queue[1..], turn);
      TurnSplitsExactly(queue[1..], turn);
      OrderedRest(queue);
      assert forall item :: item in queue <==> item == first || item in queue[1..];
      NothingBefore(of);
      NothingBefore(without);
      if Ordered(queue) {
        OrderedCons(first, of);
        OrderedCons(first, without);
      }
    } else {
      assert Ordered([]) by { NothingIsOrdered(); }
    }
  }

  lemma NothingIsOrdered()
    ensures Ordered([])
  {
  }

  lemma {:induction false} RecoveryKeepsOrder(queue: seq<Item>, published: set<string>)
    requires Ordered(queue)
    ensures Ordered(Recovered(queue, published))
    decreases |queue|
  {
    hide Ordered;
    if queue != [] {
      var rest := Recovered(queue[1..], published);
      OrderedRest(queue);
      RecoveryKeepsOrder(queue[1..], published);
      forall item | item in rest ensures queue[0].seqNo < item.seqNo {
        RecoveredFrom(queue[1..], published, item);
      }
      NothingBefore(rest);
      OrderedCons(queue[0].(state := Queued, consumedBy := ""), rest);
      OrderedCons(queue[0], rest);
    } else {
      NothingIsOrdered();
    }
  }

  /** What is handed back and what is settled come in the order of the queue. */
  lemma {:induction false} ResentInOrder(queue: seq<Item>, published: set<string>)
    requires Ordered(queue)
    ensures Ordered(Resent(queue, published)) && Ordered(Settling(queue, published))
    decreases |queue|
  {
    hide Ordered;
    if queue != [] {
      var resent, settling := Resent(queue[1..], published), Settling(queue[1..], published);
      OrderedRest(queue);
      ResentInOrder(queue[1..], published);
      forall item | item in resent ensures queue[0].seqNo < item.seqNo {
        ResentIsStored(queue[1..], published, item);
        RecoveredFrom(queue[1..], published, item);
      }
      forall item | item in settling ensures queue[0].seqNo < item.seqNo {
        RecoveryExactly(queue[1..], published, item);
      }
      NothingBefore(resent);
      NothingBefore(settling);
      OrderedCons(queue[0].(state := Queued, consumedBy := ""), resent);
      OrderedCons(queue[0], settling);
    } else {
      NothingIsOrdered();
    }
  }

  /** A joined text is the contents in order, one rule between any two neighbours. */
  lemma {:induction false} JoinedExactly(a: seq<Item>, b: seq<Item>, item: Item)
    ensures Joined([]) == "" && Joined([item]) == item.content
    ensures a != [] && b != [] ==> Joined(a + b) == Joined(a) + "\n---\n" + Joined(b)
    decreases |b|
  {
    if a != [] && b != [] {
      var front, last := b[..|b| - 1], b[|b| - 1];
      assert (a + b)[..|a + b| - 1] == a + front;
      if front == [] {
        assert a + front == a;
      } else {
        JoinedExactly(a, front, item);
        assert (Joined(a) + SEPARATOR + Joined(front)) + SEPARATOR + last.content
            == Joined(a) + SEPARATOR + (Joined(front) + SEPARATOR + last.content);
      }
    }
  }

  lemma RecoveredFrom(queue: seq<Item>, published: set<string>, item: Item)
    requires item in Recovered(queue, published)
    ensures exists other :: other in queue && other.seqNo == item.seqNo
  {
    var kept, unshown := Recovered(queue, published), Unshown(queue, published);
    RecoveredInOrder(queue, published);
    var i :| 0 <= i < |kept| && kept[i] == item;
    UnshownExactly(queue, published, unshown[i]);
  }

  /** A new item waits at the end under the number above all others, with what it was given. */
  predicate Joins(before: seq<Item>, after: seq<Item>, requestId: string, content: string) {
    && |after| == |before| + 1 && after[..|before|] == before
    && var item := after[|before|];
       && item.requestId == requestId && item.content == content && item.state == Queued
       && item.consumedBy == "" && item.sendCount == 0
       && (forall i :: 0 <= i < |before| ==> before[i].seqNo < item.seqNo)
       && if before == [] then item.seqNo == 1
          else item.seqNo == 1 || exists i :: 0 <= i < |before| && before[i].seqNo == item.seqNo - 1
  }

  predicate Holds(draft: Option<Draft>, content: string, returned: bool) {
    draft.Some? && draft.value.content == content && draft.value.returned == returned
  }

  /** The effect of every change that does not go through a whole turn. */
  lemma SmallChangeExactly(f: Files, published: set<string>, next: nat, c: Change)
    ensures var t, q := Changed(f, published, next, c), f.queue;
            match c
            case Enqueue(requestId, content) =>
              && t.draft == f.draft
              && if requestId != "" && exists i :: 0 <= i < |q| && q[i].requestId == requestId then t.queue == q
                 else Joins(q, t.queue, requestId, content)
            case SaveDraft(content) => t.queue == q && Holds(t.draft, content, false)
            case SubmitDraft(content) => t.draft.None? && Joins(q, t.queue, "", content)
            case DirectSend(content) => t.draft.None? && if q == [] then t.queue == [] else Joins(q, t.queue, "", content)
            case FailDirect(_, sent) => t.queue == q && Holds(t.draft, sent.content, true)
            case SendFront =>
              && t.draft == f.draft && |t.queue| == |q|
              && (forall i :: 0 < i < |q| ==> t.queue[i] == q[i])
              && (q != [] ==> t.queue[0] == if q[0].state == Queued || q[0].state == Failed
                                            then q[0].(state := Sending, sendCount := q[0].sendCount + 1) else q[0])
            case ConfirmFront(requestId) =>
              && t.draft == f.draft
              && t.queue == if q != [] && (q[0].state == Sending || q[0].state == Sent)
                               && (requestId == q[0].requestId || requestId == "" || q[0].requestId == "") then q[1..] else q
            case FailFront =>
              if q == [] then t == f else t.queue == q[1..] && Holds(t.draft, q[0].content, true)
            case _ => true
  {
  }

  /** The effect of every change that does. */
  lemma TurnChangeExactly(f: Files, published: set<string>, next: nat, c: Change)
    ensures var t, q := Changed(f, published, next, c), f.queue;
            match c
            case MarkConsumed(turn) =>
              if exists i :: 0 <= i < |q| && q[i].state == Queued && q[i].consumedBy == ""
              then t.draft.None? && t.queue == Marked(q, turn) else t == f
            case ConfirmConsumed(turn) => t.draft == f.draft && t.queue == Without(q, turn)
            case FailConsumed(turn) =>
              if forall i :: 0 <= i < |q| ==> q[i].consumedBy != turn then t == f
              else t.queue == Without(q, turn) && Holds(t.draft, Joined(Of(q, turn)), true)
            case Recover => t.draft == f.draft && t.queue == Recovered(q, published)
            case _ => true
  {
    hide Joined;
    match c
    case MarkConsumed(turn) =>
      if i :| 0 <= i < |f.queue| && f.queue[i].state == Queued && f.queue[i].consumedBy == "" {
        assert Waiting(f.queue[i]);
      }
    case FailConsumed(turn) =>
      TurnSplitsExactly(f.queue, turn);
      if Of(f.queue, turn) != [] {
        assert Of(f.queue, turn)[0] in Of(f.queue, turn);
      }
      if i :| 0 <= i < |f.queue| && f.queue[i].consumedBy == turn {
        assert f.queue[i] in Of(f.queue, turn);
      }
    case _ =>
  }

  /** First in, first out: whatever change is made, older items stay before newer ones. */
  lemma ChangeKeepsOrder(f: Files, published: set<string>, next: nat, c: Change)
    requires Ordered(f.queue)
    ensures Ordered(Changed(f, published, next, c).queue)
  {
    hide Marked, Recovered, Of, Without, Joined, Changed, Waiting;
    SmallChangeExactly(f, published, next, c);
    TurnChangeExactly(f, published, next, c);
    match c
    case MarkConsumed(turn) => MarkedExactly(f.queue, turn);
    case ConfirmConsumed(turn) => TurnSplitsExactly(f.queue, turn);
    case FailConsumed(turn) => TurnSplitsExactly(f.queue, turn);
    case Recover => RecoveryKeepsOrder(f.queue, published);
    case _ =>
  }

  /** An input is accepted once: a request that is queued is not accepted again, before or
      after recovery, until the message log shows it. */
  lemma RequestIsAcceptedOnce(f: Files, published: set<string>, next: nat, requestId: string, content: string, again: string)
    requires requestId != ""
    ensures var t := Changed(f, published, next, Enqueue(requestId, content));
            && Known(t.queue, requestId)
            && Changed(t, published, next + 1, Enqueue(requestId, again)) == t
  {
    SmallChangeExactly(f, published, next, Enqueue(requestId, content));
    var t := Changed(f, published, next, Enqueue(requestId, content));
    if !Known(f.queue, requestId) {
      assert t.queue[|f.queue|].requestId == requestId;
    }
  }

  // ---- the store ----

  /** The lifecycle files as the store writes them. `between` is history: what a crash after
      the first of the two last writes would have left. */
  class LifecycleStore {
    var draft: Option<Draft>
    var queue: seq<Item>
    ghost var between: Files

    ghost function View(): Files
      reads this
    {
      Files(draft, queue)
    }

    constructor ()
      ensures View() == Files(None, [])
    {
      draft, queue, between := None, [], Files(None, []);
    }

    /** publishLifecycleLocked: the draft file, then the queue file. */
    method Publish(draft: Option<Draft>, queue: seq<Item>)
      modifies this
      ensures View() == Files(draft, queue) && between == Files(draft, old(this.queue))
    {
      this.draft := draft;
      between := View();
      this.queue := queue;
    }

    /** `next` numbers the input this accepts. */
    method Enqueue(requestId: string, content: string, next: nat)
      modifies this
      ensures View() == Changed(old(View()), {}, next, Change.Enqueue(requestId, content))
    {
      var i := 0;
      while i < |queue|
        invariant i <= |queue| && unchanged(this)
        invariant requestId != "" ==> forall k :: 0 <= k < i ==> queue[k].requestId != requestId
      {
        if requestId != "" && queue[i].requestId == requestId {
          return;
        }
        i := i + 1;
      }
      var seqNo := NextNumber();
      Publish(draft, queue + [Item(seqNo, requestId, content, Queued, "", 0, [next])]);
    }

    /** draftToQueue: the draft file goes before the queue file grows. */
    method SubmitDraft(content: string, next: nat)
      modifies this
      ensures View() == Changed(old(View()), {}, next, Change.SubmitDraft(content))
      ensures between == Files(None, old(queue))
    {
      var seqNo := NextNumber();
      Publish(None, queue + [Item(seqNo, "", content, Queued, "", 0, SubmittedCarries(draft, content, next))]);
    }

    method SaveDraft(content: string)
      modifies this
      ensures View() == Changed(old(View()), {}, 0, Change.SaveDraft(content))
    {
      Publish(Some(Draft(content, false, KeptCarries(draft, content))), queue);
    }

    method MarkConsumed(turn: string)
      requires turn != ""
      modifies this
      ensures View() == Changed(old(View()), {}, 0, Change.MarkConsumed(turn))
      ensures View() != old(View()) ==> between == Files(None, old(queue))
    {
      hide Marked;
      var items, marked, i := queue, false, 0;
      MarkNothing(queue, turn);
      assert queue[0..] == queue;
      while i < |queue|
        invariant i <= |queue| == |items| && unchanged(this)
        invariant items[i..] == queue[i..]
        invariant Marked(queue, turn) == items[..i] + Marked(queue[i..], turn)
        invariant marked <==> exists k :: 0 <= k < i && Waiting(queue[k])
      {
        ghost var next := MarkStep(queue, items, i, turn);
        var item := items[i];
        if Waiting(item) {
          item := item.(state := Sent, consumedBy := turn, sendCount := item.sendCount + 1);
          items := items[i := item];
          marked := true;
        }
        i := i + 1;
      }
      assert queue[i..] == [] && items[..i] == items && items + [] == items;
      if marked {
        Publish(None, items);
      }
    }

    method ConfirmConsumed(turn: string)
      requires turn != ""
      modifies this
      ensures View() == Changed(old(View()), {}, 0, Change.ConfirmConsumed(turn))
    {
      var kept, failed := Split(turn);
      if failed != [] {
        Publish(draft, kept);
      } else {
        NothingConsumed(queue, turn);
      }
    }

    method FailConsumed(turn: string)
      requires turn != ""
      modifies this
      ensures View() == Changed(old(View()), {}, 0, Change.FailConsumed(turn))
      ensures View() != old(View()) ==> between == Files(draft, old(queue))
    {
      var kept, failed := Split(turn);
      if failed == [] {
        return;
      }
      var content := Join(failed);
      Publish(Some(Draft(content, true, CarriedBy(failed))), kept);
    }

    /** queueSendFront: the front item goes out, unless it is on its way already. */
    method SendFront() returns (sent: Option<Item>)
      modifies this
      ensures View() == Changed(old(View()), {}, 0, Change.SendFront)
      ensures sent == if Sendable(old(queue)) then Some(queue[0]) else None
      ensures sent.Some? ==> between == old(View())
    {
      if |queue| == 0 {
        return None;
      }
      var item := queue[0];
      if item.state == Sending || item.state == Sent {
        return None;
      }
      item := item.(state := Sending, sendCount := item.sendCount + 1);
      Publish(draft, [item] + queue[1..]);
      sent := Some(item);
    }

    /** queueConfirmSent: a front item that was not sent, or under another request, stays. */
    method ConfirmFront(requestId: string) returns (ok: bool)
      modifies this
      ensures View() == Changed(old(View()), {}, 0, Change.ConfirmFront(requestId))
      ensures ok == Confirms(old(queue), requestId)
    {
      if |queue| == 0 {
        return false;
      }
      var front := queue[0];
      if front.state != Sending && front.state != Sent {
        return false;
      }
      if requestId != "" && front.requestId != "" && front.requestId != requestId {
        return false;
      }
      Publish(draft, queue[1..]);
      ok := true;
    }

    /** queueSendFailed: the front item's content becomes the draft, whatever its state. */
    method FailFront() returns (ok: bool)
      modifies this
      ensures View() == Changed(old(View()), {}, 0, Change.FailFront) && ok == (old(queue) != [])
      ensures ok ==> between == Files(draft, old(queue))
    {
      if |queue| == 0 {
        return false;
      }
      var front := queue[0];
      Publish(Some(Draft(front.content, true, front.carries)), queue[1..]);
      ok := true;
    }

    /** draftDirectSend: at once if nothing is queued, and behind the queue otherwise. */
    method DirectSend(content: string, next: nat) returns (queued: bool)
      modifies this
      ensures View() == Changed(old(View()), {}, next, Change.DirectSend(content)) && queued == (old(queue) != [])
      ensures between == Files(None, old(queue))
    {
      if |queue| == 0 {
        Publish(None, queue);
        return false;
      }
      var seqNo := NextNumber();
      Publish(None, queue + [Item(seqNo, "", content, Queued, "", 0, SubmittedCarries(draft, content, next))]);
      queued := true;
    }

    /** directSendFailed: the text comes back as the draft. */
    method FailDirect(k: nat, sent: Item)
      modifies this
      ensures View() == Changed(old(View()), {}, 0, Change.FailDirect(k, sent)) && between == View()
    {
      Publish(Some(Draft(sent.content, true, sent.carries)), queue);
    }

    /** The items `turn` did not consume, and those it did. */
    method Split(turn: string) returns (kept: seq<Item>, taken: seq<Item>)
      ensures kept == Without(queue, turn) && taken == Of(queue, turn)
    {
      kept, taken := [], [];
      var i := 0;
      assert queue[0..] == queue;
      while i < |queue|
        invariant i <= |queue|
        invariant Without(queue, turn) == kept + Without(queue[i..], turn)
        invariant Of(queue, turn) == taken + Of(queue[i..], turn)
      {
        assert queue[i..][1..] == queue[i + 1..];
        if queue[i].consumedBy == turn {
          taken := taken + [queue[i]];
        } else {
          kept := kept + [queue[i]];
        }
        i := i + 1;
      }
    }

    /** joinQueueContent. */
    method Join(items: seq<Item>) returns (joined: string)
      ensures joined == Joined(items)
    {
      if |items| == 1 {
        return items[0].content;
      }
      joined := "";
      var i := 0;
      assert items[..0] == [];
      while i < |items|
        invariant i <= |items| && joined == Joined(items[..i])
      {
        assert items[..i + 1][..i] == items[..i];
        if i > 0 {
          joined := joined + SEPARATOR;
        }
        joined := joined + items[i].content;
        i := i + 1;
        assert i == 1 ==> joined == items[0].content;
      }
      assert items[..i] == items;
    }

    /** queueRecoverLocked: filters the queue against the published turns and requests. */
    method RecoverItems(published: set<string>) returns (resent: seq<Item>, dropped: seq<Item>)
      modifies this
      ensures View() == Changed(old(View()), published, 0, Change.Recover)
      ensures resent == Resent(old(queue), published) && dropped == Settling(old(queue), published)
      ensures between == Files(old(draft), old(queue))
    {
      hide Recovered, Resent, Settling;
      var kept: seq<Item> := [];
      resent, dropped := [], [];
      var i := 0;
      RecoverFrom(queue, 0, published);
      while i < |queue|
        invariant i <= |queue| && unchanged(this)
        invariant Recovered(queue, published) == kept + Recovered(queue[i..], published)
        invariant Resent(queue, published) == resent + Resent(queue[i..], published)
        invariant Settling(queue, published) == dropped + Settling(queue[i..], published)
      {
        var item := queue[i];
        RecoverStep(queue, i, published, kept, resent, dropped);
        i := i + 1;
        if item.consumedBy != "" && item.consumedBy in published {
          dropped := dropped + [item];
          continue;
        }
        if item.consumedBy == "" && item.requestId != "" && item.requestId in published {
          dropped := dropped + [item];
          continue;
        }
        if item.consumedBy != "" || item.state == Sending || item.state == Sent {
          item := item.(consumedBy := "", state := Queued);
          resent := resent + [item];
        }
        kept := kept + [item];
      }
      RecoverFrom(queue, i, published);
      Publish(draft, kept);
    }

    /** NextQueueSeq: one above every queued item. */
    method NextNumber() returns (n: nat)
      ensures n == NextSeq(queue)
    {
      var top, i := 0, 0;
      assert queue[..0] == [];
      while i < |queue|
        invariant i <= |queue| && top + 1 == NextSeq(queue[..i])
      {
        assert queue[..i + 1][..i] == queue[..i];
        if queue[i].seqNo > top {
          top := queue[i].seqNo;
        }
        i := i + 1;
      }
      assert queue[..i] == queue;
      n := top + 1;
    }
  }

  lemma RecoverFrom(queue: seq<Item>, i: nat, published: set<string>)
    requires i == 0 || i == |queue|
    ensures i == 0 ==> queue[i..] == queue
    ensures i == |queue| ==> Recovered(queue[i..], published) == [] && Resent(queue[i..], published) == []
                             && Settling(queue[i..], published) == []
  {
  }

  lemma Regroup(a: seq<Item>, b: seq<Item>, c: seq<Item>)
    ensures a + (b + c) == (a + b) + c
  {
  }

  lemma RecoverStep(queue: seq<Item>, i: nat, published: set<string>, kept: seq<Item>, resent: seq<Item>, dropped: seq<Item>)
    requires i < |queue|
    ensures kept + Recovered(queue[i..], published)
         == (kept + KeptOf(queue[i], published)) + Recovered(queue[i + 1..], published)
    ensures resent + Resent(queue[i..], published)
         == (resent + ResentOf(queue[i], published)) + Resent(queue[i + 1..], published)
    ensures dropped + Settling(queue[i..], published)
         == (dropped + SettledOf(queue[i], published)) + Settling(queue[i + 1..], published)
    ensures kept + [] == kept && resent + [] == resent && dropped + [] == dropped
  {
    assert queue[i..][1..] == queue[i + 1..];
    Regroup(kept, KeptOf(queue[i], published), Recovered(queue[i + 1..], published));
    Regroup(resent, ResentOf(queue[i], published), Resent(queue[i + 1..], published));
    Regroup(dropped, SettledOf(queue[i], published), Settling(queue[i + 1..], published));
  }

  lemma MarkNothing(queue: seq<Item>, turn: string)
    ensures Marked([], turn) == [] && [] + Marked(queue, turn) == Marked(queue, turn)
  {
  }

  lemma MarkStep(queue: seq<Item>, items: seq<Item>, i: nat, turn: string) returns (next: seq<Item>)
    requires i < |queue| == |items| && items[i..] == queue[i..]
    requires Marked(queue, turn) == items[..i] + Marked(queue[i..], turn)
    ensures next == (if Waiting(queue[i])
                     then items[i := queue[i].(state := Sent, consumedBy := turn, sendCount := queue[i].sendCount + 1)]
                     else items)
    ensures items[i] == queue[i] && next[i + 1..] == queue[i + 1..]
    ensures Marked(queue, turn) == next[..i + 1] + Marked(queue[i + 1..], turn)
  {
    var item := queue[i];
    var marked := if Waiting(item) then item.(state := Sent, consumedBy := turn, sendCount := item.sendCount + 1) else item;
    next := items[i := marked];
    assert items[i] == items[i..][0] == queue[i..][0] == item;
    assert queue[i..][1..] == queue[i + 1..] && items[i..][1..] == items[i + 1..];
    assert Marked(queue[i..], turn) == [marked] + Marked(queue[i + 1..], turn);
    assert next[..i + 1] == items[..i] + [marked];
    Regroup(items[..i], [marked], Marked(queue[i + 1..], turn));
    assert next == if Waiting(item) then next else items;
  }

  lemma {:induction false} NothingConsumed(queue: seq<Item>, turn: string)
    requires Of(queue, turn) == []
    ensures Without(queue, turn) == queue
    decreases |queue|
  {
    if queue != [] {
      assert queue[0].consumedBy == turn ==> |Of(queue, turn)| > 0;
      NothingConsumed(queue[1..], turn);
    }
  }

  // ---- runs that lose or repeat an input ----

  const FIRST := Item(1, "a", "a", Queued, "", 0, [0])
  const SECOND := Item(2, "b", "b", Queued, "", 0, [1])

  /** Two inputs, the first already taken by turn 1. */
  function OneTaken(): World {
    World(Files(None, [FIRST.(state := Sent, consumedBy := "1", sendCount := 1), SECOND]), {}, [], ["a", "b"], [])
  }

  lemma Unfolded(a: Item, b: Item, turn: string)
    ensures CarriedBy([a, b]) == a.carries + b.carries && CarriedBy([a]) == a.carries
    ensures Marked([a], turn) == [if Waiting(a) then a.(state := Sent, consumedBy := turn, sendCount := a.sendCount + 1) else a]
    ensures Of([a, b], turn) == (if a.consumedBy == turn then [a] else []) + if b.consumedBy == turn then [b] else []
    ensures Without([a, b], turn) == (if a.consumedBy == turn then [] else [a]) + if b.consumedBy == turn then [] else [b]
  {
    assert [a, b][1..] == [b] && [b][1..] == [] && [a][1..] == [];
    CarriedOne(a);
    CarriedOne(b);
    assert Of([b], turn) == if b.consumedBy == turn then [b] else [];
    assert Without([b], turn) == if b.consumedBy == turn then [] else [b];
  }

  lemma OneTakenIsConserved()
    ensures Conserved(OneTaken()) && Spelled(OneTaken())
  {
    hide Spelled, CarriedBy;
    Unfolded(OneTaken().files.queue[0], SECOND, "");
    assert Everything(1) == Everything(0) + multiset{0} && Everything(2) == Everything(1) + multiset{1};
    assert multiset([0 as nat] + [1 as nat]) == multiset{0, 1};
    NothingCarried();
    OneTakenIsSpelled();
  }

  lemma OneTakenIsSpelled()
    ensures Spelled(OneTaken())
  {
    JoinOne(["a", "b"], 0);
    JoinOne(["a", "b"], 1);
  }

  /** Turn 1 has failed and handed its input back. */
  function OneReturned(): World {
    World(Files(Some(Draft("a", true, [0])), [SECOND]), {}, [], ["a", "b"], [])
  }

  lemma FailingReturns()
    ensures Possible(OneTaken(), Complete(FailConsumed("1")))
    ensures Apply(OneTaken(), Complete(FailConsumed("1"))) == OneReturned()
  {
    Unfolded(OneTaken().files.queue[0], SECOND, "1");
    CarriedOne(OneTaken().files.queue[0]);
  }

  /** The next turn has taken the second input and, with it, cleared the draft. */
  function FirstLost(): World {
    World(Files(None, [SECOND.(state := Sent, consumedBy := "2", sendCount := 1)]), {}, [], ["a", "b"], [])
  }

  lemma MarkingClears()
    ensures Possible(OneReturned(), Complete(MarkConsumed("2")))
    ensures Apply(OneReturned(), Complete(MarkConsumed("2"))) == FirstLost()
  {
    assert Waiting(OneReturned().files.queue[0]);
    Unfolded(SECOND, SECOND, "2");
  }

  /** A turn fails and hands its input back; the next one clears the draft that holds it: the
      input is nowhere. */
  lemma ReturnedInputLost()
    ensures Conserved(OneTaken()) && OneReturned() == Apply(OneTaken(), Complete(FailConsumed("1")))
    ensures Conserved(OneReturned()) && FirstLost() == Apply(OneReturned(), Complete(MarkConsumed("2")))
    ensures 0 !in Places(FirstLost())
  {
    hide Places, Everything, Apply;
    OneTakenIsConserved();
    FailingReturns();
    CompleteConservesExactly(OneTaken(), FailConsumed("1"));
    MarkingClears();
    FirstIsNowhere();
  }

  lemma FirstIsNowhere()
    ensures 0 !in Places(FirstLost())
  {
    CarriedOne(FirstLost().files.queue[0]);
  }

  /** A crash while turn 1 fails leaves its input in the draft and in the queue; recovery
      queues it again, so it can be sent twice. */
  lemma FailedInputRepeated() returns (crashed: World)
    ensures Possible(OneTaken(), CrashBetweenFiles(FailConsumed("1")))
    ensures crashed == Apply(OneTaken(), CrashBetweenFiles(FailConsumed("1"))) && Places(crashed)[0] == 2
    ensures FIRST.(sendCount := 1) in Resent(crashed.files.queue, {})
  {
    hide Of, Without, CarriedBy, Joined, Resent, Recovered, Settling;
    var w := OneTaken();
    var queue := w.files.queue;
    Unfolded(queue[0], SECOND, "1");
    NothingCarried();
    crashed := Apply(w, CrashBetweenFiles(FailConsumed("1")));
    assert crashed.files.draft.Some? && DraftCarries(crashed.files.draft) == [0];
    assert Places(crashed)[0] == 2 by {
      assert CarriedBy(queue) == [0] + [1];
      assert multiset([0 as nat] + [1 as nat])[0] == 1 && multiset([0 as nat])[0] == 1;
    }
    assert ResentAs(queue, {}, 0, FIRST.(sendCount := 1));
    RecoveryExactly(queue, {}, FIRST.(sendCount := 1));
  }

  /** The returned input is edited before it is saved or submitted again: either way the text
      that was accepted is in no file. */
  lemma EditedInputLost(content: string)
    requires content != "a"
    ensures Conserved(OneReturned())
    ensures 0 !in Places(Apply(OneReturned(), Complete(SaveDraft(content))))
    ensures 0 !in Places(Apply(OneReturned(), Complete(SubmitDraft(content))))
  {
    hide Places, Apply, Conserved;
    OneTakenIsConserved();
    FailingReturns();
    CompleteConservesExactly(OneTaken(), FailConsumed("1"));
    OverwrittenIsNowhere(OneReturned(), SaveDraft(content), 0);
    OverwrittenIsNowhere(OneReturned(), SubmitDraft(content), 0);
  }

  /** A crash while a draft is being queued leaves it in neither file, against the promise
      that one commit both queues the draft and clears it: an input it held is nowhere. */
  lemma SubmittedDraftLost(w: World, content: string, x: nat)
    requires Conserved(w) && x in DraftCarries(w.files.draft) && x < |w.inputs|
    ensures Possible(w, CrashBetweenFiles(SubmitDraft(content)))
    ensures Apply(w, CrashBetweenFiles(SubmitDraft(content))) == w.(files := w.files.(draft := None), flight := [])
    ensures x !in Places(Apply(w, CrashBetweenFiles(SubmitDraft(content))))
  {
    InputIsInOnePlace(w, x);
    assert x in multiset(DraftCarries(w.files.draft));
  }
}
