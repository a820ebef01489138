/** The plan, task and goal stacks (store/stack_channel.go, store/stack_journal.go,
    store/stack_journal_json.go): batches that leave the stack whole, a goal stack that is
    LIFO, a commit that may crash, and the snapshot a fork takes of the past. */
module StackChannel {
  datatype Result<T> = Ok(value: T) | Err

  /** `entered` is the message coordinate at the push, `closedTo` the recorded closing
      coordinate; `popped` is history: the coordinate at which the row really left. */
  datatype Row = Row(itemId: string, batchId: string, seqNo: nat, status: string,
                     entered: nat, closedTo: nat, revision: nat, popped: nat)

  /** `now` is the published message coordinate a commit takes as its anchor. */
  datatype Stack = Stack(active: seq<Row>, archived: seq<Row>, revision: nat, nextSeq: nat, now: nat)

  const TERMINAL: set<string> := {"closed", "completed", "failed", "aborted", "done", "archived"}

  datatype Item = Item(itemId: string, status: string)

  // ---- the changes ----

  predicate Contains(rows: seq<Row>, itemId: string) {
    exists i :: 0 <= i < |rows| && rows[i].itemId == itemId
  }

  function InBatch(rows: seq<Row>, batchId: string): seq<Row> {
    if rows == [] then []
    else InBatch(rows[..|rows| - 1], batchId)
         + if rows[|rows| - 1].batchId == batchId then [rows[|rows| - 1]] else []
  }

  function OutOfBatch(rows: seq<Row>, batchId: string): seq<Row> {
    if rows == [] then []
    else OutOfBatch(rows[..|rows| - 1], batchId)
         + if rows[|rows| - 1].batchId == batchId then [] else [rows[|rows| - 1]]
  }

  function LatestEntry(batch: seq<Row>): nat {
    if batch == [] then 0
    else
      var before := LatestEntry(batch[..|batch| - 1]);
      if batch[|batch| - 1].entered >= before then batch[|batch| - 1].entered else before
  }

  /** The batch's closing coordinate is the latest at which one of its items entered. */
  function Stamped(s: Stack, batch: seq<Row>, status: string): seq<Row> {
    seq(|batch|, i requires 0 <= i < |batch| =>
      batch[i].(status := if status == "" then batch[i].status else status,
                closedTo := LatestEntry(batch), revision := s.revision + 1, popped := s.now))
  }

  function ClosedBatch(s: Stack, batchId: string, status: string): Stack {
    s.(active := OutOfBatch(s.active, batchId),
       archived := s.archived + Stamped(s, InBatch(s.active, batchId), status))
  }

  function Committed(s: Stack): Stack {
    s.(revision := s.revision + 1)
  }

  function Pushed(s: Stack, batchId: string, items: seq<Item>): Result<Stack> {
    if items == [] then Ok(s)
    else
      match Pushed(s, batchId, items[..|items| - 1])
      case Err => Err
      case Ok(t) =>
        var item := items[|items| - 1];
        if item.itemId == "" || Contains(t.active, item.itemId) then Err
        else
          var status := if item.status == "" then "active" else item.status;
          Ok(t.(nextSeq := t.nextSeq + 1,
                active := t.active + [Row(item.itemId, batchId, t.nextSeq + 1, status, t.now, 0, t.revision + 1, 0)]))
  }

  predicate BatchDone(rows: seq<Row>, batchId: string) {
    forall i :: 0 <= i < |rows| && rows[i].batchId == batchId ==> rows[i].status in TERMINAL
  }

  function IndexOf(rows: seq<Row>, itemId: string): (k: nat)
    ensures k <= |rows| && (k < |rows| ==> rows[k].itemId == itemId)
    ensures forall i :: 0 <= i < k ==> rows[i].itemId != itemId
  {
    if rows == [] || rows[0].itemId == itemId then 0 else 1 + IndexOf(rows[1..], itemId)
  }

  function Updated(s: Stack, itemId: string, status: string): Result<Stack> {
    var k := IndexOf(s.active, itemId);
    if k == |s.active| then Err
    else
      var t := s.(active := s.active[k := s.active[k].(status := status)]);
      if status in TERMINAL && BatchDone(t.active, t.active[k].batchId)
      then Ok(ClosedBatch(t, t.active[k].batchId, status)) else Ok(t)
  }

  function PoppedTop(s: Stack, itemId: string, status: string): Result<Stack> {
    if s.active == [] then Err
    else
      var top := s.active[|s.active| - 1];
      if itemId != "" && top.itemId != itemId then Err
      else Ok(s.(active := s.active[..|s.active| - 1], archived := s.archived + Stamped(s, [top], status)))
  }

  function Closed(s: Stack, batchId: string, status: string): Result<Stack> {
    if InBatch(s.active, batchId) == [] then Err else Ok(ClosedBatch(s, batchId, status))
  }

  datatype Step =
    | Advance(rows: nat)
    | Push(batchId: string, items: seq<Item>)
    | SetStatus(itemId: string, status: string)
    | PopTop(itemId: string, status: string)
    | CloseBatch(batchId: string, status: string)

  function Outcome(s: Stack, step: Step): Result<Stack> {
    match step
    case Advance(rows) => Ok(s.(now := s.now + rows))
    case Push(batchId, items) => Pushed(s, batchId, items)
    case SetStatus(itemId, status) => Updated(s, itemId, status)
    case PopTop(itemId, status) => PoppedTop(s, itemId, status)
    case CloseBatch(batchId, status) => Closed(s, batchId, status)
  }

  /** A refused change, like an empty push, publishes nothing. */
  function Next(s: Stack, step: Step): Stack {
    match Outcome(s, step)
    case Err => s
    case Ok(t) => if step.Advance? || t == s then t else Committed(t)
  }

  // ---- what every step keeps ----

  predicate Distinct(rows: seq<Row>)
    decreases |rows|
  {
    rows == [] || (Distinct(rows[..|rows| - 1]) && !Contains(rows[..|rows| - 1], rows[|rows| - 1].itemId))
  }

  /** Newer rows lie above older ones. */
  predicate Stacked(rows: seq<Row>, top: nat)
    decreases |rows|
  {
    rows == [] ||
    (var last := rows[|rows| - 1].seqNo; 0 < last <= top && Stacked(rows[..|rows| - 1], last - 1))
  }

  predicate Entered(rows: seq<Row>, now: nat) {
    forall i :: 0 <= i < |rows| ==> rows[i].entered <= now
  }

  predicate Left(rows: seq<Row>, now: nat) {
    forall i :: 0 <= i < |rows| ==> rows[i].entered <= rows[i].closedTo <= rows[i].popped <= now
  }

  /** The rows of one item were archived in different commits, each after the item had come
      back from the one before. */
  predicate Successive(rows: seq<Row>, revision: nat) {
    && (forall i :: 0 <= i < |rows| ==> rows[i].revision <= revision)
    && (forall i, j :: 0 <= i < j < |rows| && rows[i].itemId == rows[j].itemId ==>
          rows[i].revision < rows[j].revision && rows[i].popped <= rows[j].entered)
  }

  /** An item on the stack came back after it was last archived. */
  predicate Returned(active: seq<Row>, archived: seq<Row>) {
    forall i, j :: 0 <= i < |active| && 0 <= j < |archived| && active[i].itemId == archived[j].itemId ==>
      archived[j].popped <= active[i].entered
  }

  predicate Committable(active: seq<Row>, revision: nat) {
    forall i :: 0 <= i < |active| ==> active[i].revision <= revision
  }

  predicate Sound(s: Stack) {
    && Distinct(s.active) && Stacked(s.active, s.nextSeq) && Entered(s.active, s.now)
    && Left(s.archived, s.now) && Successive(s.archived, s.revision) && Returned(s.active, s.archived)
    && Committable(s.active, s.revision)
  }

  lemma SplitLast(rows: seq<Row>, r: Row)
    requires rows != []
    ensures r in rows <==> r in rows[..|rows| - 1] || r == rows[|rows| - 1]
  {
    assert rows == rows[..|rows| - 1] + [rows[|rows| - 1]];
  }

  lemma {:induction false} BatchMembers(rows: seq<Row>, batchId: string, r: Row)
    ensures r in OutOfBatch(rows, batchId) <==> r in rows && r.batchId != batchId
    ensures r in InBatch(rows, batchId) <==> r in rows && r.batchId == batchId
    decreases |rows|
  {
    if rows != [] {
      BatchMembers(rows[..|rows| - 1], batchId, r);
      SplitLast(rows, r);
    }
  }

  lemma ContainedIn(small: seq<Row>, rows: seq<Row>, itemId: string)
    requires forall i :: 0 <= i < |small| ==> small[i] in rows
    ensures Contains(small, itemId) ==> Contains(rows, itemId)
  {
    if i :| 0 <= i < |small| && small[i].itemId == itemId {
      assert small[i] in rows;
    }
  }

  lemma {:induction false} StackedMore(rows: seq<Row>, top: nat, more: nat)
    requires Stacked(rows, top) && top <= more
    ensures Stacked(rows, more)
  {
  }

  lemma LastRow(rows: seq<Row>, top: nat, now: nat)
    requires rows != [] && Distinct(rows) && Stacked(rows, top) && Entered(rows, now)
    ensures var front, last := rows[..|rows| - 1], rows[|rows| - 1];
            && Distinct(front) && !Contains(front, last.itemId) && Entered(front, now) && last.entered <= now
            && 0 < last.seqNo <= top && Stacked(front, last.seqNo - 1)
  {
  }

  lemma NoRows(top: nat, now: nat)
    ensures Distinct([]) && Stacked([], top) && Entered([], now)
  {
  }

  lemma {:induction false} BatchKeeps(rows: seq<Row>, batchId: string, top: nat, now: nat)
    requires Distinct(rows) && Stacked(rows, top) && Entered(rows, now)
    ensures Distinct(OutOfBatch(rows, batchId)) && Distinct(InBatch(rows, batchId))
    ensures Stacked(OutOfBatch(rows, batchId), top)
    ensures Entered(OutOfBatch(rows, batchId), now) && Entered(InBatch(rows, batchId), now)
    decreases |rows|
  {
    hide Distinct, Stacked, Entered, Contains;
    if rows == [] {
      NoRows(top, now);
    } else {
      var front, last := rows[..|rows| - 1], rows[|rows| - 1];
      LastRow(rows, top, now);
      BatchKeeps(front, batchId, last.seqNo - 1, now);
      forall r ensures r in OutOfBatch(front, batchId) || r in InBatch(front, batchId) ==> r in front {
        BatchMembers(front, batchId, r);
      }
      ContainedIn(OutOfBatch(front, batchId), front, last.itemId);
      ContainedIn(InBatch(front, batchId), front, last.itemId);
      StackedMore(OutOfBatch(front, batchId), last.seqNo - 1, top);
      KeepOrAdd(OutOfBatch(front, batchId), last, top, now);
      KeepOrAdd(InBatch(front, batchId), last, top, now);
    }
  }

  lemma KeepOrAdd(rows: seq<Row>, last: Row, top: nat, now: nat)
    requires Distinct(rows) && !Contains(rows, last.itemId) && Entered(rows, now) && last.entered <= now
    ensures rows + [] == rows && Distinct(rows + [last]) && Entered(rows + [last], now)
    ensures 0 < last.seqNo <= top && Stacked(rows, last.seqNo - 1) ==> Stacked(rows + [last], top)
  {
    assert (rows + [last])[..|rows|] == rows;
  }

  lemma {:induction false} DistinctPair(rows: seq<Row>, i: nat, j: nat)
    requires Distinct(rows) && i < j < |rows|
    ensures rows[i].itemId != rows[j].itemId
    decreases |rows|
  {
    if j < |rows| - 1 {
      assert rows[i] == rows[..|rows| - 1][i] && rows[j] == rows[..|rows| - 1][j];
      DistinctPair(rows[..|rows| - 1], i, j);
    } else {
      assert rows[i] == rows[..|rows| - 1][i];
    }
  }

  lemma {:induction false} LatestEntryBounds(batch: seq<Row>, now: nat)
    requires Entered(batch, now)
    ensures LatestEntry(batch) <= now && forall i :: 0 <= i < |batch| ==> batch[i].entered <= LatestEntry(batch)
    decreases |batch|
  {
    if batch != [] {
      LatestEntryBounds(batch[..|batch| - 1], now);
    }
  }

  /** Archiving rows of the stack keeps the archive in order. */
  lemma StampedIsSound(s: Stack, batch: seq<Row>, status: string)
    requires Left(s.archived, s.now) && Successive(s.archived, s.revision)
    requires Distinct(batch) && Entered(batch, s.now) && Returned(batch, s.archived)
    ensures var archived := s.archived + Stamped(s, batch, status);
            Left(archived, s.now) && Successive(archived, s.revision + 1)
  {
    LatestEntryBounds(batch, s.now);
    var stamped, n := Stamped(s, batch, status), |s.archived|;
    var archived := s.archived + stamped;
    forall i, j | n <= i < j < |archived| ensures archived[i].itemId != archived[j].itemId {
      DistinctPair(batch, i - n, j - n);
    }
  }

  /** Rows picked from the stack, and what stays, are still back from the archive. */
  lemma PickedReturned(s: Stack, kept: seq<Row>, batch: seq<Row>, status: string)
    requires Distinct(s.active) && Returned(s.active, s.archived) && Committable(s.active, s.revision)
    requires forall i :: 0 <= i < |kept| ==> kept[i] in s.active
    requires forall i :: 0 <= i < |batch| ==> batch[i] in s.active
    requires forall i, j :: 0 <= i < |kept| && 0 <= j < |batch| ==> kept[i].itemId != batch[j].itemId
    ensures Returned(batch, s.archived) && Returned(kept, s.archived + Stamped(s, batch, status))
    ensures Committable(kept, s.revision + 1)
  {
    var stamped := Stamped(s, batch, status);
    assert forall j :: 0 <= j < |stamped| ==> stamped[j].itemId == batch[j].itemId;
  }

  lemma DifferentItems(rows: seq<Row>, a: Row, b: Row)
    requires Distinct(rows) && a in rows && b in rows && a != b
    ensures a.itemId != b.itemId
  {
    var i :| 0 <= i < |rows| && rows[i] == a;
    var j :| 0 <= j < |rows| && rows[j] == b;
    if i < j {
      DistinctPair(rows, i, j);
    } else {
      DistinctPair(rows, j, i);
    }
  }

  lemma ClosedBatchIsSound(s: Stack, batchId: string, status: string)
    requires Sound(s)
    ensures Sound(Committed(ClosedBatch(s, batchId, status)))
  {
    hide Distinct, Stacked, Left, Successive, Returned, Committable;
    var kept, batch := OutOfBatch(s.active, batchId), InBatch(s.active, batchId);
    BatchKeeps(s.active, batchId, s.nextSeq, s.now);
    forall r ensures (r in kept ==> r in s.active && r.batchId != batchId) && (r in batch ==> r in s.active && r.batchId == batchId) {
      BatchMembers(s.active, batchId, r);
    }
    forall i, j | 0 <= i < |kept| && 0 <= j < |batch| ensures kept[i].itemId != batch[j].itemId {
      assert kept[i] in kept && batch[j] in batch;
      DifferentItems(s.active, kept[i], batch[j]);
    }
    PickedReturned(s, kept, batch, status);
    StampedIsSound(s, batch, status);
  }

  /** The stack after some pushes of a commit not yet published. */
  predicate Growing(s: Stack, t: Stack) {
    && t == s.(active := t.active, nextSeq := t.nextSeq)
    && Distinct(t.active) && Stacked(t.active, t.nextSeq) && Entered(t.active, t.now)
    && Returned(t.active, t.archived) && Committable(t.active, t.revision + 1)
    && |s.active| <= |t.active| && t.active[..|s.active|] == s.active
    && (forall i :: |s.active| <= i < |t.active| ==> t.active[i].revision == s.revision + 1 && t.active[i].entered == s.now)
  }

  lemma OneMorePush(s: Stack, t: Stack, row: Row)
    requires Sound(s) && Growing(s, t) && !Contains(t.active, row.itemId)
    requires row.seqNo == t.nextSeq + 1 && row.entered == s.now && row.revision == s.revision + 1
    ensures Growing(s, t.(nextSeq := t.nextSeq + 1, active := t.active + [row]))
  {
    hide Distinct, Stacked;
    KeepOrAdd(t.active, row, t.nextSeq + 1, t.now);
    assert (t.active + [row])[..|s.active|] == s.active;
  }

  lemma {:induction false} PushedGrows(s: Stack, batchId: string, items: seq<Item>)
    requires Sound(s) && Pushed(s, batchId, items).Ok?
    ensures Growing(s, Pushed(s, batchId, items).value)
    decreases |items|
  {
    if items != [] {
      hide Sound, Growing;
      PushedGrows(s, batchId, items[..|items| - 1]);
      var t, u := Pushed(s, batchId, items[..|items| - 1]).value, Pushed(s, batchId, items).value;
      assert t.revision == s.revision && t.now == s.now by { assert Growing(s, t); GrowingKeeps(s, t); }
      OneMorePush(s, t, u.active[|t.active|]);
    } else {
      assert s.active[..|s.active|] == s.active;
    }
  }

  lemma GrowingKeeps(s: Stack, t: Stack)
    requires Growing(s, t)
    ensures t.revision == s.revision && t.now == s.now && t.archived == s.archived
  {
  }

  lemma GrownIsSound(s: Stack, t: Stack)
    requires Sound(s) && Growing(s, t)
    ensures Sound(Committed(t))
  {
  }

  function Restatused(rows: seq<Row>, k: nat, status: string): seq<Row>
    requires k < |rows|
  {
    rows[k := rows[k].(status := status)]
  }

  lemma RestatusContains(rows: seq<Row>, k: nat, status: string, id: string)
    requires k < |rows|
    ensures Contains(Restatused(rows, k, status), id) <==> Contains(rows, id)
  {
    var next := Restatused(rows, k, status);
    if i :| 0 <= i < |rows| && rows[i].itemId == id {
      assert next[i].itemId == id;
    }
    if i :| 0 <= i < |rows| && next[i].itemId == id {
      assert rows[i].itemId == id;
    }
  }

  /** Changing a status disturbs neither the identities nor the order. */
  lemma {:induction false} RestatusKeeps(rows: seq<Row>, k: nat, status: string, top: nat, now: nat)
    requires Distinct(rows) && Stacked(rows, top) && Entered(rows, now) && k < |rows|
    ensures var next := Restatused(rows, k, status); Distinct(next) && Stacked(next, top) && Entered(next, now)
    decreases |rows|
  {
    var next := Restatused(rows, k, status);
    var front, last := rows[..|rows| - 1], rows[|rows| - 1];
    if k < |rows| - 1 {
      RestatusKeeps(front, k, status, last.seqNo - 1, now);
      RestatusContains(front, k, status, last.itemId);
      assert next[..|rows| - 1] == Restatused(front, k, status);
    } else {
      assert next[..|rows| - 1] == front;
    }
  }

  lemma RestatusIsSound(s: Stack, k: nat, status: string)
    requires Sound(s) && k < |s.active|
    ensures Sound(s.(active := Restatused(s.active, k, status)))
  {
    hide Distinct, Stacked, Left, Successive;
    RestatusKeeps(s.active, k, status, s.nextSeq, s.now);
  }

  lemma OneIsDistinct(row: Row)
    ensures Distinct([row])
  {
    assert [row][..0] == [];
  }

  lemma PopIsSound(s: Stack, status: string)
    requires Sound(s) && s.active != []
    ensures var top := s.active[|s.active| - 1];
            Sound(Committed(s.(active := s.active[..|s.active| - 1], archived := s.archived + Stamped(s, [top], status))))
  {
    hide Left, Successive, Returned, Committable;
    var kept, top := s.active[..|s.active| - 1], s.active[|s.active| - 1];
    OneIsDistinct(top);
    StackedMore(kept, top.seqNo - 1, s.nextSeq);
    forall i | 0 <= i < |kept| ensures kept[i].itemId != top.itemId {
      DistinctPair(s.active, i, |kept|);
    }
    PickedReturned(s, kept, [top], status);
    StampedIsSound(s, [top], status);
  }

  lemma CommittedIsSound(s: Stack)
    requires Sound(s)
    ensures Sound(Committed(s))
  {
  }

  lemma AdvanceIsSound(s: Stack, rows: nat)
    requires Sound(s)
    ensures Sound(s.(now := s.now + rows))
  {
  }

  lemma StepKeepsSound(s: Stack, step: Step)
    requires Sound(s)
    ensures Sound(Next(s, step))
  {
    hide Sound, BatchDone;
    match step
    case Advance(rows) => AdvanceIsSound(s, rows);
    case Push(batchId, items) =>
      if Pushed(s, batchId, items).Ok? {
        PushedGrows(s, batchId, items);
        GrownIsSound(s, Pushed(s, batchId, items).value);
      }
    case SetStatus(itemId, status) =>
      var k := IndexOf(s.active, itemId);
      if k < |s.active| {
        RestatusIsSound(s, k, status);
        var t := s.(active := Restatused(s.active, k, status));
        CommittedIsSound(t);
        ClosedBatchIsSound(t, t.active[k].batchId, status);
      }
    case PopTop(_, status) => if s.active != [] { PopIsSound(s, status); }
    case CloseBatch(batchId, status) => ClosedBatchIsSound(s, batchId, status);
  }

  // ---- whole batches, last in first out ----

  /** Closing a batch takes every one of its rows off the stack and archives each of them
      once, under one closing coordinate and one revision; no other row moves. */
  lemma ClosingTakesTheWholeBatch(s: Stack, batchId: string, status: string, r: Row)
    ensures var t := ClosedBatch(s, batchId, status);
            && (r in t.active <==> r in s.active && r.batchId != batchId)
            && |t.archived| == |s.archived| + |InBatch(s.active, batchId)|
            && (r in s.active && r.batchId == batchId ==> ArchivedSince(s, t, r))
            && (forall i, j :: |s.archived| <= i < |t.archived| && |s.archived| <= j < |t.archived| ==>
                  t.archived[i].closedTo == t.archived[j].closedTo && t.archived[i].revision == t.archived[j].revision)
  {
    var batch, t := InBatch(s.active, batchId), ClosedBatch(s, batchId, status);
    BatchMembers(s.active, batchId, r);
    if r in batch {
      var i :| 0 <= i < |batch| && batch[i] == r;
      assert t.archived[|s.archived| + i].itemId == r.itemId;
    }
  }

  predicate ArchivedSince(s: Stack, t: Stack, r: Row) {
    exists i :: |s.archived| <= i < |t.archived| && t.archived[i].itemId == r.itemId && t.archived[i].entered == r.entered
  }

  /** A status change archives exactly when it completes the last open item of its batch, and
      then the whole batch; otherwise nothing leaves the stack. */
  lemma BatchLeavesWhenDone(s: Stack, itemId: string, status: string)
    requires Updated(s, itemId, status).Ok?
    ensures var k, t := IndexOf(s.active, itemId), Updated(s, itemId, status).value;
            && k < |s.active|
            && var batchId := s.active[k].batchId;
            if status in TERMINAL && forall i :: 0 <= i < |s.active| && i != k && s.active[i].batchId == batchId ==>
                                       s.active[i].status in TERMINAL
            then InBatch(t.active, batchId) == [] && |t.archived| > |s.archived|
            else t.archived == s.archived && |t.active| == |s.active|
  {
    var k := IndexOf(s.active, itemId);
    var batchId, next := s.active[k].batchId, Restatused(s.active, k, status);
    assert forall i :: 0 <= i < |next| && i != k ==> next[i] == s.active[i];
    if BatchDone(next, batchId) {
      forall i | 0 <= i < |s.active| && i != k && s.active[i].batchId == batchId ensures s.active[i].status in TERMINAL {
        assert next[i].batchId == batchId;
      }
    }
    BatchMembers(next, batchId, next[k]);
    NothingLeftInBatch(next, batchId);
  }

  lemma {:induction false} NothingLeftInBatch(rows: seq<Row>, batchId: string)
    ensures InBatch(OutOfBatch(rows, batchId), batchId) == []
    decreases |rows|
  {
    if rows != [] {
      var front, last := rows[..|rows| - 1], rows[|rows| - 1];
      NothingLeftInBatch(front, batchId);
      var kept := OutOfBatch(front, batchId);
      assert kept + [] == kept && (kept + [last])[..|kept|] == kept;
    }
  }

  /** Completing the last item of a batch overwrites the recorded status of the others: an
      item that had failed is archived as completed. */
  lemma ClosingKeepsStatusesExactly(s: Stack, batchId: string, status: string)
    requires status != ""
    ensures var batch, stamped := InBatch(s.active, batchId), Stamped(s, InBatch(s.active, batchId), status);
            (forall i :: 0 <= i < |batch| ==> stamped[i].status == batch[i].status)
            <==> forall i :: 0 <= i < |batch| ==> batch[i].status == status
  {
    var batch, stamped := InBatch(s.active, batchId), Stamped(s, InBatch(s.active, batchId), status);
    assert forall i :: 0 <= i < |batch| ==> stamped[i].status == status;
  }

  lemma {:induction false} TopIsNewest(rows: seq<Row>, top: nat, i: nat)
    requires Stacked(rows, top) && i < |rows|
    ensures rows[i].seqNo <= top && (i < |rows| - 1 ==> rows[i].seqNo < rows[|rows| - 1].seqNo)
    decreases |rows|
  {
    if i < |rows| - 1 {
      assert rows[i] == rows[..|rows| - 1][i];
      TopIsNewest(rows[..|rows| - 1], rows[|rows| - 1].seqNo - 1, i);
    }
  }

  /** A pop takes the newest row, refuses any other by name, and leaves the rest in place. */
  lemma PopIsLastInFirstOut(s: Stack, itemId: string, status: string)
    requires Sound(s) && itemId != ""
    ensures PoppedTop(s, itemId, status).Ok? <==> s.active != [] && s.active[|s.active| - 1].itemId == itemId
    ensures PoppedTop(s, itemId, status).Ok? ==>
              && PoppedTop(s, itemId, status).value.active == s.active[..|s.active| - 1]
              && forall i :: 0 <= i < |s.active| - 1 ==> s.active[i].seqNo < s.active[|s.active| - 1].seqNo
  {
    if s.active != [] {
      forall i | 0 <= i < |s.active| - 1 ensures s.active[i].seqNo < s.active[|s.active| - 1].seqNo {
        TopIsNewest(s.active, s.nextSeq, i);
      }
    }
  }

  function Popped(s: Stack, n: nat, status: string): Stack
    decreases n
  {
    if n == 0 then s else Popped(Next(s, PopTop("", status)), n - 1, status)
  }

  function Ids(rows: seq<Row>): seq<string> {
    if rows == [] then [] else Ids(rows[..|rows| - 1]) + [rows[|rows| - 1].itemId]
  }

  function Names(items: seq<Item>): seq<string> {
    if items == [] then [] else Names(items[..|items| - 1]) + [items[|items| - 1].itemId]
  }

  function Backwards(ids: seq<string>): seq<string> {
    if ids == [] then [] else [ids[|ids| - 1]] + Backwards(ids[..|ids| - 1])
  }

  lemma IdsOfMore(rows: seq<Row>, row: Row)
    ensures Ids(rows + [row]) == Ids(rows) + [row.itemId]
  {
    assert (rows + [row])[..|rows|] == rows;
  }

  lemma BackwardsOfMore(ids: seq<string>, id: string)
    ensures Backwards(ids + [id]) == [id] + Backwards(ids)
  {
    assert (ids + [id])[..|ids|] == ids;
  }

  lemma PopOne(s: Stack, status: string)
    requires s.active != []
    ensures var t := Next(s, PopTop("", status)); var n := |s.active| - 1;
            t.active == s.active[..n] && Ids(t.archived) == Ids(s.archived) + [s.active[n].itemId]
  {
    var stamped := Stamped(s, [s.active[|s.active| - 1]], status);
    assert stamped == [stamped[0]];
    IdsOfMore(s.archived, stamped[0]);
  }

  /** Pops take the newest rows, one after the other, and archive them as they go. */
  lemma {:induction false} PopsPeel(s: Stack, n: nat, status: string)
    requires n <= |s.active|
    ensures var t := Popped(s, n, status); var k := |s.active| - n;
            t.active == s.active[..k] && Ids(t.archived) == Ids(s.archived) + Backwards(Ids(s.active[k..]))
    decreases n
  {
    hide Next, Ids, Backwards;
    var k := |s.active| - n;
    if n == 0 {
      assert s.active[k..] == [];
      NoIds(s.archived);
    } else {
      var rest, top := s.active[..|s.active| - 1], s.active[|s.active| - 1];
      PopOne(s, status);
      PopsPeel(Next(s, PopTop("", status)), n - 1, status);
      assert s.active[k..] == rest[k..] + [top] && rest[..k] == s.active[..k];
      IdsOfMore(rest[k..], top);
      BackwardsOfMore(Ids(rest[k..]), top.itemId);
      assert (Ids(s.archived) + [top.itemId]) + Backwards(Ids(rest[k..]))
          == Ids(s.archived) + ([top.itemId] + Backwards(Ids(rest[k..])));
    }
  }

  lemma NoIds(rows: seq<Row>)
    ensures Ids([]) == [] && Backwards([]) == [] && Ids(rows) + [] == Ids(rows)
  {
  }

  lemma {:induction false} PushedNames(s: Stack, batchId: string, items: seq<Item>)
    requires Pushed(s, batchId, items).Ok?
    ensures var t := Pushed(s, batchId, items).value;
            && t.archived == s.archived && |t.active| == |s.active| + |items| && t.active[..|s.active|] == s.active
            && Ids(t.active[|s.active|..]) == Names(items)
    decreases |items|
  {
    hide Contains;
    if items == [] {
      assert s.active[|s.active|..] == [] && s.active[..|s.active|] == s.active;
    } else {
      PushedNames(s, batchId, items[..|items| - 1]);
      var t, u := Pushed(s, batchId, items[..|items| - 1]).value, Pushed(s, batchId, items).value;
      var row := u.active[|t.active|];
      hide Pushed;
      assert u.active == t.active + [row];
      assert u.active[..|s.active|] == t.active[..|s.active|];
      assert u.active[|s.active|..] == t.active[|s.active|..] + [row];
      IdsOfMore(t.active[|s.active|..], row);
    }
  }

  /** The name is given, new to the stack, and new within the push. */
  predicate Usable(s: Stack, items: seq<Item>, i: nat)
    requires i < |items|
  {
    items[i].itemId != "" && !Contains(s.active, items[i].itemId) && forall j :: 0 <= j < i ==> items[j].itemId != items[i].itemId
  }

  /** The row an item becomes. */
  function PushedRow(s: Stack, batchId: string, items: seq<Item>, i: nat): Row
    requires i < |items|
  {
    Row(items[i].itemId, batchId, s.nextSeq + 1 + i, if items[i].status == "" then "active" else items[i].status,
        s.now, 0, s.revision + 1, 0)
  }

  /** The rows of the first items, on top of the old ones. */
  predicate OnTop(s: Stack, batchId: string, items: seq<Item>, t: Stack) {
    && t == s.(active := t.active, nextSeq := s.nextSeq + |items|)
    && |t.active| == |s.active| + |items| && t.active[..|s.active|] == s.active
    && forall i :: 0 <= i < |items| ==> t.active[|s.active| + i] == PushedRow(s, batchId, items, i)
  }

  lemma OneMoreOnTop(s: Stack, batchId: string, items: seq<Item>, t: Stack, u: Stack)
    requires items != [] && OnTop(s, batchId, items[..|items| - 1], t)
    requires u == t.(nextSeq := t.nextSeq + 1, active := t.active + [PushedRow(s, batchId, items, |items| - 1)])
    ensures OnTop(s, batchId, items, u)
  {
    var front, n := items[..|items| - 1], |s.active|;
    assert u.active[..n] == t.active[..n];
    forall i | 0 <= i < |items| ensures u.active[n + i] == PushedRow(s, batchId, items, i) {
      if i < |front| {
        assert t.active[n + i] == PushedRow(s, batchId, front, i);
      }
    }
  }

  predicate AllUsable(s: Stack, items: seq<Item>) {
    forall i :: 0 <= i < |items| ==> Usable(s, items, i)
  }

  lemma UsableFront(s: Stack, items: seq<Item>)
    requires items != []
    ensures AllUsable(s, items) <==> AllUsable(s, items[..|items| - 1]) && Usable(s, items, |items| - 1)
  {
    var front := items[..|items| - 1];
    assert forall i :: 0 <= i < |front| ==> Usable(s, items, i) == Usable(s, front, i);
  }

  /** A push succeeds exactly when every name is given, new to the stack and new within the
      push; it then puts the items on top in order, as one batch entered at the published
      coordinate, and leaves everything below as it was. */
  lemma {:induction false} PushedExactly(s: Stack, batchId: string, items: seq<Item>)
    ensures Pushed(s, batchId, items).Ok? <==> AllUsable(s, items)
    ensures Pushed(s, batchId, items).Ok? ==> OnTop(s, batchId, items, Pushed(s, batchId, items).value)
    decreases |items|
  {
    hide OnTop, Usable, Contains, AllUsable;
    if items == [] {
      NothingOnTop(s, batchId);
    } else {
      var front := items[..|items| - 1];
      PushedExactly(s, batchId, front);
      UsableFront(s, items);
      if Pushed(s, batchId, front).Ok? {
        var t := Pushed(s, batchId, front).value;
        LastUsable(s, batchId, items, t);
        if Pushed(s, batchId, items).Ok? {
          OneMoreOnTop(s, batchId, items, t, Pushed(s, batchId, items).value);
        }
      }
    }
  }

  lemma NothingOnTop(s: Stack, batchId: string)
    ensures OnTop(s, batchId, [], s) && AllUsable(s, [])
  {
    assert s.active[..|s.active|] == s.active;
  }

  lemma LastUsable(s: Stack, batchId: string, items: seq<Item>, t: Stack)
    requires items != [] && OnTop(s, batchId, items[..|items| - 1], t)
    ensures var item := items[|items| - 1];
            && (Usable(s, items, |items| - 1) <==> item.itemId != "" && !Contains(t.active, item.itemId))
            && PushedRow(s, batchId, items, |items| - 1)
               == Row(item.itemId, batchId, t.nextSeq + 1, if item.status == "" then "active" else item.status, t.now, 0, t.revision + 1, 0)
  {
    PushedContains(s, batchId, items[..|items| - 1], t, items[|items| - 1].itemId);
  }

  lemma PushedContains(s: Stack, batchId: string, items: seq<Item>, t: Stack, itemId: string)
    requires OnTop(s, batchId, items, t)
    ensures Contains(t.active, itemId) <==> Contains(s.active, itemId) || exists j :: 0 <= j < |items| && items[j].itemId == itemId
  {
    var n := |s.active|;
    assert forall i :: 0 <= i < n ==> t.active[i] == t.active[..n][i] == s.active[i];
    if i :| 0 <= i < |t.active| && t.active[i].itemId == itemId {
      assert i >= n ==> t.active[n + (i - n)] == PushedRow(s, batchId, items, i - n);
    }
    if j :| 0 <= j < |items| && items[j].itemId == itemId {
      assert t.active[n + j] == PushedRow(s, batchId, items, j);
    }
    if i :| 0 <= i < n && s.active[i].itemId == itemId {
      assert t.active[i].itemId == itemId;
    }
  }

  /** As many pops as items were pushed give the stack back, and the archive gains the items
      in reverse order. */
  lemma PopsUndoPushes(s: Stack, batchId: string, items: seq<Item>, status: string)
    requires Pushed(s, batchId, items).Ok?
    ensures var t := Popped(Next(s, Push(batchId, items)), |items|, status);
            t.active == s.active && Ids(t.archived) == Ids(s.archived) + Backwards(Names(items))
  {
    hide Pushed, Popped, Ids, Names, Backwards;
    PushedNames(s, batchId, items);
    PopsPeel(Next(s, Push(batchId, items)), |items|, status);
  }

  // ---- what leaves and what stays, row by row ----

  /** The latest coordinate at which one of the rows entered. */
  predicate IsLatest(batch: seq<Row>, at: nat) {
    && (forall i :: 0 <= i < |batch| ==> batch[i].entered <= at)
    && (batch != [] ==> exists i :: 0 <= i < |batch| && batch[i].entered == at)
  }

  lemma {:induction false} LatestEntryExactly(batch: seq<Row>)
    ensures IsLatest(batch, LatestEntry(batch))
    decreases |batch|
  {
    if batch != [] {
      var front, last := batch[..|batch| - 1], batch[|batch| - 1];
      LatestEntryExactly(front);
      assert forall i :: 0 <= i < |front| ==> front[i] == batch[i];
      if front != [] && LatestEntry(batch) == LatestEntry(front) {
        var i :| 0 <= i < |front| && front[i].entered == LatestEntry(front);
        assert batch[i].entered == LatestEntry(batch);
      } else {
        assert batch[|batch| - 1].entered == LatestEntry(batch);
      }
    }
  }

  /** The row in the archive: as it was, but for the status if one is given, its closing
      coordinate, and the revision and coordinate of the commit. */
  predicate IsRecord(s: Stack, row: Row, status: string, closedTo: nat, record: Row) {
    record == Row(row.itemId, row.batchId, row.seqNo, if status == "" then row.status else status,
                  row.entered, closedTo, s.revision + 1, s.now)
  }

  /** These rows, and only these, went into the archive, in this order, closed together at the
      latest coordinate at which one of them entered. */
  predicate Archives(s: Stack, t: Stack, batch: seq<Row>, status: string) {
    && |t.archived| == |s.archived| + |batch| && t.archived[..|s.archived|] == s.archived
    && forall i :: 0 <= i < |batch| ==>
         var record := t.archived[|s.archived| + i];
         IsRecord(s, batch[i], status, record.closedTo, record) && IsLatest(batch, record.closedTo)
  }

  lemma StampedExactly(s: Stack, batch: seq<Row>, status: string, t: Stack)
    requires t.archived == s.archived + Stamped(s, batch, status)
    ensures Archives(s, t, batch, status)
  {
    hide IsLatest, LatestEntry;
    LatestEntryExactly(batch);
    forall i | 0 <= i < |batch| ensures t.archived[|s.archived| + i] == Stamped(s, batch, status)[i] {
    }
  }

  lemma StackedOnTop(rows: seq<Row>, below: nat, last: Row, top: nat)
    requires Stacked(rows, below) && 0 < last.seqNo <= top && below == last.seqNo - 1
    ensures Stacked(rows + [last], top) && Stacked(rows + [], top)
  {
    StackedMore(rows, below, top);
    assert (rows + [last])[..|rows|] == rows && rows + [] == rows;
  }

  lemma {:induction false} BatchStacked(rows: seq<Row>, batchId: string, top: nat)
    requires Stacked(rows, top)
    ensures Stacked(InBatch(rows, batchId), top) && Stacked(OutOfBatch(rows, batchId), top)
    decreases |rows|
  {
    if rows != [] {
      var front, last := rows[..|rows| - 1], rows[|rows| - 1];
      BatchStacked(front, batchId, last.seqNo - 1);
      StackedOnTop(InBatch(front, batchId), last.seqNo - 1, last, top);
      StackedOnTop(OutOfBatch(front, batchId), last.seqNo - 1, last, top);
    }
  }

  /** The rows of the batch in the order they were pushed, and the others in theirs. */
  ghost predicate SplitsOff(rows: seq<Row>, top: nat, batchId: string, kept: seq<Row>, batch: seq<Row>) {
    && Stacked(kept, top) && Stacked(batch, top) && |kept| + |batch| == |rows|
    && (forall r :: r in kept <==> r in rows && r.batchId != batchId)
    && forall r :: r in batch <==> r in rows && r.batchId == batchId
  }

  lemma SplitExactly(rows: seq<Row>, top: nat, batchId: string)
    requires Stacked(rows, top)
    ensures SplitsOff(rows, top, batchId, OutOfBatch(rows, batchId), InBatch(rows, batchId))
  {
    BatchStacked(rows, batchId, top);
    SplitSizes(rows, batchId);
    forall r ensures (r in OutOfBatch(rows, batchId) <==> r in rows && r.batchId != batchId)
                     && (r in InBatch(rows, batchId) <==> r in rows && r.batchId == batchId) {
      BatchMembers(rows, batchId, r);
    }
  }

  /** The whole effect of closing a batch; it is refused exactly when no row is in it. */
  lemma ClosedExactly(s: Stack, batchId: string, status: string)
    requires Stacked(s.active, s.nextSeq)
    ensures Closed(s, batchId, status).Ok? <==> exists i :: 0 <= i < |s.active| && s.active[i].batchId == batchId
    ensures Closed(s, batchId, status).Ok? ==>
              var t, batch := Closed(s, batchId, status).value, InBatch(s.active, batchId);
              && t == s.(active := t.active, archived := t.archived)
              && SplitsOff(s.active, s.nextSeq, batchId, t.active, batch) && Archives(s, t, batch, status)
  {
    hide Archives, Stamped, SplitsOff;
    SplitExactly(s.active, s.nextSeq, batchId);
    StampedExactly(s, InBatch(s.active, batchId), status, ClosedBatch(s, batchId, status));
    EmptyExactly(s.active, batchId);
  }

  lemma EmptyExactly(rows: seq<Row>, batchId: string)
    ensures InBatch(rows, batchId) != [] <==> exists i :: 0 <= i < |rows| && rows[i].batchId == batchId
  {
    var batch := InBatch(rows, batchId);
    if batch != [] {
      assert batch[0] in batch;
      BatchMembers(rows, batchId, batch[0]);
      var i :| 0 <= i < |rows| && rows[i] == batch[0];
      assert rows[i].batchId == batchId;
    }
    if i :| 0 <= i < |rows| && rows[i].batchId == batchId {
      BatchMembers(rows, batchId, rows[i]);
    }
  }

  /** The stack with one status changed and nothing else. */
  predicate Restates(rows: seq<Row>, k: nat, status: string, after: seq<Row>) {
    && k < |rows| == |after|
    && after[k] == Row(rows[k].itemId, rows[k].batchId, rows[k].seqNo, status, rows[k].entered, rows[k].closedTo,
                       rows[k].revision, rows[k].popped)
    && forall i :: 0 <= i < |rows| && i != k ==> after[i] == rows[i]
  }

  /** The whole effect of a status change: refused exactly for an item that is not on the stack;
      else its row, the first of that name, gets the status, and if that completes the last open
      row of its batch the batch is closed with it. */
  lemma UpdatedExactly(s: Stack, itemId: string, status: string)
    ensures Updated(s, itemId, status).Ok? <==> Contains(s.active, itemId)
    ensures Updated(s, itemId, status).Ok? ==>
              var k, t := IndexOf(s.active, itemId), Updated(s, itemId, status).value;
              && k < |s.active| && s.active[k].itemId == itemId
              && var rows, batchId := Restatused(s.active, k, status), s.active[k].batchId;
                 && Restates(s.active, k, status, rows)
                 && if status in TERMINAL && forall i :: 0 <= i < |s.active| && i != k && s.active[i].batchId == batchId ==>
                                               s.active[i].status in TERMINAL
                    then Closed(s.(active := rows), batchId, status) == Ok(t) else t == s.(active := rows)
  {
    hide Stamped;
    var k := IndexOf(s.active, itemId);
    if i :| 0 <= i < |s.active| && s.active[i].itemId == itemId {
      assert k <= i;
    }
    if k < |s.active| {
      var rows, batchId := Restatused(s.active, k, status), s.active[k].batchId;
      assert s.active[k].itemId == itemId;
      BatchMembers(rows, batchId, rows[k]);
      if BatchDone(rows, batchId) {
        forall i | 0 <= i < |s.active| && i != k && s.active[i].batchId == batchId ensures s.active[i].status in TERMINAL {
          assert rows[i] == s.active[i];
        }
      }
    }
  }

  /** The whole effect of a pop, of the top row by name or without one. */
  lemma PoppedExactly(s: Stack, itemId: string, status: string)
    ensures var n := |s.active|;
            && (PoppedTop(s, itemId, status).Ok? <==> n > 0 && (itemId == "" || s.active[n - 1].itemId == itemId))
            && (PoppedTop(s, itemId, status).Ok? ==>
                  var t := PoppedTop(s, itemId, status).value;
                  && t == s.(active := s.active[..n - 1], archived := t.archived)
                  && Archives(s, t, [s.active[n - 1]], status))
  {
    hide Archives, Stamped;
    if PoppedTop(s, itemId, status).Ok? {
      StampedExactly(s, [s.active[|s.active| - 1]], status, PoppedTop(s, itemId, status).value);
    }
  }

  /** What is published: an accepted change under the next revision, nothing of a refused or
      empty one. */
  lemma PublishedExactly(s: Stack, step: Step)
    ensures Next(s, step) == if step.Advance? then s.(now := s.now + step.rows)
                             else if Outcome(s, step).Err? || Outcome(s, step).value == s then s
                             else Outcome(s, step).value.(revision := Outcome(s, step).value.revision + 1)
  {
  }

  // ---- a commit that crashes ----

  /** A row of a file is one line. */
  function LineLength(row: Row): (n: nat)
    ensures n > 0
  {
    |row.itemId| + |row.batchId| + |row.status| + 1
  }

  function Bytes(rows: seq<Row>): nat {
    if rows == [] then 0 else Bytes(rows[..|rows| - 1]) + LineLength(rows[|rows| - 1])
  }

  /** The two files, the history ending in `torn` bytes of an unfinished line, and the published
      revision and size of the history; rows of a later revision are not shown. */
  datatype Disk = Disk(activeRows: seq<Row>, historyRows: seq<Row>, torn: nat, headRevision: nat, historyBytes: nat)

  function Published(rows: seq<Row>, revision: nat): seq<Row> {
    if rows == [] then []
    else Published(rows[..|rows| - 1], revision)
         + if rows[|rows| - 1].revision <= revision then [rows[|rows| - 1]] else []
  }

  /** The whole lines within this many bytes. */
  function Within(rows: seq<Row>, bytes: nat): seq<Row> {
    if Bytes(rows) <= bytes || rows == [] then rows else Within(rows[..|rows| - 1], bytes)
  }

  /** reapHistoryTail: what lies behind the published size is cut off. */
  function Reclaimed(d: Disk): Disk {
    if Bytes(d.historyRows) + d.torn <= d.historyBytes then d
    else
      var kept := Within(d.historyRows, d.historyBytes);
      d.(historyRows := kept, torn := d.historyBytes - Least(d.historyBytes, Bytes(kept)))
  }

  function Least(a: nat, b: nat): nat {
    if a < b then a else b
  }

  /** How far a commit has come: the history reclaimed, some lines of the addition in it, all
      of them, the active file replaced, the head published. */
  datatype Point = Begun | Tidied | Appending(lines: nat, torn: nat) | Appended | Replaced | Done

  function CommittedUpto(d: Disk, t: Stack, added: seq<Row>, at: Point): Disk {
    var tidy := Reclaimed(d);
    var grown := tidy.(historyRows := tidy.historyRows + added, torn := if added == [] then tidy.torn else 0);
    match at
    case Begun => d
    case Tidied => tidy
    case Appending(lines, torn) =>
      if added == [] then tidy
      else tidy.(historyRows := tidy.historyRows + added[..Least(lines, |added|)], torn := torn)
    case Appended => grown
    case Replaced => grown.(activeRows := t.active)
    case Done =>
      grown.(activeRows := t.active, headRevision := t.revision, historyBytes := Bytes(grown.historyRows) + grown.torn)
  }

  /** Readers, and the next commit after a restart, find this stack; behind the published size
      the history may go on with rows of later revisions. */
  predicate Holds(d: Disk, s: Stack) {
    && d.headRevision == s.revision && d.historyBytes == Bytes(s.archived)
    && Published(d.activeRows, d.headRevision) == s.active
    && s.archived <= d.historyRows && Published(d.historyRows, d.headRevision) == s.archived
  }

  lemma {:induction false} PublishedAll(rows: seq<Row>, revision: nat)
    requires forall i :: 0 <= i < |rows| ==> rows[i].revision <= revision
    ensures Published(rows, revision) == rows
    decreases |rows|
  {
    if rows != [] {
      PublishedAll(rows[..|rows| - 1], revision);
      assert rows == rows[..|rows| - 1] + [rows[|rows| - 1]];
    }
  }

  lemma {:induction false} PublishedPrefix(rows: seq<Row>, more: seq<Row>, revision: nat)
    requires forall i :: 0 <= i < |rows| ==> rows[i].revision <= revision
    requires forall i :: 0 <= i < |more| ==> more[i].revision > revision
    ensures Published(rows + more, revision) == rows
    decreases |more|
  {
    if more == [] {
      PublishedAll(rows, revision);
      assert rows + more == rows;
    } else {
      assert (rows + more)[..|rows + more| - 1] == rows + more[..|more| - 1];
      PublishedPrefix(rows, more[..|more| - 1], revision);
    }
  }

  lemma {:induction false} PublishedShorter(rows: seq<Row>, revision: nat)
    ensures |Published(rows, revision)| <= |rows|
    decreases |rows|
  {
    if rows != [] {
      PublishedShorter(rows[..|rows| - 1], revision);
    }
  }

  /** An effective change: it was not refused and moved or altered some row. */
  predicate Effective(s: Stack, step: Step) {
    !step.Advance? && Outcome(s, step).Ok? && Outcome(s, step).value != s
  }

  lemma ArchiveOnlyGrows(s: Stack, step: Step)
    requires Effective(s, step) && Sound(s)
    ensures var t := Next(s, step);
            && |s.archived| <= |t.archived| && t.archived[..|s.archived|] == s.archived
            && (forall i :: |s.archived| <= i < |t.archived| ==> t.archived[i].revision == s.revision + 1)
            && t.revision == s.revision + 1
            && (|t.archived| > |s.archived| ==> |t.active| < |s.active|)
            && (|t.archived| == |s.archived| ==> step.Push? || step.SetStatus?)
  {
    hide Sound, BatchDone;
    match step
    case Push(batchId, items) =>
      PushedGrows(s, batchId, items);
      GrowingKeeps(s, Pushed(s, batchId, items).value);
    case SetStatus(itemId, status) =>
      var k := IndexOf(s.active, itemId);
      SplitSizes(Restatused(s.active, k, status), s.active[k].batchId);
    case CloseBatch(batchId, _) => SplitSizes(s.active, batchId);
    case _ =>
  }

  lemma {:induction false} SplitSizes(rows: seq<Row>, batchId: string)
    ensures |InBatch(rows, batchId)| + |OutOfBatch(rows, batchId)| == |rows|
    decreases |rows|
  {
    if rows != [] {
      SplitSizes(rows[..|rows| - 1], batchId);
    }
  }

  lemma {:induction false} BytesGrow(rows: seq<Row>, more: seq<Row>)
    requires rows <= more
    ensures Bytes(rows) <= Bytes(more) && (Bytes(rows) == Bytes(more) ==> rows == more)
    decreases |more|
  {
    if |rows| < |more| {
      assert rows <= more[..|more| - 1];
      BytesGrow(rows, more[..|more| - 1]);
    } else {
      assert rows == more;
    }
  }

  /** The published size marks the end of the published rows. */
  lemma {:induction false} WithinIsExact(rows: seq<Row>, more: seq<Row>)
    requires rows <= more
    ensures Within(more, Bytes(rows)) == rows
    decreases |more|
  {
    BytesGrow(rows, more);
    if |rows| < |more| {
      assert rows <= more[..|more| - 1];
      WithinIsExact(rows, more[..|more| - 1]);
    } else {
      assert rows == more;
    }
  }

  lemma ReclaimedIsExact(d: Disk, s: Stack)
    requires Holds(d, s)
    ensures Reclaimed(d) == d.(historyRows := s.archived, torn := 0)
  {
    BytesGrow(s.archived, d.historyRows);
    WithinIsExact(s.archived, d.historyRows);
  }

  /** What a commit adds to the history. */
  function Addition(s: Stack, t: Stack): seq<Row>
    requires |s.archived| <= |t.archived|
  {
    t.archived[|s.archived|..]
  }

  /** The stack a crash leaves when it comes between the active file and the head: of a push
      nothing shows, but rows that any other change took off the stack are in neither file. */
  function Halfway(s: Stack, step: Step): Stack {
    if step.Push? then s else s.(active := Next(s, step).active)
  }

  lemma HistoryHolds(d: Disk, s: Stack, more: seq<Row>, torn: nat)
    requires Holds(d, s) && Sound(s) && forall i :: 0 <= i < |more| ==> more[i].revision > s.revision
    ensures Holds(d.(historyRows := s.archived + more, torn := torn), s)
  {
    hide Distinct, Stacked;
    PublishedPrefix(s.archived, more, s.revision);
  }

  lemma ReplacedHolds(d: Disk, s: Stack, step: Step)
    requires Holds(d, s) && Sound(s) && Effective(s, step)
    ensures Holds(d.(activeRows := Next(s, step).active), Halfway(s, step))
    ensures Halfway(s, step) == s <==> step.Push?
  {
    hide Distinct, Stacked, Successive, Returned, Left;
    var t := Next(s, step);
    ArchiveOnlyGrows(s, step);
    if step.Push? {
      PushShowsOld(s, step);
    } else {
      OldRevisions(s, step);
      PublishedAll(t.active, s.revision);
      if |t.archived| == |s.archived| {
        RestatusedShows(s, step);
      }
    }
  }

  /** Only a push puts rows of the new revision into the active file. */
  lemma OldRevisions(s: Stack, step: Step)
    requires Sound(s) && Effective(s, step) && !step.Push?
    ensures forall i :: 0 <= i < |Next(s, step).active| ==> Next(s, step).active[i].revision <= s.revision
  {
    hide Distinct, Stacked, Successive, Returned, Left, BatchDone, Stamped;
    match step
    case SetStatus(itemId, status) =>
      var k := IndexOf(s.active, itemId);
      OutKeepsRevisions(Restatused(s.active, k, status), s.active[k].batchId, s.revision);
    case CloseBatch(batchId, _) => OutKeepsRevisions(s.active, batchId, s.revision);
    case PopTop(_, _) =>
  }

  lemma {:induction false} OutKeepsRevisions(rows: seq<Row>, batchId: string, revision: nat)
    requires Committable(rows, revision)
    ensures Committable(OutOfBatch(rows, batchId), revision)
    decreases |rows|
  {
    if rows != [] {
      OutKeepsRevisions(rows[..|rows| - 1], batchId, revision);
    }
  }

  lemma HalfwayIsSound(s: Stack, step: Step)
    requires Sound(s) && Effective(s, step)
    ensures Sound(Halfway(s, step))
  {
    if !step.Push? {
      StepKeepsSound(s, step);
      ArchiveOnlyGrows(s, step);
      OldRevisions(s, step);
      SameCounters(s, step);
      hide Distinct, Stacked, Next, Effective;
      var t := Next(s, step);
      forall i, j | 0 <= i < |t.active| && 0 <= j < |s.archived| && t.active[i].itemId == s.archived[j].itemId
        ensures s.archived[j].popped <= t.active[i].entered
      {
        assert s.archived[j] == t.archived[j];
      }
    }
  }

  lemma SameCounters(s: Stack, step: Step)
    requires Effective(s, step) && !step.Push?
    ensures Next(s, step).nextSeq == s.nextSeq && Next(s, step).now == s.now
  {
  }

  lemma GrownHistory(s: Stack, step: Step)
    requires Sound(s) && Effective(s, step)
    ensures |s.archived| <= |Next(s, step).archived|
    ensures var t := Next(s, step);
            s.archived + Addition(s, t) == t.archived && s.archived + [] == s.archived
            && forall i :: 0 <= i < |Addition(s, t)| ==> Addition(s, t)[i].revision > s.revision
  {
    ArchiveOnlyGrows(s, step);
  }

  /** Until the active file is replaced the old stack is there, wherever the append was cut. */
  lemma EarlyHolds(d: Disk, s: Stack, t: Stack, added: seq<Row>, at: Point)
    requires Holds(d, s) && Sound(s) && !at.Replaced? && !at.Done?
    requires forall i :: 0 <= i < |added| ==> added[i].revision > s.revision
    ensures Holds(CommittedUpto(d, t, added, at), s)
  {
    ReclaimedIsExact(d, s);
    hide Holds, Sound, Reclaimed;
    HistoryHolds(d, s, [], 0);
    HistoryHolds(d, s, added, 0);
    assert s.archived + [] == s.archived;
    if at.Appending? {
      HistoryHolds(d, s, added[..Least(at.lines, |added|)], at.torn);
    }
  }

  /** What is on disk after a commit that came this far: the old stack before the active file
      is replaced, whatever residue there was and wherever the append was cut; the new one once
      the head is published; and in between the old one exactly if the change was a push. */
  lemma CommitCrashExactly(d: Disk, s: Stack, step: Step, at: Point)
    requires Holds(d, s) && Sound(s) && Effective(s, step)
    ensures |s.archived| <= |Next(s, step).archived|
    ensures var e := CommittedUpto(d, Next(s, step), Addition(s, Next(s, step)), at);
            && Holds(e, if at.Done? then Next(s, step) else if at.Replaced? then Halfway(s, step) else s)
            && (at.Replaced? ==> (Holds(e, s) <==> step.Push?))
  {
    hide Next, Effective, Sound, Addition, Published, Bytes, Reclaimed;
    var t := Next(s, step);
    GrownHistory(s, step);
    if !at.Replaced? && !at.Done? {
      EarlyHolds(d, s, t, Addition(s, t), at);
    } else {
      ReclaimedIsExact(d, s);
      var grown := d.(historyRows := t.archived, torn := 0);
      HistoryHolds(d, s, Addition(s, t), 0);
      if at.Replaced? {
        ReplacedHolds(grown, s, step);
      } else {
        DoneHolds(grown, s, step);
      }
    }
  }

  lemma DoneHolds(d: Disk, s: Stack, step: Step)
    requires Sound(s) && Effective(s, step) && d.historyRows == Next(s, step).archived && d.torn == 0
    ensures var t := Next(s, step);
            Holds(d.(activeRows := t.active, headRevision := t.revision, historyBytes := Bytes(d.historyRows)), t)
  {
    StepKeepsSound(s, step);
    hide Next, Effective, Distinct, Stacked;
    PublishedAll(Next(s, step).active, Next(s, step).revision);
    PublishedAll(Next(s, step).archived, Next(s, step).revision);
  }

  /** What such a crash loses: an item that left the stack is on it no more, and its record is
      not in the history the next commit goes on from. */
  lemma LeavingRowsAreLost(s: Stack, step: Step, itemId: string)
    requires Sound(s) && Effective(s, step) && !step.Push?
    requires Contains(s.active, itemId) && !Contains(Next(s, step).active, itemId)
    ensures !Contains(Halfway(s, step).active, itemId) && Halfway(s, step).archived == s.archived
    ensures |Next(s, step).archived| > |s.archived|
  {
    ArchiveOnlyGrows(s, step);
    if |Next(s, step).archived| == |s.archived| {
      var k := IndexOf(s.active, step.itemId);
      StaysWhenRestatused(s.active, k, step.status, itemId);
      SplitSizes(Restatused(s.active, k, step.status), s.active[k].batchId);
      BatchMembers(Restatused(s.active, k, step.status), s.active[k].batchId, Restatused(s.active, k, step.status)[k]);
    }
  }

  lemma StaysWhenRestatused(rows: seq<Row>, k: nat, status: string, itemId: string)
    requires k < |rows| && Contains(rows, itemId)
    ensures Contains(Restatused(rows, k, status), itemId)
  {
    var i :| 0 <= i < |rows| && rows[i].itemId == itemId;
    assert Restatused(rows, k, status)[i].itemId == itemId;
  }

  // ---- runs of commits and crashes ----

  /** A change, and how far its commit came; a refused or empty one does not reach the disk. */
  datatype Try = Try(step: Step, at: Point)

  function Tried(s: Stack, a: Try): Stack {
    if !Effective(s, a.step) || a.at.Done? then Next(s, a.step)
    else if a.at.Replaced? then Halfway(s, a.step)
    else s
  }

  function OnDisk(d: Disk, s: Stack, a: Try): Disk {
    var t := Next(s, a.step);
    if Effective(s, a.step) && |s.archived| <= |t.archived| then CommittedUpto(d, t, Addition(s, t), a.at) else d
  }

  function RunStack(s: Stack, tries: seq<Try>): Stack
    decreases |tries|
  {
    if tries == [] then s else RunStack(Tried(s, tries[0]), tries[1..])
  }

  function RunDisk(d: Disk, s: Stack, tries: seq<Try>): Disk
    decreases |tries|
  {
    if tries == [] then d else RunDisk(OnDisk(d, s, tries[0]), Tried(s, tries[0]), tries[1..])
  }

  lemma TryHolds(d: Disk, s: Stack, a: Try)
    requires Holds(d, s) && Sound(s)
    ensures Holds(OnDisk(d, s, a), Tried(s, a)) && Sound(Tried(s, a))
  {
    StepKeepsSound(s, a.step);
    if Effective(s, a.step) {
      CommitCrashExactly(d, s, a.step, a.at);
      HalfwayIsSound(s, a.step);
    } else {
      RefusedLeaves(s, a.step);
    }
  }

  lemma RefusedLeaves(s: Stack, step: Step)
    requires !Effective(s, step)
    ensures Next(s, step) == s.(now := Next(s, step).now)
  {
  }

  /** Over any run of changes and crashes the files hold one sound stack: each commit goes on
      from what the one before left, its changes whole or not at all, but for the loss above. */
  lemma {:induction false} RunHoldsOneStack(d: Disk, s: Stack, tries: seq<Try>)
    requires Holds(d, s) && Sound(s)
    ensures Holds(RunDisk(d, s, tries), RunStack(s, tries)) && Sound(RunStack(s, tries))
    decreases |tries|
  {
    hide Holds, Sound, Tried, OnDisk;
    if tries != [] {
      TryHolds(d, s, tries[0]);
      RunHoldsOneStack(OnDisk(d, s, tries[0]), Tried(s, tries[0]), tries[1..]);
    }
  }

  lemma PushShowsOld(s: Stack, step: Step)
    requires Sound(s) && Effective(s, step) && step.Push?
    ensures Published(Next(s, step).active, s.revision) == s.active
  {
    hide Distinct, Stacked, Contains, Pushed, Returned, Left, Successive;
    var t := Next(s, step);
    PushedGrows(s, step.batchId, step.items);
    assert t.active == s.active + t.active[|s.active|..];
    PublishedPrefix(s.active, t.active[|s.active|..], s.revision);
  }

  lemma RestatusedShows(s: Stack, step: Step)
    requires Sound(s) && Effective(s, step) && step.SetStatus? && |Next(s, step).archived| == |s.archived|
    ensures Published(Next(s, step).active, s.revision) != s.active
  {
    var t := Next(s, step);
    var k := IndexOf(s.active, step.itemId);
    SplitSizes(Restatused(s.active, k, step.status), s.active[k].batchId);
    BatchMembers(Restatused(s.active, k, step.status), s.active[k].batchId, Restatused(s.active, k, step.status)[k]);
    assert t.active == Restatused(s.active, k, step.status);
    PublishedAll(t.active, s.revision);
  }

  // ---- one commit, as the store runs it ----

  /** stackState: the projection a commit works on; the head's revision is not yet advanced. */
  class StackState {
    var active: seq<Row>
    var archived: seq<Row>
    var nextSeq: nat
    const revision: nat
    const now: nat

    /** The stack on which `revision` was the last commit. */
    ghost function View(): Stack
      reads this
    {
      Stack(active, archived, revision, nextSeq, now)
    }

    constructor (s: Stack)
      ensures View() == s
    {
      active, archived, nextSeq, revision, now := s.active, s.archived, s.nextSeq, s.revision, s.now;
    }

    /** archive: one closing coordinate for the whole batch. */
    method Archive(batch: seq<Row>, status: string)
      modifies this`archived
      ensures archived == old(archived) + Stamped(View(), batch, status)
    {
      var to, i := 0, 0;
      assert batch[..0] == [];
      while i < |batch|
        invariant i <= |batch| && to == LatestEntry(batch[..i])
      {
        assert batch[..i + 1][..i] == batch[..i];
        if batch[i].entered >= to {
          to := batch[i].entered;
        }
        i := i + 1;
      }
      assert batch[..i] == batch;
      var out := [];
      i := 0;
      while i < |batch|
        invariant i <= |batch| && out == Stamped(View(), batch, status)[..i]
        invariant archived == old(archived)
      {
        var row := batch[i];
        if status != "" {
          row := row.(status := status);
        }
        out := out + [row.(closedTo := to, revision := revision + 1, popped := now)];
        i := i + 1;
      }
      archived := archived + out;
    }

    /** closeBatch: every row of the batch leaves the stack. */
    method CloseBatch(batchId: string, status: string)
      modifies this
      ensures View() == ClosedBatch(old(View()), batchId, status)
    {
      var batch, out, i := [], [], 0;
      assert active[..0] == [];
      while i < |active|
        invariant i <= |active| && unchanged(this)
        invariant batch == InBatch(active[..i], batchId) && out == OutOfBatch(active[..i], batchId)
      {
        assert active[..i + 1][..i] == active[..i];
        if active[i].batchId != batchId {
          out := out + [active[i]];
        } else {
          batch := batch + [active[i]];
        }
        i := i + 1;
      }
      assert active[..i] == active;
      active := out;
      Archive(batch, status);
    }

    method IndexInActive(itemId: string) returns (k: nat)
      ensures k == IndexOf(active, itemId)
    {
      k := 0;
      assert active[0..] == active;
      while k < |active| && active[k].itemId != itemId
        invariant k <= |active| && IndexOf(active, itemId) == k + IndexOf(active[k..], itemId)
      {
        assert active[k..][1..] == active[k + 1..];
        k := k + 1;
      }
    }

    method PushItems(batchId: string, items: seq<Item>) returns (ok: bool)
      modifies this
      ensures ok <==> Pushed(old(View()), batchId, items).Ok?
      ensures ok ==> View() == Pushed(old(View()), batchId, items).value
    {
      var i := 0;
      assert items[..0] == [];
      while i < |items|
        invariant i <= |items| && Pushed(old(View()), batchId, items[..i]) == Ok(View())
      {
        assert items[..i + 1][..i] == items[..i];
        var item := items[i];
        var k := IndexInActive(item.itemId);
        assert Contains(active, item.itemId) <==> k < |active| by {
          if k < |active| {
            assert active[k].itemId == item.itemId;
          }
        }
        if item.itemId == "" || k < |active| {
          RefusedStays(old(View()), batchId, items, i + 1);
          return false;
        }
        nextSeq := nextSeq + 1;
        var status := if item.status == "" then "active" else item.status;
        active := active + [Row(item.itemId, batchId, nextSeq, status, now, 0, revision + 1, 0)];
        i := i + 1;
      }
      assert items[..i] == items;
      ok := true;
    }

    method SetStatus(itemId: string, status: string) returns (ok: bool)
      modifies this
      ensures ok <==> Updated(old(View()), itemId, status).Ok?
      ensures View() == if ok then Updated(old(View()), itemId, status).value else old(View())
    {
      var k := IndexInActive(itemId);
      if k == |active| {
        return false;
      }
      active := active[k := active[k].(status := status)];
      if status in TERMINAL {
        var done, i := true, 0;
        while i < |active|
          invariant i <= |active|
          invariant done <==> forall j :: 0 <= j < i && active[j].batchId == active[k].batchId ==> active[j].status in TERMINAL
        {
          if active[i].batchId == active[k].batchId && active[i].status !in TERMINAL {
            done := false;
          }
          i := i + 1;
        }
        if done {
          CloseBatch(active[k].batchId, status);
        }
      }
      ok := true;
    }

    method PopTop(itemId: string, status: string) returns (ok: bool)
      modifies this
      ensures ok <==> PoppedTop(old(View()), itemId, status).Ok?
      ensures View() == if ok then PoppedTop(old(View()), itemId, status).value else old(View())
    {
      if active == [] {
        return false;
      }
      var top := active[|active| - 1];
      if itemId != "" && top.itemId != itemId {
        return false;
      }
      active := active[..|active| - 1];
      Archive([top], status);
      ok := true;
    }
  }

  lemma {:induction false} RefusedStays(s: Stack, batchId: string, items: seq<Item>, n: nat)
    requires n <= |items| && Pushed(s, batchId, items[..n]).Err?
    ensures Pushed(s, batchId, items).Err?
    decreases |items| - n
  {
    if n < |items| {
      assert items[..n + 1][..n] == items[..n];
      RefusedStays(s, batchId, items, n + 1);
    } else {
      assert items[..n] == items;
    }
  }
}
