/** The stack a fork takes over (store/stack_journal.go): what the stack held when the message
    coordinate was at a given point, what the snapshot function reconstructs from the rows
    that are left, and exactly when the two agree. */
module StackFork {
  import opened StackChannel

  // ---- the past, from what is on record ----

  predicate ActiveBy(active: seq<Row>, from: nat, id: string) {
    exists i :: 0 <= i < |active| && active[i].itemId == id && active[i].entered <= from
  }

  /** An archived row that was on the stack when the coordinate was `from`. */
  predicate Open(r: Row, from: nat) {
    r.entered <= from < r.popped
  }

  predicate OpenIn(archived: seq<Row>, from: nat, id: string) {
    exists i :: 0 <= i < |archived| && archived[i].itemId == id && Open(archived[i], from)
  }

  predicate HadActive(s: Stack, from: nat, id: string) {
    ActiveBy(s.active, from, id) || OpenIn(s.archived, from, id)
  }

  predicate HadArchived(s: Stack, from: nat, id: string) {
    exists i :: 0 <= i < |s.archived| && s.archived[i].itemId == id && s.archived[i].popped <= from
  }

  /** Now: what the stack holds is what it had. */
  lemma PresentIsPast(s: Stack, id: string)
    requires Sound(s)
    ensures HadActive(s, s.now, id) <==> Contains(s.active, id)
    ensures HadArchived(s, s.now, id) <==> Contains(s.archived, id)
  {
  }

  lemma ActiveByConcat(a: seq<Row>, b: seq<Row>, from: nat, id: string)
    ensures ActiveBy(a + b, from, id) <==> ActiveBy(a, from, id) || ActiveBy(b, from, id)
  {
    if i :| 0 <= i < |a| && a[i].itemId == id && a[i].entered <= from {
      assert (a + b)[i] == a[i];
    }
    if i :| 0 <= i < |b| && b[i].itemId == id && b[i].entered <= from {
      assert (a + b)[|a| + i] == b[i];
    }
  }

  lemma ArchiveGrows(s: Stack, batch: seq<Row>, status: string, from: nat, id: string)
    requires from < s.now
    ensures var archived := s.archived + Stamped(s, batch, status);
            && (OpenIn(archived, from, id) <==> OpenIn(s.archived, from, id) || ActiveBy(batch, from, id))
            && (forall t: Stack :: t.archived == archived ==> (HadArchived(t, from, id) <==> HadArchived(s, from, id)))
  {
    var n, stamped := |s.archived|, Stamped(s, batch, status);
    var archived := s.archived + stamped;
    if i :| 0 <= i < |batch| && batch[i].itemId == id && batch[i].entered <= from {
      assert archived[n + i] == stamped[i] && Open(stamped[i], from);
    }
    if i :| 0 <= i < n && s.archived[i].itemId == id && Open(s.archived[i], from) {
      assert archived[i] == s.archived[i];
    }
    if i :| 0 <= i < |archived| && archived[i].itemId == id && Open(archived[i], from) {
      assert i >= n ==> batch[i - n].itemId == id && batch[i - n].entered <= from;
    }
    forall t: Stack | t.archived == archived ensures HadArchived(t, from, id) <==> HadArchived(s, from, id) {
      if i :| 0 <= i < n && s.archived[i].itemId == id && s.archived[i].popped <= from {
        assert t.archived[i] == s.archived[i];
      }
    }
  }

  lemma BatchActiveBy(rows: seq<Row>, batchId: string, from: nat, id: string)
    ensures ActiveBy(rows, from, id)
       <==> ActiveBy(OutOfBatch(rows, batchId), from, id) || ActiveBy(InBatch(rows, batchId), from, id)
  {
    var kept, batch := OutOfBatch(rows, batchId), InBatch(rows, batchId);
    if i :| 0 <= i < |rows| && rows[i].itemId == id && rows[i].entered <= from {
      BatchMembers(rows, batchId, rows[i]);
      assert rows[i] in kept || rows[i] in batch;
    }
    if i :| 0 <= i < |kept| && kept[i].itemId == id && kept[i].entered <= from {
      BatchMembers(rows, batchId, kept[i]);
      assert kept[i] in rows;
    }
    if i :| 0 <= i < |batch| && batch[i].itemId == id && batch[i].entered <= from {
      BatchMembers(rows, batchId, batch[i]);
      assert batch[i] in rows;
    }
  }

  /** The change leaves the record of an earlier coordinate as it was. */
  predicate KeepsPast(s: Stack, t: Stack, from: nat, id: string) {
    (HadActive(t, from, id) <==> HadActive(s, from, id)) && (HadArchived(t, from, id) <==> HadArchived(s, from, id))
  }

  lemma ClosingKeepsPast(s: Stack, batchId: string, status: string, from: nat, id: string)
    requires from < s.now
    ensures KeepsPast(s, ClosedBatch(s, batchId, status), from, id)
  {
    hide ActiveBy, OpenIn, HadArchived, Stamped;
    BatchActiveBy(s.active, batchId, from, id);
    ArchiveGrows(s, InBatch(s.active, batchId), status, from, id);
  }

  lemma PushKeepsPast(s: Stack, batchId: string, items: seq<Item>, from: nat, id: string)
    requires Sound(s) && from < s.now && Pushed(s, batchId, items).Ok?
    ensures KeepsPast(s, Pushed(s, batchId, items).value, from, id)
  {
    PushedGrows(s, batchId, items);
    var t := Pushed(s, batchId, items).value;
    NewerRowsUnseen(s, t, from, id);
  }

  lemma NewerRowsUnseen(s: Stack, t: Stack, from: nat, id: string)
    requires from < s.now && t.archived == s.archived && |s.active| <= |t.active| && t.active[..|s.active|] == s.active
    requires forall i :: |s.active| <= i < |t.active| ==> t.active[i].entered == s.now
    ensures KeepsPast(s, t, from, id)
  {
    var n := |s.active|;
    if i :| 0 <= i < n && s.active[i].itemId == id && s.active[i].entered <= from {
      assert t.active[i] == t.active[..n][i];
    }
    if i :| 0 <= i < |t.active| && t.active[i].itemId == id && t.active[i].entered <= from {
      assert t.active[i] == t.active[..n][i];
    }
  }

  lemma RestatusKeepsPast(s: Stack, k: nat, status: string, from: nat, id: string)
    requires k < |s.active|
    ensures KeepsPast(s, s.(active := Restatused(s.active, k, status)), from, id)
  {
    var next := Restatused(s.active, k, status);
    if i :| 0 <= i < |next| && next[i].itemId == id && next[i].entered <= from {
      assert s.active[i].itemId == id;
    }
    if i :| 0 <= i < |next| && s.active[i].itemId == id && s.active[i].entered <= from {
      assert next[i].itemId == id;
    }
  }

  lemma PopKeepsPast(s: Stack, status: string, from: nat, id: string)
    requires from < s.now && s.active != []
    ensures var n := |s.active| - 1;
            KeepsPast(s, s.(active := s.active[..n], archived := s.archived + Stamped(s, [s.active[n]], status)), from, id)
  {
    hide ActiveBy, OpenIn, HadArchived, Stamped;
    var n := |s.active| - 1;
    assert s.active == s.active[..n] + [s.active[n]];
    ActiveByConcat(s.active[..n], [s.active[n]], from, id);
    ArchiveGrows(s, [s.active[n]], status, from, id);
  }

  lemma StepKeepsPast(s: Stack, step: Step, from: nat, id: string)
    requires Sound(s) && (step.Advance? || from < s.now)
    ensures KeepsPast(s, Next(s, step), from, id)
  {
    hide Sound, BatchDone, ActiveBy, OpenIn;
    match step
    case Advance(_) =>
    case Push(batchId, items) => if Pushed(s, batchId, items).Ok? { PushKeepsPast(s, batchId, items, from, id); }
    case SetStatus(itemId, status) =>
      var k := IndexOf(s.active, itemId);
      if k < |s.active| {
        var t := s.(active := Restatused(s.active, k, status));
        RestatusKeepsPast(s, k, status, from, id);
        ClosingKeepsPast(t, t.active[k].batchId, status, from, id);
      }
    case PopTop(_, status) => if s.active != [] { PopKeepsPast(s, status, from, id); }
    case CloseBatch(batchId, status) => ClosingKeepsPast(s, batchId, status, from, id);
  }

  function Ran(s: Stack, steps: seq<Step>): Stack
    decreases |steps|
  {
    if steps == [] then s else Ran(Next(s, steps[0]), steps[1..])
  }

  lemma NowGrows(s: Stack, step: Step)
    ensures s.now <= Next(s, step).now
  {
    if step.Push? && Pushed(s, step.batchId, step.items).Ok? {
      PushKeepsNow(s, step.batchId, step.items);
    }
  }

  lemma {:induction false} PushKeepsNow(s: Stack, batchId: string, items: seq<Item>)
    requires Pushed(s, batchId, items).Ok?
    ensures Pushed(s, batchId, items).value.now == s.now
    decreases |items|
  {
    if items != [] {
      PushKeepsNow(s, batchId, items[..|items| - 1]);
    }
  }

  lemma {:induction false} RunKeepsPast(s: Stack, steps: seq<Step>, from: nat, id: string)
    requires Sound(s) && from < s.now
    ensures Sound(Ran(s, steps)) && KeepsPast(s, Ran(s, steps), from, id)
    decreases |steps|
  {
    hide Sound, HadActive, HadArchived, Next;
    if steps != [] {
      StepKeepsSound(s, steps[0]);
      StepKeepsPast(s, steps[0], from, id);
      NowGrows(s, steps[0]);
      RunKeepsPast(Next(s, steps[0]), steps[1..], from, id);
    }
  }

  /** What a stack held when the message coordinate was s.now can be read off its rows after
      any later run. */
  lemma PastIsOnRecord(s: Stack, rows: nat, steps: seq<Step>, id: string)
    requires Sound(s) && rows > 0
    ensures var t := Ran(Next(s, Advance(rows)), steps);
            && (HadActive(t, s.now, id) <==> Contains(s.active, id))
            && (HadArchived(t, s.now, id) <==> Contains(s.archived, id))
  {
    hide Sound, HadActive, HadArchived;
    PresentIsPast(s, id);
    StepKeepsSound(s, Advance(rows));
    StepKeepsPast(s, Advance(rows), s.now, id);
    RunKeepsPast(Next(s, Advance(rows)), steps, s.now, id);
  }

  // ---- the snapshot ----

  /** Of the rows of one item the archive shows the one of the highest revision. */
  predicate Best(rows: seq<Row>, k: nat)
    requires k < |rows|
  {
    forall i :: 0 <= i < |rows| && rows[i].itemId == rows[k].itemId ==> rows[i].revision <= rows[k].revision
  }

  predicate ShowsActive(s: Stack, from: nat, id: string) {
    ActiveBy(s.active, from, id)
  }

  predicate ShowsArchived(s: Stack, from: nat, id: string) {
    exists k :: 0 <= k < |s.archived| && s.archived[k].itemId == id && Best(s.archived, k) && s.archived[k].closedTo <= from
  }

  /** Nothing that was on the stack at the coordinate has left it since, and nothing that had
      left it by then has left it again. */
  predicate Settled(s: Stack, from: nat) {
    && (forall i :: 0 <= i < |s.archived| ==> !Open(s.archived[i], from))
    && (forall i, j :: 0 <= i < |s.archived| && 0 <= j < |s.archived| && LeftBy(s, i, j, from) ==>
          s.archived[j].popped <= from)
  }

  /** Rows i and j are of one item, and row i left by the coordinate. */
  predicate LeftBy(s: Stack, i: nat, j: nat, from: nat)
    requires i < |s.archived| && j < |s.archived|
  {
    s.archived[i].itemId == s.archived[j].itemId && s.archived[i].popped <= from
  }

  /** The snapshot agrees with the past, item by item. */
  ghost predicate Exact(s: Stack, from: nat) {
    forall id :: (ShowsActive(s, from, id) <==> HadActive(s, from, id))
              && (ShowsArchived(s, from, id) <==> HadArchived(s, from, id))
  }

  lemma {:induction false} BestExists(rows: seq<Row>, n: nat, id: string) returns (k: nat)
    requires n <= |rows| && exists i :: 0 <= i < n && rows[i].itemId == id
    ensures k < n && rows[k].itemId == id
    ensures forall i :: 0 <= i < n && rows[i].itemId == id ==> rows[i].revision <= rows[k].revision
    decreases n
  {
    if i :| 0 <= i < n - 1 && rows[i].itemId == id {
      k := BestExists(rows, n - 1, id);
      if rows[n - 1].itemId == id && rows[n - 1].revision > rows[k].revision {
        k := n - 1;
      }
    } else {
      k := n - 1;
    }
  }

  lemma OpenIsMissed(s: Stack, from: nat, i: nat)
    requires Sound(s) && i < |s.archived| && Open(s.archived[i], from)
    ensures HadActive(s, from, s.archived[i].itemId) && !ShowsActive(s, from, s.archived[i].itemId)
  {
  }

  lemma LeftAgainIsMissed(s: Stack, from: nat, i: nat, j: nat)
    requires Sound(s) && i < |s.archived| && j < |s.archived| && s.archived[i].itemId == s.archived[j].itemId
    requires forall k :: 0 <= k < |s.archived| ==> !Open(s.archived[k], from)
    requires s.archived[i].popped <= from < s.archived[j].popped
    ensures HadArchived(s, from, s.archived[i].itemId) && !ShowsArchived(s, from, s.archived[i].itemId)
  {
    var id := s.archived[i].itemId;
    forall k | 0 <= k < |s.archived| && s.archived[k].itemId == id && Best(s.archived, k)
      ensures s.archived[k].closedTo > from
    {
      BestIsLatest(s, k, j);
      assert !Open(s.archived[k], from);
    }
  }

  lemma BestIsLatest(s: Stack, k: nat, j: nat)
    requires Sound(s) && k < |s.archived| && j < |s.archived| && Best(s.archived, k)
    requires s.archived[k].itemId == s.archived[j].itemId
    ensures s.archived[j].popped <= s.archived[k].popped
  {
  }

  lemma SettledIsExact(s: Stack, from: nat, id: string)
    requires Sound(s) && Settled(s, from)
    ensures ShowsActive(s, from, id) <==> HadActive(s, from, id)
    ensures ShowsArchived(s, from, id) <==> HadArchived(s, from, id)
  {
    if i :| 0 <= i < |s.archived| && s.archived[i].itemId == id && s.archived[i].popped <= from {
      var k := BestExists(s.archived, |s.archived|, id);
      assert LeftBy(s, i, k, from);
      assert Best(s.archived, k) && s.archived[k].popped <= from;
    }
    if k :| 0 <= k < |s.archived| && s.archived[k].itemId == id && Best(s.archived, k) && s.archived[k].closedTo <= from {
      assert !Open(s.archived[k], from);
    }
  }

  /** The fork snapshot gives the stack as it was at the coordinate exactly when nothing that
      was on the stack then has been closed since, nor anything closed by then closed again:
      the archive records when the items of a batch entered, not when they left. */
  lemma SnapshotIsExactly(s: Stack, from: nat)
    requires Sound(s)
    ensures Exact(s, from) <==> Settled(s, from)
  {
    if Settled(s, from) {
      forall id ensures (ShowsActive(s, from, id) <==> HadActive(s, from, id))
                     && (ShowsArchived(s, from, id) <==> HadArchived(s, from, id)) {
        SettledIsExact(s, from, id);
      }
    } else if i :| 0 <= i < |s.archived| && Open(s.archived[i], from) {
      OpenIsMissed(s, from, i);
    } else {
      var i, j :| 0 <= i < |s.archived| && 0 <= j < |s.archived| && LeftBy(s, i, j, from) && s.archived[j].popped > from;
      LeftAgainIsMissed(s, from, i, j);
    }
  }

  const GOAL := Row("g", "b", 1, "active", 1, 0, 1, 0)

  /** A goal pushed at coordinate 1 and popped at 5. */
  function PoppedGoal(): Stack {
    Stack([], [GOAL.(status := "completed", closedTo := 1, revision := 2, popped := 5)], 2, 1, 5)
  }

  /** A fork at coordinate 3 finds the goal already finished, although the stack held it then. */
  lemma ForkSeesTheFuture()
    ensures Ran(Stack([], [], 0, 0, 1), [Push("b", [Item("g", "")]), Advance(4), PopTop("g", "completed")]) == PoppedGoal()
    ensures HadActive(PoppedGoal(), 3, "g") && !ShowsActive(PoppedGoal(), 3, "g")
    ensures ShowsArchived(PoppedGoal(), 3, "g") && !HadArchived(PoppedGoal(), 3, "g")
  {
    var empty := Stack([], [], 0, 0, 1);
    var items, steps := [Item("g", "")], [Push("b", [Item("g", "")]), Advance(4), PopTop("g", "completed")];
    assert items[..|items| - 1] == [] && [] + [GOAL] == [GOAL];
    assert Pushed(empty, "b", []) == Ok(empty);
    assert Pushed(empty, "b", items) == Ok(empty.(active := [GOAL], nextSeq := 1));
    var pushed := Stack([GOAL], [], 1, 1, 1);
    assert Next(empty, steps[0]) == pushed;
    var later := Stack([GOAL], [], 1, 1, 5);
    assert Next(pushed, steps[1]) == later;
    assert [GOAL][..0] == [] && LatestEntry([GOAL]) == 1;
    assert Stamped(later, [GOAL], "completed") == PoppedGoal().archived;
    assert Next(later, steps[2]) == PoppedGoal();
    assert steps[1..][1..] == [steps[2]] && [steps[2]][1..] == [];
    assert Ran(PoppedGoal(), []) == PoppedGoal();
    assert Open(PoppedGoal().archived[0], 3) && Best(PoppedGoal().archived, 0);
  }

  // ---- the reader's side ----

  /** The first row of the highest revision of its item, among the first n. */
  predicate Chosen(rows: seq<Row>, n: nat, k: nat)
    requires k < n <= |rows|
  {
    && (forall i :: 0 <= i < n && rows[i].itemId == rows[k].itemId ==> rows[i].revision <= rows[k].revision)
    && (forall i :: 0 <= i < k && rows[i].itemId == rows[k].itemId ==> rows[i].revision < rows[k].revision)
  }

  /** The map holds the chosen row of every item among the first n. */
  predicate BestSoFar(rows: seq<Row>, n: nat, best: map<string, nat>) {
    && n <= |rows|
    && (forall id :: id in best ==> best[id] < n && rows[best[id]].itemId == id && Chosen(rows, n, best[id]))
    && (forall i :: 0 <= i < n ==> rows[i].itemId in best)
  }

  lemma BestNext(rows: seq<Row>, n: nat, best: map<string, nat>)
    requires BestSoFar(rows, n, best) && n < |rows|
    ensures var id := rows[n].itemId;
            BestSoFar(rows, n + 1,
                      if id !in best || rows[n].revision > rows[best[id]].revision then best[id := n] else best)
  {
  }

  /** The items found so far, in order of first appearance. */
  predicate FirstSeen(rows: seq<Row>, n: nat, ids: seq<string>) {
    && (forall k :: 0 <= k < |ids| ==> IndexOf(rows, ids[k]) < n)
    && (forall j, k :: 0 <= j < k < |ids| ==> IndexOf(rows, ids[j]) < IndexOf(rows, ids[k]))
  }

  lemma SeenNext(rows: seq<Row>, n: nat, ids: seq<string>, id: string)
    requires FirstSeen(rows, n, ids) && n < |rows| && rows[n].itemId == id
    requires forall i :: 0 <= i < n ==> rows[i].itemId != id
    ensures FirstSeen(rows, n + 1, ids) && FirstSeen(rows, n + 1, ids + [id])
  {
    assert IndexOf(rows, id) == n;
  }

  /** One row of each item at most, in the order in which the items first appear. */
  predicate InOrderOf(rows: seq<Row>, out: seq<Row>) {
    forall j, k :: 0 <= j < k < |out| ==> IndexOf(rows, out[j].itemId) < IndexOf(rows, out[k].itemId)
  }

  predicate FromChosen(rows: seq<Row>, row: Row) {
    exists i :: 0 <= i < |rows| && Chosen(rows, |rows|, i) && rows[i] == row
  }

  /** The chosen row of every item, and the items in order of first appearance. */
  method Choose(rows: seq<Row>) returns (ids: seq<string>, chosen: map<string, nat>)
    ensures BestSoFar(rows, |rows|, chosen) && FirstSeen(rows, |rows|, ids)
    ensures forall id :: id in chosen <==> id in ids
  {
    hide BestSoFar, FirstSeen, IndexOf;
    ids, chosen := [], map[];
    NothingSeen(rows);
    var i := 0;
    while i < |rows|
      invariant i <= |rows| && BestSoFar(rows, i, chosen) && FirstSeen(rows, i, ids)
      invariant forall id :: id in chosen <==> id in ids
    {
      BestNext(rows, i, chosen);
      var id := rows[i].itemId;
      if id !in chosen {
        NewItem(rows, i, chosen);
        SeenNext(rows, i, ids, id);
        ids := ids + [id];
        chosen := chosen[id := i];
      } else {
        SeenLater(rows, i, ids);
        KeptIndex(rows, i, chosen, id);
        if rows[i].revision > rows[chosen[id]].revision {
          chosen := chosen[id := i];
        }
      }
      i := i + 1;
    }
  }

  /** dedupeStackRowsByItemID: for every item, in order of first appearance, its first row of
      the highest revision. */
  method Dedupe(rows: seq<Row>) returns (out: seq<Row>)
    ensures forall k :: 0 <= k < |out| ==> FromChosen(rows, out[k])
    ensures forall i :: 0 <= i < |rows| ==> Contains(out, rows[i].itemId)
    ensures InOrderOf(rows, out)
  {
    hide BestSoFar, IndexOf, FromChosen, Contains;
    var ids, chosen := Choose(rows);
    out := [];
    var i := 0;
    while i < |ids|
      invariant i <= |ids| && |out| == i
      invariant forall k :: 0 <= k < i ==> FromChosen(rows, out[k]) && out[k].itemId == ids[k]
    {
      KeptIndex(rows, |rows|, chosen, ids[i]);
      out := out + [rows[chosen[ids[i]]]];
      i := i + 1;
    }
    forall n | 0 <= n < |rows| ensures Contains(out, rows[n].itemId) {
      Known(rows, chosen, n);
      var k :| 0 <= k < |ids| && ids[k] == rows[n].itemId;
      HasItem(out, k);
    }
  }

  lemma NothingSeen(rows: seq<Row>)
    ensures BestSoFar(rows, 0, map[]) && FirstSeen(rows, 0, [])
  {
  }

  lemma KeptIndex(rows: seq<Row>, n: nat, best: map<string, nat>, id: string)
    requires BestSoFar(rows, n, best) && id in best
    ensures best[id] < n <= |rows| && rows[best[id]].itemId == id
    ensures n == |rows| ==> FromChosen(rows, rows[best[id]])
  {
  }

  lemma Known(rows: seq<Row>, best: map<string, nat>, n: nat)
    requires BestSoFar(rows, |rows|, best) && n < |rows|
    ensures rows[n].itemId in best
  {
  }

  lemma HasItem(rows: seq<Row>, k: nat)
    requires k < |rows|
    ensures Contains(rows, rows[k].itemId)
  {
  }

  lemma NewItem(rows: seq<Row>, n: nat, best: map<string, nat>)
    requires BestSoFar(rows, n, best) && n < |rows| && rows[n].itemId !in best
    ensures forall i :: 0 <= i < n ==> rows[i].itemId != rows[n].itemId
  {
  }

  lemma SeenLater(rows: seq<Row>, n: nat, ids: seq<string>)
    requires FirstSeen(rows, n, ids)
    ensures FirstSeen(rows, n + 1, ids)
  {
  }

  /** The rows that entered by the coordinate, in order. */
  function EnteredBy(rows: seq<Row>, from: nat): seq<Row> {
    if rows == [] then []
    else EnteredBy(rows[..|rows| - 1], from) + if rows[|rows| - 1].entered <= from then [rows[|rows| - 1]] else []
  }

  lemma {:induction false} EnteredMembers(rows: seq<Row>, from: nat, r: Row)
    ensures r in EnteredBy(rows, from) <==> r in rows && r.entered <= from
    decreases |rows|
  {
    if rows != [] {
      EnteredMembers(rows[..|rows| - 1], from, r);
      SplitLast(rows, r);
    }
  }

  lemma {:induction false} EnteredStacked(rows: seq<Row>, from: nat, top: nat)
    requires Stacked(rows, top)
    ensures Stacked(EnteredBy(rows, from), top)
    decreases |rows|
  {
    if rows != [] {
      var front, last := rows[..|rows| - 1], rows[|rows| - 1];
      EnteredStacked(front, from, last.seqNo - 1);
      StackedOnTop(EnteredBy(front, from), last.seqNo - 1, last, top);
    }
  }

  /** The rows of the deduplicated archive that closed by the coordinate, in order. */
  method ClosedBy(rows: seq<Row>, history: seq<Row>, from: nat) returns (archived: seq<Row>)
    requires InOrderOf(rows, history)
    ensures forall r :: r in archived <==> r in history && r.closedTo <= from
    ensures InOrderOf(rows, archived)
  {
    hide IndexOf;
    archived := [];
    var i := 0;
    while i < |history|
      invariant i <= |history| && InOrderOf(rows, archived)
      invariant forall r :: r in archived <==> r in history[..i] && r.closedTo <= from
      invariant forall j, k :: 0 <= j < |archived| && i <= k < |history| ==>
                  IndexOf(rows, archived[j].itemId) < IndexOf(rows, history[k].itemId)
    {
      assert history[..i + 1] == history[..i] + [history[i]];
      if history[i].closedTo == 0 || history[i].closedTo <= from {
        archived := archived + [history[i]];
      }
      i := i + 1;
    }
    assert history[..i] == history;
  }

  /** stackSnapshotAt: the rows of the stack that had entered, in order, and of the archive
      exactly the items the predicate above names, in order of first appearance. */
  method SnapshotAt(s: Stack, from: nat) returns (active: seq<Row>, archived: seq<Row>)
    requires Sound(s)
    ensures active == EnteredBy(s.active, from) && Stacked(active, s.nextSeq)
    ensures forall r :: r in active <==> r in s.active && r.entered <= from
    ensures forall id :: Contains(archived, id) <==> ShowsArchived(s, from, id)
    ensures forall k :: 0 <= k < |archived| ==> FromChosen(s.archived, archived[k]) && archived[k].closedTo <= from
    ensures InOrderOf(s.archived, archived)
  {
    EnteredStacked(s.active, from, s.nextSeq);
    hide Sound, ShowsArchived, Contains, FromChosen, IndexOf;
    active := [];
    var i := 0;
    assert s.active[..0] == [];
    while i < |s.active|
      invariant i <= |s.active| && active == EnteredBy(s.active[..i], from)
    {
      assert s.active[..i + 1][..i] == s.active[..i];
      if s.active[i].entered == 0 || s.active[i].entered <= from {
        active := active + [s.active[i]];
      }
      i := i + 1;
    }
    assert s.active[..i] == s.active;
    forall r ensures r in active <==> r in s.active && r.entered <= from {
      EnteredMembers(s.active, from, r);
    }
    var history := Dedupe(s.archived);
    assert Deduped(s.archived, history);
    archived := ClosedBy(s.archived, history, from);
    forall id ensures Contains(archived, id) <==> ShowsArchived(s, from, id) {
      ShownByBest(s, from, history, archived, id);
    }
    forall k | 0 <= k < |archived| ensures FromChosen(s.archived, archived[k]) && archived[k].closedTo <= from {
      assert archived[k] in archived;
    }
  }

  /** The archive holds one row of the highest revision for each item. */
  lemma BestIsUnique(s: Stack, j: nat, k: nat)
    requires Sound(s) && j < |s.archived| && k < |s.archived| && s.archived[j].itemId == s.archived[k].itemId
    requires Best(s.archived, j) && Best(s.archived, k)
    ensures j == k
  {
  }

  /** The deduplicated archive: chosen rows only, and one of every item. */
  predicate Deduped(rows: seq<Row>, history: seq<Row>) {
    && (forall k :: 0 <= k < |history| ==> FromChosen(rows, history[k]))
    && (forall i :: 0 <= i < |rows| ==> Contains(history, rows[i].itemId))
  }

  lemma ChosenIsBest(rows: seq<Row>, row: Row) returns (n: nat)
    requires FromChosen(rows, row)
    ensures n < |rows| && rows[n] == row && Best(rows, n)
  {
    n :| 0 <= n < |rows| && Chosen(rows, |rows|, n) && rows[n] == row;
  }

  lemma BestIsThere(s: Stack, history: seq<Row>, k: nat)
    requires Sound(s) && Deduped(s.archived, history) && k < |s.archived| && Best(s.archived, k)
    ensures s.archived[k] in history
  {
    hide Sound, FromChosen, Best;
    assert Contains(history, s.archived[k].itemId);
    var m :| 0 <= m < |history| && history[m].itemId == s.archived[k].itemId;
    var n := ChosenIsBest(s.archived, history[m]);
    BestIsUnique(s, k, n);
  }

  lemma ShownByBest(s: Stack, from: nat, history: seq<Row>, archived: seq<Row>, id: string)
    requires Sound(s) && Deduped(s.archived, history)
    requires forall r :: r in archived <==> r in history && r.closedTo <= from
    ensures Contains(archived, id) <==> ShowsArchived(s, from, id)
  {
    hide Sound, FromChosen, Best;
    if i :| 0 <= i < |archived| && archived[i].itemId == id {
      assert archived[i] in history;
      var k :| 0 <= k < |history| && history[k] == archived[i];
      var n := ChosenIsBest(s.archived, history[k]);
    }
    if k :| 0 <= k < |s.archived| && s.archived[k].itemId == id && Best(s.archived, k) && s.archived[k].closedTo <= from {
      BestIsThere(s, history, k);
      assert s.archived[k] in archived;
      var i :| 0 <= i < |archived| && archived[i] == s.archived[k];
    }
  }
}
