/** The structural EVENT channel: the three watermark rules that number and deduplicate a
    commit from the head alone, its commit protocol, and what a retry does
    (store/structural_events.go). */
module EventLog {
  import opened ShardStore
  import opened MessageLog
  import opened StoreDisk

  // ---- the watermark rules ----

  /** Rows without a number get the next one; explicit numbers at or below the published
      watermark are skipped; the others must increase. */
  function Continued(rows: seq<Row>, lastId: nat, next: nat, commit: string): Result<seq<Row>> {
    if rows == [] then Ok([])
    else
      var row := rows[0].(commit := commit);
      if row.id == 0 then
        match Continued(rows[1..], lastId, next + 1, commit)
        case Err => Err
        case Ok(rest) => Ok([row.(id := next + 1)] + rest)
      else if row.id <= lastId then Continued(rows[1..], lastId, next, commit)
      else if row.id <= next then Err
      else
        match Continued(rows[1..], lastId, row.id, commit)
        case Err => Err
        case Ok(rest) => Ok([row] + rest)
  }

  function Delta(head: Head, rows: seq<Row>, commit: string): Result<seq<Row>> {
    if rows == [] || (head.lastId > 0 && head.lastCommit == commit) then Ok([])
    else Continued(rows, head.lastId, head.lastId, commit)
  }

  /** The rows a commit is meant to add: those not yet published. */
  function Fresh(rows: seq<Row>, lastId: nat): seq<Row> {
    if rows == [] then []
    else (if rows[0].id == 0 || rows[0].id > lastId then [rows[0]] else []) + Fresh(rows[1..], lastId)
  }

  lemma {:induction false} FreshConcat(rows: seq<Row>, more: seq<Row>, lastId: nat)
    ensures Fresh(rows + more, lastId) == Fresh(rows, lastId) + Fresh(more, lastId)
    decreases |rows|
  {
    if rows == [] {
      NeutralEmpty(more);
      NeutralEmpty(Fresh(more, lastId));
    } else {
      assert (rows + more)[1..] == rows[1..] + more;
      FreshConcat(rows[1..], more, lastId);
      Associative(if rows[0].id == 0 || rows[0].id > lastId then [rows[0]] else [], Fresh(rows[1..], lastId), Fresh(more, lastId));
    }
  }

  /** That is a selection, row by row and in order. */
  lemma FreshExactly(rows: seq<Row>, row: Row, more: seq<Row>, lastId: nat)
    ensures Fresh([], lastId) == []
    ensures Fresh(rows + [row] + more, lastId)
         == Fresh(rows, lastId) + (if 0 < row.id <= lastId then [] else [row]) + Fresh(more, lastId)
  {
    FreshConcat(rows + [row], more, lastId);
    FreshConcat(rows, [row], lastId);
    assert [row][1..] == [];
  }

  function Prior(ids: seq<nat>, i: nat, previous: nat): nat
    requires i <= |ids|
  {
    if i == 0 then previous else ids[i - 1]
  }

  /** The numbers the rows ask for: their own, or one above the row before. */
  predicate Asked(ids: seq<nat>, news: seq<Row>, previous: nat) {
    |ids| == |news| &&
    forall i :: 0 <= i < |ids| ==> ids[i] == if news[i].id != 0 then news[i].id else Prior(ids, i, previous) + 1
  }

  predicate Rising(ids: seq<nat>, previous: nat) {
    forall i :: 0 <= i < |ids| ==> ids[i] > Prior(ids, i, previous)
  }

  predicate Carries(delta: seq<Row>, news: seq<Row>, ids: seq<nat>, commit: string) {
    |delta| == |news| == |ids| && forall i :: 0 <= i < |delta| ==> delta[i] == Row(ids[i], commit, news[i].text)
  }

  lemma PriorCons(id: nat, ids: seq<nat>, previous: nat, i: nat)
    requires i < |ids|
    ensures ([id] + ids)[i + 1] == ids[i] && Prior([id] + ids, i + 1, previous) == Prior(ids, i, id)
  {
  }

  lemma AskedCons(id: nat, ids: seq<nat>, row: Row, news: seq<Row>, previous: nat)
    requires Asked(ids, news, id) && id == if row.id != 0 then row.id else previous + 1
    ensures Asked([id] + ids, [row] + news, previous)
  {
    hide Prior;
    var all, rows := [id] + ids, [row] + news;
    assert Prior(all, 0, previous) == previous by { PriorFirst(all, previous); }
    forall i | 0 <= i < |all| ensures all[i] == if rows[i].id != 0 then rows[i].id else Prior(all, i, previous) + 1 {
      if i > 0 {
        PriorCons(id, ids, previous, i - 1);
        assert rows[i] == news[i - 1];
      }
    }
  }

  lemma PriorFirst(ids: seq<nat>, previous: nat)
    ensures Prior(ids, 0, previous) == previous
  {
  }

  lemma RisingCons(id: nat, ids: seq<nat>, previous: nat)
    ensures Rising([id] + ids, previous) <==> id > previous && Rising(ids, id)
  {
    hide Prior;
    var all := [id] + ids;
    PriorFirst(all, previous);
    if Rising(all, previous) {
      assert all[0] > Prior(all, 0, previous);
      forall i | 0 <= i < |ids| ensures ids[i] > Prior(ids, i, id) {
        PriorCons(id, ids, previous, i);
        assert all[i + 1] > Prior(all, i + 1, previous);
      }
    }
    if id > previous && Rising(ids, id) {
      forall i | 0 <= i < |all| ensures all[i] > Prior(all, i, previous) {
        if i > 0 {
          PriorCons(id, ids, previous, i - 1);
        }
      }
    }
  }

  lemma CarriesCons(delta: seq<Row>, news: seq<Row>, ids: seq<nat>, commit: string, id: nat, row: Row)
    requires Carries(delta, news, ids, commit)
    ensures Carries([row.(id := id, commit := commit)] + delta, [row] + news, [id] + ids, commit)
  {
  }

  lemma {:induction false} RisingFollows(delta: seq<Row>, news: seq<Row>, ids: seq<nat>, commit: string, previous: nat)
    requires Carries(delta, news, ids, commit) && Rising(ids, previous)
    ensures Follows(delta, previous)
    decreases |delta|
  {
    if delta != [] {
      assert ids == [ids[0]] + ids[1..] && delta == [delta[0]] + delta[1..];
      RisingCons(ids[0], ids[1..], previous);
      RisingFollows(delta[1..], news[1..], ids[1..], commit, ids[0]);
      AscendingConcat([delta[0]], delta[1..]);
    }
  }

  /** What is refused: numbers that do not rise, one row's or a later one's. */
  lemma {:induction false} ContinuedExactly(rows: seq<Row>, lastId: nat, next: nat, commit: string) returns (ids: seq<nat>)
    requires lastId <= next
    ensures Asked(ids, Fresh(rows, lastId), next)
    ensures var r := Continued(rows, lastId, next, commit);
            && (r.Ok? <==> Rising(ids, next))
            && (r.Ok? ==> Carries(r.value, Fresh(rows, lastId), ids, commit))
    decreases |rows|
  {
    hide Asked, Rising, Carries;
    if rows == [] {
      ids := [];
      NothingAsked(next, commit);
    } else {
      var rest := Fresh(rows[1..], lastId);
      if rows[0].id == 0 || rows[0].id > lastId {
        var id := if rows[0].id == 0 then next + 1 else rows[0].id;
        var more;
        if id > next {
          more := ContinuedExactly(rows[1..], lastId, id, commit);
          var r := Continued(rows[1..], lastId, id, commit);
          if r.Ok? {
            CarriesCons(r.value, rest, more, commit, id, rows[0]);
          }
        } else {
          more := AskedNumbers(rest, id);
        }
        AskedCons(id, more, rows[0], rest, next);
        RisingCons(id, more, next);
        ids := [id] + more;
      } else {
        assert Fresh(rows, lastId) == rest;
        ids := ContinuedExactly(rows[1..], lastId, next, commit);
      }
    }
  }

  lemma NothingAsked(previous: nat, commit: string)
    ensures Asked([], [], previous) && Rising([], previous) && Carries([], [], [], commit)
  {
  }

  lemma {:induction false} AskedNumbers(news: seq<Row>, previous: nat) returns (ids: seq<nat>)
    ensures Asked(ids, news, previous)
    decreases |news|
  {
    if news == [] {
      ids := [];
    } else {
      var id := if news[0].id != 0 then news[0].id else 1 + previous;
      var more := AskedNumbers(news[1..], id);
      AskedCons(id, more, news[0], news[1..], previous);
      ids := [id] + more;
      assert news == [news[0]] + news[1..];
    }
  }

  /** A commit is refused exactly when the numbers its unpublished rows ask for do not rise
      above the head and each other; otherwise it adds those rows, in order, under those
      numbers. */
  lemma DeltaExactly(head: Head, rows: seq<Row>, commit: string) returns (ids: seq<nat>)
    ensures Delta(head, rows, commit).Ok? ==> Follows(Delta(head, rows, commit).value, head.lastId)
    ensures Asked(ids, Fresh(rows, head.lastId), head.lastId)
    ensures !(head.lastId > 0 && head.lastCommit == commit) ==>
              && (Delta(head, rows, commit).Ok? <==> Rising(ids, head.lastId))
              && (Delta(head, rows, commit).Ok? ==>
                    Carries(Delta(head, rows, commit).value, Fresh(rows, head.lastId), ids, commit))
  {
    hide Asked, Rising, Carries, Follows;
    ids := ContinuedExactly(rows, head.lastId, head.lastId, commit);
    if Continued(rows, head.lastId, head.lastId, commit).Ok? {
      RisingFollows(Continued(rows, head.lastId, head.lastId, commit).value, Fresh(rows, head.lastId), ids, commit, head.lastId);
    }
    NothingFollows(head.lastId);
  }

  lemma NothingFollows(lastId: nat)
    ensures Follows([], lastId)
  {
  }

  lemma {:induction false} FreshIsEmpty(rows: seq<Row>, lastId: nat)
    ensures Fresh(rows, lastId) == [] <==> forall i :: 0 <= i < |rows| ==> 0 < rows[i].id <= lastId
    decreases |rows|
  {
    if rows != [] {
      FreshIsEmpty(rows[1..], lastId);
      assert forall i :: 1 <= i < |rows| ==> rows[i] == rows[1..][i - 1];
    }
  }

  /** When repeating a commit adds nothing: it was the last one, or every row carries a
      number that is already published. A later retry renumbers rows that had none. */
  lemma RepeatAddsNothingExactly(head: Head, rows: seq<Row>, commit: string)
    ensures Delta(head, rows, commit) == Ok([])
       <==> (head.lastId > 0 && head.lastCommit == commit) || forall i :: 0 <= i < |rows| ==> 0 < rows[i].id <= head.lastId
  {
    var _ := DeltaExactly(head, rows, commit);
    FreshIsEmpty(rows, head.lastId);
  }

  // ---- the commit ----

  /** A size equal to the recorded one means there is nothing to repair. */
  predicate Intact(s: Store) {
    s.head.shards == [] || Size(Content(s.files, Last(s.head.shards).name)) == Last(s.head.shards).bytes
  }

  lemma IntactIsExact(s: Store)
    requires WellFormed(s) && Intact(s)
    ensures TailExact(s)
  {
    if s.head.shards != [] {
      FullSizeIsExact(s.files[Last(s.head.shards).name], Last(s.head.shards));
    }
  }

  function EventOps(s: Store, order: seq<Name>, rows: seq<Row>, commit: string, cap: nat): seq<Op>
    requires 0 < cap
  {
    var reap := Reaping(s, order, Intact(s));
    match Delta(s.head, rows, commit)
    case Err => reap
    case Ok(delta) =>
      if delta != [] then Committing(s, order, Intact(s), delta, commit, cap)
      else if Intact(s) then reap
      else reap + [Publish(s.head)]
  }

  function EventsAdded(s: Store, rows: seq<Row>, commit: string): seq<Row> {
    match Delta(s.head, rows, commit) case Err => [] case Ok(delta) => delta
  }

  lemma RepublishCrash(s: Store, work: seq<Op>, at: nat, cut: Cut)
    requires WellFormed(s) && AllHarmless(s.head, work) && at <= |work| + 1
    ensures var t := Crashed(s, work + [Publish(s.head)], at, cut);
            WellFormed(t) && Log(t) == Log(s) && t.head == s.head
  {
    CrashIsAtomic(s, work, s.head, at, cut);
    AfterIsHarmless(s, work);
    assert Front(work + [Publish(s.head)]) == work;
    LogIsPublished(s);
    LogIsPublished(After(s, work));
  }

  /** Crash atomicity of the EVENT channel, for any rows, residue and crash point. A commit
      that ends, refused or not, leaves no residue. */
  lemma EventCommitIsAtomic(s: Store, order: seq<Name>, rows: seq<Row>, commit: string, cap: nat, at: nat, cut: Cut)
    requires WellFormed(s) && Lists(order, s) && 0 < cap && at <= |EventOps(s, order, rows, commit, cap)|
    ensures var ops := EventOps(s, order, rows, commit, cap);
            var crashed := Crashed(s, ops, at, cut);
            && WellFormed(crashed)
            && (at < |ops| ==> Log(crashed) == Log(s) && crashed.head == s.head)
            && (at == |ops| ==> Log(crashed) == Log(s) + EventsAdded(s, rows, commit))
            && (at == |ops| && EventsAdded(s, rows, commit) != [] ==>
                  crashed.head.lastCommit == commit && crashed.head.lastId > 0)
            && (EventsAdded(s, rows, commit) == [] ==> crashed.head == s.head)
            && (at == |ops| ==> Clean(crashed))
  {
    hide WellFormed, Clean, Log, Reaping, TailExact, Lists, Delta, Asked, Rising, Carries, Writing, AllHarmless;
    if Intact(s) {
      IntactIsExact(s);
    }
    var _ := DeltaExactly(s.head, rows, commit);
    var delta := EventsAdded(s, rows, commit);
    var reap := Reaping(s, order, Intact(s));
    if delta != [] {
      CommitCrashIsAtomic(s, order, Intact(s), delta, commit, cap, at, cut);
      CommitIsExact(s, order, Intact(s), delta, commit, cap);
      AscendingBounds(delta);
    } else {
      ReapingCleans(s, order, Intact(s));
      var log, ops := Log(s), EventOps(s, order, rows, commit, cap);
      assert log + [] == log;
      assert ops[..|ops|] == ops && Front(reap + [Publish(s.head)]) == reap;
      if Delta(s.head, rows, commit).Err? || Intact(s) {
        ReapOnlyCrash(s, reap, at, cut);
      } else {
        RepublishCrash(s, reap, at, cut);
      }
    }
  }

  /** Exactly once: a commit that crashed anywhere and is retried at once adds its rows once,
      numbered and unnumbered alike. */
  lemma EventRetryIsExactlyOnce(s: Store, order: seq<Name>, rows: seq<Row>, commit: string, cap: nat,
                                at: nat, cut: Cut, again: seq<Name>)
    requires WellFormed(s) && Lists(order, s) && 0 < cap && at <= |EventOps(s, order, rows, commit, cap)|
    requires Lists(again, Crashed(s, EventOps(s, order, rows, commit, cap), at, cut))
    ensures var crashed := Crashed(s, EventOps(s, order, rows, commit, cap), at, cut);
            Log(After(crashed, EventOps(crashed, again, rows, commit, cap))) == Log(s) + EventsAdded(s, rows, commit)
  {
    var crashed := Crashed(s, EventOps(s, order, rows, commit, cap), at, cut);
    EventCommitIsAtomic(s, order, rows, commit, cap, at, cut);
    var ops := EventOps(crashed, again, rows, commit, cap);
    EventCommitIsAtomic(crashed, again, rows, commit, cap, |ops|, Before);
    assert ops[..|ops|] == ops;
    var log, delta := Log(s), EventsAdded(s, rows, commit);
    if at == |EventOps(s, order, rows, commit, cap)| && delta != [] {
      assert (log + delta) + [] == log + delta;
    }
  }

  /** After a crash the repaired index entry is the one the head already has. */
  lemma RepairedEntry(f: File, shard: Shard)
    requires TailHolds(f, shard) && Exact(f, shard)
    ensures shard.(from := f.rows[0].id, to := shard.to, count := |f.rows|, bytes := Size(f)) == shard
    ensures f.rows != [] && Last(f.rows).id == shard.to
  {
    assert f.rows[..shard.count] == f.rows;
  }

  lemma Associates(a: seq<Row>, row: Row, b: seq<Row>)
    ensures a + ([row] + b) == (a + [row]) + b
  {
  }

  // ---- the channel object ----

  lemma DeltaIsWritable(files: map<Name, File>, head: Head, rows: seq<Row>, commit: string, cap: nat)
    requires 0 < cap && Clean(Store(files, head)) && Delta(head, rows, commit).Ok?
    ensures Writable(files, head, Delta(head, rows, commit).value, cap)
  {
    var _ := DeltaExactly(head, rows, commit);
  }

  class EventChannel {
    const disk: Disk
    const cap: nat

    constructor (disk: Disk, cap: nat)
      ensures this.disk == disk && this.cap == cap
    {
      this.disk, this.cap := disk, cap;
    }

    /** structuralEventDelta: one pass over the rows, the head alone consulted. */
    method NextRows(head: Head, rows: seq<Row>, commit: string) returns (r: Result<seq<Row>>)
      ensures r == Delta(head, rows, commit)
    {
      if rows == [] || (head.lastId > 0 && head.lastCommit == commit) {
        return Ok([]);
      }
      hide Clean;
      var next, delta, i := head.lastId, [], 0;
      ghost var all := Continued(rows, head.lastId, head.lastId, commit);
      assert rows[0..] == rows && (all.Ok? ==> delta + all.value == all.value);
      while i < |rows|
        invariant i <= |rows|
        invariant all == match Continued(rows[i..], head.lastId, next, commit) case Err => Err case Ok(rest) => Ok(delta + rest)
      {
        var row := rows[i].(commit := commit);
        assert rows[i..][1..] == rows[i + 1..];
        i := i + 1;
        if row.id == 0 {
          next := next + 1;
          row := row.(id := next);
        } else if row.id <= head.lastId {
          continue;
        } else if row.id <= next {
          return Err;
        } else {
          next := row.id;
        }
        ghost var rest := Continued(rows[i..], head.lastId, next, commit);
        if rest.Ok? {
          Associates(delta, row, rest.value);
        }
        delta := delta + [row];
      }
      assert rows[i..] == [] && delta + [] == delta;
      r := Ok(delta);
    }

    /** One batch: into the last shard while it has room, or into a new one. */
    method AppendBatch(head: Head, rest: seq<Row>) returns (next: Head, taken: nat)
      requires disk.Valid() && 0 < cap && rest != [] && Fitting(disk.files, head, rest, cap)
      modifies disk
      ensures disk.Valid() && disk.head == old(disk.head)
      ensures var e := Extend(head, rest, cap);
              && next == e.head && taken == e.taken
              && disk.trace == old(disk.trace) + [Op.Append(e.name, rest[..taken])]
              && disk.files == Do(Store(old(disk.files), head), Op.Append(e.name, rest[..taken])).files
    {
      hide After, Width, Total;
      var reuse := head.shards != [] && Last(head.shards).count < cap;
      var info := Shard(Name(0, 0), 0, 0, 0, 0);
      if reuse {
        info := Last(head.shards);
      } else {
        var planned := Least(cap, |rest|);
        info := Shard(Name(rest[0].id, rest[planned - 1].id), rest[0].id, rest[planned - 1].id, 0, 0);
      }
      var batch := rest;
      if |batch| > cap - info.count {
        batch := batch[..cap - info.count];
      }
      taken := |batch|;
      ghost var e := Extend(head, rest, cap);
      assert info.name == e.name && taken == e.taken && batch == rest[..taken];
      WidthOfConcat(Content(disk.files, info.name).rows, batch);
      var size := disk.Append(info.name, batch);
      info := info.(count := info.count + |batch|, to := Last(batch).id, bytes := size);
      next := head.(shards := (if reuse then Front(head.shards) else head.shards) + [info],
                    lastId := info.to, total := head.total + |batch|);
    }

    /** appendEventsLocked: batch after batch; the head in memory follows. */
    method AppendEvents(head: Head, delta: seq<Row>) returns (next: Head)
      requires disk.Valid() && 0 < cap && Writable(disk.files, head, delta, cap)
      modifies disk
      ensures disk.Valid() && disk.head == old(disk.head)
      ensures disk.trace == old(disk.trace) + Writing(head, delta, cap).ops && next == Writing(head, delta, cap).head
    {
      hide Writable, Fitting, Extend, Writing, After, Do;
      next := head;
      var rest := delta;
      ghost var done: seq<Op> := [];
      while rest != []
        invariant disk.Valid() && disk.head == old(disk.head)
        invariant Writable(disk.files, next, rest, cap)
        invariant disk.trace == old(disk.trace) + done
        invariant done + Writing(next, rest, cap).ops == Writing(head, delta, cap).ops
        invariant Writing(next, rest, cap).head == Writing(head, delta, cap).head
        decreases |rest|
      {
        ghost var e := Round(disk.files, next, rest, cap);
        var taken;
        next, taken := AppendBatch(next, rest);
        ghost var first := Op.Append(e.name, rest[..taken]);
        rest := rest[taken..];
        assert (done + [first]) + Writing(next, rest, cap).ops == done + ([first] + Writing(next, rest, cap).ops);
        done := done + [first];
      }
      WritingNothing(next, cap);
      assert done + [] == done;
    }

    /** structuralEventCommit. */
    method Commit(commit: string, rows: seq<Row>) returns (r: Result<Head>, ghost order: seq<Name>)
      requires disk.Valid() && WellFormed(disk.Contents()) && 0 < cap
      modifies disk
      ensures disk.Valid() && Lists(order, old(disk.Contents()))
      ensures disk.trace == old(disk.trace) + EventOps(old(disk.Contents()), order, rows, commit, cap)
      ensures r.Ok? <==> Delta(old(disk.head), rows, commit).Ok?
      ensures r.Ok? ==> r.value == disk.head
    {
      hide Clean, WellFormed, TailExact, Lists, Reaping, Writing, Log, After, Writable, Delta, Size;
      ghost var before := disk.Contents();
      var head := disk.head;
      var intact := head.shards == [] || Size(Content(disk.files, Last(head.shards).name)) == Last(head.shards).bytes;
      assert intact ==> TailExact(before) by {
        if intact {
          IntactIsExact(before);
        }
      }
      assert intact == Intact(before);
      order := disk.Reap(intact);
      var delta := NextRows(head, rows, commit);
      if delta.Err? {
        return Err, order;
      }
      if delta.value == [] {
        if !intact {
          disk.Publish(head);
        }
        return Ok(head), order;
      }
      DeltaIsWritable(disk.files, head, rows, commit, cap);
      var next := AppendEvents(head, delta.value);
      next := next.(lastCommit := commit);
      disk.Publish(next);
      r := Ok(next);
    }
  }

  /** What a completed commit leaves behind. */
  lemma EventCommitAdds(s: Store, order: seq<Name>, rows: seq<Row>, commit: string, cap: nat)
    requires WellFormed(s) && Lists(order, s) && 0 < cap
    ensures var t := After(s, EventOps(s, order, rows, commit, cap));
            WellFormed(t) && Log(t) == Log(s) + EventsAdded(s, rows, commit)
  {
    var ops := EventOps(s, order, rows, commit, cap);
    EventCommitIsAtomic(s, order, rows, commit, cap, |ops|, Before);
    assert ops[..|ops|] == ops;
  }
}
