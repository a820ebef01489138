/** The message channel: explicit contiguous row numbers, commits that survive a crash at any
    point, and a draft tail that stays invisible until it is published
    (store/message_rows.go, store/pending_tail.go, store/session/session.go). */
module MessageLog {
  import opened ShardStore

  datatype Result<T> = Ok(value: T) | Err

  // ---- which rows a commit appends ----

  /** Rows at or below `base` are skipped; the others must carry next, next+1, ... */
  function Numbered(rows: seq<Row>, base: nat, next: nat, commit: string): Result<seq<Row>> {
    if rows == [] then Ok([])
    else if rows[0].id == 0 then Err
    else if rows[0].id <= base then Numbered(rows[1..], base, next, commit)
    else if rows[0].id != next then Err
    else match Numbered(rows[1..], base, next + 1, commit)
      case Err => Err
      case Ok(rest) => Ok([rows[0].(commit := commit)] + rest)
  }

  function Assigned(rows: seq<Row>, base: nat, commit: string): Result<seq<Row>> {
    Numbered(rows, base, base + 1, commit)
  }

  /** The rows carry first, first+1, ... */
  predicate Consecutive(rows: seq<Row>, first: nat) {
    forall i :: 0 <= i < |rows| ==> rows[i].id == first + i
  }

  /** The rows above `base`, stamped: what a commit is meant to add. */
  function NewRows(rows: seq<Row>, base: nat, commit: string): seq<Row> {
    if rows == [] then []
    else (if rows[0].id > base then [rows[0].(commit := commit)] else []) + NewRows(rows[1..], base, commit)
  }

  lemma {:induction false} NewRowsConcat(rows: seq<Row>, more: seq<Row>, base: nat, commit: string)
    ensures NewRows(rows + more, base, commit) == NewRows(rows, base, commit) + NewRows(more, base, commit)
    decreases |rows|
  {
    if rows == [] {
      NeutralEmpty(more);
      NeutralEmpty(NewRows(more, base, commit));
    } else {
      assert (rows + more)[1..] == rows[1..] + more;
      NewRowsConcat(rows[1..], more, base, commit);
      Associative(if rows[0].id > base then [rows[0].(commit := commit)] else [],
                  NewRows(rows[1..], base, commit), NewRows(more, base, commit));
    }
  }

  /** That is a selection, row by row and in order, of the rows above the base, each with its
      number and text and the name of the commit. */
  lemma NewRowsExactly(rows: seq<Row>, row: Row, more: seq<Row>, base: nat, commit: string)
    ensures NewRows([], base, commit) == []
    ensures NewRows(rows + [row] + more, base, commit)
         == NewRows(rows, base, commit) + (if row.id <= base then [] else [Row(row.id, commit, row.text)]) + NewRows(more, base, commit)
  {
    NewRowsConcat(rows + [row], more, base, commit);
    NewRowsConcat(rows, [row], base, commit);
    assert [row][1..] == [];
  }

  predicate AllNumbered(rows: seq<Row>) {
    forall i :: 0 <= i < |rows| ==> rows[i].id != 0
  }

  lemma ConsecutiveCons(row: Row, rest: seq<Row>, first: nat)
    ensures Consecutive([row] + rest, first) <==> row.id == first && Consecutive(rest, first + 1)
  {
    var all := [row] + rest;
    assert all[0] == row && forall i :: 0 <= i < |rest| ==> rest[i] == all[i + 1];
    if Consecutive(all, first) {
      forall i | 0 <= i < |rest| ensures rest[i].id == first + 1 + i {
        assert all[i + 1].id == first + (i + 1);
      }
    }
  }

  lemma {:induction false} NumberedExactly(rows: seq<Row>, base: nat, next: nat, commit: string)
    requires base < next
    ensures Numbered(rows, base, next, commit).Ok?
       <==> AllNumbered(rows) && Consecutive(NewRows(rows, base, commit), next)
    ensures Numbered(rows, base, next, commit).Ok? ==>
              Numbered(rows, base, next, commit).value == NewRows(rows, base, commit)
    decreases |rows|
  {
    if rows != [] {
      var rest := NewRows(rows[1..], base, commit);
      assert AllNumbered(rows) <==> rows[0].id != 0 && AllNumbered(rows[1..]) by {
        assert forall i :: 1 <= i < |rows| ==> rows[i] == rows[1..][i - 1];
      }
      NumberedExactly(rows[1..], base, if rows[0].id > base then next + 1 else next, commit);
      if rows[0].id > base {
        ConsecutiveCons(rows[0].(commit := commit), rest, next);
      } else {
        assert NewRows(rows, base, commit) == rest;
      }
    }
  }

  lemma {:induction false} ConsecutiveFollows(rows: seq<Row>, first: nat)
    requires Consecutive(rows, first)
    ensures Ascending(rows) && (rows != [] ==> rows[0].id == first && Last(rows).id == first + |rows| - 1)
    decreases |rows|
  {
    if |rows| > 1 {
      ConsecutiveFollows(Front(rows), first);
    }
  }

  /** A commit is accepted exactly when every row is numbered and the new ones continue the
      head without a gap; it then adds those rows, in order. */
  lemma AssignedExactly(rows: seq<Row>, base: nat, commit: string)
    ensures Assigned(rows, base, commit).Ok? <==> AllNumbered(rows) && Consecutive(NewRows(rows, base, commit), base + 1)
    ensures Assigned(rows, base, commit).Ok? ==>
              && Assigned(rows, base, commit).value == NewRows(rows, base, commit)
              && Follows(NewRows(rows, base, commit), base)
  {
    NumberedExactly(rows, base, base + 1, commit);
    if Assigned(rows, base, commit).Ok? {
      ConsecutiveFollows(NewRows(rows, base, commit), base + 1);
    }
  }

  lemma {:induction false} NothingAbove(rows: seq<Row>, base: nat, top: nat, commit: string)
    requires base <= top && Above(rows, 0)
    requires forall i :: 0 <= i < |NewRows(rows, base, commit)| ==> NewRows(rows, base, commit)[i].id <= top
    ensures NewRows(rows, top, commit) == []
    decreases |rows|
  {
    if rows != [] {
      var rest := NewRows(rows[1..], base, commit);
      if rows[0].id > base {
        assert NewRows(rows, base, commit)[0].id <= top;
        assert forall i :: 0 <= i < |rest| ==> rest[i] == NewRows(rows, base, commit)[i + 1];
      } else {
        assert NewRows(rows, base, commit) == rest;
      }
      assert forall i :: 0 <= i < |rows| - 1 ==> rows[1..][i] == rows[i + 1];
      NothingAbove(rows[1..], base, top, commit);
    }
  }

  /** Once a commit is published, the same commit has nothing left to add. */
  lemma RetryAddsNothing(rows: seq<Row>, base: nat, commit: string)
    requires Assigned(rows, base, commit).Ok?
    ensures var delta := Assigned(rows, base, commit).value;
            Assigned(rows, if delta == [] then base else Last(delta).id, commit) == Ok([])
  {
    AssignedExactly(rows, base, commit);
    var delta := NewRows(rows, base, commit);
    var top := if delta == [] then base else Last(delta).id;
    ConsecutiveFollows(delta, base + 1);
    NothingAbove(rows, base, top, commit);
    AssignedExactly(rows, top, commit);
  }

  // ---- the commit ----

  /** The tail of the last shard is trusted without decoding it: its size is the published
      one and its last byte ends a line. */
  predicate Trusted(s: Store) {
    s.head.shards != [] &&
    var last, f := Last(s.head.shards), Content(s.files, Last(s.head.shards).name);
    last.to == s.head.lastId && 0 < last.bytes == Size(f) && f.torn == 0
  }

  /** A full size means there is nothing beyond the published rows. */
  lemma FullSizeIsExact(f: File, shard: Shard)
    requires TailHolds(f, shard) && Size(f) == shard.bytes
    ensures Exact(f, shard)
  {
    assert f.rows == f.rows[..shard.count] + f.rows[shard.count..];
    WidthOfConcat(f.rows[..shard.count], f.rows[shard.count..]);
    WidthIsPositive(f.rows[shard.count..]);
  }

  lemma TrustedIsExact(s: Store)
    requires WellFormed(s) && Trusted(s)
    ensures TailExact(s)
  {
    FullSizeIsExact(s.files[Last(s.head.shards).name], Last(s.head.shards));
  }

  /** Everything a commit does to the disk, in order; a rejected or empty one only reaps. */
  function CommitOps(s: Store, order: seq<Name>, rows: seq<Row>, commit: string, cap: nat): seq<Op>
    requires 0 < cap
  {
    match Assigned(rows, s.head.lastId, commit)
    case Err => Reaping(s, order, Trusted(s))
    case Ok(delta) =>
      if delta == [] then Reaping(s, order, Trusted(s)) else Committing(s, order, Trusted(s), delta, commit, cap)
  }

  function Added(s: Store, rows: seq<Row>, commit: string): seq<Row> {
    match Assigned(rows, s.head.lastId, commit) case Err => [] case Ok(delta) => delta
  }

  lemma ReapOnlyCrash(s: Store, ops: seq<Op>, at: nat, cut: Cut)
    requires WellFormed(s) && AllHarmless(s.head, ops) && at <= |ops|
    ensures var t := Crashed(s, ops, at, cut); WellFormed(t) && Log(t) == Log(s) && t.head == s.head
  {
    var all := ops + [Publish(s.head)];
    CrashIsAtomic(s, ops, s.head, at, cut);
    assert all[..at] == ops[..at];
    if at == |ops| {
      assert ops[..at] == ops;
      AfterIsHarmless(s, ops);
      LogIsPublished(s);
      LogIsPublished(After(s, ops));
    }
  }

  /** Crash atomicity of the message channel: whatever the rows, the residue on disk and the
      crash point, a reader sees the old log, or the old log and every new row. A commit that
      ends, refused or not, leaves no residue. */
  lemma CommitIsAtomic(s: Store, order: seq<Name>, rows: seq<Row>, commit: string, cap: nat, at: nat, cut: Cut)
    requires WellFormed(s) && Lists(order, s) && 0 < cap && at <= |CommitOps(s, order, rows, commit, cap)|
    ensures var ops := CommitOps(s, order, rows, commit, cap);
            var crashed := Crashed(s, ops, at, cut);
            && WellFormed(crashed)
            && Log(crashed) == (if at < |ops| then Log(s) else Log(s) + Added(s, rows, commit))
            && crashed.head.lastId == (if at == |ops| && Added(s, rows, commit) != []
                                       then Last(Added(s, rows, commit)).id else s.head.lastId)
            && crashed.head.lastCommit == (if at == |ops| && Added(s, rows, commit) != [] then commit else s.head.lastCommit)
            && (at == |ops| ==> Clean(crashed))
  {
    if Trusted(s) {
      TrustedIsExact(s);
    }
    AssignedExactly(rows, s.head.lastId, commit);
    var delta := Added(s, rows, commit);
    if delta != [] {
      CommitCrashIsAtomic(s, order, Trusted(s), delta, commit, cap, at, cut);
      CommitIsExact(s, order, Trusted(s), delta, commit, cap);
    } else {
      var ops := CommitOps(s, order, rows, commit, cap);
      assert ops[..|ops|] == ops;
      ReapingCleans(s, order, Trusted(s));
      ReapOnlyCrash(s, Reaping(s, order, Trusted(s)), at, cut);
      assert Log(s) + [] == Log(s);
    }
  }

  /** The same commit from a clean store and from any crash residue with the same log ends in
      the same log. */
  lemma ResidueIsIrrelevant(s: Store, t: Store, order: seq<Name>, order': seq<Name>, rows: seq<Row>, commit: string, cap: nat)
    requires WellFormed(s) && WellFormed(t) && Lists(order, s) && Lists(order', t) && 0 < cap
    requires Log(s) == Log(t) && (Log(s) == [] ==> s.head.lastId == t.head.lastId)
    ensures Log(After(s, CommitOps(s, order, rows, commit, cap))) == Log(After(t, CommitOps(t, order', rows, commit, cap)))
  {
    ReaderSeesOneLog(s, 0, 0);
    ReaderSeesOneLog(t, 0, 0);
    var ops, ops' := CommitOps(s, order, rows, commit, cap), CommitOps(t, order', rows, commit, cap);
    CommitIsAtomic(s, order, rows, commit, cap, |ops|, Before);
    CommitIsAtomic(t, order', rows, commit, cap, |ops'|, Before);
    assert ops[..|ops|] == ops && ops'[..|ops'|] == ops';
  }

  /** Exactly once: a commit that crashed anywhere and is then retried adds its rows once. */
  lemma CrashAndRetryIsExactlyOnce(s: Store, order: seq<Name>, rows: seq<Row>, commit: string, cap: nat,
                                   at: nat, cut: Cut, again: seq<Name>)
    requires WellFormed(s) && Lists(order, s) && 0 < cap && at <= |CommitOps(s, order, rows, commit, cap)|
    requires Assigned(rows, s.head.lastId, commit).Ok?
    requires Lists(again, Crashed(s, CommitOps(s, order, rows, commit, cap), at, cut))
    ensures var crashed := Crashed(s, CommitOps(s, order, rows, commit, cap), at, cut);
            Log(After(crashed, CommitOps(crashed, again, rows, commit, cap))) == Log(s) + Added(s, rows, commit)
  {
    var crashed := Crashed(s, CommitOps(s, order, rows, commit, cap), at, cut);
    CommitIsAtomic(s, order, rows, commit, cap, at, cut);
    var ops := CommitOps(crashed, again, rows, commit, cap);
    CommitIsAtomic(crashed, again, rows, commit, cap, |ops|, Before);
    assert ops[..|ops|] == ops;
    if at == |CommitOps(s, order, rows, commit, cap)| {
      RetryAddsNothing(rows, s.head.lastId, commit);
      assert (Log(s) + Added(s, rows, commit)) + [] == Log(s) + Added(s, rows, commit);
    }
  }

  // ---- runs of commits and crashes ----

  datatype Attempt = Attempt(order: seq<Name>, rows: seq<Row>, commit: string, at: nat, cut: Cut)

  ghost predicate Attempts(s: Store, attempts: seq<Attempt>, cap: nat)
    requires 0 < cap
    decreases |attempts|
  {
    attempts == [] ||
    (var a := attempts[0];
     && Lists(a.order, s) && a.at <= |CommitOps(s, a.order, a.rows, a.commit, cap)|
     && Attempts(Tried(s, a, cap), attempts[1..], cap))
  }

  function Tried(s: Store, a: Attempt, cap: nat): Store
    requires 0 < cap && a.at <= |CommitOps(s, a.order, a.rows, a.commit, cap)|
  {
    Crashed(s, CommitOps(s, a.order, a.rows, a.commit, cap), a.at, a.cut)
  }

  ghost function Final(s: Store, attempts: seq<Attempt>, cap: nat): Store
    requires 0 < cap && Attempts(s, attempts, cap)
    decreases |attempts|
  {
    if attempts == [] then s else Final(Tried(s, attempts[0], cap), attempts[1..], cap)
  }

  /** What one attempt adds to a flat log: all its rows, or none. */
  function Kept(s: Store, a: Attempt, cap: nat): seq<Row>
    requires 0 < cap
  {
    if a.at == |CommitOps(s, a.order, a.rows, a.commit, cap)| then Added(s, a.rows, a.commit) else []
  }

  ghost function Grown(s: Store, attempts: seq<Attempt>, cap: nat): seq<Row>
    requires 0 < cap && Attempts(s, attempts, cap)
    decreases |attempts|
  {
    if attempts == [] then []
    else Kept(s, attempts[0], cap) + Grown(Tried(s, attempts[0], cap), attempts[1..], cap)
  }

  lemma AttemptGrows(s: Store, a: Attempt, cap: nat)
    requires WellFormed(s) && 0 < cap && Lists(a.order, s) && a.at <= |CommitOps(s, a.order, a.rows, a.commit, cap)|
    ensures Grows(s, Tried(s, a, cap), Kept(s, a, cap))
  {
    CommitIsAtomic(s, a.order, a.rows, a.commit, cap, a.at, a.cut);
    assert Log(s) + [] == Log(s);
  }

  lemma AttemptsUnfold(s: Store, attempts: seq<Attempt>, cap: nat)
    requires 0 < cap && Attempts(s, attempts, cap) && attempts != []
    ensures Lists(attempts[0].order, s)
    ensures attempts[0].at <= |CommitOps(s, attempts[0].order, attempts[0].rows, attempts[0].commit, cap)|
    ensures var t := Tried(s, attempts[0], cap);
            && Attempts(t, attempts[1..], cap)
            && Final(s, attempts, cap) == Final(t, attempts[1..], cap)
            && Grown(s, attempts, cap) == Kept(s, attempts[0], cap) + Grown(t, attempts[1..], cap)
  {
  }

  ghost predicate Grows(s: Store, t: Store, rows: seq<Row>) {
    WellFormed(t) && Log(t) == Log(s) + rows
  }

  lemma GrowsTwice(s: Store, t: Store, u: Store, first: seq<Row>, rest: seq<Row>)
    requires Grows(s, t, first) && Grows(t, u, rest)
    ensures Grows(s, u, first + rest)
  {
    var log := Log(s);
    assert (log + first) + rest == log + (first + rest);
  }

  lemma GrowsByNothing(s: Store)
    requires WellFormed(s)
    ensures Grows(s, s, [])
  {
    var log := Log(s);
    assert log + [] == log;
  }

  lemma {:induction false} RunGrows(s: Store, attempts: seq<Attempt>, cap: nat)
    requires WellFormed(s) && 0 < cap && Attempts(s, attempts, cap)
    ensures Grows(s, Final(s, attempts, cap), Grown(s, attempts, cap))
    decreases |attempts|
  {
    if attempts == [] {
      GrowsByNothing(s);
    } else {
      AttemptsUnfold(s, attempts, cap);
      var t := Tried(s, attempts[0], cap);
      AttemptGrows(s, attempts[0], cap);
      RunGrows(t, attempts[1..], cap);
      GrowsTwice(s, t, Final(t, attempts[1..], cap), Kept(s, attempts[0], cap), Grown(t, attempts[1..], cap));
    }
  }

  /** The sharded channel refines one append-only sequence: over any run of commits, crashes
      and rollovers the log grows by whole commits, in order, numbered without repetition. */
  lemma RunRefinesFlatLog(s: Store, attempts: seq<Attempt>, cap: nat)
    requires WellFormed(s) && 0 < cap && Attempts(s, attempts, cap)
    ensures Log(Final(s, attempts, cap)) == Log(s) + Grown(s, attempts, cap) && Ascending(Log(Final(s, attempts, cap)))
  {
    RunGrows(s, attempts, cap);
    ReaderSeesOneLog(Final(s, attempts, cap), 0, 0);
  }
}
