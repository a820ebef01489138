/** Runs over one message channel: draft writes from any directory, recoveries, discards and
    commits, each of them cut by a crash anywhere (store/pending_tail.go, store/message_rows.go). */
module DraftRun {
  import opened ShardStore
  import opened MessageLog
  import opened DraftTail
  import opened DraftWrite
  import opened DraftRewrite
  import opened MessageChannel

  // ---- the draft a disk holds ----

  ghost predicate Covers(files: map<Name, File>, q: seq<Shard>) {
    Solid(files, q) && forall name :: name in files ==> Listed(q, name)
  }

  lemma SameLast(files: map<Name, File>, p: seq<Shard>, q: seq<Shard>)
    requires Covers(files, p) && Covers(files, q)
    ensures p == [] <==> q == []
    ensures p != [] && q != [] ==> Last(p).name == Last(q).name && Last(p).name in files
  {
    if p != [] {
      SolidNames(files, p);
      LastIsLatest(files, p);
      assert Last(p).name in files && Listed(q, Last(p).name);
    }
    if q != [] {
      SolidNames(files, q);
      LastIsLatest(files, q);
      assert Last(q).name in files && Listed(p, Last(q).name);
    }
  }

  lemma CoversLess(files: map<Name, File>, q: seq<Shard>)
    requires Covers(files, q) && q != []
    ensures var less := files - {Last(q).name}; Covers(less, Front(q)) && Flat(less, Front(q)) == Flat(files, Front(q))
  {
    hide Describes, Flat;
    var less := files - {Last(q).name};
    LastIsLatest(files, q);
    assert forall i :: 0 <= i < |Front(q)| ==> Front(q)[i] == q[i];
    SolidFrame(files, less, Front(q));
    forall name | name in less ensures Listed(Front(q), name) {
      var i :| 0 <= i < |q| && q[i].name == name;
      assert Front(q)[i].name == name;
    }
  }

  /** A directory can be read in one way only. */
  lemma {:induction false} OneReading(files: map<Name, File>, p: seq<Shard>, q: seq<Shard>)
    requires Covers(files, p) && Covers(files, q)
    ensures Flat(files, p) == Flat(files, q)
    decreases |p|
  {
    hide Solid, Listed;
    SameLast(files, p, q);
    if p != [] {
      CoversLess(files, p);
      CoversLess(files, q);
      OneReading(files - {Last(p).name}, Front(p), Front(q));
    }
  }

  lemma OneDraft(s: Store, p: seq<Shard>, q: seq<Shard>)
    requires Physical(s, p) && Physical(s, q)
    ensures Tail(s, p) == Tail(s, q)
  {
    hide Solid, Listed, Flat, Continues, StartsBehind;
    NewestIsLast(s, p);
    NewestIsLast(s, q);
    assert LastName(p) == LastName(q);
    if p != [] {
      NewestRows(s, p);
      NewestRows(s, q);
    }
    var v, w := AsPublished(s, p), AsPublished(s, q);
    assert v.files == w.files;
    OneReading(v.files, v.head.shards, w.head.shards);
    SettledFlat(s.files, Virtual(s, p));
    SettledFlat(s.files, Virtual(s, q));
  }

  /** The draft on disk, where the directory can be read as a published log and a draft. */
  ghost function Pending(s: Store): Option<seq<Row>> {
    if exists p :: Drafting(s, p) then var p :| Drafting(s, p); Some(Tail(s, p)) else None
  }

  lemma PendingIs(s: Store, p: seq<Shard>)
    requires Drafting(s, p)
    ensures Pending(s) == Some(Tail(s, p))
  {
    hide Physical, WellFormed, Tail;
    var q :| Drafting(s, q) && Pending(s) == Some(Tail(s, q));
    DraftIsPhysical(s, p);
    DraftIsPhysical(s, q);
    OneDraft(s, p, q);
  }

  // ---- the writer's loop at the end of the disk ----

  lemma {:induction false} CourseAt(v: Head, start: Writer, cap: nat, k: nat) returns (h: Head)
    requires 0 < cap && Startable(start.files, v, start.rest, cap)
    requires start == Begun(start.files, LastName(v.shards), start.rest)
    ensures var w := Turns(start, cap, k);
            OnCourse(v.shards, h, w, cap) && w.ops + Writing(h, w.rest, cap).ops == Writing(v, start.rest, cap).ops
    decreases k
  {
    hide Startable, Writing, Turn, Merged;
    if k == 0 {
      h := v;
      MergedNothing(v.shards);
      StartableReuse(start.files, v, start.rest, cap);
      NeutralEmpty(Writing(v, start.rest, cap).ops);
    } else {
      h := CourseAt(v, start, cap, k - 1);
      var w := Turns(start, cap, k - 1);
      if w.rest != [] {
        h := OneTurnOnCourse(v.shards, h, w, cap);
      } else {
        DoneTurn(w, cap);
      }
    }
  }

  lemma DoneTurn(w: Writer, cap: nat)
    requires 0 < cap && w.rest == []
    ensures Turn(w, cap) == w
  {
  }

  lemma {:induction false} TurnsAreOps(s: Store, newest: Option<Name>, delta: seq<Row>, cap: nat, k: nat)
    requires 0 < cap
    ensures var w := Turns(Begun(s.files, newest, delta), cap, k); Store(w.files, s.head) == After(s, w.ops)
    decreases k
  {
    hide BatchEntry;
    if k > 0 {
      TurnsAreOps(s, newest, delta, cap, k - 1);
      TurnIsOps(s, Turns(Begun(s.files, newest, delta), cap, k - 1), cap);
    }
  }

  lemma TurnIsOps(s: Store, w: Writer, cap: nat)
    requires 0 < cap && Store(w.files, s.head) == After(s, w.ops)
    ensures Store(Turn(w, cap).files, s.head) == After(s, Turn(w, cap).ops)
  {
    hide After, Do, Turn, Count, Target;
    if w.rest != [] && Count(w, cap) < cap {
      var op := Op.Append(Target(w, cap), w.rest[..Least(|w.rest|, cap - Count(w, cap))]);
      TurnAppends(w, cap);
      AfterConcat(s, w.ops, [op]);
      AfterOne(After(s, w.ops), op);
      AppendDoes(w.files, s.head, op.name, op.rows);
    } else {
      TurnOnly(w, cap);
    }
  }

  lemma TurnAppends(w: Writer, cap: nat)
    requires 0 < cap && w.rest != [] && Count(w, cap) < cap
    ensures var name, rows := Target(w, cap), w.rest[..Least(|w.rest|, cap - Count(w, cap))];
            && Turn(w, cap).ops == w.ops + [Op.Append(name, rows)]
            && Turn(w, cap).files == w.files[name := File(Content(w.files, name).rows + rows, 0)]
  {
    hide BatchEntry;
  }

  lemma TurnOnly(w: Writer, cap: nat)
    requires 0 < cap && (w.rest == [] || Count(w, cap) >= cap)
    ensures Turn(w, cap).ops == w.ops && Turn(w, cap).files == w.files
  {
  }

  lemma AppendDoes(files: map<Name, File>, head: Head, name: Name, rows: seq<Row>)
    ensures Do(Store(files, head), Op.Append(name, rows)) == Store(files[name := File(Content(files, name).rows + rows, 0)], head)
  {
  }

  function Written(s: Store, newest: Option<Name>, delta: seq<Row>, cap: nat, turns: nat): Writer
    requires 0 < cap
  {
    Turns(Begun(s.files, newest, delta), cap, turns)
  }

  /** What a cut loop leaves is what a crash leaves of the specified write. */
  lemma CutTurnIsCrash(s: Store, p: seq<Shard>, delta: seq<Row>, cap: nat, turns: nat, cut: Cut)
    returns (at: nat, cut': Cut)
    requires Drafting(s, p) && 0 < cap && Consecutive(delta, PhysicalEnd(s, p) + 1)
    ensures var w, ops := Written(s, LastName(p), delta, cap, turns), Writing(Virtual(s, p), delta, cap).ops;
            && at <= |ops| && Store(CutTurn(w, cap, cut), s.head) == Crashed(s, ops, at, cut')
            && (w.rest == [] ==> at == |ops|)
  {
    hide WellFormed, Indexed, Writing, Turns, Flat, After, Merged, BatchEntry;
    var start, ops := Begun(s.files, LastName(p), delta), Writing(Virtual(s, p), delta, cap).ops;
    var h := CourseAt(Virtual(s, p), start, cap, turns);
    var w := Turns(start, cap, turns);
    TurnsAreOps(s, LastName(p), delta, cap, turns);
    at, cut' := |w.ops|, Before;
    assert ops[..at] == w.ops;
    if w.rest == [] {
      WritingNothing(h, cap);
    } else if Count(w, cap) < cap && cut.Within? {
      cut' := cut;
      CutIsFirst(p, h, w, cap);
      assert ops[at] == Writing(h, w.rest, cap).ops[0];
    }
  }

  lemma CutIsFirst(shards: seq<Shard>, h: Head, w: Writer, cap: nat)
    requires OnCourse(shards, h, w, cap) && w.rest != [] && Count(w, cap) < cap
    ensures Writing(h, w.rest, cap).ops != []
    ensures Writing(h, w.rest, cap).ops[0] == Op.Append(Target(w, cap), w.rest[..Least(|w.rest|, cap - Count(w, cap))])
  {
    hide Startable, Merged, BatchEntry;
    StartableFile(w.files, h, w.rest, cap);
  }

  lemma WrittenDraft(s: Store, p: seq<Shard>, delta: seq<Row>, cap: nat, turns: nat, cut: Cut) returns (k: nat)
    requires Drafting(s, p) && 0 < cap && Consecutive(delta, PhysicalEnd(s, p) + 1)
    ensures var w := Written(s, LastName(p), delta, cap, turns);
            && k <= |delta| && (w.rest == [] ==> k == |delta|)
            && Pending(Store(CutTurn(w, cap, cut), s.head)) == Some(Tail(s, p) + delta[..k])
  {
    hide Drafting, Writing, CutTurn, Turns, Crashed, Pending, Tail;
    var at, cut' := CutTurnIsCrash(s, p, delta, cap, turns, cut);
    var q, n := DraftCrash(s, p, delta, cap, at, cut');
    k := n;
    PendingIs(Crashed(s, Writing(Virtual(s, p), delta, cap).ops, at, cut'), q);
  }

  // ---- the moves ----

  datatype Move =
    | Write(newest: Option<Name>, delta: seq<Row>, turns: nat, cut: Cut)
    | Recover(p: seq<Shard>)
    | Discard(order: seq<Name>, at: nat)
    | Commit(order: seq<Name>, rows: seq<Row>, commit: string, at: nat, cut: Cut)

  /** Rows above the head may be written to any directory, wherever they start. A recovery is
      left out where it would record torn bytes, or cannot read the directory in order; a
      discard that finds no draft does nothing, which is the one cut at 0. */
  ghost predicate Can(s: Store, m: Move, cap: nat)
    requires 0 < cap
  {
    match m
    case Write(newest, delta, _, _) => IsNewest(s.files, newest) && Above(delta, s.head.lastId)
    case Recover(p) => Physical(s, p) && Untorn(s.files, Filled(p))
    case Discard(order, at) => Lists(order, s) && at <= |Reaping(s, order, Trusted(s))|
    case Commit(order, rows, commit, at, _) => Lists(order, s) && at <= |CommitOps(s, order, rows, commit, cap)|
  }

  /** What the move leaves; a write is as many turns of the writer's loop and a part of one more. */
  ghost function Next(s: Store, m: Move, cap: nat): Store
    requires 0 < cap && Can(s, m, cap)
  {
    match m
    case Write(newest, delta, turns, cut) => Store(CutTurn(Written(s, newest, delta, cap, turns), cap, cut), s.head)
    case Recover(p) => PublishedTail(s, p)
    case Discard(order, at) => Crashed(s, Reaping(s, order, Trusted(s)), at, Before)
    case Commit(order, rows, commit, at, cut) => Crashed(s, CommitOps(s, order, rows, commit, cap), at, cut)
  }

  /** What it adds to the log. */
  ghost function Gained(s: Store, m: Move, cap: nat): seq<Row>
    requires 0 < cap
  {
    match m
    case Write(_, _, _, _) => []
    case Recover(_) => if Pending(s).Some? then Pending(s).value else []
    case Discard(_, _) => []
    case Commit(order, rows, commit, at, _) =>
      if at == |CommitOps(s, order, rows, commit, cap)| then Added(s, rows, commit) else []
  }

  lemma RecoverGrows(s: Store, p: seq<Shard>)
    requires WellFormed(s) && Physical(s, p) && Untorn(s.files, Filled(p))
    ensures Grows(s, PublishedTail(s, p), if Pending(s).Some? then Pending(s).value else [])
    ensures Pending(PublishedTail(s, p)) == if Pending(s).Some? then Some([]) else None
  {
    hide WellFormed, Physical, Tail, Consecutive, Log, Probed, Rebuilt, Untorn, InLine;
    ProbeFindsDraft(s, p);
    ClassifiedExactly(s.head.lastId, Tail(s, p), false);
    if Drafting(s, p) {
      PendingIs(s, p);
      if Tail(s, p) != [] {
        PublishedIsDrafting(s, p);
        PendingIs(PublishedTail(s, p), p);
      } else {
        GrowsByNothing(s);
      }
    } else {
      GrowsByNothing(s);
      if q :| Drafting(s, q) {
        DraftIsPhysical(s, q);
        OneDraft(s, p, q);
      }
    }
  }

  /** Every move keeps the store one that the others can start from, and the log grows by
      whole commits and recovered drafts only. */
  lemma MoveGrows(s: Store, m: Move, cap: nat)
    requires WellFormed(s) && 0 < cap && Can(s, m, cap)
    ensures Grows(s, Next(s, m, cap), Gained(s, m, cap))
  {
    hide WellFormed, Physical, Log, Reaping, CommitOps, Lists, Trusted, Pending, PublishedTail, Turns, CutTurn, Crashed, IsNewest, Above, Untorn;
    NeutralEmpty(Log(s));
    match m
    case Write(newest, delta, turns, cut) => WriterIsInvisible(s, newest, delta, cap, turns, cut);
    case Recover(p) => RecoverGrows(s, p);
    case Discard(order, at) =>
      assert Trusted(s) ==> TailExact(s) by {
        if Trusted(s) {
          TrustedIsExact(s);
        }
      }
      ReapingCleans(s, order, Trusted(s));
      ReapOnlyCrash(s, Reaping(s, order, Trusted(s)), at, Before);
    case Commit(order, rows, commit, at, cut) => CommitIsAtomic(s, order, rows, commit, cap, at, cut);
  }

  // ---- what becomes of the draft ----

  /** These rows go on where the draft on disk ends. */
  ghost predicate GoOn(s: Store, delta: seq<Row>) {
    Pending(s).Some? && Consecutive(delta, s.head.lastId + |Pending(s).value| + 1)
  }

  ghost predicate Holds(s: Store, draft: seq<Row>) {
    Pending(s) == Some(draft)
  }

  /** A move that leaves the directory readable: it goes on at the end, or its reap is whole. */
  ghost predicate Steady(s: Store, m: Move, cap: nat)
    requires 0 < cap
  {
    match m
    case Write(_, delta, _, _) => GoOn(s, delta)
    case Recover(_) => Pending(s).Some?
    case Discard(order, at) => at == |Reaping(s, order, Trusted(s))|
    case Commit(order, _, _, at, _) => at >= |Reaping(s, order, Trusted(s))|
  }

  /** The draft afterwards: longer by a prefix of the rows, by all of them when the loop came to
      its end; empty once published, discarded or committed over; or the rows a commit had
      written when it crashed. */
  ghost predicate Leaves(s: Store, m: Move, t: Store, cap: nat)
    requires 0 < cap
  {
    match m
    case Write(newest, delta, turns, _) =>
      Pending(s).Some? &&
      (exists k: nat | k <= |delta| ::
         Holds(t, Pending(s).value + delta[..k]) && (Written(s, newest, delta, cap, turns).rest == [] ==> k == |delta|))
    case Recover(_) => Holds(t, [])
    case Discard(_, _) => Holds(t, [])
    case Commit(order, rows, commit, at, _) =>
      var delta, ops := Added(s, rows, commit), CommitOps(s, order, rows, commit, cap);
      exists k: nat | k <= |delta| :: Holds(t, delta[..k]) && (at == |ops| ==> k == 0)
  }

  lemma WriteLeaves(s: Store, m: Move, cap: nat)
    requires WellFormed(s) && 0 < cap && Can(s, m, cap) && m.Write? && GoOn(s, m.delta)
    ensures Leaves(s, m, Next(s, m, cap), cap)
  {
    hide WellFormed, Physical, Tail, CutTurn, Turns, Above;
    var p :| Drafting(s, p);
    PendingIs(s, p);
    DraftIsPhysical(s, p);
    TailEnds(s, p);
    NewestIsLast(s, p);
    assert m.newest == LastName(p);
    var k := WrittenDraft(s, p, m.delta, cap, m.turns, m.cut);
    assert Holds(Next(s, m, cap), Pending(s).value + m.delta[..k]);
  }

  lemma ReapedHoldsNothing(s: Store, order: seq<Name>)
    requires WellFormed(s) && Lists(order, s)
    ensures Holds(After(s, Reaping(s, order, Trusted(s))), [])
  {
    hide WellFormed, Reaping, Trusted, Drafting, Tail, Pending;
    DiscardRestores(s, order);
    var t := After(s, Reaping(s, order, Trusted(s)));
    PendingIs(t, t.head.shards);
  }

  lemma CommittedHoldsNothing(s: Store, order: seq<Name>, rows: seq<Row>, commit: string, cap: nat)
    requires WellFormed(s) && Lists(order, s) && 0 < cap
    ensures Holds(After(s, CommitOps(s, order, rows, commit, cap)), [])
  {
    hide WellFormed, Clean, Reaping, Trusted, Drafting, Tail, Pending, Numbered, Writing;
    ReapedHoldsNothing(s, order);
    AssignedExactly(rows, s.head.lastId, commit);
    if Added(s, rows, commit) != [] {
      if Trusted(s) {
        TrustedIsExact(s);
      }
      CommitIsExact(s, order, Trusted(s), Added(s, rows, commit), commit, cap);
      var t := After(s, CommitOps(s, order, rows, commit, cap));
      CleanIsDrafting(t);
      PendingIs(t, t.head.shards);
    }
  }

  lemma WholeIsAfter(s: Store, ops: seq<Op>, cut: Cut)
    ensures Crashed(s, ops, |ops|, cut) == After(s, ops)
  {
    assert ops[..|ops|] == ops;
  }

  lemma CommitLeaves(s: Store, m: Move, cap: nat)
    requires WellFormed(s) && 0 < cap && Can(s, m, cap) && m.Commit? && Steady(s, m, cap)
    ensures Leaves(s, m, Next(s, m, cap), cap)
  {
    hide WellFormed, Drafting, Tail, Pending, CommitOps, Reaping, Trusted, Lists, Added, Crashed;
    var ops, delta := CommitOps(s, m.order, m.rows, m.commit, cap), Added(s, m.rows, m.commit);
    var k := 0;
    if m.at == |ops| {
      WholeIsAfter(s, ops, m.cut);
      CommittedHoldsNothing(s, m.order, m.rows, m.commit, cap);
    } else {
      var q, n := CutCommitIsDraft(s, m.order, m.rows, m.commit, cap, m.at, m.cut);
      PendingIs(Next(s, m, cap), q);
      k := n;
    }
    assert delta[..0] == [];
    assert Holds(Next(s, m, cap), delta[..k]);
  }

  /** What every steady move does to the draft. */
  lemma MoveLeaves(s: Store, m: Move, cap: nat)
    requires WellFormed(s) && 0 < cap && Can(s, m, cap) && Steady(s, m, cap)
    ensures Leaves(s, m, Next(s, m, cap), cap) && Pending(Next(s, m, cap)).Some?
  {
    hide WellFormed, Physical, Pending, CommitOps, Reaping, Trusted, Lists, Untorn, PublishedTail;
    match m
    case Write(_, _, _, _) => WriteLeaves(s, m, cap);
    case Recover(p) => RecoverGrows(s, p);
    case Discard(order, at) =>
      WholeIsAfter(s, Reaping(s, order, Trusted(s)), Before);
      ReapedHoldsNothing(s, order);
    case Commit(_, _, _, _, _) => CommitLeaves(s, m, cap);
  }

  // ---- runs ----

  ghost predicate Run(s: Store, moves: seq<Move>, cap: nat)
    requires 0 < cap
    decreases |moves|
  {
    moves == [] || (Can(s, moves[0], cap) && Run(Next(s, moves[0], cap), moves[1..], cap))
  }

  ghost function Outcome(s: Store, moves: seq<Move>, cap: nat): Store
    requires 0 < cap && Run(s, moves, cap)
    decreases |moves|
  {
    if moves == [] then s else Outcome(Next(s, moves[0], cap), moves[1..], cap)
  }

  /** Everything the run adds to the log, in order. */
  ghost function AllGained(s: Store, moves: seq<Move>, cap: nat): seq<Row>
    requires 0 < cap && Run(s, moves, cap)
    decreases |moves|
  {
    if moves == [] then [] else Gained(s, moves[0], cap) + AllGained(Next(s, moves[0], cap), moves[1..], cap)
  }

  ghost predicate AllSteady(s: Store, moves: seq<Move>, cap: nat)
    requires 0 < cap && Run(s, moves, cap)
    decreases |moves|
  {
    moves == [] || (Steady(s, moves[0], cap) && AllSteady(Next(s, moves[0], cap), moves[1..], cap))
  }

  lemma {:induction false} RunGrowsLog(s: Store, moves: seq<Move>, cap: nat)
    requires WellFormed(s) && 0 < cap && Run(s, moves, cap)
    ensures Grows(s, Outcome(s, moves, cap), AllGained(s, moves, cap))
    decreases |moves|
  {
    hide WellFormed, Log, Can, Next, Gained, Grows;
    if moves == [] {
      GrowsByNothing(s);
    } else {
      var t := Next(s, moves[0], cap);
      MoveGrows(s, moves[0], cap);
      GrownIsWellFormed(s, t, Gained(s, moves[0], cap));
      RunGrowsLog(t, moves[1..], cap);
      GrowsTwice(s, t, Outcome(t, moves[1..], cap), Gained(s, moves[0], cap), AllGained(t, moves[1..], cap));
    }
  }

  lemma GrownIsWellFormed(s: Store, t: Store, rows: seq<Row>)
    requires Grows(s, t, rows)
    ensures WellFormed(t)
  {
  }

  /** Over any run of draft writes, recoveries, discards, commits and crashes in all of them,
      on whatever the crashes left behind, readers see one log in strictly increasing order,
      which has grown by exactly the completed commits and the recovered drafts. */
  lemma RunKeepsOneLog(s: Store, moves: seq<Move>, cap: nat)
    requires WellFormed(s) && 0 < cap && Run(s, moves, cap)
    ensures var t := Outcome(s, moves, cap);
            WellFormed(t) && Log(t) == Log(s) + AllGained(s, moves, cap) && Ascending(Log(t))
  {
    hide WellFormed, Log, Can, Next, Ascending;
    RunGrowsLog(s, moves, cap);
    ReaderSeesOneLog(Outcome(s, moves, cap), 0, 0);
  }

  /** While every write goes on at the end of the disk and no reap is cut short, there is a
      draft to recover, discard or go on with at every point, as `Leaves` says of each move. */
  lemma {:induction false} SteadyRunKeepsDraft(s: Store, moves: seq<Move>, cap: nat)
    requires WellFormed(s) && Pending(s).Some? && 0 < cap && Run(s, moves, cap) && AllSteady(s, moves, cap)
    ensures Pending(Outcome(s, moves, cap)).Some?
    decreases |moves|
  {
    hide WellFormed, Pending, Can, Next, Leaves, Steady, Log;
    if moves != [] {
      MoveGrows(s, moves[0], cap);
      MoveLeaves(s, moves[0], cap);
      SteadyRunKeepsDraft(Next(s, moves[0], cap), moves[1..], cap);
    }
  }
}
