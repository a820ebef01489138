/** The shard writer's loop on any directory, and a draft written over an existing one, as
    happens after a restart when the draft lies wholly in unlisted files: when the loop ends,
    and what is left to recover (store/message_rows.go, store/pending_tail.go). */
module DraftRewrite {
  import opened ShardStore
  import opened MessageLog
  import opened DraftTail
  import opened DraftWrite

  // ---- the writer's loop on any directory ----

  /** The loop variables and the files it works on; `ops` is history. */
  datatype Writer = Writer(files: map<Name, File>, path: Option<Name>, rest: seq<Row>,
                           written: seq<Shard>, ops: seq<Op>)

  function Begun(files: map<Name, File>, path: Option<Name>, rows: seq<Row>): Writer {
    Writer(files, path, rows, [], [])
  }

  function Target(w: Writer, cap: nat): Name
    requires 0 < cap && w.rest != []
  {
    if w.path.Some? then w.path.value else Name(w.rest[0].id, w.rest[Least(cap, |w.rest|) - 1].id)
  }

  function Count(w: Writer, cap: nat): nat
    requires 0 < cap && w.rest != []
  {
    |Content(w.files, Target(w, cap)).rows|
  }

  /** One turn: a full file is left for a new one, any other takes as many rows as fit. */
  function Turn(w: Writer, cap: nat): Writer
    requires 0 < cap
  {
    if w.rest == [] then w
    else
      var name, count := Target(w, cap), Count(w, cap);
      if count >= cap then w.(path := None)
      else
        var n := Least(|w.rest|, cap - count);
        Writer(w.files[name := File(Content(w.files, name).rows + w.rest[..n], 0)], Some(name), w.rest[n..],
               w.written + [BatchEntry(w.files, name, w.rest[..n])], w.ops + [Append(name, w.rest[..n])])
  }

  /** The index entry of a file after a batch has been put behind its rows. */
  function BatchEntry(files: map<Name, File>, name: Name, batch: seq<Row>): Shard
    requires batch != []
  {
    var rows := Content(files, name).rows;
    Shard(name, (rows + batch)[0].id, Last(batch).id, |rows| + |batch|, Width(rows + batch))
  }

  function Turns(w: Writer, cap: nat, n: nat): Writer
    requires 0 < cap
  {
    if n == 0 then w else Turn(Turns(w, cap, n - 1), cap)
  }

  /** The file to be opened anew exists already and is full. */
  predicate Stuck(w: Writer, cap: nat)
    requires 0 < cap
  {
    w.rest != [] && w.path.None? && Count(w, cap) >= cap
  }

  lemma StuckStays(w: Writer, cap: nat)
    requires 0 < cap
    ensures Stuck(w, cap) ==> Turn(w, cap) == w
    ensures w.rest != [] && !Stuck(w, cap) ==>
              var t := Turn(w, cap); |t.rest| < |w.rest| || (t.rest == w.rest && w.path.Some? && t.path.None?)
  {
  }

  lemma {:induction false} StuckForever(w: Writer, cap: nat, k: nat, n: nat)
    requires 0 < cap && Stuck(Turns(w, cap, k), cap) && k <= n
    ensures Turns(w, cap, n) == Turns(w, cap, k)
    decreases n
  {
    if k < n {
      StuckForever(w, cap, k, n - 1);
      StuckStays(Turns(w, cap, k), cap);
    }
  }

  lemma {:induction false} DoneStays(w: Writer, cap: nat, n: nat, k: nat)
    requires 0 < cap && Turns(w, cap, n).rest == [] && n <= k
    ensures Turns(w, cap, k) == Turns(w, cap, n)
    decreases k
  {
    if n < k {
      DoneStays(w, cap, n, k - 1);
    }
  }

  /** The loop ends. */
  ghost predicate Ends(w: Writer, cap: nat)
    requires 0 < cap
  {
    exists n: nat :: Turns(w, cap, n).rest == []
  }

  /** What it ends with. */
  ghost function Finished(w: Writer, cap: nat): Writer
    requires 0 < cap && Ends(w, cap)
  {
    var n: nat :| Turns(w, cap, n).rest == [];
    Turns(w, cap, n)
  }

  /** Decided by going through the rows once: no file to be opened anew is there already, and full. */
  predicate Unobstructed(w: Writer, cap: nat)
    requires 0 < cap
    decreases |w.rest|, if w.path.Some? then 1 else 0
  {
    w.rest == [] || (!Stuck(w, cap) && Unobstructed(Turn(w, cap), cap))
  }

  lemma {:induction false} UnobstructedEnds(w: Writer, cap: nat, k: nat) returns (n: nat)
    requires 0 < cap && Unobstructed(Turns(w, cap, k), cap)
    ensures Turns(w, cap, n).rest == []
    decreases |Turns(w, cap, k).rest|, if Turns(w, cap, k).path.Some? then 1 else 0
  {
    var t := Turns(w, cap, k);
    if t.rest == [] {
      n := k;
    } else {
      StuckStays(t, cap);
      assert Turns(w, cap, k + 1) == Turn(t, cap);
      n := UnobstructedEnds(w, cap, k + 1);
    }
  }

  lemma {:induction false} ObstructedIsStuck(w: Writer, cap: nat, k: nat) returns (n: nat)
    requires 0 < cap && !Unobstructed(Turns(w, cap, k), cap)
    ensures Stuck(Turns(w, cap, n), cap)
    decreases |Turns(w, cap, k).rest|, if Turns(w, cap, k).path.Some? then 1 else 0
  {
    var t := Turns(w, cap, k);
    if Stuck(t, cap) {
      n := k;
    } else {
      StuckStays(t, cap);
      assert Turns(w, cap, k + 1) == Turn(t, cap);
      n := ObstructedIsStuck(w, cap, k + 1);
    }
  }

  lemma FinishedIs(w: Writer, cap: nat, n: nat)
    requires 0 < cap && Turns(w, cap, n).rest == []
    ensures Ends(w, cap) && Finished(w, cap) == Turns(w, cap, n)
  {
    var k: nat :| Turns(w, cap, k).rest == [] && Finished(w, cap) == Turns(w, cap, k);
    DoneStays(w, cap, if k < n then k else n, if k < n then n else k);
  }

  lemma StuckNeverEnds(w: Writer, cap: nat, k: nat)
    requires 0 < cap && Stuck(Turns(w, cap, k), cap)
    ensures !Ends(w, cap)
  {
    forall n: nat ensures Turns(w, cap, n).rest != [] {
      if k <= n {
        StuckForever(w, cap, k, n);
      } else if Turns(w, cap, n).rest == [] {
        DoneStays(w, cap, n, k);
      }
    }
  }

  /** The loop ends exactly when it never comes to open a file that is there already, and full. */
  lemma WriterEndsExactly(w: Writer, cap: nat)
    requires 0 < cap
    ensures Ends(w, cap) <==> Unobstructed(w, cap)
  {
    assert Turns(w, cap, 0) == w;
    if Unobstructed(w, cap) {
      var _ := UnobstructedEnds(w, cap, 0);
    } else {
      var k := ObstructedIsStuck(w, cap, 0);
      StuckNeverEnds(w, cap, k);
    }
  }

  // ---- what it does to the log ----

  /** The files when a crash comes inside the next turn. */
  function CutTurn(w: Writer, cap: nat, cut: Cut): map<Name, File>
    requires 0 < cap
  {
    if w.rest == [] || Count(w, cap) >= cap || cut == Before then w.files
    else
      var name, batch := Target(w, cap), w.rest[..Least(|w.rest|, cap - Count(w, cap))];
      w.files[name := File(Content(w.files, name).rows + Prefix(batch, cut.lines), cut.torn)]
  }

  /** The writer has only touched, and will only touch, the end of the last listed file and
      files the head does not list. */
  ghost predicate Aside(s: Store, w: Writer) {
    && WellFormed(Store(w.files, s.head)) && Log(Store(w.files, s.head)) == Log(s)
    && (w.path.Some? ==> IsTail(s.head, w.path.value) || !Listed(s.head.shards, w.path.value))
    && Above(w.rest, s.head.lastId)
  }

  lemma HeadNames(s: Store)
    requires WellFormed(s) && s.head.shards != []
    ensures var shards := s.head.shards;
            && Last(shards).name in s.files && Last(shards).name.from <= s.head.lastId
            && forall i :: 0 <= i < |shards| - 1 ==> shards[i].name.from < Last(shards).name.from
  {
    var shards, last := s.head.shards, Last(s.head.shards);
    SolidNames(s.files, Front(shards));
    AscendingBounds(s.files[last.name].rows[..last.count]);
    assert forall i :: 0 <= i < |shards| - 1 ==> shards[i] == Front(shards)[i];
  }

  lemma NewNameIsUnlisted(s: Store, name: Name)
    requires WellFormed(s) && name.from > s.head.lastId
    ensures !Listed(s.head.shards, name)
  {
    if s.head.shards != [] {
      hide Solid, Above;
      HeadNames(s);
    }
  }

  lemma NewestIsAside(s: Store, name: Name)
    requires WellFormed(s) && IsNewest(s.files, Some(name))
    ensures IsTail(s.head, name) || !Listed(s.head.shards, name)
  {
    if s.head.shards != [] {
      hide Solid, Above;
      HeadNames(s);
    }
  }

  lemma AsideAppend(s: Store, w: Writer, name: Name, rows: seq<Row>, torn: nat)
    requires Aside(s, w) && Above(rows, s.head.lastId) && (IsTail(s.head, name) || !Listed(s.head.shards, name))
    ensures var t := Store(w.files[name := File(Content(w.files, name).rows + rows, torn)], s.head);
            WellFormed(t) && Log(t) == Log(s)
  {
    hide WellFormed, Log, Listed;
    var before := Store(w.files, s.head);
    AppendIsHarmless(before, name, rows, torn);
    LogIsPublished(before);
    LogIsPublished(Store(w.files[name := File(Content(w.files, name).rows + rows, torn)], s.head));
  }

  lemma TargetIsAside(s: Store, w: Writer, cap: nat)
    requires 0 < cap && Aside(s, w) && w.rest != []
    ensures IsTail(s.head, Target(w, cap)) || !Listed(s.head.shards, Target(w, cap))
  {
    hide WellFormed, Log, Listed;
    if w.path.None? {
      NewNameIsUnlisted(Store(w.files, s.head), Target(w, cap));
    }
  }

  lemma TurnStaysAside(s: Store, w: Writer, cap: nat)
    requires 0 < cap && Aside(s, w)
    ensures Aside(s, Turn(w, cap))
  {
    hide WellFormed, Log, Listed;
    if w.rest != [] && Count(w, cap) < cap {
      var batch := w.rest[..Least(|w.rest|, cap - Count(w, cap))];
      TargetIsAside(s, w, cap);
      AsideAppend(s, w, Target(w, cap), batch, 0);
    }
  }

  lemma {:induction false} TurnsStayAside(s: Store, w: Writer, cap: nat, n: nat)
    requires 0 < cap && Aside(s, w)
    ensures Aside(s, Turns(w, cap, n))
    decreases n
  {
    if n > 0 {
      TurnsStayAside(s, w, cap, n - 1);
      TurnStaysAside(s, Turns(w, cap, n - 1), cap);
    }
  }

  lemma CutIsAside(s: Store, w: Writer, cap: nat, cut: Cut)
    requires 0 < cap && Aside(s, w)
    ensures var t := Store(CutTurn(w, cap, cut), s.head); WellFormed(t) && Log(t) == Log(s)
  {
    hide WellFormed, Log, Listed, Target;
    if w.rest != [] && Count(w, cap) < cap && cut.Within? {
      var batch := w.rest[..Least(|w.rest|, cap - Count(w, cap))];
      AbovePrefix(batch, cut.lines, s.head.lastId);
      TargetIsAside(s, w, cap);
      AsideAppend(s, w, Target(w, cap), Prefix(batch, cut.lines), cut.torn);
    }
  }

  /** On any directory, however far it gets and wherever it is cut short, the writer of rows
      above the head does not touch the readable log. */
  lemma WriterIsInvisible(s: Store, newest: Option<Name>, delta: seq<Row>, cap: nat, n: nat, cut: Cut)
    requires 0 < cap && WellFormed(s) && IsNewest(s.files, newest) && Above(delta, s.head.lastId)
    ensures var w := Turns(Begun(s.files, newest, delta), cap, n);
            var t := Store(CutTurn(w, cap, cut), s.head);
            WellFormed(t) && Log(t) == Log(s)
  {
    hide WellFormed, Log, Listed, IsNewest, CutTurn;
    if newest.Some? {
      NewestIsAside(s, newest.value);
    }
    TurnsStayAside(s, Begun(s.files, newest, delta), cap, n);
    CutIsAside(s, Turns(Begun(s.files, newest, delta), cap, n), cap, cut);
  }

  // ---- over an existing draft ----

  /** There is a draft, in a file of its own at last, and the rows to write start over behind
      the head. */
  predicate StartsOver(s: Store, p: seq<Shard>, delta: seq<Row>) {
    Drafting(s, p) && |p| > |s.head.shards| && Tail(s, p) != [] && delta != [] && Consecutive(delta, s.head.lastId + 1)
  }

  lemma SameProbe(s: Store, p: seq<Shard>, f: File, i: nat)
    requires Physical(s, p) && i < |p| - 1
    ensures ProbeFile(Put(s, Last(p).name, f), p, i) == ProbeFile(s, p, i)
  {
    hide Physical, RowsFrom, Width;
    OtherFile(s, p, i);
  }

  lemma {:induction false} ProbedElsewhere(s: Store, p: seq<Shard>, f: File, n: nat)
    requires Physical(s, p) && n < |p|
    ensures Probed(Put(s, Last(p).name, f), p, n) == Probed(s, p, n)
    decreases n
  {
    hide Physical, Beyond, ProbeFile;
    if n > 0 {
      ProbedElsewhere(s, p, f, n - 1);
      SameProbe(s, p, f, n - 1);
    }
  }

  lemma OtherFile(s: Store, p: seq<Shard>, i: nat)
    requires Physical(s, p) && i < |p| - 1
    ensures p[i].name != Last(p).name
  {
    hide Indexed, Flat, Solid;
    IndexedIsSolid(s.files, Virtual(s, p));
    if Spare(p) {
      SpareIsThere(s, p);
      assert Filled(p)[i].name == p[i].name;
    } else {
      SolidAt(Smooth(s.files), p, i);
    }
  }

  lemma {:induction false} BeyondConcat(a: seq<Row>, b: seq<Row>, id: nat)
    ensures Beyond(a + b, id) == Beyond(a, id) + Beyond(b, id)
    decreases |a|
  {
    if a == [] {
      assert a + b == b;
    } else {
      assert (a + b)[1..] == a[1..] + b;
      BeyondConcat(a[1..], b, id);
    }
  }

  lemma RepeatedIsGap(lastId: nat, tail: seq<Row>, delta: seq<Row>, duplicate: bool)
    requires tail != [] && delta != [] && Consecutive(delta, lastId + 1)
    ensures Classify(lastId, tail + delta, duplicate) == GapInTail
  {
    ClassifiedExactly(lastId, tail + delta, duplicate);
    assert (tail + delta)[|tail|] == delta[0];
  }

  lemma OneTurn(s: Store, p: seq<Shard>, delta: seq<Row>, cap: nat)
    requires 0 < cap && Physical(s, p) && p != [] && delta != [] && Last(p).count < cap
    ensures var n := Least(|delta|, cap - Last(p).count);
            && Turns(Begun(s.files, LastName(p), delta), cap, 1)
               == Writer(Do(s, Append(Last(p).name, delta[..n])).files, LastName(p), delta[n..],
                         [BatchEntry(s.files, Last(p).name, delta[..n])], [Append(Last(p).name, delta[..n])])
  {
    hide Physical, BatchEntry;
    NewestCount(s, p);
    var w := Begun(s.files, LastName(p), delta);
    assert Turns(w, cap, 1) == Turn(Turns(w, cap, 0), cap);
  }

  lemma NewestCount(s: Store, p: seq<Shard>)
    requires Physical(s, p) && p != []
    ensures |Content(s.files, Last(p).name).rows| == Last(p).count
  {
    hide Indexed, Flat, Ascending, Width;
    if Spare(p) {
      SpareIsThere(s, p);
    } else {
      PhysicalHolds(s, p);
      HeldAt(s, p, |p| - 1);
    }
  }

  /** If the newest file has room the rows land behind the draft they repeat: a recovery then
      finds the old draft and the new one, recognises a gap, and publishes neither. */
  lemma StartingOverLosesBoth(s: Store, p: seq<Shard>, delta: seq<Row>, cap: nat, duplicate: bool)
    requires 0 < cap && StartsOver(s, p, delta) && Last(p).count < cap
    ensures var w := Turns(Begun(s.files, LastName(p), delta), cap, 1);
            var t := Store(w.files, s.head);
            && Probed(t, p, |p|) + w.rest == Tail(s, p) + delta && |w.rest| < |delta|
            && Classify(t.head.lastId, Probed(t, p, |p|), duplicate) == GapInTail
  {
    hide Drafting, Probed, Tail, Classify, Turns, BatchEntry, Consecutive;
    DraftIsPhysical(s, p);
    OneTurn(s, p, delta, cap);
    var n := Least(|delta|, cap - Last(p).count);
    PrefixGoesOn(delta, s.head.lastId + 1, n);
    AppendedBehind(s, p, delta[..n], duplicate);
    assert delta[..n] + delta[n..] == delta;
    Associative(Tail(s, p), delta[..n], delta[n..]);
  }

  lemma AppendedBehind(s: Store, p: seq<Shard>, delta: seq<Row>, duplicate: bool)
    requires StartsOver(s, p, delta)
    ensures var t := Do(s, Append(Last(p).name, delta));
            && Probed(t, p, |p|) == Tail(s, p) + delta
            && Classify(t.head.lastId, Probed(t, p, |p|), duplicate) == GapInTail
  {
    hide Drafting, Classify, Beyond, Consecutive, Tail, ProbeFile, Physical;
    var name := Last(p).name;
    var rows := Content(s.files, name).rows;
    DraftIsPhysical(s, p);
    ProbedElsewhere(s, p, File(rows + delta, 0), |p| - 1);
    ProbeFindsDraft(s, p);
    LastProbed(s, p, File(rows + delta, 0));
    LastProbed(s, p, Content(s.files, name));
    BeyondConcat(rows, delta, s.head.lastId);
    BeyondHead(delta, s.head.lastId);
    Associative(Probed(s, p, |p| - 1), Beyond(rows, s.head.lastId), delta);
    RepeatedIsGap(s.head.lastId, Tail(s, p), delta, duplicate);
  }

  lemma BeyondHead(delta: seq<Row>, lastId: nat)
    requires Consecutive(delta, lastId + 1)
    ensures Beyond(delta, lastId) == delta
  {
    BeyondAll(delta, lastId);
  }

  lemma LastProbed(s: Store, p: seq<Shard>, f: File)
    requires |p| > |s.head.shards|
    ensures ProbeFile(Put(s, Last(p).name, f), p, |p| - 1) == f.rows
    ensures ProbeFile(s, p, |p| - 1) == Content(s.files, Last(p).name).rows
  {
  }

  /** When the last file is full and the first file of the draft is the one the rows would be
      put in again, the writer goes round for ever. */
  lemma StartingOverNeverEnds(s: Store, p: seq<Shard>, delta: seq<Row>, cap: nat, n: nat)
    requires 0 < cap <= |delta| && StartsOver(s, p, delta) && Last(p).count >= cap
    requires var first := p[|s.head.shards|];
             first.count >= cap && first.name == Name(s.head.lastId + 1, s.head.lastId + cap)
    ensures Turns(Begun(s.files, LastName(p), delta), cap, n).rest == delta
    ensures !Ends(Begun(s.files, LastName(p), delta), cap)
  {
    hide WellFormed, Indexed, Flat, Ascending, Width;
    var w, k := Begun(s.files, LastName(p), delta), |s.head.shards|;
    NewestCount(s, p);
    PhysicalHolds(s, p);
    HeldAt(s, p, k);
    assert Turns(w, cap, 0) == w && Turns(w, cap, 1) == w.(path := None);
    assert Target(w.(path := None), cap) == p[k].name;
    assert Stuck(Turns(w, cap, 1), cap);
    if n > 0 {
      StuckForever(w, cap, 1, n);
    }
    StuckNeverEnds(w, cap, 1);
  }

  const ONE := Name(1, 1)
  const TWO := Name(2, 2)
  const TAIL := Row(2, "d", "b")

  /** One published row, and one draft row in a file of its own; a file holds one row. */
  function Rolled(): Store {
    Store(map[ONE := File([FIRST], 0), TWO := File([TAIL], 0)], Head(1, [Shard(ONE, 1, 1, 1, 3)], 1, "c"))
  }

  const ROLLED := [Shard(ONE, 1, 1, 1, 3), Shard(TWO, 2, 2, 1, 3)]

  lemma WidthOfOne(row: Row)
    ensures Width([row]) == LineLength(row)
  {
    assert Front([row]) == [];
  }

  lemma RolledIsIndexed()
    ensures Clean(Store(Smooth(Rolled().files), Virtual(Rolled(), ROLLED))) && Flat(Rolled().files, ROLLED) == [FIRST, TAIL]
  {
    var files, h := Rolled().files, Virtual(Rolled(), ROLLED);
    assert Smooth(files) == files;
    WidthOfOne(FIRST);
    WidthOfOne(TAIL);
    assert Front(ROLLED) == [ROLLED[0]] && Front([ROLLED[0]]) == [];
    assert Describes(ROLLED[0], [FIRST]) && Describes(ROLLED[1], [TAIL]);
    assert Solid(files, []) && files[ONE] == File([FIRST], 0) && files[TWO] == File([TAIL], 0);
    assert Solid(files, [ROLLED[0]]) && Solid(files, ROLLED);
    assert ROLLED[0].name == ONE && ROLLED[1].name == TWO;
    assert Listed(ROLLED, ONE) && Listed(ROLLED, TWO);
    assert Flat(files, [ROLLED[0]]) == [FIRST];
    assert [FIRST] + [TAIL] == [FIRST, TAIL];
  }

  /** A restart that loses both drafts for good: the base is one too low, the rows start over,
      and the writer never ends. */
  lemma RestartNumbersOver(delta: seq<Row>)
    requires delta == [TAIL]
    ensures Drafting(Rolled(), ROLLED) && Trusted(Rolled()) && IsNewest(Rolled().files, LastName(ROLLED))
    ensures DraftBase(Rolled(), LastName(ROLLED), None) == 1 && PhysicalEnd(Rolled(), ROLLED) == 2
    ensures StartsOver(Rolled(), ROLLED, delta) && !Ends(Begun(Rolled().files, LastName(ROLLED), delta), 1)
  {
    var s := Rolled();
    RolledIsIndexed();
    WidthOfOne(FIRST);
    assert [FIRST, TAIL][1..] == [TAIL];
    assert Front(s.head.shards) == [] && [FIRST][..1] == [FIRST];
    assert WellFormed(s);
    assert Continues(s.head.shards, ROLLED);
    NewestIsLast(s, ROLLED);
    StartingOverNeverEnds(s, ROLLED, delta, 1, 0);
  }

  const THREE := Name(3, 3)
  const NEXT := Row(3, "d", "n")

  /** One published row in a file with room for one more. */
  function Started(): Store {
    Store(map[ONE := File([FIRST], 0)], Head(1, [Shard(ONE, 1, 1, 1, 3)], 1, "c"))
  }

  /** A draft of two rows that crashed as it went over to a new file: five bytes of the second
      row are in it. */
  function Interrupted(): Store {
    Started().(files := map[ONE := File([FIRST, TAIL], 0), THREE := File([], 5)])
  }

  const INTERRUPTED := [Shard(ONE, 1, 2, 2, 6), Unwritten(THREE, 2)]

  lemma WritesTwice()
    ensures Writing(Started().head, [TAIL, NEXT], 2).ops == [Append(ONE, [TAIL]), Append(THREE, [NEXT])]
  {
    var h, delta := Started().head, [TAIL, NEXT];
    var e := Extend(h, delta, 2);
    assert e.name == ONE && e.taken == 1 && delta[..1] == [TAIL] && delta[1..] == [NEXT];
    assert Last(e.head.shards).count == 2;
    var f := Extend(e.head, [NEXT], 2);
    assert f.name == THREE && f.taken == 1 && [NEXT][..1] == [NEXT] && [NEXT][1..] == [];
    assert Writing(e.head, [NEXT], 2).ops == [Append(THREE, [NEXT])];
  }

  lemma InterruptedIsLeft()
    ensures Crashed(Started(), Writing(Started().head, [TAIL, NEXT], 2).ops, 1, Within(0, 5)) == Interrupted()
  {
    WritesTwice();
    var ops := [Append(ONE, [TAIL]), Append(THREE, [NEXT])];
    assert ops[..1] == [Append(ONE, [TAIL])];
    AfterOne(Started(), Append(ONE, [TAIL]));
    assert [FIRST] + [TAIL] == [FIRST, TAIL] && Prefix([NEXT], 0) == [];
    NeutralEmpty<Row>([]);
  }

  lemma InterruptedIsIndexed()
    ensures Clean(AsPublished(Interrupted(), INTERRUPTED)) && Flat(Interrupted().files, INTERRUPTED) == [FIRST, TAIL]
  {
    var files, filled := Interrupted().files, [INTERRUPTED[0]];
    assert Front(INTERRUPTED) == filled && Front(filled) == [] && Last(INTERRUPTED) == INTERRUPTED[1];
    var v := AsPublished(Interrupted(), INTERRUPTED);
    assert v.files == map[ONE := File([FIRST, TAIL], 0)] && v.head.shards == filled;
    Lengths();
    WidthOfConcat([FIRST], [TAIL]);
    WidthOfOne(FIRST);
    WidthOfOne(TAIL);
    assert [FIRST] + [TAIL] == [FIRST, TAIL] && Front([FIRST, TAIL]) == [FIRST];
    assert Ascending([FIRST]) && Ascending([FIRST, TAIL]);
    assert Describes(INTERRUPTED[0], [FIRST, TAIL]);
    assert Solid(v.files, []) && Solid(v.files, filled);
    assert filled[0].name == ONE && Listed(filled, ONE);
    assert Flat(files, filled) == [FIRST, TAIL];
  }

  /** After it the draft is numbered over too: its newest file holds no row. */
  lemma CrashNumbersOver(delta: seq<Row>)
    requires delta == [TAIL]
    ensures Crashed(Started(), Writing(Started().head, [TAIL, NEXT], 2).ops, 1, Within(0, 5)) == Interrupted()
    ensures Drafting(Interrupted(), INTERRUPTED) && Spare(INTERRUPTED) && !Trusted(Interrupted())
    ensures DraftBase(Interrupted(), LastName(INTERRUPTED), None) == 1 && PhysicalEnd(Interrupted(), INTERRUPTED) == 2
    ensures StartsOver(Interrupted(), INTERRUPTED, delta)
  {
    var s := Interrupted();
    InterruptedIsLeft();
    InterruptedIsIndexed();
    WidthOfOne(FIRST);
    WidthOfConcat([FIRST], [TAIL]);
    WidthOfOne(TAIL);
    assert [FIRST] + [TAIL] == [FIRST, TAIL];
    assert [FIRST, TAIL][1..] == [TAIL] && [FIRST, TAIL][..1] == [FIRST];
    assert Front(s.head.shards) == [];
    assert Front(INTERRUPTED) == [INTERRUPTED[0]];
    assert WellFormed(s);
    assert Continues(s.head.shards, Filled(INTERRUPTED));
  }
}
