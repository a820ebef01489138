/** Appending to the draft: what a write leaves on disk, whole or cut short by a crash
    (store/pending_tail.go, store/message_rows.go). */
module DraftWrite {
  import opened ShardStore
  import opened MessageLog
  import opened DraftTail

  // ---- one batch, whole or in part ----

  lemma SmoothPut(files: map<Name, File>, name: Name, f: File)
    ensures Smooth(files[name := f]) == Smooth(files)[name := File(f.rows, 0)]
    ensures Content(Smooth(files), name) == File(Content(files, name).rows, 0)
  {
  }

  /** Torn bytes are not indexed. */
  lemma Retorn(files: map<Name, File>, h: Head, name: Name, torn: nat)
    requires Indexed(files, h) && name in files
    ensures var next := files[name := File(files[name].rows, torn)];
            Indexed(next, h) && Flat(next, h.shards) == Flat(files, h.shards)
  {
    hide Clean, Flat;
    var next := files[name := File(files[name].rows, torn)];
    assert Smooth(next) == Smooth(files);
    FlatSmooth(files, h.shards);
    FlatSmooth(next, h.shards);
  }

  /** A file made for the next rows, none of them in it yet. */
  lemma SpareAdded(files: map<Name, File>, h: Head, name: Name, torn: nat)
    requires Indexed(files, h) && !Spare(h.shards) && name.from == h.lastId + 1
    ensures name !in files
    ensures var next, g := files[name := File([], torn)], h.(shards := h.shards + [Unwritten(name, h.lastId)]);
            Indexed(next, g) && Flat(next, g.shards) == Flat(files, h.shards) && Filled(g.shards) == h.shards
  {
    hide Solid, Flat, Listed;
    var next, g := files[name := File([], torn)], h.(shards := h.shards + [Unwritten(name, h.lastId)]);
    FreshName(Settled(files, h), name);
    assert name !in Smooth(files);
    assert Front(g.shards) == h.shards && Last(g.shards) == Unwritten(name, h.lastId);
    assert Smooth(next) - {name} == Smooth(files);
    assert Settled(next, g) == Settled(files, h);
    IndexedIsSolid(files, h);
    IndexedIsSolid(next, g);
    FlatSmooth(files, h.shards);
    FlatSmooth(next, h.shards);
    SolidFrame(Smooth(files), Smooth(next), h.shards);
  }

  /** How the index goes on. */
  predicate GoesOn(h: Head, g: Head) {
    Continues(Filled(h.shards), Filled(g.shards)) && g.lastCommit == h.lastCommit
  }

  /** One batch into the newest file with room, be it still without a row, or into a new one. */
  lemma IndexedRound(files: map<Name, File>, h: Head, delta: seq<Row>, cap: nat)
    requires Indexed(files, h) && 0 < cap && delta != [] && Consecutive(delta, h.lastId + 1)
    ensures var e := Extend(h, delta, cap);
            var next := Do(Store(files, h), Append(e.name, delta[..e.taken])).files;
            && Indexed(next, e.head) && !Spare(e.head.shards) && e.name in next && GoesOn(h, e.head)
            && Flat(next, e.head.shards) == Flat(files, h.shards) + delta[..e.taken]
            && e.head.lastId == h.lastId + e.taken
  {
    hide Indexed, Flat, Solid, Clean, Extend;
    ConsecutiveFollows(delta, h.lastId + 1);
    assert delta[Extend(h, delta, cap).taken - 1].id == h.lastId + Extend(h, delta, cap).taken;
    if Spare(h.shards) {
      SpareRound(files, h, delta, cap);
    } else {
      FilledRound(files, h, delta, cap);
    }
  }

  lemma FilledRound(files: map<Name, File>, h: Head, delta: seq<Row>, cap: nat)
    requires Indexed(files, h) && 0 < cap && delta != [] && Follows(delta, h.lastId) && !Spare(h.shards)
    ensures var e := Extend(h, delta, cap);
            var next := Do(Store(files, h), Append(e.name, delta[..e.taken])).files;
            && Indexed(next, e.head) && !Spare(e.head.shards) && e.name in next && GoesOn(h, e.head)
            && Flat(next, e.head.shards) == Flat(files, h.shards) + delta[..e.taken]
            && e.head.lastId == delta[e.taken - 1].id
  {
    hide Flat, Solid, Listed, Ascending, Width, Describes, Extend, Clean, GoesOn, Follows;
    var e := Extend(h, delta, cap);
    var v := Store(Smooth(files), h);
    var next := Do(Store(files, h), Append(e.name, delta[..e.taken])).files;
    assert Settled(files, h) == v && Clean(v);
    var t := Staged(v, delta, cap);
    StagedIsClean(v, delta, cap);
    SmoothPut(files, e.name, File(Content(files, e.name).rows + delta[..e.taken], 0));
    assert t == Store(Smooth(next), e.head);
    assert !Spare(e.head.shards) by { CleanIsSmooth(t); }
    ExtendGoesOn(h, delta, cap);
    FlatSmooth(files, h.shards);
    FlatSmooth(next, e.head.shards);
  }

  lemma StagedIsClean(v: Store, delta: seq<Row>, cap: nat)
    requires Clean(v) && 0 < cap && delta != [] && Follows(delta, v.head.lastId)
    ensures var t := Staged(v, delta, cap);
            Clean(t) && Flat(t.files, t.head.shards) == Flat(v.files, v.head.shards) + delta[..Extend(v.head, delta, cap).taken]
  {
    hide Flat, Clean, Extend, Staged;
    if Reuses(v.head, cap) {
      FilledIsClean(v, delta, cap);
    } else {
      OpenedIsClean(v, delta, cap);
    }
  }

  lemma ExtendGoesOn(h: Head, delta: seq<Row>, cap: nat)
    requires 0 < cap && delta != [] && !Spare(h.shards) && !Spare(Extend(h, delta, cap).head.shards)
    ensures GoesOn(h, Extend(h, delta, cap).head) && Extend(h, delta, cap).head.lastId == delta[Extend(h, delta, cap).taken - 1].id
  {
    hide Width;
  }

  lemma SpareRound(files: map<Name, File>, h: Head, delta: seq<Row>, cap: nat)
    requires Indexed(files, h) && 0 < cap && delta != [] && Follows(delta, h.lastId) && Spare(h.shards)
    requires delta[0].id == h.lastId + 1
    ensures var e := Extend(h, delta, cap);
            var next := Do(Store(files, h), Append(e.name, delta[..e.taken])).files;
            && Indexed(next, e.head) && !Spare(e.head.shards) && e.name in next && GoesOn(h, e.head)
            && Flat(next, e.head.shards) == Flat(files, h.shards) + delta[..e.taken]
            && e.head.lastId == delta[e.taken - 1].id
  {
    hide Clean, Flat, Ascending, Width, Describes, Solid;
    var e, front := Extend(h, delta, cap), Front(h.shards);
    var info, rows := Last(e.head.shards), delta[..e.taken];
    var v := Settled(files, h);
    var next := Do(Store(files, h), Append(e.name, rows)).files;
    SpareIsDescribed(h, delta, cap);
    IndexedEnd(files, h);
    NeutralEmpty(rows);
    SmoothPut(files, e.name, File(rows, 0));
    assert Smooth(next) == v.files[e.name := File(rows, 0)];
    CleanSuffix(v, info, File(rows, 0), e.head);
    FlatSmooth(next, e.head.shards);
    SettledFlat(files, h);
  }

  /** One more described file behind a clean store. */
  lemma CleanSuffix(v: Store, info: Shard, f: File, head: Head)
    requires Clean(v) && End(v.head.shards) < info.from && f.torn == 0 && Describes(info, f.rows)
    requires head.shards == v.head.shards + [info] && head.lastId == info.to && head.total == v.head.total + info.count
    ensures var files := v.files[info.name := f];
            Clean(Store(files, head)) && Flat(files, head.shards) == Flat(v.files, v.head.shards) + f.rows
  {
    hide Solid, Flat, Describes;
    SolidSuffix(v.files, v.head.shards, info, f);
    ListedSuffix(v.head.shards, info);
  }

  lemma IndexedEnd(files: map<Name, File>, h: Head)
    requires Indexed(files, h)
    ensures End(Filled(h.shards)) <= h.lastId
  {
  }

  lemma SpareIsDescribed(h: Head, delta: seq<Row>, cap: nat)
    requires 0 < cap && delta != [] && Follows(delta, h.lastId) && Spare(h.shards)
    requires Last(h.shards) == Unwritten(Last(h.shards).name, h.lastId) && Last(h.shards).name.from == h.lastId + 1 == delta[0].id
    ensures var e := Extend(h, delta, cap);
            Describes(Last(e.head.shards), delta[..e.taken]) && Last(e.head.shards).name == Last(h.shards).name
  {
    AscendingParts(delta, Extend(h, delta, cap).taken);
  }

  /** The first batch, cut after some of its lines. */
  lemma FirstCut(files: map<Name, File>, h: Head, delta: seq<Row>, cap: nat, lines: nat, torn: nat) returns (g: Head)
    requires Indexed(files, h) && 0 < cap && delta != [] && Consecutive(delta, h.lastId + 1)
    ensures var e := Extend(h, delta, cap);
            var rows := Prefix(delta[..e.taken], lines);
            var next := files[e.name := File(Content(files, e.name).rows + rows, torn)];
            && Indexed(next, g) && GoesOn(h, g)
            && Flat(next, g.shards) == Flat(files, h.shards) + rows && g.lastId == h.lastId + |rows|
  {
    hide Indexed, Flat, Consecutive, Extend, GoesOn;
    var e := Extend(h, delta, cap);
    var rows := Prefix(delta[..e.taken], lines);
    if Reuses(h, cap) {
      g := ReusedCut(files, h, delta, cap, |rows|, torn);
    } else {
      g := OpenedCut(files, h, delta, cap, |rows|, torn);
    }
    assert rows == delta[..|rows|];
  }

  lemma ReusedCut(files: map<Name, File>, h: Head, delta: seq<Row>, cap: nat, k: nat, torn: nat) returns (g: Head)
    requires Indexed(files, h) && 0 < cap && delta != [] && Consecutive(delta, h.lastId + 1)
    requires Reuses(h, cap) && k <= Extend(h, delta, cap).taken
    ensures var name := Extend(h, delta, cap).name;
            var next := files[name := File(Content(files, name).rows + delta[..k], torn)];
            && Indexed(next, g) && GoesOn(h, g)
            && Flat(next, g.shards) == Flat(files, h.shards) + delta[..k] && g.lastId == h.lastId + k
  {
    hide Indexed, Flat;
    var name := Last(h.shards).name;
    assert name in files by { NewestIsThere(files, h); }
    if k == 0 {
      g := h;
      NeutralEmpty(files[name].rows);
      NeutralEmpty(Flat(files, h.shards));
      Retorn(files, h, name, torn);
      assert delta[..0] == [];
    } else {
      var part := delta[..k];
      g := Extend(h, part, cap).head;
      assert part[..k] == part;
      IndexedRound(files, h, part, cap);
      var next := Do(Store(files, h), Append(name, part)).files;
      Retorn(next, g, name, torn);
      assert next[name := File(next[name].rows, torn)] == files[name := File(files[name].rows + part, torn)];
    }
  }

  lemma NewestIsThere(files: map<Name, File>, h: Head)
    requires Indexed(files, h) && h.shards != []
    ensures Last(h.shards).name in files
  {
  }

  lemma OpenedCut(files: map<Name, File>, h: Head, delta: seq<Row>, cap: nat, k: nat, torn: nat) returns (g: Head)
    requires Indexed(files, h) && 0 < cap && delta != [] && Consecutive(delta, h.lastId + 1)
    requires !Reuses(h, cap) && k <= Extend(h, delta, cap).taken
    ensures var name := Extend(h, delta, cap).name;
            var next := files[name := File(Content(files, name).rows + delta[..k], torn)];
            && Indexed(next, g) && GoesOn(h, g)
            && Flat(next, g.shards) == Flat(files, h.shards) + delta[..k] && g.lastId == h.lastId + k
  {
    hide Indexed, Flat, Total;
    var name := Extend(h, delta, cap).name;
    var spare := Unwritten(name, h.lastId);
    SpareAdded(files, h, name, torn);
    var made, i := files[name := File([], torn)], h.(shards := h.shards + [spare]);
    assert Last(i.shards) == spare && Front(i.shards) == h.shards;
    g := ReusedCut(made, i, delta, cap, k, torn);
    assert Extend(i, delta, cap).name == name;
    NeutralEmpty(delta[..k]);
    assert made[name := File([] + delta[..k], torn)] == files[name := File([] + delta[..k], torn)];
  }

  // ---- the whole write, or what a crash leaves of it ----

  /** Behind its first operation a write goes on as from the index that includes it. */
  lemma CrashedBehindFirst(files: map<Name, File>, h: Head, delta: seq<Row>, cap: nat, at: nat, cut: Cut)
    requires 0 < cap && delta != [] && 0 < at <= |Writing(h, delta, cap).ops|
    ensures var e := Extend(h, delta, cap);
            var rest := Writing(e.head, delta[e.taken..], cap);
            var next := Do(Store(files, h), Append(e.name, delta[..e.taken])).files;
            && Writing(h, delta, cap) == Plan([Append(e.name, delta[..e.taken])] + rest.ops, rest.head)
            && Crashed(Store(files, h), Writing(h, delta, cap).ops, at, cut).files
            == Crashed(Store(next, e.head), rest.ops, at - 1, cut).files
  {
    hide Extend, Do;
    var e, s := Extend(h, delta, cap), Store(files, h);
    var first, rest := Append(e.name, delta[..e.taken]), Writing(e.head, delta[e.taken..], cap);
    var next := Do(s, first);
    assert ([first] + rest.ops)[..at] == [first] + rest.ops[..at - 1];
    AfterOne(s, first);
    AfterConcat(s, [first], rest.ops[..at - 1]);
    AfterIgnoresHead(next, e.head, rest.ops[..at - 1]);
    assert next == next.(head := h) by { DoKeepsHead(s, first); }
  }

  lemma DoKeepsHead(s: Store, op: Op)
    requires !op.Publish?
    ensures Do(s, op).head == s.head
  {
  }

  lemma RestGoesOn(delta: seq<Row>, first: nat, n: nat)
    requires Consecutive(delta, first) && n <= |delta|
    ensures Consecutive(delta[n..], first + n)
  {
  }

  lemma TakenTogether(a: seq<Row>, delta: seq<Row>, n: nat, k: nat)
    requires n <= |delta| && k <= |delta| - n
    ensures (a + delta[..n]) + delta[n..][..k] == a + delta[..n + k]
  {
  }

  lemma GoesOnTwice(h: Head, g: Head, i: Head)
    requires GoesOn(h, g) && GoesOn(g, i)
    ensures GoesOn(h, i)
  {
    ContinuesOn(Filled(h.shards), Filled(g.shards), Filled(i.shards));
  }

  lemma GoesOnFrom(h: Head)
    ensures GoesOn(h, h)
  {
  }

  lemma CrashedInFirst(files: map<Name, File>, h: Head, delta: seq<Row>, cap: nat, lines: nat, torn: nat)
    requires 0 < cap && delta != []
    ensures var e := Extend(h, delta, cap);
            var rows := Prefix(delta[..e.taken], lines);
            && Writing(h, delta, cap).ops != [] && rows == delta[..|rows|]
            && Crashed(Store(files, h), Writing(h, delta, cap).ops, 0, Within(lines, torn)).files
            == files[e.name := File(Content(files, e.name).rows + rows, torn)]
  {
    hide Extend;
    var ops := Writing(h, delta, cap).ops;
    assert ops[..0] == [];
  }

  lemma CrashedNowhere(s: Store, ops: seq<Op>, cut: Cut)
    requires ops == [] || cut == Before
    ensures Crashed(s, ops, 0, cut) == s
  {
    assert ops[..0] == [];
  }

  /** Wherever a write is cut, the disk stays indexed, longer by a prefix of the rows. */
  lemma {:induction false} CutIsIndexed(files: map<Name, File>, h: Head, delta: seq<Row>, cap: nat,
                                        at: nat, cut: Cut) returns (g: Head, k: nat)
    requires Indexed(files, h) && 0 < cap && Consecutive(delta, h.lastId + 1)
    requires at <= |Writing(h, delta, cap).ops|
    ensures var ops := Writing(h, delta, cap).ops;
            var t := Crashed(Store(files, h), ops, at, cut);
            && k <= |delta| && Indexed(t.files, g) && GoesOn(h, g)
            && Flat(t.files, g.shards) == Flat(files, h.shards) + delta[..k] && g.lastId == h.lastId + k
            && (at == |ops| ==> k == |delta| && g == Writing(h, delta, cap).head)
    decreases |delta|, 1
  {
    hide Indexed, Flat, Extend, GoesOn, Consecutive, Writing, Crashed;
    if delta == [] || (at == 0 && cut == Before) {
      g, k := h, 0;
      WritingNothing(h, cap);
      WritingSomething(h, delta, cap);
      CrashedNowhere(Store(files, h), Writing(h, delta, cap).ops, cut);
      NeutralEmpty(Flat(files, h.shards));
      GoesOnFrom(h);
      assert delta[..0] == [];
    } else if at == 0 {
      CrashedInFirst(files, h, delta, cap, cut.lines, cut.torn);
      g := FirstCut(files, h, delta, cap, cut.lines, cut.torn);
      k := |Prefix(delta[..Extend(h, delta, cap).taken], cut.lines)|;
    } else {
      g, k := CutBehindFirst(files, h, delta, cap, at, cut);
    }
  }

  lemma WritingSomething(head: Head, delta: seq<Row>, cap: nat)
    requires 0 < cap
    ensures delta != [] ==> Writing(head, delta, cap).ops != []
  {
  }

  lemma {:induction false} CutBehindFirst(files: map<Name, File>, h: Head, delta: seq<Row>, cap: nat,
                                          at: nat, cut: Cut) returns (g: Head, k: nat)
    requires Indexed(files, h) && 0 < cap && Consecutive(delta, h.lastId + 1)
    requires 0 < at <= |Writing(h, delta, cap).ops| && delta != []
    ensures var ops := Writing(h, delta, cap).ops;
            var t := Crashed(Store(files, h), ops, at, cut);
            && k <= |delta| && Indexed(t.files, g) && GoesOn(h, g)
            && Flat(t.files, g.shards) == Flat(files, h.shards) + delta[..k] && g.lastId == h.lastId + k
            && (at == |ops| ==> k == |delta| && g == Writing(h, delta, cap).head)
    decreases |delta|, 0
  {
    hide Indexed, Flat, Extend, GoesOn, Consecutive, Writing, Crashed;
    var e := Extend(h, delta, cap);
    var next, rest := Do(Store(files, h), Append(e.name, delta[..e.taken])).files, delta[e.taken..];
    IndexedRound(files, h, delta, cap);
    RestGoesOn(delta, h.lastId + 1, e.taken);
    CrashedBehindFirst(files, h, delta, cap, at, cut);
    var n;
    g, n := CutIsIndexed(next, e.head, rest, cap, at - 1, cut);
    GoesOnTwice(h, e.head, g);
    TakenTogether(Flat(files, h.shards), delta, e.taken, n);
    k := e.taken + n;
  }

  // ---- the draft ----

  /** Every append of a writer that goes on at the end goes into the newest file or behind it. */
  lemma {:induction false} WritingFits(head: Head, delta: seq<Row>, cap: nat)
    requires 0 < cap && Follows(delta, head.lastId)
    ensures AllFit(head, Writing(head, delta, cap).ops)
    decreases |delta|
  {
    hide Follows, AllFit;
    if delta == [] {
      assert AllFit(head, []) by { NothingFits(head); }
    } else {
      var e := Extend(head, delta, cap);
      FollowsParts(delta, head.lastId, e.taken);
      WritingFits(e.head, delta[e.taken..], cap);
      RestFits(head, delta, cap, Writing(e.head, delta[e.taken..], cap).ops);
    }
  }

  lemma NothingFits(head: Head)
    ensures AllFit(head, [])
  {
  }

  lemma EndAtLeastHead(s: Store, p: seq<Shard>)
    requires Drafting(s, p)
    ensures s.head.lastId <= PhysicalEnd(s, p)
  {
    hide Drafting;
    TailEnds(s, p);
  }

  lemma BehindIsUnlisted(s: Store, p: seq<Shard>, name: Name)
    requires Physical(s, p) && name.from > PhysicalEnd(s, p)
    ensures !Listed(s.head.shards, name)
  {
    hide Indexed, Solid, Flat;
    IndexedIsSolid(s.files, Virtual(s, p));
    forall i | 0 <= i < |s.head.shards| ensures s.head.shards[i].name != name {
      assert Filled(p)[i].name == s.head.shards[i].name;
    }
  }

  /** The newest file is the last listed one or not listed. */
  lemma NewestIsApart(s: Store, p: seq<Shard>)
    requires Physical(s, p) && p != []
    ensures IsTail(s.head, Last(p).name) || !Listed(s.head.shards, Last(p).name)
  {
    hide Clean, Flat, StartsBehind;
    if Spare(p) {
      SpareIsThere(s, p);
      BehindIsUnlisted(s, p, Last(p).name);
    } else if |p| > |s.head.shards| {
      LastIsUnlisted(s, p);
    }
  }

  lemma LastIsUnlisted(s: Store, p: seq<Shard>)
    requires Physical(s, p) && |p| > |s.head.shards|
    ensures !Listed(s.head.shards, Last(p).name)
  {
    hide Clean, Flat, StartsBehind;
    if Spare(p) {
      SpareIsThere(s, p);
      BehindIsUnlisted(s, p, Last(p).name);
    } else {
      PhysicalHolds(s, p);
      forall i | 0 <= i < |s.head.shards| ensures s.head.shards[i].name != Last(p).name {
        SolidAt(Smooth(s.files), p, i);
        assert p[i].name == s.head.shards[i].name;
      }
    }
  }

  /** It leaves the published part alone. */
  lemma DraftOpsAreHarmless(s: Store, p: seq<Shard>, ops: seq<Op>)
    requires Drafting(s, p) && AllFit(Virtual(s, p), ops)
    ensures AllHarmless(s.head, ops)
  {
    hide WellFormed, Physical, Consecutive, Listed;
    EndAtLeastHead(s, p);
    forall i | 0 <= i < |ops| ensures Harmless(s.head, ops[i]) {
      assert Fits(Virtual(s, p), ops[i]);
      AboveMore(ops[i].rows, PhysicalEnd(s, p), s.head.lastId);
      if ops[i].name.from > PhysicalEnd(s, p) {
        BehindIsUnlisted(s, p, ops[i].name);
      } else {
        NewestIsApart(s, p);
      }
    }
  }

  lemma CutKeepsHead(s: Store, ops: seq<Op>, at: nat, cut: Cut)
    requires at <= |ops| && forall i :: 0 <= i < |ops| ==> ops[i].Append?
    ensures Crashed(s, ops, at, cut).head == s.head
    ensures forall h :: Crashed(s.(head := h), ops, at, cut).files == Crashed(s, ops, at, cut).files
  {
    AfterIgnoresHead(s, s.head, ops[..at]);
    forall h ensures Crashed(s.(head := h), ops, at, cut).files == Crashed(s, ops, at, cut).files {
      AfterIgnoresHead(s, h, ops[..at]);
    }
  }

  /** A disk that is indexed on from a draft's is a longer draft of the same head. */
  lemma LongerDraft(s: Store, p: seq<Shard>, t: Store, g: Head, rows: seq<Row>)
    requires Drafting(s, p) && Consecutive(rows, PhysicalEnd(s, p) + 1)
    requires WellFormed(t) && t.head == s.head && Indexed(t.files, g) && GoesOn(Virtual(s, p), g)
    requires Flat(t.files, g.shards) == Flat(s.files, p) + rows && g.lastId == PhysicalEnd(s, p) + |rows|
    ensures Drafting(t, g.shards) && Tail(t, g.shards) == Tail(s, p) + rows
  {
    hide WellFormed, Clean, Flat, Solid, Published;
    PublishedThenTail(s, p);
    PublishedIsOrdered(s);
    TailEnds(s, p);
    LongerIsPhysical(s, p, t, g, rows);
    SameStart(Flat(s.files, p), rows, s.head.total);
    ConsecutiveConcat(Tail(s, p), rows, s.head.lastId + 1);
  }

  lemma SameStart(all: seq<Row>, rows: seq<Row>, n: nat)
    requires n <= |all|
    ensures (all + rows)[n..] == all[n..] + rows
  {
  }

  lemma ConsecutiveConcat(a: seq<Row>, b: seq<Row>, first: nat)
    requires Consecutive(a, first) && Consecutive(b, first + |a|)
    ensures Consecutive(a + b, first)
  {
  }

  lemma LongerIsPhysical(s: Store, p: seq<Shard>, t: Store, g: Head, rows: seq<Row>)
    requires Drafting(s, p) && Consecutive(rows, PhysicalEnd(s, p) + 1)
    requires t.head == s.head && Indexed(t.files, g) && GoesOn(Virtual(s, p), g)
    requires Flat(t.files, g.shards) == Flat(s.files, p) + rows && g.lastId == PhysicalEnd(s, p) + |rows|
    ensures Physical(t, g.shards)
  {
    hide WellFormed, Clean, Flat, Solid;
    ContinuesOn(s.head.shards, Filled(p), Filled(g.shards));
    EndAtLeastHead(s, p);
    if Filled(g.shards) == [] {
      IndexedIsSolid(t.files, g);
      FlatNothing(t.files);
      assert rows == [];
      SettledEnd(s, p);
    }
    IndexedHead(t.files, g);
    if g.shards == [] {
      assert PhysicalEnd(t, g.shards) == g.lastId;
    }
    assert Virtual(t, g.shards) == g;
  }

  lemma IndexedHead(files: map<Name, File>, h: Head)
    requires Indexed(files, h)
    ensures h.total == Total(h.shards) && (h.shards != [] ==> h.lastId == End(h.shards))
  {
  }

  /** A crash anywhere in a draft append leaves the published log and its head untouched, and
      the draft longer by a prefix of the new rows: by all of them if it came too late. */
  lemma DraftCrash(s: Store, p: seq<Shard>, delta: seq<Row>, cap: nat, at: nat, cut: Cut)
    returns (p': seq<Shard>, k: nat)
    requires Drafting(s, p) && 0 < cap && Consecutive(delta, PhysicalEnd(s, p) + 1)
    requires at <= |Writing(Virtual(s, p), delta, cap).ops|
    ensures var ops := Writing(Virtual(s, p), delta, cap).ops;
            var t := Crashed(s, ops, at, cut);
            && WellFormed(t) && t.head == s.head && Log(t) == Log(s)
            && k <= |delta| && Drafting(t, p') && Tail(t, p') == Tail(s, p) + delta[..k]
            && (at == |ops| ==> k == |delta| && p' == Writing(Virtual(s, p), delta, cap).head.shards)
  {
    hide Drafting, Indexed, Writing, AllFit, WellFormed, Log, Tail, Flat;
    var v := Virtual(s, p);
    var ops := Writing(v, delta, cap).ops;
    var t := Crashed(s, ops, at, cut);
    ConsecutiveFollows(delta, PhysicalEnd(s, p) + 1);
    WritingFits(v, delta, cap);
    DraftOpsAreHarmless(s, p, ops);
    DraftIsPhysical(s, p);
    ReapOnlyCrash(s, ops, at, cut);
    var g, n := CutIsIndexed(s.files, v, delta, cap, at, cut);
    CutKeepsHead(s, ops, at, cut);
    assert Crashed(s.(head := v), ops, at, cut).files == t.files;
    PrefixGoesOn(delta, PhysicalEnd(s, p) + 1, n);
    LongerDraft(s, p, t, g, delta[..n]);
    p', k := g.shards, n;
  }

  lemma PrefixGoesOn(delta: seq<Row>, first: nat, n: nat)
    requires Consecutive(delta, first) && n <= |delta|
    ensures Consecutive(delta[..n], first)
  {
  }

  /** Appending to the draft leaves the readable log as it was, and the draft longer by
      exactly the new rows, ready to be found, published or discarded. */
  lemma DraftGrowsInvisibly(s: Store, p: seq<Shard>, delta: seq<Row>, cap: nat)
    requires Drafting(s, p) && 0 < cap && Consecutive(delta, PhysicalEnd(s, p) + 1)
    ensures var plan := Writing(Virtual(s, p), delta, cap);
            var t := After(s, plan.ops);
            && AllHarmless(s.head, plan.ops) && WellFormed(t) && t.head == s.head && Log(t) == Log(s)
            && Drafting(t, plan.head.shards) && Tail(t, plan.head.shards) == Tail(s, p) + delta
  {
    hide Drafting, Writing, AllFit, WellFormed, Log, Tail;
    var ops := Writing(Virtual(s, p), delta, cap).ops;
    ConsecutiveFollows(delta, PhysicalEnd(s, p) + 1);
    WritingFits(Virtual(s, p), delta, cap);
    DraftOpsAreHarmless(s, p, ops);
    var p', k := DraftCrash(s, p, delta, cap, |ops|, Before);
    assert ops[..|ops|] == ops && delta[..|delta|] == delta;
  }

  /** A commit cut behind its reap leaves a draft of the rows it had written by then, of all
      of them when only the head was still to be replaced. */
  lemma CutCommitIsDraft(s: Store, order: seq<Name>, rows: seq<Row>, commit: string, cap: nat,
                         at: nat, cut: Cut) returns (p': seq<Shard>, k: nat)
    requires WellFormed(s) && Lists(order, s) && 0 < cap
    requires |Reaping(s, order, Trusted(s))| <= at < |CommitOps(s, order, rows, commit, cap)|
    ensures var t := Crashed(s, CommitOps(s, order, rows, commit, cap), at, cut);
            && WellFormed(t) && t.head == s.head && Log(t) == Log(s)
            && k <= |Added(s, rows, commit)| && Drafting(t, p') && Tail(t, p') == Added(s, rows, commit)[..k]
            && (at == |CommitOps(s, order, rows, commit, cap)| - 1 ==> k == |Added(s, rows, commit)|)
  {
    hide Drafting, WellFormed, Reaping, Trusted, Log, Tail, Clean, Writing, Lists, Numbered;
    var reap, delta := Reaping(s, order, Trusted(s)), Added(s, rows, commit);
    DiscardRestores(s, order);
    AssignedExactly(rows, s.head.lastId, commit);
    var r := After(s, reap);
    CleanIsDrafting(r);
    var work := Writing(s.head, delta, cap).ops;
    CutBehind(s, reap, work, Writing(s.head, delta, cap).head.(lastCommit := commit), at, cut);
    p', k := DraftCrash(r, r.head.shards, delta, cap, at - |reap|, cut);
    NeutralEmpty(delta[..k]);
  }

  lemma CutBehind(s: Store, reap: seq<Op>, work: seq<Op>, head: Head, at: nat, cut: Cut)
    requires |reap| <= at <= |reap| + |work|
    ensures Crashed(s, reap + work + [Publish(head)], at, cut) == Crashed(After(s, reap), work, at - |reap|, cut)
  {
    var ops := reap + work + [Publish(head)];
    assert ops[..at] == reap + work[..at - |reap|];
    AfterConcat(s, reap, work[..at - |reap|]);
    if at < |reap| + |work| {
      assert ops[at] == work[at - |reap|];
    } else {
      assert ops[at] == Publish(head);
    }
  }

  /** An untorn draft, once published, is an empty draft of the new log; a file without a row
      stays where it is. */
  lemma PublishedIsDrafting(s: Store, p: seq<Shard>)
    requires Drafting(s, p) && Tail(s, p) != [] && Untorn(s.files, Filled(p))
    ensures var t := PublishedTail(s, p);
            WellFormed(t) && Log(t) == Log(s) + Tail(s, p) && Drafting(t, p) && Tail(t, p) == []
  {
    hide WellFormed, Clean, Flat, Solid, PublishedTail, Log, Untorn, Rebuilt;
    var t, q := PublishedTail(s, p), Filled(p);
    PublishAddsDraft(s, p);
    PublishIsCleanExactly(s, p);
    PublishedHead(s, p);
    SettledEnd(s, p);
    RebuiltUntorn(s.files, q);
    assert Virtual(t, p) == Virtual(s, p).(lastCommit := t.head.lastCommit);
    CommitIsNotIndexed(s.files, Virtual(s, p), t.head.lastCommit);
    PhysicalHolds(s, p);
    FlatSmooth(s.files, q);
    SolidIsOrdered(Smooth(s.files), q);
  }

  lemma CommitIsNotIndexed(files: map<Name, File>, h: Head, commit: string)
    requires Indexed(files, h)
    ensures Indexed(files, h.(lastCommit := commit))
  {
  }
}
