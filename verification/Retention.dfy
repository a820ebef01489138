/** Evicting the oldest rows of the message channel: the rows that stay are rewritten into
    new shards, the head is replaced, the old shards are deleted (store/retention.go). The
    rewrite is atomic exactly when no new shard takes the name of an old one. */
module Retention {
  import opened ShardStore
  import opened StoreDisk

  datatype Rewrite = Rewrite(ops: seq<Op>, shards: seq<Shard>)

  function ChunkName(rows: seq<Row>, n: nat): Name
    requires 0 < n <= |rows|
  {
    Name(rows[0].id, rows[n - 1].id)
  }

  function ChunkEntry(rows: seq<Row>, n: nat): Shard
    requires 0 < n <= |rows|
  {
    Shard(ChunkName(rows, n), rows[0].id, rows[n - 1].id, n, Width(rows[..n]))
  }

  /** The surviving rows, cap at a time, each batch into a file created anew. */
  function Rewriting(rows: seq<Row>, cap: nat): Rewrite
    requires 0 < cap
    decreases |rows|
  {
    if rows == [] then Rewrite([], [])
    else
      var n := Least(cap, |rows|);
      var rest := Rewriting(rows[n..], cap);
      Rewrite([Remove(ChunkName(rows, n)), Append(ChunkName(rows, n), rows[..n])] + rest.ops,
              [ChunkEntry(rows, n)] + rest.shards)
  }

  /** The old shards whose names no new one took. */
  function Leftovers(previous: seq<Shard>, shards: seq<Shard>): seq<Name> {
    if previous == [] then []
    else Leftovers(Front(previous), shards) + if Listed(shards, Last(previous).name) then [] else [Last(previous).name]
  }

  function Clamped(s: Store, upTo: nat): nat {
    Least(upTo, s.head.lastId)
  }

  function Remaining(s: Store, upTo: nat): seq<Row> {
    Between(Log(s), Clamped(s, upTo) + 1, s.head.lastId)
  }

  function NewHead(s: Store, upTo: nat, cap: nat): Head
    requires 0 < cap
  {
    s.head.(shards := Rewriting(Remaining(s, upTo), cap).shards, total := |Remaining(s, upTo)|)
  }

  function EvictOps(s: Store, upTo: nat, cap: nat): seq<Op>
    requires 0 < cap
  {
    var rewrite := Rewriting(Remaining(s, upTo), cap);
    rewrite.ops + [Publish(NewHead(s, upTo, cap))] + Removals(Leftovers(s.head.shards, rewrite.shards))
  }

  // ---- what a completed eviction leaves ----

  lemma RewriteAChunk(s: Store, name: Name, rows: seq<Row>)
    ensures After(s, [Remove(name), Append(name, rows)]) == Put(s, name, File(rows, 0))
  {
    var ops := [Remove(name), Append(name, rows)];
    assert Front(ops) == [Remove(name)];
    AfterOne(s, Remove(name));
    assert [] + rows == rows;
    assert (s.files - {name})[name := File(rows, 0)] == s.files[name := File(rows, 0)];
  }

  /** After the shards already rewritten come the ones of the remaining rows. */
  lemma {:induction false} RewritingIsSolid(s: Store, before: seq<Shard>, rows: seq<Row>, cap: nat)
    requires 0 < cap && Solid(s.files, before) && Follows(rows, End(before))
    ensures var r := Rewriting(rows, cap);
            var files := After(s, r.ops).files;
            && Solid(files, before + r.shards)
            && Flat(files, before + r.shards) == Flat(s.files, before) + rows
            && Total(before + r.shards) == Total(before) + |rows|
            && End(before + r.shards) == (if rows == [] then End(before) else Last(rows).id)
            && After(s, r.ops).head == s.head
    decreases |rows|
  {
    hide Solid, Ascending, Width, Flat, Total, Follows, After;
    if rows == [] {
      NeutralEmpty(before);
      NeutralEmpty(Flat(s.files, before));
      NoWork(s);
    } else {
      var n := Least(cap, |rows|);
      var info, rest := ChunkEntry(rows, n), Rewriting(rows[n..], cap);
      var first := [Remove(info.name), Append(info.name, rows[..n])];
      ChunkIsSolid(s, before, rows, n);
      RewritingIsSolid(Put(s, info.name, File(rows[..n], 0)), before + [info], rows[n..], cap);
      RewriteAChunk(s, info.name, rows[..n]);
      AfterConcat(s, first, rest.ops);
      Associative(before, [info], rest.shards);
      Associative(Flat(s.files, before), rows[..n], rows[n..]);
      assert rows[..n] + rows[n..] == rows;
    }
  }

  lemma NoWork(s: Store)
    ensures After(s, []) == s
  {
  }

  lemma ChunkIsSolid(s: Store, before: seq<Shard>, rows: seq<Row>, n: nat)
    requires Solid(s.files, before) && Follows(rows, End(before)) && 0 < n <= |rows|
    ensures var info := ChunkEntry(rows, n);
            var files := s.files[info.name := File(rows[..n], 0)];
            && Solid(files, before + [info])
            && Flat(files, before + [info]) == Flat(s.files, before) + rows[..n]
            && Total(before + [info]) == Total(before) + n
            && End(before + [info]) == rows[n - 1].id && Follows(rows[n..], rows[n - 1].id)
  {
    hide Solid, Ascending, Width;
    FollowsParts(rows, End(before), n);
    DescribesNew(rows, n);
    SolidSuffix(s.files, before, ChunkEntry(rows, n), File(rows[..n], 0));
  }

  lemma {:induction false} LeftoversUnlisted(previous: seq<Shard>, shards: seq<Shard>)
    ensures forall i :: 0 <= i < |Leftovers(previous, shards)| ==> !Listed(shards, Leftovers(previous, shards)[i])
    decreases |previous|
  {
    if previous != [] {
      LeftoversUnlisted(Front(previous), shards);
    }
  }

  lemma {:induction false} RemovalsKeep(s: Store, names: seq<Name>, shards: seq<Shard>)
    requires Solid(s.files, shards) && forall i :: 0 <= i < |names| ==> !Listed(shards, names[i])
    ensures var t := After(s, Removals(names));
            t.head == s.head && Solid(t.files, shards) && Flat(t.files, shards) == Flat(s.files, shards)
    decreases |names|
  {
    hide Solid, Flat, Listed;
    if names != [] {
      RemovalsKeep(s, Front(names), shards);
      RemovalsLast(names);
      UnlistedRemoval(After(s, Removals(Front(names))), names[|names| - 1], shards);
    }
  }

  lemma RemovalsLast(names: seq<Name>)
    requires names != []
    ensures Removals(names) != [] && Front(Removals(names)) == Removals(Front(names))
    ensures Last(Removals(names)) == Remove(names[|names| - 1])
  {
  }

  lemma UnlistedRemoval(t: Store, name: Name, shards: seq<Shard>)
    requires Solid(t.files, shards) && !Listed(shards, name)
    ensures Solid(t.files - {name}, shards) && Flat(t.files - {name}, shards) == Flat(t.files, shards)
  {
    hide Solid, Flat;
    forall i | 0 <= i < |shards| ensures shards[i].name != name {
      assert !Listed(shards, name);
    }
    SolidFrame(t.files, t.files - {name}, shards);
  }

  lemma {:induction false} BetweenOrdered(rows: seq<Row>, from: nat, to: nat)
    requires Ascending(rows)
    ensures Ascending(Between(rows, from, to)) && Inside(Between(rows, from, to), from, to)
    ensures Between(rows, from, to) != [] && rows != [] ==> Last(Between(rows, from, to)).id <= Last(rows).id
    ensures rows != [] && from <= Last(rows).id <= to ==>
              Between(rows, from, to) != [] && Last(Between(rows, from, to)) == Last(rows)
    decreases |rows|
  {
    hide Ascending;
    if rows == [] {
      assert Between(rows, from, to) == rows;
    } else {
      FrontAndLast(rows);
      AscendingMore(Front(rows), Last(rows));
      BetweenOrdered(Front(rows), from, to);
      var before := Between(Front(rows), from, to);
      NeutralEmpty(before);
      AscendingMore(before, Last(rows));
    }
  }

  function LeftNames(s: Store, upTo: nat, cap: nat): seq<Name>
    requires 0 < cap
  {
    Leftovers(s.head.shards, Rewriting(Remaining(s, upTo), cap).shards)
  }

  lemma LeftNamesUnlisted(s: Store, upTo: nat, cap: nat, k: nat)
    requires 0 < cap && k <= |LeftNames(s, upTo, cap)|
    ensures forall i :: 0 <= i < k ==> !Listed(Rewriting(Remaining(s, upTo), cap).shards, LeftNames(s, upTo, cap)[..k][i])
  {
    hide Listed, Rewriting, Remaining;
    LeftoversUnlisted(s.head.shards, Rewriting(Remaining(s, upTo), cap).shards);
  }

  /** The new head is in place and some of the old shards are gone: the reader sees exactly
      the rows above the mark. */
  lemma PublishedEviction(s: Store, upTo: nat, cap: nat, k: nat)
    requires WellFormed(s) && 0 < cap && k <= |LeftNames(s, upTo, cap)|
    ensures var work := Rewriting(Remaining(s, upTo), cap).ops + [Publish(NewHead(s, upTo, cap))];
            var t := After(s, work + Removals(LeftNames(s, upTo, cap)[..k]));
            WellFormed(t) && Log(t) == Remaining(s, upTo) && t.head == NewHead(s, upTo, cap)
  {
    hide WellFormed, Solid, Log, Remaining, Rewriting, LeftNames, After, Flat, Total, Follows, Removals;
    var rows := Remaining(s, upTo);
    RemainingRows(s, upTo);
    NothingSolid(s.files);
    RewritingIsSolid(s, [], rows, cap);
    var r := Rewriting(rows, cap);
    NeutralEmpty(r.shards);
    NeutralEmpty(rows);
    var published := Store(After(s, r.ops).files, NewHead(s, upTo, cap));
    var names := LeftNames(s, upTo, cap)[..k];
    LeftNamesUnlisted(s, upTo, cap, k);
    RemovalsKeep(published, names, r.shards);
    AfterPublish(s, r.ops, NewHead(s, upTo, cap), Removals(names));
    EvictedLog(After(published, Removals(names)), rows);
  }

  /** A completed eviction keeps exactly the rows above the mark, in order, under the same
      last id, whatever the names of the new shards, and later commits can go on from it. */
  lemma EvictionKeepsTheRest(s: Store, upTo: nat, cap: nat)
    requires WellFormed(s) && 0 < cap
    ensures var t := After(s, EvictOps(s, upTo, cap));
            && WellFormed(t) && OnlyAbove(Log(t), Log(s), upTo)
            && t.head.lastId == s.head.lastId && t.head.lastCommit == s.head.lastCommit
            && (Log(t) == [] <==> s.head.lastId <= upTo || Log(s) == [])
  {
    hide WellFormed, Log, Between, Rewriting, Leftovers, OnlyAbove;
    var names := LeftNames(s, upTo, cap);
    PublishedEviction(s, upTo, cap, |names|);
    assert names[..|names|] == names;
    RemainingRows(s, upTo);
    RemainingIsAbove(s, upTo);
  }

  /** The rows above the mark, all of them, in the old order. */
  ghost predicate OnlyAbove(rows: seq<Row>, log: seq<Row>, mark: nat) {
    Ascending(rows) && forall row :: row in rows <==> row in log && row.id > mark
  }

  lemma RemainingIsAbove(s: Store, upTo: nat)
    requires WellFormed(s)
    ensures OnlyAbove(Remaining(s, upTo), Log(s), upTo)
  {
    hide WellFormed, Log, Between, Ascending;
    ReaderSeesOneLog(s, 0, 0);
    LogIsInside(s);
    BetweenOrdered(Log(s), Clamped(s, upTo) + 1, s.head.lastId);
    forall row ensures row in Remaining(s, upTo) <==> row in Log(s) && row.id > upTo {
      BetweenMembers(Log(s), Clamped(s, upTo) + 1, s.head.lastId, row);
    }
  }

  lemma AfterPublish(s: Store, ops: seq<Op>, head: Head, more: seq<Op>)
    ensures After(s, ops + [Publish(head)] + more) == After(Store(After(s, ops).files, head), more)
  {
    AfterConcat(s, ops + [Publish(head)], more);
    assert Front(ops + [Publish(head)]) == ops;
  }

  lemma NothingSolid(files: map<Name, File>)
    ensures Solid(files, []) && Flat(files, []) == [] && End([]) == 0 && Total([]) == 0
  {
  }

  lemma RemainingRows(s: Store, upTo: nat)
    requires WellFormed(s)
    ensures Follows(Remaining(s, upTo), 0)
    ensures Remaining(s, upTo) == [] <==> s.head.lastId <= upTo || Log(s) == []
    ensures Remaining(s, upTo) != [] ==> Last(Remaining(s, upTo)).id == s.head.lastId
  {
    hide WellFormed, Log;
    ReaderSeesOneLog(s, 0, 0);
    var from := Clamped(s, upTo) + 1;
    BetweenOrdered(Log(s), from, s.head.lastId);
    if Remaining(s, upTo) != [] {
      assert Remaining(s, upTo)[0].id >= from;
    }
  }

  lemma EvictedLog(t: Store, rows: seq<Row>)
    requires Solid(t.files, t.head.shards) && Flat(t.files, t.head.shards) == rows
    requires t.head.total == Total(t.head.shards) && End(t.head.shards) == if rows == [] then 0 else Last(rows).id
    requires rows != [] ==> Last(rows).id == t.head.lastId
    ensures Log(t) == rows && WellFormed(t)
  {
    if rows == [] {
      SolidIsOrdered(t.files, t.head.shards);
    } else {
      TailOfSolid(t);
      LogIsPublished(t);
    }
  }

  lemma TailOfSolid(t: Store)
    requires Solid(t.files, t.head.shards) && HeadHolds(t.head)
    ensures WellFormed(t) && Published(t) == Flat(t.files, t.head.shards)
  {
    if t.head.shards != [] {
      var last := Last(t.head.shards);
      assert t.files[last.name].rows[..last.count] == t.files[last.name].rows;
    }
  }

  // ---- the directory after a completed eviction ----

  lemma {:induction false} RewritingFills(rows: seq<Row>, cap: nat)
    requires 0 < cap
    ensures FullShards(Rewriting(rows, cap).shards, cap)
    ensures rows == [] <==> Rewriting(rows, cap).shards == []
    decreases |rows|
  {
    if rows != [] {
      var rest := rows[Least(cap, |rows|)..];
      RewritingFills(rest, cap);
      assert forall i :: 0 < i < |Rewriting(rows, cap).shards| ==>
          Rewriting(rows, cap).shards[i] == Rewriting(rest, cap).shards[i - 1];
    }
  }

  lemma {:induction false} RewritingFiles(s: Store, rows: seq<Row>, cap: nat, name: Name)
    requires 0 < cap
    ensures name in After(s, Rewriting(rows, cap).ops).files <==> name in s.files || Listed(Rewriting(rows, cap).shards, name)
    decreases |rows|
  {
    hide After, Listed;
    if rows == [] {
      NoWork(s);
      NotListed(name);
    } else {
      var n := Least(cap, |rows|);
      var info, rest := ChunkEntry(rows, n), Rewriting(rows[n..], cap);
      var first := [Remove(info.name), Append(info.name, rows[..n])];
      RewriteAChunk(s, info.name, rows[..n]);
      AfterConcat(s, first, rest.ops);
      RewritingFiles(Put(s, info.name, File(rows[..n], 0)), rows[n..], cap, name);
      ListedCons(info, rest.shards, name);
    }
  }

  lemma NotListed(name: Name)
    ensures !Listed([], name)
  {
  }

  lemma ListedCons(info: Shard, rest: seq<Shard>, name: Name)
    ensures Listed([info] + rest, name) <==> name == info.name || Listed(rest, name)
  {
    var shards := [info] + rest;
    if name == info.name {
      assert shards[0].name == name;
    }
    if i :| 0 <= i < |rest| && rest[i].name == name {
      assert shards[i + 1].name == name;
    }
  }

  lemma {:induction false} LeftoversExactly(previous: seq<Shard>, shards: seq<Shard>, name: Name)
    ensures name in Leftovers(previous, shards) <==> Listed(previous, name) && !Listed(shards, name)
    decreases |previous|
  {
    hide Listed;
    if previous == [] {
      NotListed(name);
    } else {
      LeftoversExactly(Front(previous), shards, name);
      FrontAndLast(previous);
      ListedSuffix(Front(previous), Last(previous));
    }
  }

  /** A completed eviction leaves full shards under names that fit their rows, and of the old
      listed files only those a new shard has replaced: nothing evicted stays on disk. */
  lemma EvictionLeavesNothingBehind(s: Store, upTo: nat, cap: nat)
    requires 0 < cap
    ensures var t := After(s, EvictOps(s, upTo, cap));
            && FullShards(t.head.shards, cap)
            && forall name :: name in t.files <==> Listed(t.head.shards, name) || (name in s.files && !Listed(s.head.shards, name))
  {
    hide Listed, Remaining, Rewriting, After, FullShards;
    var r, names := Rewriting(Remaining(s, upTo), cap), LeftNames(s, upTo, cap);
    RewritingFills(Remaining(s, upTo), cap);
    AfterPublish(s, r.ops, NewHead(s, upTo, cap), Removals(names));
    AfterRemovals(Store(After(s, r.ops).files, NewHead(s, upTo, cap)), names);
    var t := After(s, EvictOps(s, upTo, cap));
    assert t.head.shards == r.shards && t.files == Without(After(s, r.ops).files, names);
    forall name ensures name in t.files <==> Listed(r.shards, name) || (name in s.files && !Listed(s.head.shards, name)) {
      RewritingFiles(s, Remaining(s, upTo), cap, name);
      LeftoversExactly(s.head.shards, r.shards, name);
    }
  }

  // ---- crashing on the way ----

  /** A new shard takes the name of an old one. */
  predicate Collides(s: Store, upTo: nat, cap: nat)
    requires 0 < cap
  {
    exists i :: 0 <= i < |Rewriting(Remaining(s, upTo), cap).shards|
      && Listed(s.head.shards, Rewriting(Remaining(s, upTo), cap).shards[i].name)
  }

  lemma {:induction false} RewriteIsHarmless(head: Head, rows: seq<Row>, cap: nat)
    requires 0 < cap && forall i :: 0 <= i < |Rewriting(rows, cap).shards| ==> !Listed(head.shards, Rewriting(rows, cap).shards[i].name)
    ensures AllHarmless(head, Rewriting(rows, cap).ops)
    decreases |rows|
  {
    hide Listed;
    if rows != [] {
      var n := Least(cap, |rows|);
      var rest := Rewriting(rows[n..], cap);
      assert Rewriting(rows, cap).shards[0].name == ChunkName(rows, n);
      assert forall i :: 0 <= i < |rest.shards| ==> rest.shards[i] == Rewriting(rows, cap).shards[i + 1];
      RewriteIsHarmless(head, rows[n..], cap);
    }
  }

  /** Without a collision every crash before the head is replaced leaves the old log. */
  lemma EvictionIsAtomicWithoutCollision(s: Store, upTo: nat, cap: nat, at: nat, cut: Cut)
    requires WellFormed(s) && 0 < cap && !Collides(s, upTo, cap)
    requires at <= |Rewriting(Remaining(s, upTo), cap).ops|
    ensures var t := Crashed(s, EvictOps(s, upTo, cap), at, cut);
            WellFormed(t) && t.head == s.head && Log(t) == Log(s)
  {
    var work := Rewriting(Remaining(s, upTo), cap).ops;
    RewriteIsHarmless(s.head, Remaining(s, upTo), cap);
    var head := NewHead(s, upTo, cap);
    CrashIsAtomic(s, work, head, at, cut);
    var ops := EvictOps(s, upTo, cap);
    assert ops[..at] == (work + [Publish(head)])[..at];
    assert at < |work| ==> ops[at] == work[at];
    assert at == |work| ==> ops[at] == Publish(head);
  }

  // ---- what a collision costs ----

  lemma {:induction false} BetweenLength(rows: seq<Row>, from: nat, to: nat)
    ensures |Between(rows, from, to)| <= |rows|
    decreases |rows|
  {
    if rows != [] {
      BetweenLength(Front(rows), from, to);
    }
  }

  /** Losing a file never shows more, and shows less if the file was listed and had rows in range. */
  lemma {:induction false} LosingAFile(files: map<Name, File>, name: Name, shards: seq<Shard>, from: nat, to: nat)
    ensures |Decoded(files - {name}, shards, from, to)| <= |Decoded(files, shards, from, to)|
    ensures (exists i :: 0 <= i < |shards| && shards[i].name == name && from <= shards[i].to && shards[i].from <= to
                         && Between(Content(files, name).rows, from, to) != [])
            ==> |Decoded(files - {name}, shards, from, to)| < |Decoded(files, shards, from, to)|
    decreases |shards|
  {
    hide Between;
    if shards != [] {
      LosingAFile(files, name, Front(shards), from, to);
      NothingBetween(from, to);
      if i :| 0 <= i < |shards| && shards[i].name == name && from <= shards[i].to && shards[i].from <= to
              && Between(Content(files, name).rows, from, to) != [] {
        assert i < |shards| - 1 ==> Front(shards)[i] == shards[i];
      }
    }
  }

  lemma NothingBetween(from: nat, to: nat)
    ensures Between([], from, to) == []
  {
  }

  lemma ListedIsVisible(s: Store, i: nat)
    requires WellFormed(s) && i < |s.head.shards|
    ensures var shard := s.head.shards[i];
            && 1 <= shard.to && shard.from <= s.head.lastId
            && Between(Content(s.files, shard.name).rows, 1, s.head.lastId) != []
  {
    var shard := s.head.shards[i];
    var last := Last(s.head.shards);
    AscendingBounds(s.files[last.name].rows[..last.count]);
    if i < |s.head.shards| - 1 {
      assert shard == Front(s.head.shards)[i];
      FirstIsVisible(s.files, Front(s.head.shards), i, s.head.lastId);
    } else {
      var rows := s.files[shard.name].rows;
      FirstShows(rows, 1, s.head.lastId);
    }
  }

  lemma {:induction false} FirstIsVisible(files: map<Name, File>, shards: seq<Shard>, i: nat, top: nat)
    requires Solid(files, shards) && i < |shards| && End(shards) <= top
    ensures 1 <= shards[i].to && shards[i].from <= top && Between(Content(files, shards[i].name).rows, 1, top) != []
    decreases |shards|
  {
    var rows := files[Last(shards).name].rows;
    AscendingBounds(rows);
    if i < |shards| - 1 {
      assert shards[i] == Front(shards)[i];
      FirstIsVisible(files, Front(shards), i, top);
    } else {
      FirstShows(rows, 1, top);
    }
  }

  lemma {:induction false} FirstShows(rows: seq<Row>, from: nat, to: nat)
    requires rows != [] && from <= rows[0].id <= to
    ensures Between(rows, from, to) != []
    decreases |rows|
  {
    if |rows| > 1 {
      FirstShows(Front(rows), from, to);
    }
  }

  lemma RemovingListedLoses(s: Store, name: Name)
    requires WellFormed(s) && Listed(s.head.shards, name)
    ensures Log(Do(s, Remove(name))) != Log(s)
  {
    var i :| 0 <= i < |s.head.shards| && s.head.shards[i].name == name;
    ListedIsVisible(s, i);
    LosingAFile(s.files, name, s.head.shards, 1, s.head.lastId);
  }

  /** The first new shard with a taken name is deleted before it is written again. */
  lemma {:induction false} CollisionLoses(s: Store, rows: seq<Row>, cap: nat, i: nat) returns (at: nat)
    requires WellFormed(s) && 0 < cap && i < |Rewriting(rows, cap).shards|
    requires Listed(s.head.shards, Rewriting(rows, cap).shards[i].name)
    ensures at <= |Rewriting(rows, cap).ops|
    ensures var t := After(s, Rewriting(rows, cap).ops[..at]); t.head == s.head && Log(t) != Log(s)
    decreases |rows|
  {
    hide WellFormed, Log, Listed;
    var n := Least(cap, |rows|);
    var name, rest := ChunkName(rows, n), Rewriting(rows[n..], cap);
    var ops := Rewriting(rows, cap).ops;
    if Listed(s.head.shards, name) {
      at := 1;
      assert ops[..1] == [Remove(name)];
      AfterOne(s, Remove(name));
      RemovingListedLoses(s, name);
    } else {
      var first := [Remove(name), Append(name, rows[..n])];
      assert AllHarmless(s.head, first);
      AfterIsHarmless(s, first);
      var t := After(s, first);
      LogIsPublished(s);
      LogIsPublished(t);
      assert Rewriting(rows, cap).shards[i] == rest.shards[i - 1];
      var rest_at := CollisionLoses(t, rows[n..], cap, i - 1);
      at := 2 + rest_at;
      assert ops[..at] == first + rest.ops[..rest_at];
      AfterConcat(s, first, rest.ops[..rest_at]);
    }
  }

  /** What the promise asks of a crash: before the head is replaced the old log under the old
      head, from then on the new one under the new, and either way a store that later
      commits can start from. */
  predicate Survives(s: Store, upTo: nat, cap: nat, at: nat, cut: Cut)
    requires 0 < cap && at <= |EvictOps(s, upTo, cap)|
  {
    var t := Crashed(s, EvictOps(s, upTo, cap), at, cut);
    && WellFormed(t)
    && if at <= |Rewriting(Remaining(s, upTo), cap).ops|
       then t.head == s.head && Log(t) == Log(s)
       else t.head == NewHead(s, upTo, cap) && Log(t) == Remaining(s, upTo)
  }

  lemma LateCrashSurvives(s: Store, upTo: nat, cap: nat, at: nat, cut: Cut)
    requires WellFormed(s) && 0 < cap
    requires |Rewriting(Remaining(s, upTo), cap).ops| < at <= |EvictOps(s, upTo, cap)|
    ensures Survives(s, upTo, cap, at, cut)
  {
    hide WellFormed, Log, Rewriting, Leftovers, Between;
    var work, names := Rewriting(Remaining(s, upTo), cap).ops, LeftNames(s, upTo, cap);
    var done, k := work + [Publish(NewHead(s, upTo, cap))], at - |work| - 1;
    PublishedEviction(s, upTo, cap, k);
    var ops := EvictOps(s, upTo, cap);
    assert ops == done + Removals(names);
    assert ops[..at] == done + Removals(names)[..k];
    assert Removals(names)[..k] == Removals(names[..k]);
    assert at < |ops| ==> ops[at] == Removals(names)[k] && ops[at].Remove?;
  }

  /** The promise that a crash leaves either the old shards under the old head or the new
      head holds exactly when no new shard takes the name of an old one. */
  lemma EvictionIsAtomicExactly(s: Store, upTo: nat, cap: nat)
    requires WellFormed(s) && 0 < cap
    ensures (forall at: nat, cut: Cut :: at <= |EvictOps(s, upTo, cap)| ==>
               Survives(s, upTo, cap, at, cut))
       <==> !Collides(s, upTo, cap)
  {
    hide WellFormed, Log, Rewriting;
    var work := Rewriting(Remaining(s, upTo), cap).ops;
    if !Collides(s, upTo, cap) {
      forall at: nat, cut: Cut | at <= |EvictOps(s, upTo, cap)|
        ensures Survives(s, upTo, cap, at, cut)
      {
        if at <= |work| {
          EvictionIsAtomicWithoutCollision(s, upTo, cap, at, cut);
        } else {
          LateCrashSurvives(s, upTo, cap, at, cut);
        }
      }
    } else {
      var i :| 0 <= i < |Rewriting(Remaining(s, upTo), cap).shards|
               && Listed(s.head.shards, Rewriting(Remaining(s, upTo), cap).shards[i].name);
      var at := CollisionLoses(s, Remaining(s, upTo), cap, i);
      var ops := EvictOps(s, upTo, cap);
      assert ops[..at] == work[..at];
      var t := After(s, work[..at]);
      if ops[at].Append? {
        StartedAppendShowsNothing(t, ops[at].name);
        assert Content(t.files, ops[at].name).rows + Prefix(ops[at].rows, 0) == Content(t.files, ops[at].name).rows;
      }
      assert Log(Crashed(s, ops, at, Before)) == Log(t);
      assert !Survives(s, upTo, cap, at, Before);
    }
  }

  lemma {:induction false} SameContentDecodes(files: map<Name, File>, name: Name, shards: seq<Shard>, from: nat, to: nat)
    ensures Decoded(files[name := File(Content(files, name).rows, 0)], shards, from, to) == Decoded(files, shards, from, to)
    decreases |shards|
  {
    if shards != [] {
      SameContentDecodes(files, name, Front(shards), from, to);
    }
  }

  /** An append that has only created or opened its file changes nothing for a reader. */
  lemma StartedAppendShowsNothing(t: Store, name: Name)
    ensures Log(Put(t, name, File(Content(t.files, name).rows, 0))) == Log(t)
  {
    SameContentDecodes(t.files, name, t.head.shards, 1, t.head.lastId);
  }

  /** Keeping only the last shard, while it fits in one file named after its rows, rewrites
      that very file in place. */
  lemma KeepingTheLastShardCollides(s: Store, cap: nat)
    requires WellFormed(s) && |s.head.shards| >= 2
    requires var last := Last(s.head.shards); last.count <= cap && last.name.to == last.to
    ensures Collides(s, End(Front(s.head.shards)), cap)
  {
    var last, upTo := Last(s.head.shards), End(Front(s.head.shards));
    LastRowsRemain(s);
    ListedTail(s);
    hide WellFormed, Remaining, Listed;
    assert Rewriting(Remaining(s, upTo), cap).shards[0].name == last.name;
  }

  lemma LastRowsRemain(s: Store)
    requires WellFormed(s) && |s.head.shards| >= 2
    ensures var last, rows := Last(s.head.shards), Remaining(s, End(Front(s.head.shards)));
            |rows| == last.count > 0 && rows[0].id == last.from == last.name.from && Last(rows).id == last.to
  {
    hide Ascending, Width, Log, Solid;
    var last, upTo := Last(s.head.shards), End(Front(s.head.shards));
    var rows, before := s.files[last.name].rows[..last.count], Flat(s.files, Front(s.head.shards));
    LogIsPublished(s);
    SolidIsOrdered(s.files, Front(s.head.shards));
    AscendingBounds(rows);
    RangeOfSecond(before, rows, upTo, s.head.lastId);
  }

  lemma RangeOfSecond(before: seq<Row>, rows: seq<Row>, upTo: nat, lastId: nat)
    requires Ascending(before) && (before != [] ==> Last(before).id <= upTo) && Inside(rows, upTo + 1, lastId)
    ensures Between(before + rows, upTo + 1, lastId) == rows
  {
    if before != [] {
      AscendingBounds(before);
    }
    BetweenConcat(before, rows, upTo + 1, lastId);
    BetweenNone(before, upTo + 1, lastId);
    BetweenAll(rows, upTo + 1, lastId);
    NeutralEmpty(rows);
  }

  // ---- the rewrite as it runs ----

  lemma {:induction false} LeftoversOneMore(previous: seq<Shard>, shards: seq<Shard>, i: nat)
    requires i < |previous|
    ensures Leftovers(previous[..i + 1], shards)
         == Leftovers(previous[..i], shards) + if Listed(shards, previous[i].name) then [] else [previous[i].name]
  {
    assert Front(previous[..i + 1]) == previous[..i];
  }

  /** writeMessageRowsFile: a batch in a file made anew, and its index entry. */
  method WriteFile(disk: Disk, batch: seq<Row>) returns (info: Shard)
    requires disk.Valid() && batch != []
    modifies disk
    ensures disk.Valid() && disk.head == old(disk.head)
    ensures info == ChunkEntry(batch, |batch|)
    ensures disk.trace == old(disk.trace) + [Op.Remove(info.name), Op.Append(info.name, batch)]
  {
    hide After, Width;
    var name := Name(batch[0].id, batch[|batch| - 1].id);
    disk.Remove(name);
    assert [] + batch == batch == batch[..|batch|];
    var size := disk.Append(name, batch);
    info := Shard(name, batch[0].id, batch[|batch| - 1].id, |batch|, size);
  }

  lemma RewritingStep(rows: seq<Row>, start: nat, cap: nat) returns (end: nat)
    requires 0 < cap && start < |rows|
    ensures end == (if start + cap > |rows| then |rows| else start + cap) && start < end <= |rows|
    ensures var batch := rows[start..end];
            var info, rest := ChunkEntry(batch, |batch|), Rewriting(rows[end..], cap);
            Rewriting(rows[start..], cap)
            == Rewrite([Remove(info.name), Append(info.name, batch)] + rest.ops, [info] + rest.shards)
  {
    end := if start + cap > |rows| then |rows| else start + cap;
    var left, batch := rows[start..], rows[start..end];
    var n := Least(cap, |left|);
    assert left[..n] == batch == batch[..|batch|] && left[n..] == rows[end..];
  }

  /** The rewrite loop: one file per batch. */
  method RewriteRows(disk: Disk, rows: seq<Row>, cap: nat) returns (shards: seq<Shard>)
    requires disk.Valid() && 0 < cap
    modifies disk
    ensures disk.Valid() && disk.head == old(disk.head)
    ensures disk.trace == old(disk.trace) + Rewriting(rows, cap).ops && shards == Rewriting(rows, cap).shards
  {
    hide After, Rewriting, ChunkEntry;
    var start := 0;
    shards := [];
    ghost var done: seq<Op> := [];
    assert rows[0..] == rows;
    NeutralEmpty(Rewriting(rows, cap).ops);
    NeutralEmpty(Rewriting(rows, cap).shards);
    while start < |rows|
      invariant start <= |rows| && disk.Valid() && disk.head == old(disk.head)
      invariant disk.trace == old(disk.trace) + done
      invariant Rewriting(rows, cap).ops == done + Rewriting(rows[start..], cap).ops
      invariant Rewriting(rows, cap).shards == shards + Rewriting(rows[start..], cap).shards
    {
      ghost var stop := RewritingStep(rows, start, cap);
      var end := if start + cap > |rows| then |rows| else start + cap;
      var info := WriteFile(disk, rows[start..end]);
      ghost var first := [Op.Remove(info.name), Op.Append(info.name, rows[start..end])];
      ghost var rest := Rewriting(rows[end..], cap);
      Associative(done, first, rest.ops);
      Associative(shards, [info], rest.shards);
      Associative(old(disk.trace), done, first);
      shards := shards + [info];
      done := done + first;
      start := end;
    }
    assert rows[start..] == [];
    NeutralEmpty(done);
    NeutralEmpty(shards);
    RewritingNothing(cap);
  }

  lemma RewritingNothing(cap: nat)
    requires 0 < cap
    ensures Rewriting([], cap) == Rewrite([], [])
  {
  }

  /** Deletes the old shards, except those whose names were taken over. */
  method RemoveOld(disk: Disk, shards: seq<Shard>, kept: seq<Shard>)
    requires disk.Valid()
    modifies disk
    ensures disk.Valid() && disk.head == old(disk.head)
    ensures disk.trace == old(disk.trace) + Removals(Leftovers(shards, kept))
  {
    hide After, Leftovers;
    var i := 0;
    ghost var removed: seq<Name> := [];
    NoLeftovers(kept);
    assert shards[..0] == [] && Removals([]) == [];
    while i < |shards|
      invariant i <= |shards| && disk.Valid() && disk.head == old(disk.head)
      invariant removed == Leftovers(shards[..i], kept)
      invariant disk.trace == old(disk.trace) + Removals(removed)
    {
      LeftoversOneMore(shards, kept, i);
      if !Listed(kept, shards[i].name) {
        disk.Remove(shards[i].name);
        assert Removals(removed + [shards[i].name]) == Removals(removed) + [Op.Remove(shards[i].name)];
        removed := removed + [shards[i].name];
      }
      i := i + 1;
    }
    assert shards[..i] == shards;
  }

  /** The retention head; the count is an unsigned 64-bit number. */
  datatype Settings = Settings(manual: bool, mark: nat, deleted: nat)

  datatype Outcome = Done(settings: Settings) | NeedsConfirmation | NotAPrefix

  const WIDTH64 := 0x1_0000_0000_0000_0000

  /** The row after the mark is missing although later ones are there. */
  predicate Gapped(s: Store, upTo: nat) {
    Remaining(s, upTo) != [] && Remaining(s, upTo)[0].id > Clamped(s, upTo) + 1
  }

  /** lRUDelete on the message channel. */
  method Evict(disk: Disk, settings: Settings, upTo: nat, confirmed: bool, cap: nat) returns (outcome: Outcome)
    requires disk.Valid() && WellFormed(disk.Contents()) && 0 < cap
    modifies disk
    ensures disk.Valid()
    ensures outcome.NeedsConfirmation? <==> settings.manual && !confirmed
    ensures outcome.NotAPrefix? <==>
              (confirmed || !settings.manual) && settings.mark < upTo && Gapped(old(disk.Contents()), upTo)
    ensures !outcome.Done? || upTo <= settings.mark ==>
              disk.trace == old(disk.trace) && disk.Contents() == old(disk.Contents())
    ensures outcome.Done? && upTo <= settings.mark ==> outcome.settings == settings
    ensures outcome.Done? && settings.mark < upTo ==>
              var mark := Least(upTo, old(disk.head.lastId));
              && outcome.settings == Settings(settings.manual, mark, (settings.deleted + mark - settings.mark) % WIDTH64)
              && disk.trace == old(disk.trace) + EvictOps(old(disk.Contents()), upTo, cap)
              && OnlyAbove(Log(disk.Contents()), Log(old(disk.Contents())), upTo)
              && WellFormed(disk.Contents()) && disk.head.lastId == old(disk.head.lastId)
  {
    hide After, Leftovers, Between, Decoded, Rewriting, WellFormed, OnlyAbove;
    if settings.manual && !confirmed {
      return NeedsConfirmation;
    }
    if settings.mark >= upTo {
      return Done(settings);
    }
    ghost var s := disk.Contents();
    var head := disk.head;
    var mark := if upTo > head.lastId then head.lastId else upTo;
    var remaining := Between(Decoded(disk.files, head.shards, 1, head.lastId), mark + 1, head.lastId);
    assert remaining == Remaining(s, upTo);
    RemainingInside(s, upTo);
    if remaining != [] && remaining[0].id > mark + 1 && remaining[0].id <= head.lastId {
      return NotAPrefix;
    }
    var shards := RewriteRows(disk, remaining, cap);
    disk.Publish(head.(shards := shards, total := |remaining|));
    RemoveOld(disk, head.shards, shards);
    AfterConcat(disk.start, old(disk.trace), EvictOps(s, upTo, cap));
    EvictionKeepsTheRest(s, upTo, cap);
    outcome := Done(settings.(mark := mark, deleted := (settings.deleted + mark - settings.mark) % WIDTH64));
  }

  lemma RemainingInside(s: Store, upTo: nat)
    requires WellFormed(s)
    ensures Remaining(s, upTo) != [] ==> Remaining(s, upTo)[0].id <= s.head.lastId
  {
    hide WellFormed, Log, Between;
    ReaderSeesOneLog(s, 0, 0);
    BetweenOrdered(Log(s), Clamped(s, upTo) + 1, s.head.lastId);
  }

  /** The eviction is refused for its range exactly when the row after the mark is not in the
      log but a later one is. */
  lemma RefusedExactly(s: Store, upTo: nat)
    requires WellFormed(s)
    ensures Gapped(s, upTo)
       <==> (exists i :: 0 <= i < |Log(s)| && Log(s)[i].id > Clamped(s, upTo))
            && forall i :: 0 <= i < |Log(s)| ==> Log(s)[i].id != Clamped(s, upTo) + 1
  {
    hide WellFormed, Log, Between, Ascending;
    var rows, mark := Remaining(s, upTo), Clamped(s, upTo);
    ReaderSeesOneLog(s, 0, 0);
    LogIsInside(s);
    BetweenOrdered(Log(s), mark + 1, s.head.lastId);
    forall row ensures row in rows <==> row in Log(s) && row.id > mark {
      BetweenMembers(Log(s), mark + 1, s.head.lastId, row);
    }
    if rows != [] {
      assert rows[0] in rows && rows[0] in Log(s);
      AscendingBounds(rows);
    }
    if i :| 0 <= i < |Log(s)| && Log(s)[i].id > mark {
      assert Log(s)[i] in rows;
    }
    if i :| 0 <= i < |Log(s)| && Log(s)[i].id == mark + 1 {
      assert Log(s)[i] in rows;
    }
  }

  lemma {:induction false} BetweenMembers(rows: seq<Row>, from: nat, to: nat, row: Row)
    ensures row in Between(rows, from, to) <==> row in rows && from <= row.id <= to
    decreases |rows|
  {
    if rows != [] {
      BetweenMembers(Front(rows), from, to, row);
      FrontAndLast(rows);
    }
  }

  lemma NoLeftovers(shards: seq<Shard>)
    ensures Leftovers([], shards) == []
  {
  }
}
