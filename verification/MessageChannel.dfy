/** The message channel as the store runs it: number the rows, reap, write shard after shard,
    publish; and the draft entry points beside it (store/message_rows.go, store/pending_tail.go). */
module MessageChannel {
  import opened ShardStore
  import opened MessageLog
  import opened DraftTail
  import opened DraftWrite
  import opened DraftRewrite
  import opened StoreDisk

  /** How the shards a write touched enter the index: the first may continue the last one. */
  function Merged(shards: seq<Shard>, written: seq<Shard>): seq<Shard> {
    if shards != [] && written != [] && Last(shards).name == written[0].name then Front(shards) + written
    else shards + written
  }

  /** What the writer can start from: `v` describes everything on disk, a newest file without
      a row included, and the rows go on from there. */
  ghost predicate Startable(files: map<Name, File>, v: Head, rest: seq<Row>, cap: nat) {
    0 < cap && Indexed(files, v) && Consecutive(rest, v.lastId + 1)
  }

  /** The newest file is as the index says, and a new one is new. */
  lemma StartableFile(files: map<Name, File>, v: Head, rest: seq<Row>, cap: nat)
    requires rest != [] && Startable(files, v, rest, cap)
    ensures v.shards != [] ==> |Content(files, Last(v.shards).name).rows| == Last(v.shards).count
    ensures var e := Extend(v, rest, cap);
            && (!Reuses(v, cap) ==> e.name !in files && (v.shards != [] ==> e.name != Last(v.shards).name))
            && BatchEntry(files, e.name, rest[..e.taken]) == Last(e.head.shards)
  {
    hide Ascending, Width, Solid, Clean, BatchEntry;
    if Spare(v.shards) {
      SpareEntry(files, v, rest, cap);
    } else {
      if !Reuses(v, cap) {
        FreshName(Settled(files, v), Extend(v, rest, cap).name);
        assert Smooth(files).Keys == files.Keys;
      }
      if v.shards != [] {
        assert Describes(Last(v.shards), Content(files, Last(v.shards).name).rows) by { IndexedLast(files, v); }
      }
      EntryIsLast(files, v, rest, cap);
    }
  }

  lemma IndexedLast(files: map<Name, File>, v: Head)
    requires Indexed(files, v) && !Spare(v.shards) && v.shards != []
    ensures Last(v.shards).name in files && Describes(Last(v.shards), Content(files, Last(v.shards).name).rows)
  {
    hide Ascending, Width;
    SolidLast(Smooth(files), v.shards);
  }

  lemma SpareEntry(files: map<Name, File>, v: Head, rest: seq<Row>, cap: nat)
    requires 0 < cap && rest != [] && Indexed(files, v) && Spare(v.shards) && Consecutive(rest, v.lastId + 1)
    ensures |Content(files, Last(v.shards).name).rows| == Last(v.shards).count && Reuses(v, cap)
    ensures var e := Extend(v, rest, cap); BatchEntry(files, e.name, rest[..e.taken]) == Last(e.head.shards)
  {
    hide Clean, Width;
    NeutralEmpty(rest[..Extend(v, rest, cap).taken]);
  }

  lemma MergedNothing(shards: seq<Shard>)
    ensures Merged(shards, []) == shards
  {
    assert shards + [] == shards;
  }

  lemma StartableStep(files: map<Name, File>, v: Head, rest: seq<Row>, cap: nat) returns (e: Extension)
    requires rest != [] && Startable(files, v, rest, cap)
    ensures 0 < cap && e == Extend(v, rest, cap) && 0 < e.taken <= |rest|
    ensures Writing(v, rest, cap)
         == Plan([Op.Append(e.name, rest[..e.taken])] + Writing(e.head, rest[e.taken..], cap).ops,
                 Writing(e.head, rest[e.taken..], cap).head)
    ensures Startable(Do(Store(files, v), Op.Append(e.name, rest[..e.taken])).files, e.head, rest[e.taken..], cap)
  {
    hide Indexed, Writing, Flat;
    e := Extend(v, rest, cap);
    WritingUnfolds(Store(files, v), rest, cap);
    IndexedRound(files, v, rest, cap);
    RestGoesOn(rest, v.lastId + 1, e.taken);
  }

  /** The entry of a batch, merged into the index, makes the head of that round. */
  lemma MergedGrows(shards: seq<Shard>, written: seq<Shard>, h: Head, rest: seq<Row>, cap: nat)
    requires 0 < cap && rest != [] && Merged(shards, written) == h.shards
    requires written != [] ==> !Reuses(h, cap)
    requires written == [] && !Reuses(h, cap) && shards != [] ==> Extend(h, rest, cap).name != Last(shards).name
    ensures var e := Extend(h, rest, cap); Merged(shards, written + [Last(e.head.shards)]) == e.head.shards
    ensures var e := Extend(h, rest, cap); e.taken < |rest| ==> !Reuses(e.head, cap)
  {
    var e := Extend(h, rest, cap);
    if written != [] {
      assert (written + [Last(e.head.shards)])[0] == written[0];
    } else {
      assert shards + [] == shards;
    }
  }

  /** The entry made from the rows in the file is the one the index would be extended with. */
  lemma EntryIsLast(files: map<Name, File>, h: Head, rest: seq<Row>, cap: nat)
    requires 0 < cap && rest != []
    requires if Reuses(h, cap) then Describes(Last(h.shards), Content(files, Last(h.shards).name).rows)
             else Extend(h, rest, cap).name !in files
    ensures var e := Extend(h, rest, cap); BatchEntry(files, e.name, rest[..e.taken]) == Last(e.head.shards)
  {
    hide Ascending, Width, Total;
    var e := Extend(h, rest, cap);
    var existing, batch := Content(files, e.name).rows, rest[..e.taken];
    WidthOfConcat(existing, batch);
    EmptyWidth();
    assert batch[0] == rest[0] && Last(batch) == rest[e.taken - 1];
    assert existing == [] ==> existing + batch == batch;
  }

  lemma TurnIsExtension(w: Writer, h: Head, cap: nat)
    requires 0 < cap && w.rest != [] && Count(w, cap) < cap
    requires w.path.Some? ==> Reuses(h, cap) && w.path.value == Last(h.shards).name && Count(w, cap) == Last(h.shards).count
    requires w.path.None? ==> !Reuses(h, cap) && Extend(h, w.rest, cap).name !in w.files
    requires var e := Extend(h, w.rest, cap); BatchEntry(w.files, e.name, w.rest[..e.taken]) == Last(e.head.shards)
    ensures var e := Extend(h, w.rest, cap); var t := Turn(w, cap);
            && t.path == Some(e.name) && t.rest == w.rest[e.taken..]
            && t.written == w.written + [Last(e.head.shards)]
            && t.ops == w.ops + [Op.Append(e.name, w.rest[..e.taken])]
            && t.files == Do(Store(w.files, h), Op.Append(e.name, w.rest[..e.taken])).files
  {
    hide BatchEntry;
    var e := Extend(h, w.rest, cap);
    assert Target(w, cap) == e.name && e.taken == Least(|w.rest|, cap - Count(w, cap));
  }

  lemma TurnsUnfold(w: Writer, cap: nat, k: nat)
    requires 0 < cap
    ensures Turns(w, cap, 0) == w && Turns(w, cap, k + 1) == Turn(Turns(w, cap, k), cap)
  {
  }

  lemma StartableReuse(files: map<Name, File>, h: Head, rest: seq<Row>, cap: nat)
    requires Startable(files, h, rest, cap)
    ensures h.shards == [] ==> !Reuses(h, cap)
  {
  }

  /** What the loop maintains while the head `h` describes everything on disk. */
  ghost predicate OnCourse(shards: seq<Shard>, h: Head, w: Writer, cap: nat) {
    && 0 < cap && Startable(w.files, h, w.rest, cap) && Merged(shards, w.written) == h.shards
    && (w.written == [] ==> h.shards == shards)
    && (w.path.Some? ==> h.shards != [] && w.path.value == Last(h.shards).name)
    && (w.path.None? ==> !Reuses(h, cap))
    && (w.written != [] && w.rest != [] ==> !Reuses(h, cap))
  }

  lemma OneTurnOnCourse(shards: seq<Shard>, h: Head, w: Writer, cap: nat) returns (next: Head)
    requires OnCourse(shards, h, w, cap) && w.rest != []
    ensures 0 < cap && OnCourse(shards, next, Turn(w, cap), cap)
    ensures |Turn(w, cap).rest| < |w.rest| || (Turn(w, cap).rest == w.rest && w.path.Some? && Turn(w, cap).path.None?)
    ensures Turn(w, cap).ops + Writing(next, Turn(w, cap).rest, cap).ops == w.ops + Writing(h, w.rest, cap).ops
    ensures Writing(next, Turn(w, cap).rest, cap).head == Writing(h, w.rest, cap).head
  {
    hide Writing, Merged, Startable, Do, BatchEntry;
    StartableFile(w.files, h, w.rest, cap);
    StartableReuse(w.files, h, w.rest, cap);
    var e := StartableStep(w.files, h, w.rest, cap);
    MergedGrows(shards, w.written, h, w.rest, cap);
    if w.path.Some? && Count(w, cap) >= cap {
      next := h;
    } else {
      next := e.head;
      TurnIsExtension(w, h, cap);
      var first := Op.Append(e.name, w.rest[..e.taken]);
      assert (w.ops + [first]) + Writing(next, w.rest[e.taken..], cap).ops
          == w.ops + ([first] + Writing(next, w.rest[e.taken..], cap).ops);
    }
  }

  /** From a described disk the loop ends, having made exactly the specified write. */
  lemma {:induction false} CourseEnds(start: Writer, k: nat, shards: seq<Shard>, h: Head, cap: nat)
    requires 0 < cap && OnCourse(shards, h, Turns(start, cap, k), cap)
    ensures var w := Turns(start, cap, k);
            && Ends(start, cap)
            && Finished(start, cap).ops == w.ops + Writing(h, w.rest, cap).ops
            && Merged(shards, Finished(start, cap).written) == Writing(h, w.rest, cap).head.shards
    decreases |Turns(start, cap, k).rest|, if Turns(start, cap, k).path.Some? then 1 else 0
  {
    hide Writing, Merged, Startable, Turn, Finished;
    var w := Turns(start, cap, k);
    if w.rest == [] {
      WritingNothing(h, cap);
      FinishedIs(start, cap, k);
      assert w.ops + [] == w.ops;
    } else {
      var next := OneTurnOnCourse(shards, h, w, cap);
      assert Turns(start, cap, k + 1) == Turn(w, cap);
      CourseEnds(start, k + 1, shards, next, cap);
    }
  }

  lemma WriterWrites(files: map<Name, File>, v: Head, delta: seq<Row>, cap: nat)
    requires 0 < cap && Startable(files, v, delta, cap)
    ensures var w := Begun(files, LastName(v.shards), delta);
            && Ends(w, cap) && Finished(w, cap).ops == Writing(v, delta, cap).ops
            && Merged(v.shards, Finished(w, cap).written) == Writing(v, delta, cap).head.shards
  {
    hide Writing, Startable, Finished;
    var w := Begun(files, LastName(v.shards), delta);
    MergedNothing(v.shards);
    StartableReuse(files, v, delta, cap);
    assert Turns(w, cap, 0) == w;
    CourseEnds(w, 0, v.shards, v, cap);
    assert [] + Writing(v, delta, cap).ops == Writing(v, delta, cap).ops;
  }

  class Channel {
    const disk: Disk
    const cap: nat

    constructor (disk: Disk, cap: nat)
      ensures this.disk == disk && this.cap == cap
    {
      this.disk, this.cap := disk, cap;
    }

    /** AssignRowSeqs: one pass over the rows. */
    method AssignRows(rows: seq<Row>, base: nat, commit: string) returns (r: Result<seq<Row>>)
      ensures r == Assigned(rows, base, commit)
    {
      var next, delta, i := base, [], 0;
      ghost var all := Assigned(rows, base, commit);
      assert rows[0..] == rows && (all.Ok? ==> delta + all.value == all.value);
      while i < |rows|
        invariant i <= |rows| && base <= next
        invariant all == match Numbered(rows[i..], base, next + 1, commit) case Err => Err case Ok(rest) => Ok(delta + rest)
      {
        var row := rows[i];
        assert rows[i..][1..] == rows[i + 1..];
        i := i + 1;
        if row.id == 0 {
          return Err;
        }
        if row.id <= base {
          continue;
        }
        if row.id != next + 1 {
          return Err;
        }
        next := row.id;
        row := row.(commit := commit);
        ghost var rest := Numbered(rows[i..], base, next + 1, commit);
        if rest.Ok? {
          assert delta + ([row] + rest.value) == (delta + [row]) + rest.value;
        }
        delta := delta + [row];
      }
      assert rows[i..] == [] && delta + [] == delta;
      r := Ok(delta);
    }

    /** The shard file whose name starts latest, or none. */
    method PhysicalLast(ghost newest: Option<Name>) returns (last: Option<Name>)
      requires IsNewest(disk.files, newest)
      ensures last == newest
    {
      last := None;
      var names := disk.files.Keys;
      while names != {}
        invariant names <= disk.files.Keys
        invariant last.Some? ==> last.value in disk.files
        invariant newest.Some? && newest.value !in names ==> last == newest
        decreases |names|
      {
        var name :| name in names;
        names := names - {name};
        if last.None? || last.value.from < name.from {
          last := Some(name);
        }
      }
    }

    /** As many rows as fit into this file, and its index entry. */
    method WriteBatch(name: Name, rest: seq<Row>) returns (info: Shard, taken: nat)
      requires disk.Valid() && rest != [] && |Content(disk.files, name).rows| < cap
      modifies disk
      ensures disk.Valid() && disk.head == old(disk.head)
      ensures 0 < taken == Least(|rest|, cap - old(|Content(disk.files, name).rows|))
      ensures info == BatchEntry(old(disk.files), name, rest[..taken])
      ensures disk.trace == old(disk.trace) + [Op.Append(name, rest[..taken])]
      ensures disk.files == old(disk.files)[name := File(old(Content(disk.files, name)).rows + rest[..taken], 0)]
    {
      hide After, Width;
      var existing := Content(disk.files, name).rows;
      var batch := rest;
      if |batch| > cap - |existing| {
        batch := batch[..cap - |existing|];
      }
      taken := |batch|;
      assert batch == rest[..taken];
      var from := if existing == [] then batch[0].id else existing[0].id;
      var size := disk.Append(name, batch);
      info := Shard(name, from, Last(batch).id, |existing| + taken, size);
    }

    /** writeShardRowsLocked: append to the physically last shard, then to new ones, and report
        the index entries of the files written. */
    method WriteShardRows(ghost newest: Option<Name>, delta: seq<Row>) returns (written: seq<Shard>)
      requires disk.Valid() && 0 < cap && IsNewest(disk.files, newest)
      requires Ends(Begun(disk.files, newest, delta), cap)
      modifies disk
      ensures disk.Valid() && disk.head == old(disk.head)
      ensures var w := Finished(Begun(old(disk.files), newest, delta), cap);
              disk.trace == old(disk.trace) + w.ops && disk.files == w.files && written == w.written
    {
      hide After, Finished, BatchEntry, Turns, IsNewest;
      ghost var start := Begun(disk.files, newest, delta);
      ghost var n: nat :| Turns(start, cap, n).rest == [];
      FinishedIs(start, cap, n);
      var path := PhysicalLast(newest);
      var rest := delta;
      written := [];
      ghost var done: seq<Op>, k: nat := [], 0;
      TurnsUnfold(start, cap, 0);
      while rest != []
        invariant disk.Valid() && disk.head == old(disk.head)
        invariant k <= n && Writer(disk.files, path, rest, written, done) == Turns(start, cap, k)
        invariant disk.trace == old(disk.trace) + done
        decreases n - k
      {
        TurnsUnfold(start, cap, k);
        k := k + 1;
        var name := Name(0, 0);
        if path.Some? {
          name := path.value;
        } else {
          var planned := Least(cap, |rest|);
          name := Name(rest[0].id, rest[planned - 1].id);
        }
        if |Content(disk.files, name).rows| >= cap {
          path := None;
          continue;
        }
        var info, taken := WriteBatch(name, rest);
        done := done + [Op.Append(name, rest[..taken])];
        written := written + [info];
        path := Some(name);
        rest := rest[taken..];
      }
      DoneStays(start, cap, k, n);
    }

    /** Whether the last listed file can be taken as it is. */
    method TailTrust(head: Head) returns (trusted: bool)
      requires head == disk.head
      ensures trusted == Trusted(disk.Contents())
    {
      trusted := false;
      if head.shards != [] {
        var last := Last(head.shards);
        var f := Content(disk.files, last.name);
        trusted := last.to == head.lastId && 0 < last.bytes && Size(f) == last.bytes && f.torn == 0;
      }
    }

    /** messageCommitSyncLocked, for a session that already exists. */
    method Commit(commit: string, rows: seq<Row>) returns (r: Result<Head>, ghost order: seq<Name>)
      requires disk.Valid() && WellFormed(disk.Contents()) && 0 < cap
      modifies disk
      ensures disk.Valid() && Lists(order, old(disk.Contents()))
      ensures disk.trace == old(disk.trace) + CommitOps(old(disk.Contents()), order, rows, commit, cap)
      ensures r.Ok? <==> Assigned(rows, old(disk.head).lastId, commit).Ok?
      ensures r.Ok? ==> r.value == disk.head
    {
      hide Clean, WellFormed, TailExact, Lists, Reaping, Writing, Log, After, Startable, Assigned, Trusted;
      ghost var before := disk.Contents();
      var head := disk.head;
      var trusted := TailTrust(head);
      assert trusted ==> TailExact(before) by {
        if trusted {
          TrustedIsExact(before);
        }
      }
      order := disk.Reap(trusted);
      var delta := AssignRows(rows, head.lastId, commit);
      if delta.Err? {
        return Err, order;
      }
      if delta.value == [] {
        return Ok(head), order;
      }
      CleanIsStartable(disk.files, head, rows, commit, cap);
      WriterWrites(disk.files, head, delta.value, cap);
      var written := WriteShardRows(LastName(head.shards), delta.value);
      WritingHead(head, delta.value, cap);
      head := head.(shards := Merged(head.shards, written), lastId := Last(delta.value).id,
                    total := head.total + |delta.value|, lastCommit := commit);
      disk.Publish(head);
      r := Ok(head);
    }

    /** discardPendingTail, once a draft has been found: the same reap as a commit's. */
    method Discard() returns (ghost order: seq<Name>)
      requires disk.Valid() && WellFormed(disk.Contents())
      modifies disk
      ensures disk.Valid() && Lists(order, old(disk.Contents()))
      ensures disk.trace == old(disk.trace) + Reaping(old(disk.Contents()), order, Trusted(old(disk.Contents())))
      ensures Clean(disk.Contents()) && disk.head == old(disk.head) && Log(disk.Contents()) == Log(old(disk.Contents()))
    {
      hide Clean, WellFormed, TailExact, Lists, Reaping, Log, After, Trusted;
      ghost var before := disk.Contents();
      var trusted := TailTrust(disk.head);
      assert trusted ==> TailExact(before) by {
        if trusted {
          TrustedIsExact(before);
        }
      }
      order := disk.Reap(trusted);
    }

    /** appendDraftRowsLocked: `cached` is the end of the draft kept in memory, if any. It
        demands only that one file is the newest and that the writer's loop ends. */
    method AppendDraft(ghost newest: Option<Name>, cached: Option<nat>, commit: string, rows: seq<Row>)
      returns (r: Result<seq<Row>>, tail: Option<nat>)
      requires disk.Valid() && 0 < cap && IsNewest(disk.files, newest)
      requires DraftEnds(disk.Contents(), newest, cached, commit, rows, cap)
      modifies disk
      ensures disk.Valid() && disk.head == old(disk.head)
      ensures r == Assigned(rows, DraftBase(old(disk.Contents()), newest, cached), commit)
      ensures r.Ok? && r.value != [] ==>
                var w := Finished(Begun(old(disk.files), newest, r.value), cap);
                disk.trace == old(disk.trace) + w.ops && disk.files == w.files
      ensures r.Err? || r.value == [] ==> disk.trace == old(disk.trace) && disk.files == old(disk.files)
      ensures tail == if r.Ok? && r.value != [] then Some(Last(r.value).id) else cached
    {
      hide After, Assigned, DraftBase, IsNewest, Finished, Turns;
      tail := cached;
      var base := DraftStart(newest, cached);
      r := AssignRows(rows, base, commit);
      if r.Err? || r.value == [] {
        return;
      }
      var _ := WriteShardRows(newest, r.value);
      tail := Some(Last(r.value).id);
    }

    /** Where a draft goes on: the cached end, the trusted published end, or the last row of the
        newest file. */
    method DraftStart(ghost newest: Option<Name>, cached: Option<nat>) returns (base: nat)
      requires IsNewest(disk.files, newest)
      ensures base == DraftBase(disk.Contents(), newest, cached)
    {
      hide IsNewest;
      var head := disk.head;
      base := head.lastId;
      if cached.Some? && cached.value >= head.lastId {
        return cached.value;
      }
      var trusted := TailTrust(head);
      if !trusted {
        var last := PhysicalLast(newest);
        if last.Some? {
          var rows := Content(disk.files, last.value).rows;
          if rows != [] && Last(rows).id > head.lastId {
            base := Last(rows).id;
          }
        }
      }
    }

    /** recoverPendingTail: probe every file behind the published sizes, and publish what was
        found if it continues the head. `names` is the sorted directory listing. */
    method RecoverTail(names: seq<Name>, ghost p: seq<Shard>) returns (status: Status)
      requires disk.Valid() && WellFormed(disk.Contents()) && Physical(disk.Contents(), p)
      requires |names| == |p| && forall i :: 0 <= i < |p| ==> names[i] == p[i].name
      modifies disk
      ensures disk.Valid() && disk.Contents() == PublishedTail(old(disk.Contents()), p)
      ensures status == Classify(old(disk.head).lastId, Tail(old(disk.Contents()), p), false)
    {
      hide WellFormed, Physical, After, InLine;
      var head := disk.head;
      ghost var s := disk.Contents();
      var rows := ProbeTail(names, p);
      status := Classify(head.lastId, rows, false);
      assert rows == Tail(s, p) by { ProbeFindsDraft(s, p); }
      if status != Recoverable {
        return;
      }
      var shards, i := [], 0;
      assert p[..0] == [];
      while i < |names|
        invariant i <= |names| && shards == Rebuilt(disk.files, p[..i])
        invariant disk.Contents() == s && disk.Valid()
      {
        assert Front(p[..i + 1]) == p[..i];
        var f := Content(disk.files, names[i]);
        if f.rows != [] {
          shards := shards + [Shard(names[i], f.rows[0].id, Last(f.rows).id, |f.rows|, Size(f))];
        }
        i := i + 1;
      }
      assert p[..i] == p;
      disk.Publish(Head(Last(rows).id, shards, Total(shards), Last(rows).commit));
    }

    method ProbeTail(names: seq<Name>, ghost p: seq<Shard>) returns (rows: seq<Row>)
      requires |names| == |p| && forall i :: 0 <= i < |p| ==> names[i] == p[i].name
      ensures rows == Probed(disk.Contents(), p, |p|)
    {
      var head := disk.head;
      rows := [];
      var i := 0;
      while i < |names|
        invariant i <= |names| && rows == Probed(disk.Contents(), p, i)
      {
        var f := Content(disk.files, names[i]);
        var found: seq<Row> := [];
        if i >= |head.shards| || head.shards[i].bytes == 0 {
          found := f.rows;
        } else if Size(f) > head.shards[i].bytes {
          found := RowsFrom(f.rows, head.shards[i].bytes);
        }
        rows := rows + Beyond(found, head.lastId);
        i := i + 1;
      }
    }
  }

  lemma {:induction false} WritingHead(head: Head, delta: seq<Row>, cap: nat)
    requires 0 < cap && delta != []
    ensures var h := Writing(head, delta, cap).head;
            h == head.(shards := h.shards, lastId := Last(delta).id, total := head.total + |delta|)
    decreases |delta|
  {
    var e := Extend(head, delta, cap);
    if e.taken < |delta| {
      WritingHead(e.head, delta[e.taken..], cap);
    } else {
      WritingNothing(e.head, cap);
      assert delta[e.taken..] == [];
    }
  }

  lemma CleanIsStartable(files: map<Name, File>, head: Head, rows: seq<Row>, commit: string, cap: nat)
    requires 0 < cap && Clean(Store(files, head)) && Assigned(rows, head.lastId, commit).Ok?
    ensures Startable(files, head, Assigned(rows, head.lastId, commit).value, cap) && IsNewest(files, LastName(head.shards))
  {
    hide Clean, IsNewest, Physical, Numbered;
    AssignedExactly(rows, head.lastId, commit);
    CleanIsSmooth(Store(files, head));
    CleanIsDrafting(Store(files, head));
    NewestIsLast(Store(files, head), head.shards);
  }

  /** The write of these rows to the draft comes to an end. */
  ghost predicate DraftEnds(s: Store, newest: Option<Name>, cached: Option<nat>, commit: string, rows: seq<Row>, cap: nat)
    requires 0 < cap
  {
    var delta := Assigned(rows, DraftBase(s, newest, cached), commit);
    delta.Ok? ==> Ends(Begun(s.files, newest, delta.value), cap)
  }

  /** Where a draft goes on at the end of the disk the write ends, and is the specified one. */
  lemma DraftWriteEnds(s: Store, p: seq<Shard>, cached: Option<nat>, commit: string, rows: seq<Row>, cap: nat)
    requires 0 < cap && Drafting(s, p) && DraftBase(s, LastName(p), cached) == PhysicalEnd(s, p)
    ensures IsNewest(s.files, LastName(p)) && DraftEnds(s, LastName(p), cached, commit, rows, cap)
    ensures var delta := Assigned(rows, PhysicalEnd(s, p), commit);
            delta.Ok? ==> Finished(Begun(s.files, LastName(p), delta.value), cap).ops
                          == Writing(Virtual(s, p), delta.value, cap).ops
  {
    hide WellFormed, DraftBase, Numbered, Finished, Ends, Writing, IsNewest, Indexed;
    NewestIsLast(s, p);
    var delta := Assigned(rows, PhysicalEnd(s, p), commit);
    if delta.Ok? {
      AssignedExactly(rows, PhysicalEnd(s, p), commit);
      WriterWrites(s.files, Virtual(s, p), delta.value, cap);
    }
  }
}
