/** Append-only sharded rows under an atomically published head: what a reader sees, what
    the disk goes through while rows are written, and why a crash anywhere is harmless
    (store/message_rows.go, store/structural_events.go, store/session/storage.go). */
module ShardStore {
  /** `text` is the rest of the encoded line. */
  datatype Row = Row(id: nat, commit: string, text: string)

  /** A complete line ends with a newline, so it is never empty. */
  function LineLength(row: Row): (n: nat)
    ensures n > 0
  {
    |row.commit| + |row.text| + 1
  }

  datatype Name = Name(from: nat, to: nat)

  /** Complete lines, then `torn` bytes of an unfinished one. */
  datatype File = File(rows: seq<Row>, torn: nat)

  datatype Shard = Shard(name: Name, from: nat, to: nat, count: nat, bytes: nat)

  datatype Head = Head(lastId: nat, shards: seq<Shard>, total: nat, lastCommit: string)

  datatype Store = Store(files: map<Name, File>, head: Head)

  function Last<T>(items: seq<T>): T
    requires items != []
  {
    items[|items| - 1]
  }

  function Front<T>(items: seq<T>): seq<T>
    requires items != []
  {
    items[..|items| - 1]
  }

  lemma Associative<T>(a: seq<T>, b: seq<T>, c: seq<T>)
    ensures a + (b + c) == (a + b) + c
  {
  }

  lemma NeutralEmpty<T>(a: seq<T>)
    ensures a + [] == a && [] + a == a
  {
  }

  function Prefix(rows: seq<Row>, n: nat): seq<Row> {
    if n <= |rows| then rows[..n] else rows
  }

  function Least(a: nat, b: nat): nat {
    if a < b then a else b
  }

  function Width(rows: seq<Row>): nat {
    if rows == [] then 0 else Width(Front(rows)) + LineLength(Last(rows))
  }

  function Size(f: File): nat {
    Width(f.rows) + f.torn
  }

  function Content(files: map<Name, File>, name: Name): File {
    if name in files then files[name] else File([], 0)
  }

  predicate Listed(shards: seq<Shard>, name: Name) {
    exists i :: 0 <= i < |shards| && shards[i].name == name
  }

  // ---- the reader ----

  function Between(rows: seq<Row>, from: nat, to: nat): seq<Row> {
    if rows == [] then []
    else Between(Front(rows), from, to) + if from <= Last(rows).id <= to then [Last(rows)] else []
  }

  /** The rows a reader decodes from the shards the head lists, those outside from..to skipped. */
  function Decoded(files: map<Name, File>, shards: seq<Shard>, from: nat, to: nat): seq<Row> {
    if shards == [] then []
    else
      var before := Decoded(files, Front(shards), from, to);
      var shard := Last(shards);
      if shard.to < from || shard.from > to then before
      else before + Between(Content(files, shard.name).rows, from, to)
  }

  /** readRows over a published head: nothing beyond its last id, whatever the files hold. */
  function Read(s: Store, from: nat, to: nat): seq<Row> {
    var upper := if to == 0 || to > s.head.lastId then s.head.lastId else to;
    Decoded(s.files, s.head.shards, if from == 0 then 1 else from, upper)
  }

  function Log(s: Store): seq<Row> {
    Read(s, 0, 0)
  }

  // ---- what a published store satisfies ----

  predicate Ascending(rows: seq<Row>)
    decreases |rows|
  {
    |rows| <= 1 || (Ascending(Front(rows)) && rows[|rows| - 2].id < rows[|rows| - 1].id)
  }

  predicate Above(rows: seq<Row>, id: nat) {
    forall i :: 0 <= i < |rows| ==> rows[i].id > id
  }

  function End(shards: seq<Shard>): nat {
    if shards == [] then 0 else Last(shards).to
  }

  function Total(shards: seq<Shard>): nat {
    if shards == [] then 0 else Total(Front(shards)) + Last(shards).count
  }

  /** The index entry tells the truth about the rows. */
  predicate Describes(shard: Shard, rows: seq<Row>) {
    && 0 < shard.count == |rows|
    && Ascending(rows)
    && shard.name.from == shard.from == rows[0].id
    && shard.to == Last(rows).id
    && shard.bytes == Width(rows)
  }

  /** Every listed file holds exactly the rows its entry describes, in order. */
  predicate Solid(files: map<Name, File>, shards: seq<Shard>)
    decreases |shards|
  {
    shards == [] ||
    (var shard := Last(shards);
     && Solid(files, Front(shards))
     && End(Front(shards)) < shard.from
     && shard.name in files
     && files[shard.name].torn == 0
     && Describes(shard, files[shard.name].rows))
  }

  /** The last listed file may go on after its published rows, with unpublished ones. */
  predicate TailHolds(f: File, shard: Shard) {
    && shard.count <= |f.rows|
    && Describes(shard, f.rows[..shard.count])
    && Above(f.rows[shard.count..], shard.to)
  }

  /** Without shards any last id will do: an eviction of every row keeps it. */
  predicate HeadHolds(head: Head) {
    (head.shards != [] ==> head.lastId == End(head.shards)) && head.total == Total(head.shards)
  }

  /** The head describes a prefix of what is on disk. Unlisted files may hold anything. */
  predicate WellFormed(s: Store) {
    var shards := s.head.shards;
    HeadHolds(s.head) &&
    (shards != [] ==>
       && Solid(s.files, Front(shards))
       && End(Front(shards)) < Last(shards).from
       && Last(shards).name in s.files
       && TailHolds(s.files[Last(shards).name], Last(shards)))
  }

  /** Nothing unpublished is left on disk. */
  predicate Clean(s: Store) {
    && HeadHolds(s.head)
    && Solid(s.files, s.head.shards)
    && (forall name :: name in s.files ==> Listed(s.head.shards, name))
  }

  function Flat(files: map<Name, File>, shards: seq<Shard>): seq<Row> {
    if shards == [] then [] else Flat(files, Front(shards)) + Content(files, Last(shards).name).rows
  }

  /** The published rows as one sequence. */
  function Published(s: Store): seq<Row> {
    if s.head.shards == [] then []
    else
      var last := Last(s.head.shards);
      Flat(s.files, Front(s.head.shards)) + Prefix(Content(s.files, last.name).rows, last.count)
  }

  // ---- rows ----

  lemma {:induction false} WidthOfConcat(a: seq<Row>, b: seq<Row>)
    ensures Width(a + b) == Width(a) + Width(b)
    decreases |b|
  {
    if b == [] {
      assert a + b == a;
    } else {
      assert Front(a + b) == a + Front(b);
      WidthOfConcat(a, Front(b));
    }
  }

  lemma {:induction false} WidthIsPositive(rows: seq<Row>)
    ensures |rows| <= Width(rows)
    decreases |rows|
  {
    if rows != [] {
      WidthIsPositive(Front(rows));
    }
  }

  lemma AscendingMore(rows: seq<Row>, row: Row)
    ensures Ascending(rows + [row]) <==> Ascending(rows) && (rows != [] ==> Last(rows).id < row.id)
  {
    assert Front(rows + [row]) == rows;
  }

  lemma {:induction false} AscendingConcat(a: seq<Row>, b: seq<Row>)
    requires Ascending(a) && Ascending(b)
    requires a != [] && b != [] ==> Last(a).id < b[0].id
    ensures Ascending(a + b)
    decreases |b|
  {
    hide Ascending;
    if b == [] {
      NeutralEmpty(a);
    } else {
      FrontAndLast(b);
      AscendingMore(Front(b), Last(b));
      AscendingConcat(a, Front(b));
      AscendingMore(a + Front(b), Last(b));
      Associative(a, Front(b), [Last(b)]);
    }
  }

  lemma {:induction false} AscendingParts(rows: seq<Row>, n: nat)
    requires Ascending(rows) && n <= |rows|
    ensures Ascending(rows[..n]) && Ascending(rows[n..])
    ensures 0 < n < |rows| ==> rows[n - 1].id < rows[n].id
    decreases |rows|
  {
    if n < |rows| {
      AscendingParts(Front(rows), n);
      assert Front(rows)[..n] == rows[..n];
      assert n < |rows| - 1 ==> Front(rows[n..]) == Front(rows)[n..];
    } else {
      assert rows[..n] == rows;
    }
  }

  predicate Inside(rows: seq<Row>, from: nat, to: nat) {
    forall i :: 0 <= i < |rows| ==> from <= rows[i].id <= to
  }

  lemma {:induction false} AscendingBounds(rows: seq<Row>)
    requires Ascending(rows) && rows != []
    ensures Inside(rows, rows[0].id, Last(rows).id)
    decreases |rows|
  {
    if |rows| > 1 {
      AscendingBounds(Front(rows));
      assert forall i :: 0 <= i < |rows| - 1 ==> rows[i] == Front(rows)[i];
    }
  }

  lemma InsideParts(rows: seq<Row>, from: nat, to: nat)
    requires Inside(rows, from, to) && rows != []
    ensures Inside(Front(rows), from, to) && from <= Last(rows).id <= to && rows == Front(rows) + [Last(rows)]
  {
  }

  lemma {:induction false} BetweenAll(rows: seq<Row>, from: nat, to: nat)
    requires Inside(rows, from, to)
    ensures Between(rows, from, to) == rows
    decreases |rows|
  {
    hide Inside;
    if rows != [] {
      InsideParts(rows, from, to);
      BetweenAll(Front(rows), from, to);
    }
  }

  lemma {:induction false} BetweenNone(rows: seq<Row>, from: nat, to: nat)
    requires forall i :: 0 <= i < |rows| ==> rows[i].id < from || to < rows[i].id
    ensures Between(rows, from, to) == []
    decreases |rows|
  {
    if rows != [] {
      BetweenNone(Front(rows), from, to);
    }
  }

  lemma {:induction false} BetweenConcat(a: seq<Row>, b: seq<Row>, from: nat, to: nat)
    ensures Between(a + b, from, to) == Between(a, from, to) + Between(b, from, to)
    decreases |b|
  {
    if b == [] {
      NeutralEmpty(a);
      NeutralEmpty(Between(a, from, to));
    } else {
      assert Front(a + b) == a + Front(b) && Last(a + b) == Last(b);
      BetweenConcat(a, Front(b), from, to);
      Associative(Between(a, from, to), Between(Front(b), from, to),
                  if from <= Last(b).id <= to then [Last(b)] else []);
    }
  }

  // ---- one flat log ----

  lemma SkippedShard(shard: Shard, rows: seq<Row>, from: nat, to: nat)
    requires Describes(shard, rows) && (shard.to < from || shard.from > to)
    ensures Between(rows, from, to) == []
  {
    AscendingBounds(rows);
    BetweenNone(rows, from, to);
  }

  lemma {:induction false} SolidDecodes(files: map<Name, File>, shards: seq<Shard>, from: nat, to: nat)
    requires Solid(files, shards)
    ensures Decoded(files, shards, from, to) == Between(Flat(files, shards), from, to)
    decreases |shards|
  {
    if shards != [] {
      var shard := Last(shards);
      SolidDecodes(files, Front(shards), from, to);
      BetweenConcat(Flat(files, Front(shards)), files[shard.name].rows, from, to);
      if shard.to < from || shard.from > to {
        SkippedShard(shard, files[shard.name].rows, from, to);
      }
    }
  }

  lemma {:induction false} SolidIsOrdered(files: map<Name, File>, shards: seq<Shard>)
    requires Solid(files, shards)
    ensures var flat := Flat(files, shards);
            && Ascending(flat) && |flat| == Total(shards)
            && (flat == [] <==> shards == [])
            && (flat != [] ==> Last(flat).id == End(shards) && 0 < flat[0].id)
    decreases |shards|
  {
    if shards != [] {
      SolidIsOrdered(files, Front(shards));
      AscendingConcat(Flat(files, Front(shards)), files[Last(shards).name].rows);
    }
  }

  lemma PublishedIsOrdered(s: Store)
    requires WellFormed(s)
    ensures Ascending(Published(s)) && |Published(s)| == s.head.total
    ensures Published(s) != [] ==> s.head.lastId == Last(Published(s)).id
    ensures Published(s) != [] ==> 0 < Published(s)[0].id
  {
    if s.head.shards != [] {
      var last := Last(s.head.shards);
      SolidIsOrdered(s.files, Front(s.head.shards));
      AscendingConcat(Flat(s.files, Front(s.head.shards)), s.files[last.name].rows[..last.count]);
    }
  }

  /** A reader bounded by the last id sees only the published part of the last file. */
  lemma TailShows(f: File, shard: Shard, from: nat, to: nat)
    requires TailHolds(f, shard) && to <= shard.to
    ensures Between(f.rows, from, to) == Between(f.rows[..shard.count], from, to)
  {
    assert f.rows == f.rows[..shard.count] + f.rows[shard.count..];
    BetweenConcat(f.rows[..shard.count], f.rows[shard.count..], from, to);
    BetweenNone(f.rows[shard.count..], from, to);
  }

  lemma DecodedIsPublished(s: Store, from: nat, to: nat)
    requires WellFormed(s) && to <= s.head.lastId
    ensures Decoded(s.files, s.head.shards, from, to) == Between(Published(s), from, to)
  {
    if s.head.shards != [] {
      var last := Last(s.head.shards);
      var rows := s.files[last.name].rows[..last.count];
      SolidDecodes(s.files, Front(s.head.shards), from, to);
      BetweenConcat(Flat(s.files, Front(s.head.shards)), rows, from, to);
      if last.to < from || last.from > to {
        SkippedShard(last, rows, from, to);
      } else {
        TailShows(s.files[last.name], last, from, to);
      }
    }
  }

  lemma LogIsPublished(s: Store)
    requires WellFormed(s)
    ensures Log(s) == Published(s)
  {
    hide WellFormed, Published, Decoded, Between, Ascending;
    PublishedIsOrdered(s);
    DecodedIsPublished(s, 1, s.head.lastId);
    if Published(s) != [] {
      AscendingBounds(Published(s));
    }
    BetweenAll(Published(s), 1, s.head.lastId);
  }

  /** The reader of a sharded store sees one flat log: every range of it exactly, ids
      strictly increasing, the last one being the head's, as many as the head counts. */
  lemma ReaderSeesOneLog(s: Store, from: nat, to: nat)
    requires WellFormed(s)
    ensures Ascending(Log(s)) && |Log(s)| == s.head.total
    ensures Log(s) != [] ==> s.head.lastId == Last(Log(s)).id
    ensures Read(s, from, to) == Between(Log(s), from, if to == 0 then s.head.lastId else to)
  {
    hide WellFormed, Published, Decoded, Ascending, Log, Read, Between;
    LogIsPublished(s);
    PublishedIsOrdered(s);
    LogIsInside(s);
    ReadIsRange(s, from, to);
  }

  lemma ReadIsRange(s: Store, from: nat, to: nat)
    requires WellFormed(s) && Log(s) == Published(s) && Inside(Log(s), 1, s.head.lastId)
    ensures Read(s, from, to) == Between(Log(s), from, if to == 0 then s.head.lastId else to)
  {
    hide WellFormed, Published, Decoded, Log;
    var lower, upper := if from == 0 then 1 else from, if to == 0 || to > s.head.lastId then s.head.lastId else to;
    DecodedIsPublished(s, lower, upper);
    var rows, top := Log(s), if to == 0 then s.head.lastId else to;
    assert Read(s, from, to) == Between(rows, lower, upper);
    ClampedRange(rows, s.head.lastId, from, lower, upper, top);
  }

  /** Bounds outside what the rows carry can be clamped without changing the selection. */
  lemma {:induction false} ClampedRange(rows: seq<Row>, lastId: nat, from: nat, lower: nat, upper: nat, to: nat)
    requires Inside(rows, 1, lastId)
    requires lower == (if from == 0 then 1 else from) && upper == (if to > lastId then lastId else to)
    ensures Between(rows, lower, upper) == Between(rows, from, to)
    decreases |rows|
  {
    if rows != [] {
      assert 1 <= rows[|rows| - 1].id <= lastId;
      assert Inside(Front(rows), 1, lastId);
      ClampedRange(Front(rows), lastId, from, lower, upper, to);
    }
  }

  lemma LogIsInside(s: Store)
    requires WellFormed(s)
    ensures Inside(Log(s), 1, s.head.lastId)
  {
    hide WellFormed, Published, Decoded, Ascending, Log;
    LogIsPublished(s);
    PublishedIsOrdered(s);
    if Log(s) != [] {
      AscendingBounds(Log(s));
    }
  }

  // ---- what happens on disk ----

  datatype Op =
    | Remove(name: Name)
    | DropTorn(name: Name)
    | KeepRows(name: Name, n: nat)
    | Append(name: Name, rows: seq<Row>)
    | Publish(head: Head)

  function Put(s: Store, name: Name, f: File): Store {
    s.(files := s.files[name := f])
  }

  function Do(s: Store, op: Op): Store {
    match op
    case Remove(name) => s.(files := s.files - {name})
    case DropTorn(name) => Put(s, name, Content(s.files, name).(torn := 0))
    case KeepRows(name, n) => Put(s, name, File(Prefix(Content(s.files, name).rows, n), 0))
    case Append(name, rows) => Put(s, name, File(Content(s.files, name).rows + rows, 0))
    case Publish(head) => s.(head := head)
  }

  function After(s: Store, ops: seq<Op>): Store {
    if ops == [] then s else Do(After(s, Front(ops)), Last(ops))
  }

  /** Where a crash finds an append: not begun, or with some complete lines of it and a torn
      one on disk. */
  datatype Cut = Before | Within(lines: nat, torn: nat)

  /** A crash before operation `at`, or inside it when it is an append. */
  function Crashed(s: Store, ops: seq<Op>, at: nat, cut: Cut): Store
    requires at <= |ops|
  {
    var before := After(s, ops[..at]);
    if at < |ops| && ops[at].Append? && cut.Within? then
      Put(before, ops[at].name, File(Content(before.files, ops[at].name).rows + Prefix(ops[at].rows, cut.lines), cut.torn))
    else before
  }

  predicate IsTail(head: Head, name: Name) {
    head.shards != [] && name == Last(head.shards).name
  }

  /** An operation that cannot disturb what the head describes. */
  predicate Harmless(head: Head, op: Op) {
    match op
    case Remove(name) => !Listed(head.shards, name)
    case DropTorn(name) => IsTail(head, name)
    case KeepRows(name, n) => IsTail(head, name) && Last(head.shards).count <= n
    case Append(name, rows) => (IsTail(head, name) && Above(rows, head.lastId)) || !Listed(head.shards, name)
    case Publish(_) => false
  }

  predicate AllHarmless(head: Head, ops: seq<Op>) {
    forall i :: 0 <= i < |ops| ==> Harmless(head, ops[i])
  }

  /** Every listed shard starts at or before the end, so a file named later is not listed. */
  lemma {:induction false} SolidNames(files: map<Name, File>, shards: seq<Shard>)
    requires Solid(files, shards)
    ensures forall i :: 0 <= i < |shards| ==> shards[i].name in files && shards[i].name.from <= End(shards)
    decreases |shards|
  {
    if shards != [] {
      SolidNames(files, Front(shards));
      AscendingBounds(files[Last(shards).name].rows);
      assert forall i :: 0 <= i < |shards| - 1 ==> shards[i] == Front(shards)[i];
    }
  }

  lemma {:induction false} SolidFrame(files: map<Name, File>, files': map<Name, File>, shards: seq<Shard>)
    requires Solid(files, shards)
    requires forall i :: 0 <= i < |shards| && shards[i].name in files ==>
               shards[i].name in files' && files'[shards[i].name] == files[shards[i].name]
    ensures Solid(files', shards) && Flat(files', shards) == Flat(files, shards)
    decreases |shards|
  {
    if shards != [] {
      assert forall i :: 0 <= i < |shards| - 1 ==> shards[i] == Front(shards)[i];
      SolidFrame(files, files', Front(shards));
    }
  }

  /** The last listed file is not one of the others. */
  lemma FrontDiffers(s: Store)
    requires WellFormed(s) && s.head.shards != []
    ensures var shards := s.head.shards;
            forall i :: 0 <= i < |shards| - 1 ==> shards[i].name in s.files && shards[i].name != Last(shards).name
  {
    SolidNames(s.files, Front(s.head.shards));
    assert forall i :: 0 <= i < |s.head.shards| - 1 ==> s.head.shards[i] == Front(s.head.shards)[i];
  }

  lemma UnlistedIsFree(s: Store, files: map<Name, File>, name: Name)
    requires WellFormed(s) && !Listed(s.head.shards, name) && files - {name} == s.files - {name}
    ensures var t := s.(files := files); WellFormed(t) && Published(t) == Published(s)
  {
    if s.head.shards != [] {
      var shards := s.head.shards;
      forall i | 0 <= i < |shards| && shards[i].name in s.files
        ensures shards[i].name in files && files[shards[i].name] == s.files[shards[i].name]
      {
        assert shards[i].name in s.files - {name};
      }
      assert forall i :: 0 <= i < |shards| - 1 ==> shards[i] == Front(shards)[i];
      SolidFrame(s.files, files, Front(shards));
    }
  }

  lemma TailIsFree(s: Store, f: File)
    requires WellFormed(s) && s.head.shards != [] && TailHolds(f, Last(s.head.shards))
    requires var last := Last(s.head.shards); f.rows[..last.count] == s.files[last.name].rows[..last.count]
    ensures var t := Put(s, Last(s.head.shards).name, f); WellFormed(t) && Published(t) == Published(s)
  {
    FrontDiffers(s);
    var shards := s.head.shards;
    assert forall i :: 0 <= i < |shards| - 1 ==> shards[i] == Front(shards)[i];
    SolidFrame(s.files, Put(s, Last(shards).name, f).files, Front(shards));
  }

  lemma LongerTail(f: File, shard: Shard, rows: seq<Row>, torn: nat)
    requires TailHolds(f, shard) && Above(rows, shard.to)
    ensures TailHolds(File(f.rows + rows, torn), shard) && (f.rows + rows)[..shard.count] == f.rows[..shard.count]
  {
    var tail := f.rows[shard.count..];
    assert (f.rows + rows)[..shard.count] == f.rows[..shard.count];
    assert (f.rows + rows)[shard.count..] == tail + rows;
    forall i | 0 <= i < |tail + rows| ensures (tail + rows)[i].id > shard.to {
      assert i < |tail| ==> tail[i].id > shard.to;
      assert i >= |tail| ==> rows[i - |tail|].id > shard.to;
    }
  }

  lemma ShorterTail(f: File, shard: Shard, n: nat)
    requires TailHolds(f, shard) && shard.count <= n
    ensures TailHolds(File(Prefix(f.rows, n), 0), shard) && Prefix(f.rows, n)[..shard.count] == f.rows[..shard.count]
  {
    var tail := f.rows[shard.count..];
    if n <= |f.rows| {
      assert f.rows[..n][..shard.count] == f.rows[..shard.count];
      assert f.rows[..n][shard.count..] == tail[..n - shard.count];
      assert Above(tail[..n - shard.count], shard.to);
    }
  }

  lemma AppendIsHarmless(s: Store, name: Name, rows: seq<Row>, torn: nat)
    requires WellFormed(s) && Harmless(s.head, Append(name, rows))
    ensures var t := Put(s, name, File(Content(s.files, name).rows + rows, torn));
            WellFormed(t) && Published(t) == Published(s)
  {
    if IsTail(s.head, name) && Above(rows, s.head.lastId) {
      LongerTail(s.files[name], Last(s.head.shards), rows, torn);
      TailIsFree(s, File(s.files[name].rows + rows, torn));
    } else {
      var files := Put(s, name, File(Content(s.files, name).rows + rows, torn)).files;
      assert files - {name} == s.files - {name};
      UnlistedIsFree(s, files, name);
    }
  }

  lemma DoIsHarmless(s: Store, op: Op)
    requires WellFormed(s) && Harmless(s.head, op)
    ensures WellFormed(Do(s, op)) && Published(Do(s, op)) == Published(s)
  {
    match op
    case Remove(name) =>
      assert (s.files - {name}) - {name} == s.files - {name};
      UnlistedIsFree(s, s.files - {name}, name);
    case DropTorn(name) => TailIsFree(s, s.files[name].(torn := 0));
    case KeepRows(name, n) =>
      ShorterTail(s.files[name], Last(s.head.shards), n);
      TailIsFree(s, File(Prefix(s.files[name].rows, n), 0));
    case Append(name, rows) => AppendIsHarmless(s, name, rows, 0);
  }

  lemma {:induction false} AfterIsHarmless(s: Store, ops: seq<Op>)
    requires WellFormed(s) && AllHarmless(s.head, ops)
    ensures var t := After(s, ops); WellFormed(t) && Published(t) == Published(s) && t.head == s.head
    decreases |ops|
  {
    if ops != [] {
      AfterIsHarmless(s, Front(ops));
      DoIsHarmless(After(s, Front(ops)), Last(ops));
    }
  }

  lemma {:induction false} AfterConcat(s: Store, a: seq<Op>, b: seq<Op>)
    ensures After(s, a + b) == After(After(s, a), b)
    decreases |b|
  {
    if b == [] {
      assert a + b == a;
    } else {
      assert Front(a + b) == a + Front(b);
      AfterConcat(s, a, Front(b));
    }
  }

  lemma AbovePrefix(rows: seq<Row>, n: nat, id: nat)
    requires Above(rows, id)
    ensures Above(Prefix(rows, n), id)
  {
  }

  /** Whatever a crash leaves of harmless work followed by a publication, the next reader
      finds a well-formed store holding exactly the old log, or the new one once the head
      has been replaced. */
  lemma CrashIsAtomic(s: Store, work: seq<Op>, head: Head, at: nat, cut: Cut)
    requires WellFormed(s) && AllHarmless(s.head, work) && at <= |work| + 1
    ensures var crashed := Crashed(s, work + [Publish(head)], at, cut);
            && (at <= |work| ==> WellFormed(crashed) && crashed.head == s.head && Log(crashed) == Log(s))
            && (at == |work| + 1 ==> crashed == After(s, work + [Publish(head)]))
  {
    var ops := work + [Publish(head)];
    if at <= |work| {
      assert ops[..at] == work[..at];
      AfterIsHarmless(s, work[..at]);
      var before := After(s, work[..at]);
      if at < |work| && work[at].Append? && cut.Within? {
        assert Harmless(s.head, work[at]);
        if Above(work[at].rows, s.head.lastId) {
          AbovePrefix(work[at].rows, cut.lines, s.head.lastId);
        }
        AppendIsHarmless(before, work[at].name, Prefix(work[at].rows, cut.lines), cut.torn);
      }
      LogIsPublished(s);
      LogIsPublished(Crashed(s, ops, at, cut));
    } else {
      assert ops[..at] == ops;
    }
  }

  // ---- reaping what was never published ----

  function Removals(order: seq<Name>): seq<Op> {
    seq(|order|, i requires 0 <= i < |order| => Remove(order[i]))
  }

  /** `order` lists the unlisted files, in whatever order the directory yields them. */
  ghost predicate Lists(order: seq<Name>, s: Store) {
    forall name :: name in order <==> name in s.files && !Listed(s.head.shards, name)
  }

  /** How many leading rows are published. */
  function Leading(rows: seq<Row>, lastId: nat): (n: nat)
    ensures n <= |rows|
  {
    if rows == [] || rows[0].id > lastId then 0 else 1 + Leading(rows[1..], lastId)
  }

  /** Cutting the last listed file back to the published rows, unless it is trusted as it is. */
  function TailRepair(s: Store, trusted: bool): seq<Op> {
    if s.head.shards == [] || trusted then []
    else
      var name := Last(s.head.shards).name;
      var rows := Content(s.files, name).rows;
      if rows == [] || Last(rows).id <= s.head.lastId then [DropTorn(name)]
      else [DropTorn(name), KeepRows(name, Leading(rows, s.head.lastId))]
  }

  function Reaping(s: Store, order: seq<Name>, trusted: bool): seq<Op> {
    Removals(order) + TailRepair(s, trusted)
  }

  function Without(files: map<Name, File>, order: seq<Name>): map<Name, File> {
    map name | name in files && name !in order :: files[name]
  }

  lemma {:induction false} AfterRemovals(s: Store, order: seq<Name>)
    ensures After(s, Removals(order)) == s.(files := Without(s.files, order))
    decreases |order|
  {
    if order != [] {
      AfterRemovals(s, Front(order));
      assert Front(Removals(order)) == Removals(Front(order));
      assert order == Front(order) + [Last(order)];
    }
  }

  lemma RemovalsAreHarmless(s: Store, order: seq<Name>)
    requires Lists(order, s)
    ensures AllHarmless(s.head, Removals(order))
  {
    forall i | 0 <= i < |order| ensures Harmless(s.head, Removals(order)[i]) {
      assert order[i] in order;
    }
  }

  lemma {:induction false} LeadingUnique(rows: seq<Row>, lastId: nat, count: nat)
    requires count <= |rows| && forall i :: 0 <= i < count ==> rows[i].id <= lastId
    requires count < |rows| ==> rows[count].id > lastId
    ensures Leading(rows, lastId) == count
    decreases count
  {
    if count > 0 {
      LeadingUnique(rows[1..], lastId, count - 1);
    }
  }

  lemma LeadingIsCount(f: File, shard: Shard)
    requires TailHolds(f, shard)
    ensures Leading(f.rows, shard.to) == shard.count
    ensures Last(f.rows).id <= shard.to <==> |f.rows| == shard.count
  {
    var rows, tail := f.rows[..shard.count], f.rows[shard.count..];
    AscendingBounds(rows);
    forall i | 0 <= i < shard.count ensures f.rows[i].id <= shard.to {
      assert f.rows[i] == rows[i];
    }
    if |f.rows| > shard.count {
      assert tail[0] == f.rows[shard.count] && Last(tail) == Last(f.rows);
    }
    LeadingUnique(f.rows, shard.to, shard.count);
  }

  predicate Exact(f: File, shard: Shard) {
    f.torn == 0 && |f.rows| == shard.count
  }

  /** The last listed file ends with its last published row. */
  predicate TailExact(s: Store) {
    s.head.shards != [] ==> Exact(Content(s.files, Last(s.head.shards).name), Last(s.head.shards))
  }

  lemma AfterOne(s: Store, op: Op)
    ensures After(s, [op]) == Do(s, op)
  {
    assert Front([op]) == [];
  }

  lemma TailRepairExact(s: Store, trusted: bool)
    requires WellFormed(s) && (trusted ==> TailExact(s))
    ensures AllHarmless(s.head, TailRepair(s, trusted))
    ensures TailExact(After(s, TailRepair(s, trusted)))
    ensures After(s, TailRepair(s, trusted)).files.Keys == s.files.Keys
  {
    var ops := TailRepair(s, trusted);
    if s.head.shards != [] && !trusted {
      var shard := Last(s.head.shards);
      LeadingIsCount(s.files[shard.name], shard);
      AfterOne(s, ops[0]);
      if |ops| == 2 {
        assert Front(ops) == [ops[0]];
      }
    }
  }

  lemma CleanWhenExact(s: Store)
    requires WellFormed(s) && TailExact(s) && forall name :: name in s.files ==> Listed(s.head.shards, name)
    ensures Clean(s)
  {
    if s.head.shards != [] {
      var last := Last(s.head.shards);
      assert s.files[last.name].rows[..last.count] == s.files[last.name].rows;
    }
  }

  lemma CleanIsWellFormed(s: Store)
    requires Clean(s)
    ensures WellFormed(s) && Published(s) == Flat(s.files, s.head.shards)
  {
    if s.head.shards != [] {
      var last := Last(s.head.shards);
      assert s.files[last.name].rows[..last.count] == s.files[last.name].rows;
    }
  }

  lemma ListedTail(s: Store)
    requires s.head.shards != []
    ensures Listed(s.head.shards, Last(s.head.shards).name)
  {
  }

  /** Reaping removes every trace of unpublished work and nothing else. */
  lemma ReapingCleans(s: Store, order: seq<Name>, trusted: bool)
    requires WellFormed(s) && Lists(order, s) && (trusted ==> TailExact(s))
    ensures AllHarmless(s.head, Reaping(s, order, trusted))
    ensures var t := After(s, Reaping(s, order, trusted)); Clean(t) && t.head == s.head && Log(t) == Log(s)
  {
    var removed := After(s, Removals(order));
    RemovalsAreHarmless(s, order);
    AfterRemovals(s, order);
    AfterIsHarmless(s, Removals(order));
    AfterConcat(s, Removals(order), TailRepair(s, trusted));
    if s.head.shards != [] {
      ListedTail(s);
      assert Content(removed.files, Last(s.head.shards).name) == Content(s.files, Last(s.head.shards).name);
    }
    TailRepairExact(removed, trusted);
    AfterIsHarmless(removed, TailRepair(s, trusted));
    var t := After(s, Reaping(s, order, trusted));
    assert forall name :: name in t.files ==> name in removed.files;
    CleanWhenExact(t);
    LogIsPublished(s);
    LogIsPublished(t);
  }

  // ---- writing rows ----

  datatype Extension = Extension(name: Name, taken: nat, head: Head)

  predicate Reuses(head: Head, cap: nat) {
    head.shards != [] && Last(head.shards).count < cap
  }

  /** One round of the writer: fill the last shard up to the cap, or open the next one, named
      by the first and last row it is planned to hold. */
  function Extend(head: Head, delta: seq<Row>, cap: nat): (e: Extension)
    requires 0 < cap && delta != []
    ensures 0 < e.taken <= |delta| && e.head.shards != [] && e.head.lastCommit == head.lastCommit
  {
    if Reuses(head, cap) then
      var last := Last(head.shards);
      var n := Least(|delta|, cap - last.count);
      var info := last.(to := delta[n - 1].id, count := last.count + n, bytes := last.bytes + Width(delta[..n]));
      Extension(last.name, n, head.(shards := Front(head.shards) + [info], lastId := info.to, total := head.total + n))
    else
      var n := Least(|delta|, cap);
      var name := Name(delta[0].id, delta[n - 1].id);
      var info := Shard(name, delta[0].id, delta[n - 1].id, n, Width(delta[..n]));
      Extension(name, n, head.(shards := head.shards + [info], lastId := info.to, total := head.total + n))
  }

  datatype Plan = Plan(ops: seq<Op>, head: Head)

  function Writing(head: Head, delta: seq<Row>, cap: nat): (plan: Plan)
    requires 0 < cap
    ensures forall i :: 0 <= i < |plan.ops| ==> plan.ops[i].Append?
    decreases |delta|
  {
    if delta == [] then Plan([], head)
    else
      var e := Extend(head, delta, cap);
      var rest := Writing(e.head, delta[e.taken..], cap);
      Plan([Append(e.name, delta[..e.taken])] + rest.ops, rest.head)
  }

  /** Rows above the head, in order, ready to be appended. */
  predicate Follows(delta: seq<Row>, lastId: nat) {
    Ascending(delta) && (delta != [] ==> delta[0].id > lastId)
  }

  lemma FollowsParts(delta: seq<Row>, lastId: nat, n: nat)
    requires Follows(delta, lastId) && 0 < n <= |delta|
    ensures Follows(delta[..n], lastId) && Follows(delta[n..], delta[n - 1].id)
    ensures Above(delta, lastId) && delta[0].id <= delta[n - 1].id
    ensures delta[..n] + delta[n..] == delta
  {
    AscendingParts(delta, n);
    AscendingBounds(delta);
    AscendingBounds(delta[..n]);
    assert delta[..n][0] == delta[0] && Last(delta[..n]) == delta[n - 1];
  }

  /** The store as it would be if the round's head were published over the files. */
  function Staged(s: Store, delta: seq<Row>, cap: nat): Store
    requires 0 < cap && delta != []
  {
    var e := Extend(s.head, delta, cap);
    Store(Do(s, Append(e.name, delta[..e.taken])).files, e.head)
  }

  lemma ListedSuffix(shards: seq<Shard>, info: Shard)
    ensures forall name :: Listed(shards + [info], name) <==> Listed(shards, name) || name == info.name
  {
    assert (shards + [info])[|shards|] == info;
    forall name | Listed(shards, name) ensures Listed(shards + [info], name) {
      var i :| 0 <= i < |shards| && shards[i].name == name;
      assert (shards + [info])[i].name == name;
    }
  }

  /** A solid run of shards followed by one more, above it and in a file of its own. */
  lemma SolidSuffix(files: map<Name, File>, shards: seq<Shard>, info: Shard, f: File)
    requires Solid(files, shards) && End(shards) < info.from
    requires f.torn == 0 && Describes(info, f.rows)
    ensures var t := files[info.name := f];
            Solid(t, shards + [info]) && Flat(t, shards + [info]) == Flat(files, shards) + f.rows
    ensures Total(shards + [info]) == Total(shards) + info.count
  {
    var t := files[info.name := f];
    SolidNames(files, shards);
    SolidFrame(files, t, shards);
    assert Front(shards + [info]) == shards;
  }

  lemma FreshName(s: Store, name: Name)
    requires Clean(s) && name.from > s.head.lastId
    ensures name !in s.files && !Listed(s.head.shards, name)
  {
    SolidNames(s.files, s.head.shards);
  }

  lemma DescribesNew(delta: seq<Row>, n: nat)
    requires Ascending(delta) && 0 < n <= |delta|
    ensures Describes(Shard(Name(delta[0].id, delta[n - 1].id), delta[0].id, delta[n - 1].id, n, Width(delta[..n])), delta[..n])
  {
    AscendingParts(delta, n);
  }

  lemma DescribesMore(shard: Shard, rows: seq<Row>, more: seq<Row>)
    requires Describes(shard, rows) && Follows(more, shard.to) && more != []
    ensures Describes(shard.(to := Last(more).id, count := shard.count + |more|, bytes := shard.bytes + Width(more)), rows + more)
  {
    AscendingConcat(rows, more);
    WidthOfConcat(rows, more);
  }

  lemma OpenedIsClean(s: Store, delta: seq<Row>, cap: nat)
    requires Clean(s) && 0 < cap && delta != [] && Follows(delta, s.head.lastId) && !Reuses(s.head, cap)
    ensures var t := Staged(s, delta, cap);
            Clean(t) && Flat(t.files, t.head.shards)
                        == Flat(s.files, s.head.shards) + delta[..Extend(s.head, delta, cap).taken]
  {
    hide Ascending, Width, Describes;
    var e := Extend(s.head, delta, cap);
    var info := Last(e.head.shards);
    var f := File(delta[..e.taken], 0);
    assert Describes(info, f.rows) by { DescribesNew(delta, e.taken); }
    assert Staged(s, delta, cap).files == s.files[e.name := f] by {
      FreshName(s, e.name);
      assert [] + delta[..e.taken] == delta[..e.taken];
    }
    SolidSuffix(s.files, s.head.shards, info, f);
    ListedSuffix(s.head.shards, info);
  }

  lemma SolidLast(files: map<Name, File>, shards: seq<Shard>)
    requires Solid(files, shards) && shards != []
    ensures var last, f := Last(shards), Content(files, Last(shards).name);
            && last.name in files && Solid(files, Front(shards)) && End(Front(shards)) < last.from
            && f.torn == 0 && Describes(last, f.rows)
            && Flat(files, shards) == Flat(files, Front(shards)) + f.rows
            && Total(shards) == Total(Front(shards)) + last.count
            && shards == Front(shards) + [last]
  {
    hide Describes, Ascending, Width, End;
    FrontAndLast(shards);
  }

  lemma FrontAndLast<T>(items: seq<T>)
    requires items != []
    ensures items == Front(items) + [Last(items)]
  {
  }

  lemma FilledIsClean(s: Store, delta: seq<Row>, cap: nat)
    requires Clean(s) && 0 < cap && delta != [] && Follows(delta, s.head.lastId) && Reuses(s.head, cap)
    ensures var t := Staged(s, delta, cap);
            Clean(t) && Flat(t.files, t.head.shards)
                        == Flat(s.files, s.head.shards) + delta[..Extend(s.head, delta, cap).taken]
  {
    hide Ascending, Width, Describes, Solid, Flat, Total, Listed;
    var e := Extend(s.head, delta, cap);
    var shards, last, info := Front(s.head.shards), Last(s.head.shards), Last(e.head.shards);
    var rows, more := Content(s.files, last.name).rows, delta[..e.taken];
    SolidLast(s.files, s.head.shards);
    FollowsParts(delta, s.head.lastId, e.taken);
    DescribesMore(last, rows, more);
    SolidSuffix(s.files, shards, info, File(rows + more, 0));
    ListedSuffix(shards, info);
    ListedSuffix(shards, last);
    assert e.head.shards == shards + [info];
    Associative(Flat(s.files, shards), rows, more);
  }

  /** One round of the writer turns a clean store into a clean store with the rows it took. */
  lemma ExtendIsExact(s: Store, delta: seq<Row>, cap: nat)
    requires Clean(s) && 0 < cap && delta != [] && Follows(delta, s.head.lastId)
    ensures var e := Extend(s.head, delta, cap);
            var t := Staged(s, delta, cap);
            Clean(t) && Log(t) == Log(s) + delta[..e.taken] && t.head.lastId == delta[e.taken - 1].id
  {
    hide Clean, WellFormed, Log, Flat, Published, Follows;
    if Reuses(s.head, cap) {
      FilledIsClean(s, delta, cap);
    } else {
      OpenedIsClean(s, delta, cap);
    }
    CleanIsWellFormed(s);
    CleanIsWellFormed(Staged(s, delta, cap));
    LogIsPublished(s);
    LogIsPublished(Staged(s, delta, cap));
  }

  lemma {:induction false} AfterIgnoresHead(s: Store, head: Head, ops: seq<Op>)
    requires forall i :: 0 <= i < |ops| ==> ops[i].Append?
    ensures After(s, ops) == s.(files := After(s.(head := head), ops).files)
    decreases |ops|
  {
    if ops != [] {
      AfterIgnoresHead(s, head, Front(ops));
    }
  }

  /** The file an append goes to: the last shard the head lists, or one above every listed id. */
  predicate Fits(head: Head, op: Op) {
    && op.Append?
    && (op.name.from > head.lastId || IsTail(head, op.name))
    && Above(op.rows, head.lastId)
  }

  predicate AllFit(head: Head, ops: seq<Op>) {
    forall i :: 0 <= i < |ops| ==> Fits(head, ops[i])
  }

  lemma FitIsHarmless(s: Store, ops: seq<Op>)
    requires Clean(s) && AllFit(s.head, ops)
    ensures AllHarmless(s.head, ops)
  {
    forall i | 0 <= i < |ops| ensures Harmless(s.head, ops[i]) {
      assert Fits(s.head, ops[i]);
      if ops[i].name.from > s.head.lastId {
        FreshName(s, ops[i].name);
      }
    }
  }

  lemma AboveMore(rows: seq<Row>, id: nat, lower: nat)
    requires Above(rows, id) && lower <= id
    ensures Above(rows, lower)
  {
  }

  lemma RestFits(head: Head, delta: seq<Row>, cap: nat, rest: seq<Op>)
    requires 0 < cap && delta != [] && Follows(delta, head.lastId)
    requires AllFit(Extend(head, delta, cap).head, rest)
    ensures var e := Extend(head, delta, cap); AllFit(head, [Append(e.name, delta[..e.taken])] + rest)
  {
    var e := Extend(head, delta, cap);
    FollowsParts(delta, head.lastId, e.taken);
    assert Fits(head, Append(e.name, delta[..e.taken]));
    forall i | 0 <= i < |rest| ensures Fits(head, rest[i]) {
      assert Fits(e.head, rest[i]);
      AboveMore(rest[i].rows, e.head.lastId, head.lastId);
    }
  }

  /** After the first round the rest is written as if that round had been published. */
  lemma WritingUnfolds(s: Store, delta: seq<Row>, cap: nat)
    requires 0 < cap && delta != []
    ensures var e := Extend(s.head, delta, cap);
            var rest := Writing(e.head, delta[e.taken..], cap);
            && Writing(s.head, delta, cap) == Plan([Append(e.name, delta[..e.taken])] + rest.ops, rest.head)
            && After(s, Writing(s.head, delta, cap).ops).files == After(Staged(s, delta, cap), rest.ops).files
  {
    var e := Extend(s.head, delta, cap);
    var first := Append(e.name, delta[..e.taken]);
    var rest := Writing(e.head, delta[e.taken..], cap);
    AfterOne(s, first);
    AfterConcat(s, [first], rest.ops);
    AfterIgnoresHead(Do(s, first), e.head, rest.ops);
  }

  /** Writing all of `delta` is exact: what the induction below carries. */
  predicate WritesExactly(s: Store, delta: seq<Row>, cap: nat)
    requires 0 < cap
  {
    var plan := Writing(s.head, delta, cap);
    var t := Store(After(s, plan.ops).files, plan.head);
    && Clean(t) && Log(t) == Log(s) + delta
    && t.head.lastId == (if delta == [] then s.head.lastId else Last(delta).id)
    && t.head.lastCommit == s.head.lastCommit
  }

  lemma OneMoreRound(s: Store, delta: seq<Row>, cap: nat)
    requires 0 < cap && delta != []
    requires var n := Extend(s.head, delta, cap).taken;
             && Log(Staged(s, delta, cap)) == Log(s) + delta[..n]
             && Staged(s, delta, cap).head.lastId == delta[n - 1].id
             && WritesExactly(Staged(s, delta, cap), delta[n..], cap)
    ensures WritesExactly(s, delta, cap)
  {
    hide Clean, Log, Writing, Extend;
    var n := Extend(s.head, delta, cap).taken;
    var before, after := Log(s), Log(Staged(s, delta, cap));
    var plan := Writing(s.head, delta, cap);
    var rest := Writing(Staged(s, delta, cap).head, delta[n..], cap);
    var t := Store(After(s, plan.ops).files, plan.head);
    assert t == Store(After(Staged(s, delta, cap), rest.ops).files, rest.head) by {
      WritingUnfolds(s, delta, cap);
    }
    assert Log(t) == after + delta[n..];
    assert (before + delta[..n]) + delta[n..] == before + delta;
  }

  /** The whole write: a clean store grows by exactly the rows, through any number of
      rollovers, and none of its appends disturbs what was published before. */
  lemma {:induction false} WritingIsExact(s: Store, delta: seq<Row>, cap: nat)
    requires Clean(s) && 0 < cap && Follows(delta, s.head.lastId)
    ensures AllFit(s.head, Writing(s.head, delta, cap).ops) && WritesExactly(s, delta, cap)
    decreases |delta|
  {
    if delta == [] {
      assert Log(s) + delta == Log(s);
    } else {
      var e := Extend(s.head, delta, cap);
      FollowsParts(delta, s.head.lastId, e.taken);
      ExtendIsExact(s, delta, cap);
      WritingIsExact(Staged(s, delta, cap), delta[e.taken..], cap);
      RestFits(s.head, delta, cap, Writing(e.head, delta[e.taken..], cap).ops);
      OneMoreRound(s, delta, cap);
    }
  }

  // ---- how the rows are spread over the shards ----

  /** Every shard but the last is full, and each is named by the rows it holds. */
  predicate FullShards(shards: seq<Shard>, cap: nat) {
    forall i :: 0 <= i < |shards| ==>
      && shards[i].name == Name(shards[i].from, shards[i].to)
      && shards[i].count <= cap && (i < |shards| - 1 ==> shards[i].count == cap)
  }

  lemma {:induction false} NewShardsAreFull(head: Head, delta: seq<Row>, cap: nat)
    requires 0 < cap && !Reuses(head, cap)
    ensures var after := Writing(head, delta, cap).head.shards;
            |head.shards| <= |after| && after[..|head.shards|] == head.shards && FullShards(after[|head.shards|..], cap)
    ensures delta == [] <==> Writing(head, delta, cap).head.shards == head.shards
    decreases |delta|
  {
    hide Width;
    if delta != [] {
      var e := Extend(head, delta, cap);
      var rest := delta[e.taken..];
      var shards, after := head.shards, Writing(head, delta, cap).head.shards;
      assert e.head.shards == shards + [Last(e.head.shards)];
      if rest != [] {
        NewShardsAreFull(e.head, rest, cap);
      }
      assert after == Writing(e.head, rest, cap).head.shards;
      var more := after[|shards| + 1..];
      assert after[..|shards|] == after[..|shards| + 1][..|shards|] == shards;
      assert after[|shards|..] == [Last(e.head.shards)] + more;
    }
  }

  /** Rollover: the last shard is filled up to the cap before another is opened, every one
      opened is filled before the next, and each of those is named by the rows it holds. The
      shards before are not touched. */
  lemma WritingFillsShards(head: Head, delta: seq<Row>, cap: nat)
    requires 0 < cap
    ensures var before, after := head.shards, Writing(head, delta, cap).head.shards;
            && |before| <= |after| && FullShards(after[|before|..], cap)
            && (before == [] || Last(before).count >= cap || delta == [] ==> after[..|before|] == before)
            && (before != [] && Last(before).count < cap && delta != [] ==>
                  var filled := after[|before| - 1];
                  && after[..|before| - 1] == Front(before)
                  && filled.name == Last(before).name && filled.from == Last(before).from
                  && filled.count == Least(cap, Last(before).count + |delta|)
                  && (|after| == |before| <==> Last(before).count + |delta| <= cap))
  {
    hide Width, FullShards;
    var before, after := head.shards, Writing(head, delta, cap).head.shards;
    if delta == [] {
      assert after[|before|..] == [] && FullShards([], cap) by { NoShardsAreFull(cap); }
    } else if Reuses(head, cap) {
      var e := Extend(head, delta, cap);
      var rest, last := delta[e.taken..], Last(e.head.shards);
      assert e.head.shards == Front(before) + [last];
      assert after == Writing(e.head, rest, cap).head.shards;
      if rest == [] {
        assert after == e.head.shards;
        assert after[|before|..] == [] && FullShards([], cap) by { NoShardsAreFull(cap); }
      } else {
        NewShardsAreFull(e.head, rest, cap);
        assert after[|before| - 1] == after[..|before|][|before| - 1] == last;
      }
      assert after[..|before|] == e.head.shards;
      assert after[..|before| - 1] == after[..|before|][..|before| - 1] == Front(before);
    } else {
      NewShardsAreFull(head, delta, cap);
    }
  }

  lemma NoShardsAreFull(cap: nat)
    ensures FullShards([], cap)
  {
  }

  // ---- the writer's loop ----

  /** The file the next batch goes to has the size the index says. */
  predicate Fitting(files: map<Name, File>, head: Head, rest: seq<Row>, cap: nat)
    requires 0 < cap && rest != []
  {
    Width(Content(files, Extend(head, rest, cap).name).rows) == if Reuses(head, cap) then Last(head.shards).bytes else 0
  }

  /** The files are as the head says and the rows go on from there. */
  predicate Writable(files: map<Name, File>, head: Head, rest: seq<Row>, cap: nat) {
    0 < cap && Clean(Store(files, head)) && Follows(rest, head.lastId)
  }

  lemma WritableFits(files: map<Name, File>, head: Head, rest: seq<Row>, cap: nat)
    requires rest != [] && Writable(files, head, rest, cap)
    ensures Fitting(files, head, rest, cap)
  {
    if !Reuses(head, cap) {
      FreshName(Store(files, head), Extend(head, rest, cap).name);
    }
  }

  lemma WritingNothing(head: Head, cap: nat)
    requires 0 < cap
    ensures Writing(head, [], cap) == Plan([], head)
  {
  }

  /** One round of the loop: what it writes, and that the next round can start. */
  lemma Round(files: map<Name, File>, head: Head, rest: seq<Row>, cap: nat) returns (e: Extension)
    requires rest != [] && Writable(files, head, rest, cap)
    ensures 0 < cap && e == Extend(head, rest, cap) && 0 < e.taken <= |rest| && Fitting(files, head, rest, cap)
    ensures Writing(head, rest, cap)
         == Plan([Append(e.name, rest[..e.taken])] + Writing(e.head, rest[e.taken..], cap).ops,
                 Writing(e.head, rest[e.taken..], cap).head)
    ensures Writable(Do(Store(files, head), Append(e.name, rest[..e.taken])).files, e.head, rest[e.taken..], cap)
  {
    hide Clean, Log, Ascending, Width;
    e := Extend(head, rest, cap);
    WritableFits(files, head, rest, cap);
    WritingUnfolds(Store(files, head), rest, cap);
    ExtendIsExact(Store(files, head), rest, cap);
    FollowsParts(rest, head.lastId, e.taken);
  }

  // ---- a commit ----

  /** Reap, append, and only then replace the head. */
  function Committing(s: Store, order: seq<Name>, trusted: bool, delta: seq<Row>, commit: string, cap: nat): seq<Op>
    requires 0 < cap
  {
    var plan := Writing(s.head, delta, cap);
    Reaping(s, order, trusted) + plan.ops + [Publish(plan.head.(lastCommit := commit))]
  }

  lemma CommitIsExact(s: Store, order: seq<Name>, trusted: bool, delta: seq<Row>, commit: string, cap: nat)
    requires WellFormed(s) && Lists(order, s) && (trusted ==> TailExact(s)) && 0 < cap && Follows(delta, s.head.lastId)
    ensures AllHarmless(s.head, Reaping(s, order, trusted) + Writing(s.head, delta, cap).ops)
    ensures var t := After(s, Committing(s, order, trusted, delta, commit, cap));
            && Clean(t) && Log(t) == Log(s) + delta && t.head.lastCommit == commit
            && t.head.lastId == (if delta == [] then s.head.lastId else Last(delta).id)
  {
    hide WellFormed, Clean, Lists, TailExact, Follows, Reaping, Log, AllFit;
    var reap, plan := Reaping(s, order, trusted), Writing(s.head, delta, cap);
    var reaped := After(s, reap);
    ReapingCleans(s, order, trusted);
    WritingIsExact(reaped, delta, cap);
    FitIsHarmless(reaped, plan.ops);
    var written, head := Store(After(reaped, plan.ops).files, plan.head), plan.head.(lastCommit := commit);
    PublishedAfter(s, reap, plan.ops, head);
    CommitIdIsFree(written, commit);
  }

  lemma PublishedAfter(s: Store, reap: seq<Op>, ops: seq<Op>, head: Head)
    ensures After(s, reap + ops + [Publish(head)]) == Store(After(After(s, reap), ops).files, head)
  {
    AfterConcat(s, reap, ops);
    assert Front(reap + ops + [Publish(head)]) == reap + ops;
  }

  lemma CommitIdIsFree(s: Store, commit: string)
    requires Clean(s)
    ensures var t := s.(head := s.head.(lastCommit := commit)); Clean(t) && Log(t) == Log(s)
  {
  }

  /** A commit that crashes at any point leaves the old log or the new one, never a mixture,
      and a store every later commit can start from. */
  lemma CommitCrashIsAtomic(s: Store, order: seq<Name>, trusted: bool, delta: seq<Row>, commit: string, cap: nat,
                            at: nat, cut: Cut)
    requires WellFormed(s) && Lists(order, s) && (trusted ==> TailExact(s)) && 0 < cap && Follows(delta, s.head.lastId)
    requires at <= |Committing(s, order, trusted, delta, commit, cap)|
    ensures var ops := Committing(s, order, trusted, delta, commit, cap);
            var crashed := Crashed(s, ops, at, cut);
            && WellFormed(crashed)
            && (at < |ops| ==> Log(crashed) == Log(s) && crashed.head == s.head)
            && (at == |ops| ==> Log(crashed) == Log(s) + delta && crashed == After(s, ops))
  {
    var plan := Writing(s.head, delta, cap);
    CommitIsExact(s, order, trusted, delta, commit, cap);
    CrashIsAtomic(s, Reaping(s, order, trusted) + plan.ops, plan.head.(lastCommit := commit), at, cut);
    CleanIsWellFormed(After(s, Committing(s, order, trusted, delta, commit, cap)));
  }
}
