/** The draft tail of the message channel: rows on disk beyond the published head. They are
    invisible to readers, can be found again from the index alone, and are published or
    discarded only on request (store/pending_tail.go, store/session/session.go). */
module DraftTail {
  import opened ShardStore
  import opened MessageLog

  // ---- what is physically there ----

  /** What can be decoded from the files: their torn bytes dropped. */
  function Smooth(files: map<Name, File>): map<Name, File> {
    map name | name in files :: File(files[name].rows, 0)
  }

  /** The newest file holds no complete line: a crash came between making it and its first. */
  predicate Spare(p: seq<Shard>) {
    p != [] && Last(p).count == 0
  }

  /** The entries of the files with rows. */
  function Filled(p: seq<Shard>): seq<Shard> {
    if Spare(p) then Front(p) else p
  }

  /** The entry of a file made for the rows behind `end`. */
  function Unwritten(name: Name, end: nat): Shard {
    Shard(name, end + 1, end, 0, 0)
  }

  /** The store a writer that knows `h` works on. */
  function Settled(files: map<Name, File>, h: Head): Store {
    if Spare(h.shards) then Store(Smooth(files) - {Last(h.shards).name}, h.(shards := Front(h.shards)))
    else Store(Smooth(files), h)
  }

  predicate SpareHolds(files: map<Name, File>, spare: Shard) {
    spare.name in files && files[spare.name].rows == []
    && spare == Unwritten(spare.name, spare.to) && spare.name.from == spare.from
  }

  /** `h` describes every file on disk, up to torn bytes; the newest may hold no row. */
  predicate Indexed(files: map<Name, File>, h: Head) {
    Clean(Settled(files, h)) && (Spare(h.shards) ==> SpareHolds(files, Last(h.shards)) && Last(h.shards).to == h.lastId)
  }

  /** The last number on disk, or the head's when there is no file. */
  function PhysicalEnd(s: Store, p: seq<Shard>): nat {
    if p == [] then s.head.lastId else End(p)
  }

  /** The head that publishing everything on disk would make. */
  function Virtual(s: Store, p: seq<Shard>): Head {
    Head(PhysicalEnd(s, p), p, Total(p), s.head.lastCommit)
  }

  /** `p` indexes every file on disk, rows beyond the head included, and goes on where the
      published index stops. Any file may be torn, and the newest may be without a row. */
  predicate Physical(s: Store, p: seq<Shard>) {
    && Indexed(s.files, Virtual(s, p))
    && Continues(s.head.shards, Filled(p))
    && (Filled(p) == [] ==> PhysicalEnd(s, p) == s.head.lastId)
    && StartsBehind(s, p)
  }

  /** Without a published row the first one on disk is behind the head all the same. */
  predicate StartsBehind(s: Store, p: seq<Shard>) {
    s.head.shards == [] && Flat(s.files, p) != [] ==> s.head.lastId < Flat(s.files, p)[0].id
  }

  /** The same files, the last of them possibly longer, and then more. */
  predicate Continues(shards: seq<Shard>, p: seq<Shard>) {
    var n := |shards|;
    && n <= |p|
    && (forall i :: 0 <= i < n - 1 ==> p[i] == shards[i])
    && (n > 0 ==> p[n - 1].name == shards[n - 1].name && shards[n - 1].count <= p[n - 1].count)
  }

  lemma ContinuesOn(a: seq<Shard>, b: seq<Shard>, c: seq<Shard>)
    requires Continues(a, b) && Continues(b, c)
    ensures Continues(a, c)
  {
  }

  function Tail(s: Store, p: seq<Shard>): seq<Row> {
    var all := Flat(s.files, p);
    if s.head.total <= |all| then all[s.head.total..] else []
  }

  /** A published log followed by a draft that continues it without a gap. */
  predicate Drafting(s: Store, p: seq<Shard>) {
    WellFormed(s) && Physical(s, p) && Consecutive(Tail(s, p), s.head.lastId + 1)
  }

  /** The first row on disk is where the index says it starts. */
  lemma {:induction false} FlatStarts(files: map<Name, File>, q: seq<Shard>)
    requires Solid(Smooth(files), q) && q != []
    ensures Flat(files, q) != [] && Flat(files, q)[0].id == q[0].from
    decreases |q|
  {
    hide Ascending, Width;
    SolidLast(Smooth(files), q);
    if |q| > 1 {
      FlatStarts(files, Front(q));
    }
  }

  lemma {:induction false} FlatSplit(files: map<Name, File>, p: seq<Shard>, n: nat)
    requires n <= |p|
    ensures Flat(files, p) == Flat(files, p[..n]) + Flat(files, p[n..])
    decreases |p|
  {
    if n == |p| {
      assert p[..n] == p;
    } else {
      FlatSplit(files, Front(p), n);
      assert Front(p)[..n] == p[..n] && Front(p[n..]) == Front(p)[n..];
    }
  }

  lemma {:induction false} FlatSmooth(files: map<Name, File>, shards: seq<Shard>)
    ensures Flat(Smooth(files), shards) == Flat(files, shards)
    decreases |shards|
  {
    if shards != [] {
      FlatSmooth(files, Front(shards));
    }
  }

  /** The draft rows behind the published ones in the last listed file. */
  function Overhang(s: Store): seq<Row> {
    if s.head.shards == [] then []
    else
      var last := Last(s.head.shards);
      var rows := Content(s.files, last.name).rows;
      if last.count <= |rows| then rows[last.count..] else []
  }

  lemma ListedPart(s: Store, p: seq<Shard>)
    requires WellFormed(s) && Continues(s.head.shards, p)
    ensures Flat(s.files, p[..|s.head.shards|]) == Published(s) + Overhang(s)
  {
    hide Solid, HeadHolds, Describes, Above;
    var n := |s.head.shards|;
    if n > 0 {
      var last, listed := s.head.shards[n - 1], p[..n];
      var before, rows := Flat(s.files, Front(s.head.shards)), s.files[last.name].rows;
      assert Front(listed) == Front(s.head.shards) && Last(listed).name == last.name;
      assert Flat(s.files, listed) == before + rows;
      assert rows == rows[..last.count] + rows[last.count..];
      Regroup(before + rows, before, rows[..last.count], rows[last.count..]);
    } else {
      assert p[..0] == [];
    }
  }

  /** The files with rows, which is what the lemmas below look at one by one. */
  predicate Held(s: Store, q: seq<Shard>) {
    Solid(Smooth(s.files), q) && Continues(s.head.shards, q) && StartsBehind(s, q)
  }

  lemma IndexedIsSolid(files: map<Name, File>, h: Head)
    requires Indexed(files, h)
    ensures Solid(Smooth(files), Filled(h.shards)) && Flat(files, h.shards) == Flat(files, Filled(h.shards))
    ensures forall i :: 0 <= i < |Filled(h.shards)| ==> Filled(h.shards)[i].name.from <= h.lastId
  {
    hide Solid, Flat;
    var v := Settled(files, h);
    SolidNames(v.files, v.head.shards);
    SolidFrame(v.files, Smooth(files), Filled(h.shards));
    if Spare(h.shards) {
      FlatLast(files, h.shards);
      NeutralEmpty(Flat(files, Front(h.shards)));
    }
  }

  lemma FlatLast(files: map<Name, File>, p: seq<Shard>)
    requires p != []
    ensures Flat(files, p) == Flat(files, Front(p)) + Content(files, Last(p).name).rows
  {
  }

  lemma PhysicalHolds(s: Store, p: seq<Shard>)
    requires Physical(s, p)
    ensures Held(s, Filled(p)) && Flat(s.files, p) == Flat(s.files, Filled(p)) && Tail(s, p) == Tail(s, Filled(p))
  {
    hide Indexed, Solid, Flat, Continues;
    IndexedIsSolid(s.files, Virtual(s, p));
  }

  /** The published rows come first, then the draft: the rest of the last listed file and the
      unlisted ones. */
  lemma HeldIsPublishedThenTail(s: Store, q: seq<Shard>)
    requires WellFormed(s) && Held(s, q)
    ensures Flat(s.files, q) == Published(s) + Tail(s, q)
    ensures Tail(s, q) == Overhang(s) + Flat(s.files, q[|s.head.shards|..])
  {
    hide Solid, HeadHolds, WellFormed, StartsBehind;
    var published, overhang, rest := Published(s), Overhang(s), Flat(s.files, q[|s.head.shards|..]);
    assert |published| == s.head.total by { PublishedIsOrdered(s); }
    assert Flat(s.files, q) == (published + overhang) + rest by {
      ListedPart(s, q);
      FlatSplit(s.files, q, |s.head.shards|);
    }
    Regroup(Flat(s.files, q), published, overhang, rest);
  }

  lemma PublishedThenTail(s: Store, p: seq<Shard>)
    requires WellFormed(s) && Physical(s, p)
    ensures Flat(s.files, p) == Published(s) + Tail(s, p)
  {
    hide Physical, WellFormed, Tail, Published, Held, Flat;
    PhysicalHolds(s, p);
    HeldIsPublishedThenTail(s, Filled(p));
  }

  lemma Regroup(all: seq<Row>, a: seq<Row>, b: seq<Row>, c: seq<Row>)
    requires all == (a + b) + c || all == a + (b + c)
    ensures |a| <= |all| && all[|a|..] == b + c && all == a + (b + c) == (a + b) + c
  {
  }

  // ---- finding the draft again ----

  /** Decoding from a byte offset: rows that start before it are lost. */
  function RowsFrom(rows: seq<Row>, offset: int): seq<Row> {
    if rows == [] || offset <= 0 then rows else RowsFrom(rows[1..], offset - LineLength(rows[0]))
  }

  function Beyond(rows: seq<Row>, id: nat): seq<Row> {
    if rows == [] then [] else (if rows[0].id > id then [rows[0]] else []) + Beyond(rows[1..], id)
  }

  /** What the probe reads of the i-th file: all of an unlisted one; of a listed one only what
      lies beyond the recorded size, or everything when no size was recorded. */
  function ProbeFile(s: Store, p: seq<Shard>, i: nat): seq<Row>
    requires i < |p|
  {
    var f := Content(s.files, p[i].name);
    if i >= |s.head.shards| then f.rows
    else
      var bytes := s.head.shards[i].bytes;
      if bytes == 0 then f.rows else if Size(f) > bytes then RowsFrom(f.rows, bytes) else []
  }

  function Probed(s: Store, p: seq<Shard>, n: nat): seq<Row>
    requires n <= |p|
  {
    if n == 0 then [] else Probed(s, p, n - 1) + Beyond(ProbeFile(s, p, n - 1), s.head.lastId)
  }

  lemma {:induction false} WidthFirst(rows: seq<Row>)
    requires rows != []
    ensures Width(rows) == LineLength(rows[0]) + Width(rows[1..])
  {
    WidthOfConcat([rows[0]], rows[1..]);
    assert Front([rows[0]]) == [];
    assert [rows[0]] + rows[1..] == rows;
  }

  /** From the size of a whole number of lines the probe continues with the next line. */
  lemma {:induction false} RowsFromBoundary(rows: seq<Row>, count: nat)
    requires count <= |rows|
    ensures RowsFrom(rows, Width(rows[..count])) == rows[count..]
    decreases count
  {
    if count > 0 {
      WidthFirst(rows[..count]);
      WidthIsPositive(rows[..count]);
      assert rows[..count][1..] == rows[1..][..count - 1];
      RowsFromBoundary(rows[1..], count - 1);
    } else {
      assert rows[..0] == [];
    }
  }

  lemma {:induction false} BeyondAll(rows: seq<Row>, id: nat)
    requires Above(rows, id)
    ensures Beyond(rows, id) == rows
    decreases |rows|
  {
    if rows != [] {
      BeyondAll(rows[1..], id);
    }
  }

  lemma {:induction false} SolidAt(files: map<Name, File>, p: seq<Shard>, i: nat)
    requires Solid(files, p) && i < |p|
    ensures p[i].name in files && files[p[i].name].torn == 0 && Describes(p[i], files[p[i].name].rows)
    ensures 0 < p[i].from <= p[i].to <= End(p) && (0 < i ==> p[i - 1].to < p[i].from)
    ensures i < |p| - 1 ==> p[i].name != Last(p).name
    decreases |p|
  {
    AscendingBounds(files[Last(p).name].rows);
    SolidNames(files, Front(p));
    if i < |p| - 1 {
      assert p[i] == Front(p)[i];
      SolidAt(files, Front(p), i);
    }
  }

  lemma HeldAt(s: Store, q: seq<Shard>, i: nat)
    requires Held(s, q) && i < |q|
    ensures q[i].name in s.files && Describes(q[i], s.files[q[i].name].rows)
    ensures 0 < q[i].from <= q[i].to <= End(q)
  {
    SolidAt(Smooth(s.files), q, i);
  }

  lemma FrontIsExact(s: Store, q: seq<Shard>, i: nat)
    requires WellFormed(s) && Held(s, q) && i < |s.head.shards| - 1
    ensures q[i] == s.head.shards[i] && q[i].name in s.files && s.files[q[i].name].torn == 0
  {
    hide Describes;
    SolidAt(s.files, Front(s.head.shards), i);
    assert s.head.shards[i] == Front(s.head.shards)[i];
  }

  lemma ProbeListed(s: Store, q: seq<Shard>, i: nat)
    requires WellFormed(s) && Held(s, q) && i < |s.head.shards|
    ensures var f := Content(s.files, q[i].name); var shard := s.head.shards[i];
            shard.count <= |f.rows| && Beyond(ProbeFile(s, q, i), s.head.lastId) == f.rows[shard.count..]
    ensures i < |s.head.shards| - 1 ==> s.head.shards[i].count == |Content(s.files, q[i].name).rows|
  {
    HeldAt(s, q, i);
    if i < |s.head.shards| - 1 {
      FrontIsExact(s, q, i);
    }
    hide Solid, Smooth, Listed, RowsFrom, Beyond, Width, Ascending, StartsBehind;
    var f, shard := s.files[q[i].name], s.head.shards[i];
    if i < |s.head.shards| - 1 {
      ExactIsQuiet(f, shard, s.head.lastId);
    } else {
      TailIsFound(f, shard);
    }
  }

  lemma ExactIsQuiet(f: File, shard: Shard, lastId: nat)
    requires Describes(shard, f.rows) && f.torn == 0
    ensures 0 < shard.bytes == Size(f) && Beyond([], lastId) == [] == f.rows[shard.count..]
  {
    WidthIsPositive(f.rows);
  }

  /** Behind the recorded size of the last listed file lie exactly its draft rows. */
  lemma TailIsFound(f: File, shard: Shard)
    requires TailHolds(f, shard)
    ensures 0 < shard.bytes
    ensures Beyond(if Size(f) > shard.bytes then RowsFrom(f.rows, shard.bytes) else [], shard.to) == f.rows[shard.count..]
  {
    var published, rest := f.rows[..shard.count], f.rows[shard.count..];
    WidthIsPositive(published);
    WidthIsPositive(rest);
    assert f.rows == published + rest;
    WidthOfConcat(published, rest);
    RowsFromBoundary(f.rows, shard.count);
    BeyondAll(rest, shard.to);
  }

  lemma ProbeUnlisted(s: Store, q: seq<Shard>, i: nat)
    requires WellFormed(s) && Held(s, q) && |s.head.shards| <= i < |q|
    ensures Beyond(ProbeFile(s, q, i), s.head.lastId) == Content(s.files, q[i].name).rows
  {
    HeldAt(s, q, i);
    LastIdBelow(s, q, i);
    AscendingBounds(s.files[q[i].name].rows);
    BeyondAll(s.files[q[i].name].rows, s.head.lastId);
  }

  lemma {:induction false} LastIdBelow(s: Store, q: seq<Shard>, i: nat)
    requires WellFormed(s) && Held(s, q) && |s.head.shards| <= i < |q|
    ensures s.head.lastId < q[i].from
    decreases i
  {
    hide Solid, Smooth, Width, Listed, Flat;
    var n := |s.head.shards|;
    SolidAt(Smooth(s.files), q, i);
    if i > n {
      SolidAt(Smooth(s.files), q, i - 1);
      LastIdBelow(s, q, i - 1);
    } else if n > 0 {
      LastIdInside(s, q);
    } else {
      FlatStarts(s.files, q);
    }
  }

  lemma LastIdInside(s: Store, q: seq<Shard>)
    requires WellFormed(s) && Held(s, q) && s.head.shards != []
    ensures s.head.lastId <= q[|s.head.shards| - 1].to
  {
    hide Solid, Width, Flat;
    var n := |s.head.shards|;
    HeldAt(s, q, n - 1);
    var f, last := s.files[q[n - 1].name], s.head.shards[n - 1];
    assert Last(f.rows[..last.count]) == f.rows[last.count - 1];
    AscendingBounds(f.rows);
  }

  /** The draft rows in the first n files. */
  function DraftUpto(s: Store, q: seq<Shard>, n: nat): seq<Row>
    requires n <= |q|
  {
    var k := |s.head.shards|;
    if n < k then [] else Overhang(s) + Flat(s.files, q[k..n])
  }

  lemma ListedName(s: Store, q: seq<Shard>, n: nat)
    requires Held(s, q) && n < |s.head.shards|
    ensures n < |q| && q[n].name == s.head.shards[n].name
  {
  }

  lemma DraftInListed(s: Store, q: seq<Shard>, n: nat)
    requires WellFormed(s) && Held(s, q) && n < |s.head.shards|
    ensures DraftUpto(s, q, n + 1) == DraftUpto(s, q, n) + Beyond(ProbeFile(s, q, n), s.head.lastId)
  {
    hide WellFormed, Held, ProbeFile, Beyond;
    assert q[n].name == s.head.shards[n].name by { ListedName(s, q, n); }
    ProbeListed(s, q, n);
    if n + 1 == |s.head.shards| {
      assert q[n + 1..n + 1] == [];
    }
  }

  lemma FlatStep(files: map<Name, File>, p: seq<Shard>, k: nat, n: nat)
    requires k <= n < |p|
    ensures Flat(files, p[k..n + 1]) == Flat(files, p[k..n]) + Content(files, p[n].name).rows
  {
    assert Front(p[k..n + 1]) == p[k..n] && Last(p[k..n + 1]) == p[n];
  }

  lemma DraftInUnlisted(s: Store, q: seq<Shard>, n: nat)
    requires WellFormed(s) && Held(s, q) && |s.head.shards| <= n < |q|
    ensures DraftUpto(s, q, n + 1) == DraftUpto(s, q, n) + Beyond(ProbeFile(s, q, n), s.head.lastId)
  {
    hide WellFormed, Held, Beyond, ProbeFile, Flat, Overhang;
    ProbeUnlisted(s, q, n);
    FlatStep(s.files, q, |s.head.shards|, n);
    var overhang, flat, rows := Overhang(s), Flat(s.files, q[|s.head.shards|..n]), Content(s.files, q[n].name).rows;
    Associative(overhang, flat, rows);
  }

  lemma {:induction false} ProbedIsDraft(s: Store, q: seq<Shard>, n: nat)
    requires WellFormed(s) && Held(s, q) && n <= |q|
    ensures Probed(s, q, n) == DraftUpto(s, q, n)
    decreases n
  {
    hide WellFormed, Held, ProbeFile, Beyond, Overhang;
    if n > 0 {
      ProbedIsDraft(s, q, n - 1);
      if n - 1 < |s.head.shards| {
        DraftInListed(s, q, n - 1);
      } else {
        DraftInUnlisted(s, q, n - 1);
      }
    } else {
      NothingUptoZero(s, q);
    }
  }

  lemma NothingUptoZero(s: Store, q: seq<Shard>)
    ensures DraftUpto(s, q, 0) == []
  {
    assert q[0..0] == [];
  }

  /** What is probed of the first files depends on those alone. */
  lemma {:induction false} ProbedOfFirst(s: Store, p: seq<Shard>, q: seq<Shard>, n: nat)
    requires n <= |p| && n <= |q| && p[..n] == q[..n]
    ensures Probed(s, p, n) == Probed(s, q, n)
    decreases n
  {
    hide Beyond;
    if n > 0 {
      assert p[n - 1] == p[..n][n - 1] == q[n - 1] && p[..n - 1] == p[..n][..n - 1] == q[..n - 1];
      ProbedOfFirst(s, p, q, n - 1);
    }
  }

  lemma SpareIsQuiet(s: Store, p: seq<Shard>)
    requires Physical(s, p) && Spare(p)
    ensures ProbeFile(s, p, |p| - 1) == [] && Beyond([], s.head.lastId) == []
  {
    hide Clean;
  }

  /** The probe finds exactly the draft, reading published rows of no file. */
  lemma ProbeFindsDraft(s: Store, p: seq<Shard>)
    requires WellFormed(s) && Physical(s, p)
    ensures Probed(s, p, |p|) == Tail(s, p)
  {
    hide Physical, WellFormed, Held, ProbeFile, Flat, Tail, Beyond;
    var q := Filled(p);
    PhysicalHolds(s, p);
    ProbedIsDraft(s, q, |q|);
    HeldIsPublishedThenTail(s, q);
    assert q[|s.head.shards|..|q|] == q[|s.head.shards|..] by { ContinuesIsLonger(s, q); }
    if Spare(p) {
      SpareIsQuiet(s, p);
      assert p[..|q|] == q[..|q|];
      ProbedOfFirst(s, p, q, |q|);
      NeutralEmpty(Probed(s, q, |q|));
    }
  }

  lemma ContinuesIsLonger(s: Store, q: seq<Shard>)
    requires Held(s, q)
    ensures |s.head.shards| <= |q|
  {
  }

  // ---- whether it may be published ----

  datatype Status = CleanTail | Recoverable | GapInTail

  function InLine(rows: seq<Row>, want: nat): bool {
    rows == [] || (rows[0].id == want && InLine(rows[1..], want + 1))
  }

  function Classify(lastId: nat, rows: seq<Row>, duplicate: bool): Status {
    if rows == [] then CleanTail else if duplicate || !InLine(rows, lastId + 1) then GapInTail else Recoverable
  }

  lemma {:induction false} InLineExactly(rows: seq<Row>, want: nat)
    ensures InLine(rows, want) <==> Consecutive(rows, want)
    decreases |rows|
  {
    if rows != [] {
      InLineExactly(rows[1..], want + 1);
      ConsecutiveCons(rows[0], rows[1..], want);
      assert [rows[0]] + rows[1..] == rows;
    }
  }

  /** A draft is recoverable exactly when it is there, unique, and continues the head. */
  lemma ClassifiedExactly(lastId: nat, rows: seq<Row>, duplicate: bool)
    ensures Classify(lastId, rows, duplicate) == Recoverable
       <==> rows != [] && !duplicate && Consecutive(rows, lastId + 1)
    ensures Classify(lastId, rows, duplicate) == CleanTail <==> rows == []
  {
    InLineExactly(rows, lastId + 1);
  }

  // ---- publishing and discarding ----

  function Entry(files: map<Name, File>, name: Name): Shard {
    var f := Content(files, name);
    if f.rows == [] then Shard(name, 0, 0, 0, Size(f))
    else Shard(name, f.rows[0].id, Last(f.rows).id, |f.rows|, Size(f))
  }

  /** The index rebuilt from the files, empty ones left out; sizes are those on disk. */
  function Rebuilt(files: map<Name, File>, p: seq<Shard>): seq<Shard> {
    if p == [] then []
    else Rebuilt(files, Front(p)) + if Content(files, Last(p).name).rows == [] then [] else [Entry(files, Last(p).name)]
  }

  function PublishedTail(s: Store, p: seq<Shard>): Store {
    var rows := Probed(s, p, |p|);
    if Classify(s.head.lastId, rows, false) != Recoverable then s
    else
      var shards := Rebuilt(s.files, p);
      s.(head := Head(Last(rows).id, shards, Total(shards), Last(rows).commit))
  }

  /** None of these files ends in an unfinished line. */
  predicate Untorn(files: map<Name, File>, q: seq<Shard>) {
    forall i :: 0 <= i < |q| ==> Content(files, q[i].name).torn == 0
  }

  /** The rebuilt index is the index, but for sizes, which count torn bytes. */
  lemma {:induction false} RebuiltIsIndex(files: map<Name, File>, q: seq<Shard>)
    requires Solid(Smooth(files), q)
    ensures |Rebuilt(files, q)| == |q| && Total(Rebuilt(files, q)) == Total(q)
    ensures forall i :: 0 <= i < |q| ==>
              Rebuilt(files, q)[i] == q[i].(bytes := q[i].bytes + Content(files, q[i].name).torn)
    decreases |q|
  {
    hide Ascending, Width, Rebuilt, Entry, Total, Solid;
    if q == [] {
      NothingRebuilt(files);
    } else {
      SolidLast(Smooth(files), q);
      RebuiltIsIndex(files, Front(q));
      var before, last := Rebuilt(files, Front(q)), Entry(files, Last(q).name);
      EntryHolds(files, Last(q));
      RebuiltLast(files, q);
      TotalOfMore(before, last);
      forall i | 0 <= i < |q| ensures (before + [last])[i] == q[i].(bytes := q[i].bytes + Content(files, q[i].name).torn) {
        if i < |q| - 1 {
          assert Front(q)[i] == q[i] && (before + [last])[i] == before[i];
        }
      }
    }
  }

  lemma NothingRebuilt(files: map<Name, File>)
    ensures Rebuilt(files, []) == [] && Total([]) == 0
  {
  }

  lemma RebuiltLast(files: map<Name, File>, q: seq<Shard>)
    requires q != [] && Content(files, Last(q).name).rows != []
    ensures Rebuilt(files, q) == Rebuilt(files, Front(q)) + [Entry(files, Last(q).name)]
  {
  }

  lemma TotalOfMore(shards: seq<Shard>, info: Shard)
    ensures Total(shards + [info]) == Total(shards) + info.count
  {
    assert Front(shards + [info]) == shards;
  }

  lemma RebuiltFilled(s: Store, p: seq<Shard>)
    requires Physical(s, p)
    ensures Rebuilt(s.files, p) == Rebuilt(s.files, Filled(p))
  {
    hide Clean;
    if Spare(p) {
      NeutralEmpty(Rebuilt(s.files, Front(p)));
    }
  }

  /** What a reader decodes depends neither on recorded sizes nor on torn bytes. */
  lemma {:induction false} TornIsInvisible(files: map<Name, File>, q: seq<Shard>, from: nat, to: nat)
    requires Solid(Smooth(files), q)
    ensures Decoded(files, Rebuilt(files, q), from, to) == Decoded(Smooth(files), q, from, to)
    decreases |q|
  {
    hide Describes, Between;
    if q != [] {
      SolidLast(Smooth(files), q);
      TornIsInvisible(files, Front(q), from, to);
      var before, last := Rebuilt(files, Front(q)), Entry(files, Last(q).name);
      assert Describes(Last(q), Content(files, Last(q).name).rows);
      EntryHolds(files, Last(q));
      assert Front(before + [last]) == before && Last(before + [last]) == last;
    }
  }

  lemma EntryHolds(files: map<Name, File>, shard: Shard)
    requires Describes(shard, Content(files, shard.name).rows)
    ensures Content(files, shard.name).rows != []
    ensures Entry(files, shard.name) == shard.(bytes := shard.bytes + Content(files, shard.name).torn)
  {
  }

  lemma PublishedHead(s: Store, p: seq<Shard>)
    requires Drafting(s, p) && Tail(s, p) != []
    ensures Filled(p) != [] && Last(Tail(s, p)).id == PhysicalEnd(s, p) == End(Filled(p))
    ensures var t := PublishedTail(s, p);
            t == s.(head := t.head) && t.head.shards == Rebuilt(s.files, Filled(p)) && t.head.lastId == PhysicalEnd(s, p)
            && t.head.total == Total(t.head.shards)
  {
    hide WellFormed, Consecutive, Physical, Tail, Probed, Held, Rebuilt, Solid, Flat;
    ProbeFindsDraft(s, p);
    ClassifiedExactly(s.head.lastId, Tail(s, p), false);
    RebuiltFilled(s, p);
    TailEndsDisk(s, p);
  }

  lemma SettledEnd(s: Store, p: seq<Shard>)
    requires Physical(s, p)
    ensures Solid(Smooth(s.files), Filled(p)) && (Filled(p) != [] ==> End(Filled(p)) == PhysicalEnd(s, p))
    ensures Filled(p) == [] ==> PhysicalEnd(s, p) == s.head.lastId
  {
    hide Solid, Flat, Continues, StartsBehind;
    IndexedIsSolid(s.files, Virtual(s, p));
  }

  /** The draft reaches to the end of the disk. */
  lemma TailEndsDisk(s: Store, p: seq<Shard>)
    requires WellFormed(s) && Physical(s, p) && Tail(s, p) != []
    ensures Filled(p) != [] && Last(Tail(s, p)).id == PhysicalEnd(s, p) == End(Filled(p))
  {
    hide WellFormed, Physical, Solid, Flat, Published, Ascending;
    SettledEnd(s, p);
    PhysicalHolds(s, p);
    PublishedThenTail(s, p);
    FlatSmooth(s.files, Filled(p));
    SolidIsOrdered(Smooth(s.files), Filled(p));
  }

  /** The store as it would be with everything on disk published. */
  function AsPublished(s: Store, p: seq<Shard>): Store {
    Settled(s.files, Virtual(s, p))
  }

  lemma AsPublishedIsClean(s: Store, p: seq<Shard>)
    requires WellFormed(s) && Physical(s, p)
    ensures Clean(AsPublished(s, p)) && Log(AsPublished(s, p)) == Log(s) + Tail(s, p)
  {
    hide WellFormed, Tail, Log, Published, Clean, Solid, Continues;
    var v := AsPublished(s, p);
    assert Clean(v);
    CleanIsWellFormed(v);
    LogIsPublished(v);
    LogIsPublished(s);
    PublishedThenTail(s, p);
    IndexedIsSolid(s.files, Virtual(s, p));
    SettledFlat(s.files, Virtual(s, p));
  }

  lemma SettledFlat(files: map<Name, File>, h: Head)
    requires Indexed(files, h)
    ensures var v := Settled(files, h); Flat(v.files, v.head.shards) == Flat(files, h.shards)
  {
    hide Solid, Flat;
    var v := Settled(files, h);
    SolidNames(v.files, v.head.shards);
    SolidFrame(v.files, Smooth(files), v.head.shards);
    FlatSmooth(files, v.head.shards);
    IndexedIsSolid(files, h);
  }

  /** Publishing a draft adds exactly its rows to the log, torn bytes or not, and the head
      ends with the last of them. */
  lemma PublishAddsDraft(s: Store, p: seq<Shard>)
    requires Drafting(s, p) && Tail(s, p) != []
    ensures var t := PublishedTail(s, p);
            && Log(t) == Log(s) + Tail(s, p) && t.files == s.files
            && t.head.lastId == Last(Tail(s, p)).id && t.head.lastCommit == Last(Tail(s, p)).commit
  {
    PublishedEnd(s, p);
    hide WellFormed, Physical, Consecutive, Solid, Smooth, Log, Decoded, Tail, PublishedTail, Settled;
    PublishedHead(s, p);
    AsPublishedIsClean(s, p);
    SettledEnd(s, p);
    TornIsInvisible(s.files, Filled(p), 1, PhysicalEnd(s, p));
    SettledReads(s, p);
    SameRead(PublishedTail(s, p), AsPublished(s, p));
  }

  lemma PublishedEnd(s: Store, p: seq<Shard>)
    requires Drafting(s, p) && Tail(s, p) != []
    ensures var t := PublishedTail(s, p);
            t.files == s.files && t.head.lastId == Last(Tail(s, p)).id && t.head.lastCommit == Last(Tail(s, p)).commit
  {
    hide WellFormed, Physical, Tail, Probed, Consecutive, Rebuilt;
    ProbeFindsDraft(s, p);
    ClassifiedExactly(s.head.lastId, Tail(s, p), false);
  }

  /** What lies beyond the head but does not continue it is left as it is, and so is a store
      without a draft. */
  lemma OnlyDraftsArePublished(s: Store, p: seq<Shard>)
    requires WellFormed(s) && Physical(s, p) && (Tail(s, p) == [] || !Consecutive(Tail(s, p), s.head.lastId + 1))
    ensures PublishedTail(s, p) == s
  {
    hide WellFormed, Physical, Tail, Probed, Consecutive, Rebuilt;
    ProbeFindsDraft(s, p);
    ClassifiedExactly(s.head.lastId, Tail(s, p), false);
  }

  /** A file without a row makes no difference to a reader. */
  lemma SettledReads(s: Store, p: seq<Shard>)
    requires Physical(s, p)
    ensures var v := AsPublished(s, p);
            v.head.lastId == PhysicalEnd(s, p)
            && Decoded(v.files, v.head.shards, 1, v.head.lastId) == Decoded(Smooth(s.files), Filled(p), 1, PhysicalEnd(s, p))
  {
    hide Solid, Decoded, Between, Flat, Continues, StartsBehind;
    var v := AsPublished(s, p);
    SolidNames(v.files, v.head.shards);
    SolidFrame(v.files, Smooth(s.files), v.head.shards);
    SolidDecodes(v.files, v.head.shards, 1, v.head.lastId);
    SolidDecodes(Smooth(s.files), v.head.shards, 1, v.head.lastId);
  }

  lemma SameRead(s: Store, t: Store)
    requires s.head.lastId == t.head.lastId
    requires Decoded(s.files, s.head.shards, 1, s.head.lastId) == Decoded(t.files, t.head.shards, 1, t.head.lastId)
    ensures Log(s) == Log(t)
  {
  }

  /** It leaves a store later commits can start from exactly when no file with rows has torn
      bytes, and a clean one if besides there is no file without: the sizes it records count
      torn bytes. */
  lemma PublishIsCleanExactly(s: Store, p: seq<Shard>)
    requires Drafting(s, p) && Tail(s, p) != []
    ensures WellFormed(PublishedTail(s, p)) <==> Untorn(s.files, Filled(p))
    ensures Clean(PublishedTail(s, p)) <==> Untorn(s.files, Filled(p)) && !Spare(p)
  {
    hide Drafting, Smooth, Rebuilt, Tail, PublishedTail, Solid, WellFormed, Clean, Untorn, Physical, Listed;
    var t, q := PublishedTail(s, p), Filled(p);
    assert Physical(s, p) by { DraftIsPhysical(s, p); }
    PublishedHead(s, p);
    SettledEnd(s, p);
    RebuiltIsIndex(s.files, q);
    if Untorn(s.files, q) {
      UntornIsSolid(s.files, q);
      RebuiltUntorn(s.files, q);
      SolidIsWellFormed(t);
      CoveredExactly(s, p);
      CleanCovered(t);
    } else {
      if WellFormed(t) {
        SizesAreTrue(t, s.files, q);
      }
      if Clean(t) {
        CleanIsWellFormed(t);
      }
    }
  }

  lemma DraftIsPhysical(s: Store, p: seq<Shard>)
    requires Drafting(s, p)
    ensures Physical(s, p) && WellFormed(s)
  {
  }

  lemma UntornIsSolid(files: map<Name, File>, q: seq<Shard>)
    requires Solid(Smooth(files), q) && Untorn(files, q)
    ensures Solid(files, q)
  {
    SolidFrame(Smooth(files), files, q);
  }

  lemma RebuiltUntorn(files: map<Name, File>, q: seq<Shard>)
    requires Solid(Smooth(files), q) && Untorn(files, q)
    ensures Rebuilt(files, q) == q
  {
    hide Solid, Smooth;
    RebuiltIsIndex(files, q);
    forall i | 0 <= i < |q| ensures Rebuilt(files, q)[i] == q[i] {
      assert Content(files, q[i].name).torn == 0;
    }
  }

  lemma SolidIsWellFormed(t: Store)
    requires Solid(t.files, t.head.shards) && HeadHolds(t.head)
    ensures WellFormed(t)
  {
    if t.head.shards != [] {
      var last := Last(t.head.shards);
      assert t.files[last.name].rows[..last.count] == t.files[last.name].rows;
    }
  }

  lemma CleanCovered(t: Store)
    requires Solid(t.files, t.head.shards) && HeadHolds(t.head)
    ensures Clean(t) <==> forall name :: name in t.files ==> Listed(t.head.shards, name)
  {
  }

  /** The files with rows are all there is exactly when there is no other. */
  lemma CoveredExactly(s: Store, p: seq<Shard>)
    requires Physical(s, p)
    ensures (forall name :: name in s.files ==> Listed(Filled(p), name)) <==> !Spare(p)
  {
    hide Solid;
    var v := AsPublished(s, p);
    if Spare(p) {
      IndexedIsSolid(s.files, Virtual(s, p));
      assert Last(p).name in s.files && !Listed(Filled(p), Last(p).name);
    } else {
      assert forall name :: name in s.files ==> name in v.files;
    }
  }

  lemma SizesAreTrue(t: Store, files: map<Name, File>, q: seq<Shard>)
    requires WellFormed(t) && t.files == files && t.head.shards == Rebuilt(files, q) && Solid(Smooth(files), q)
    ensures Untorn(files, q)
  {
    hide Ascending, Width, Above;
    RebuiltIsIndex(files, q);
    forall i | 0 <= i < |q| ensures Content(files, q[i].name).torn == 0 {
      SolidAt(Smooth(files), q, i);
      if i < |q| - 1 {
        SolidAt(files, Front(t.head.shards), i);
        assert Front(t.head.shards)[i] == t.head.shards[i];
      } else {
        var f := files[q[i].name];
        assert f.rows[..q[i].count] == f.rows;
      }
    }
  }

  /** Discarding, like every ordinary commit, restores the published state. */
  lemma DiscardRestores(s: Store, order: seq<Name>)
    requires WellFormed(s) && Lists(order, s)
    ensures var t := After(s, Reaping(s, order, Trusted(s)));
            Clean(t) && t.head == s.head && Log(t) == Log(s) && Drafting(t, t.head.shards) && Tail(t, t.head.shards) == []
  {
    hide WellFormed, Clean, Reaping, Log, Drafting;
    if Trusted(s) {
      TrustedIsExact(s);
    }
    ReapingCleans(s, order, Trusted(s));
    CleanIsDrafting(After(s, Reaping(s, order, Trusted(s))));
  }

  lemma CleanIsSmooth(s: Store)
    requires Clean(s)
    ensures Smooth(s.files) == s.files && !Spare(s.head.shards) && Indexed(s.files, s.head)
  {
    hide Width, Ascending;
    forall name | name in s.files ensures s.files[name].torn == 0 {
      var i :| 0 <= i < |s.head.shards| && s.head.shards[i].name == name;
      SolidAt(s.files, s.head.shards, i);
    }
    assert Smooth(s.files) == s.files;
  }

  /** A clean store has an empty draft. */
  lemma CleanIsDrafting(s: Store)
    requires Clean(s)
    ensures Drafting(s, s.head.shards) && Tail(s, s.head.shards) == [] && Virtual(s, s.head.shards) == s.head
  {
    hide Solid, Smooth, Ascending;
    var p := s.head.shards;
    CleanIsSmooth(s);
    CleanIsWellFormed(s);
    PublishedIsOrdered(s);
    if p == [] {
      assert Flat(s.files, p) == [];
    }
  }

  // ---- where a draft goes on ----

  datatype Option<T> = None | Some(value: T)

  function LastName(p: seq<Shard>): Option<Name> {
    if p == [] then None else Some(Last(p).name)
  }

  /** The one shard file whose name starts latest, or none where there is no file. */
  predicate IsNewest(files: map<Name, File>, newest: Option<Name>) {
    match newest
    case None => files == map[]
    case Some(last) => last in files && forall name :: name in files && name != last ==> name.from < last.from
  }

  /** The number a draft continues from: the cached end of the tail, or the published end when
      the last listed file is trusted, or else the last row of the newest file. */
  function DraftBase(s: Store, newest: Option<Name>, cached: Option<nat>): nat {
    if cached.Some? && cached.value >= s.head.lastId then cached.value
    else if Trusted(s) || newest.None? then s.head.lastId
    else
      var rows := Content(s.files, newest.value).rows;
      if rows != [] && Last(rows).id > s.head.lastId then Last(rows).id else s.head.lastId
  }

  /** The newest file is the last one of the index. */
  lemma NewestIsLast(s: Store, p: seq<Shard>)
    requires Physical(s, p)
    ensures IsNewest(s.files, LastName(p))
  {
    hide Continues, StartsBehind, Flat, Solid;
    var v := AsPublished(s, p);
    SolidNames(v.files, v.head.shards);
    IndexedIsSolid(s.files, Virtual(s, p));
    if !Spare(p) && p != [] {
      LastIsLatest(Smooth(s.files), p);
    }
    forall name | name in s.files ensures p != [] && (name != Last(p).name ==> name.from < Last(p).name.from) {
      if Spare(p) && name != Last(p).name {
        assert name in v.files;
      } else if !Spare(p) {
        assert name in v.files;
      }
    }
  }

  lemma LastIsLatest(files: map<Name, File>, p: seq<Shard>)
    requires Solid(files, p)
    ensures forall i :: 0 <= i < |p| - 1 ==> p[i].name.from < Last(p).name.from
  {
    if p != [] {
      SolidNames(files, Front(p));
      assert forall i :: 0 <= i < |p| - 1 ==> p[i] == Front(p)[i];
    }
  }

  /** Without the in-memory cache the draft continues where the disk ends, unless there is a
      draft to number over: one that lies wholly in unlisted files, so that the last listed
      file looks complete, or one whose newest file holds no row yet. A cached end that is not
      behind the head is taken as it is. */
  lemma DraftBaseExactly(s: Store, p: seq<Shard>)
    requires Drafting(s, p)
    ensures DraftBase(s, LastName(p), None) == PhysicalEnd(s, p)
       <==> if Spare(p) then Tail(s, p) == [] else !(Trusted(s) && |p| > |s.head.shards|)
    ensures forall end: nat :: DraftBase(s, LastName(p), Some(end)) ==
              if s.head.lastId <= end then end else DraftBase(s, LastName(p), None)
  {
    hide WellFormed, Physical, Tail, Consecutive, Trusted, Flat;
    TailEnds(s, p);
    PhysicalHolds(s, p);
    if Trusted(s) {
      TrustedIsExact(s);
      TrustedHidesUnlisted(s, p);
    } else if p != [] {
      NewestRows(s, p);
    }
  }

  /** What is trusted hides nothing but unlisted rows. */
  lemma TrustedHidesUnlisted(s: Store, p: seq<Shard>)
    requires WellFormed(s) && Physical(s, p) && TailExact(s)
    ensures Tail(s, p) == [] <==> |Filled(p)| == |s.head.shards|
  {
    hide Physical, WellFormed, Solid, Flat, Tail, Width, Ascending;
    var q, n := Filled(p), |s.head.shards|;
    PhysicalHolds(s, p);
    HeldIsPublishedThenTail(s, q);
    ContinuesIsLonger(s, q);
    assert Overhang(s) == [] by { NoOverhang(s); }
    NeutralEmpty(Flat(s.files, q[n..]));
    if n < |q| {
      assert Last(q[n..]) == q[|q| - 1];
      HeldAt(s, q, |q| - 1);
      FlatLast(s.files, q[n..]);
    } else {
      assert q[n..] == [];
      FlatNothing(s.files);
    }
  }

  lemma FlatNothing(files: map<Name, File>)
    ensures Flat(files, []) == []
  {
  }

  lemma NoOverhang(s: Store)
    requires TailExact(s)
    ensures Overhang(s) == []
  {
  }

  lemma NewestRows(s: Store, p: seq<Shard>)
    requires Physical(s, p) && p != []
    ensures var rows := Content(s.files, Last(p).name).rows;
            Last(p).name in s.files && (Spare(p) <==> rows == []) && (rows != [] ==> Last(rows).id == PhysicalEnd(s, p))
  {
    hide Indexed, Flat, Ascending, Width;
    if Spare(p) {
      SpareIsThere(s, p);
    } else {
      PhysicalHolds(s, p);
      HeldAt(s, p, |p| - 1);
    }
  }

  lemma SpareIsThere(s: Store, p: seq<Shard>)
    requires Physical(s, p) && Spare(p)
    ensures SpareHolds(s.files, Last(p)) && Last(p).to == PhysicalEnd(s, p)
  {
    hide Clean;
  }

  lemma TailEnds(s: Store, p: seq<Shard>)
    requires Drafting(s, p)
    ensures PhysicalEnd(s, p) == s.head.lastId + |Tail(s, p)|
  {
    hide WellFormed, Physical, Flat, Solid, Ascending, Published, Tail;
    if Tail(s, p) != [] {
      TailEndsDisk(s, p);
      assert Last(Tail(s, p)).id == s.head.lastId + |Tail(s, p)|;
    } else {
      NoTailEnds(s, p);
    }
  }

  lemma NoTailEnds(s: Store, p: seq<Shard>)
    requires WellFormed(s) && Physical(s, p) && Tail(s, p) == []
    ensures PhysicalEnd(s, p) == s.head.lastId
  {
    hide WellFormed, Physical, Solid, Ascending, Published, Tail;
    SettledEnd(s, p);
    if Filled(p) != [] {
      PhysicalHolds(s, p);
      PublishedThenTail(s, p);
      NeutralEmpty(Published(s));
      PublishedIsOrdered(s);
      FlatSmooth(s.files, Filled(p));
      SolidIsOrdered(Smooth(s.files), Filled(p));
    }
  }

  // ---- what torn bytes at publication cost ----

  /** A published size that counts torn bytes hides the next draft rows from the probe: they
      are found exactly when there were none. */
  lemma {:induction false} TornBytesHideDraft(rows: seq<Row>, delta: seq<Row>, torn: nat)
    requires delta != []
    ensures var size := Width(rows) + torn;
            (if Width(rows + delta) > size then RowsFrom(rows + delta, size) else []) == delta <==> torn == 0
  {
    WidthOfConcat(rows, delta);
    assert (rows + delta)[..|rows|] == rows && (rows + delta)[|rows|..] == delta;
    WidthFirst(delta);
    if torn == 0 {
      RowsFromBoundary(rows + delta, |rows|);
    } else {
      RowsFromPast(rows, delta, torn);
    }
  }

  lemma EmptyWidth()
    ensures Width([]) == 0
  {
  }

  lemma {:induction false} RowsFromPast(rows: seq<Row>, delta: seq<Row>, torn: nat)
    requires delta != [] && torn > 0
    ensures |RowsFrom(rows + delta, Width(rows) + torn)| < |delta|
    decreases |rows|
  {
    hide Width;
    if rows == [] {
      EmptyWidth();
      assert rows + delta == delta;
      RowsFromShorter(delta[1..], torn - LineLength(delta[0]));
    } else {
      WidthFirst(rows);
      assert (rows + delta)[1..] == rows[1..] + delta;
      RowsFromPast(rows[1..], delta, torn);
    }
  }

  lemma {:induction false} RowsFromShorter(rows: seq<Row>, offset: int)
    ensures |RowsFrom(rows, offset)| <= |rows|
    decreases |rows|
  {
    if rows != [] && offset > 0 {
      RowsFromShorter(rows[1..], offset - LineLength(rows[0]));
    }
  }

  const FIRST := Row(1, "c", "a")
  const DRAFT := Row(2, "d", "b")
  const LOST := Row(3, "d", "x")
  const RETRY := Row(3, "", "y")
  const SHARD := Name(1, 1)

  /** One published row, one draft row, and a line of the next torn after three bytes. */
  function TornDraft(): Store {
    Store(map[SHARD := File([FIRST, DRAFT], 3)], Head(1, [Shard(SHARD, 1, 1, 1, 3)], 1, "c"))
  }

  lemma Lengths()
    ensures Width([FIRST]) == 3 && Width([FIRST, DRAFT]) == 6 && Width([FIRST, DRAFT, LOST]) == 9
    ensures Width([AGAIN]) == 3
  {
    assert Front([FIRST]) == [] && Front([FIRST, DRAFT]) == [FIRST] && Front([FIRST, DRAFT, LOST]) == [FIRST, DRAFT];
    assert Front([AGAIN]) == [];
  }

  lemma TornDraftIsDrafting()
    ensures Drafting(TornDraft(), [Shard(SHARD, 1, 2, 2, 6)]) && Tail(TornDraft(), [Shard(SHARD, 1, 2, 2, 6)]) == [DRAFT]
  {
    var s, p := TornDraft(), [Shard(SHARD, 1, 2, 2, 6)];
    Lengths();
    assert [FIRST, DRAFT][..1] == [FIRST] && [FIRST, DRAFT][1..] == [DRAFT];
    assert Front(s.head.shards) == [] && Front(p) == [];
    assert Front([FIRST, DRAFT]) == [FIRST];
    assert Flat(s.files, p) == [FIRST, DRAFT];
    assert Listed(p, SHARD) by { assert p[0].name == SHARD; }
    assert Smooth(s.files) == map[SHARD := File([FIRST, DRAFT], 0)];
    assert Ascending([FIRST, DRAFT]);
    assert Describes(Last(p), [FIRST, DRAFT]);
    assert Solid(Smooth(s.files), Front(p));
    assert Smooth(s.files)[SHARD] == File([FIRST, DRAFT], 0);
    assert Solid(Smooth(s.files), p);
  }

  /** Recovery publishes a size that counts the torn bytes. */
  lemma TornRecovery() returns (s: Store)
    ensures s == PublishedTail(TornDraft(), [Shard(SHARD, 1, 2, 2, 6)])
    ensures s == Store(map[SHARD := File([FIRST, DRAFT], 3)], Head(2, [Shard(SHARD, 1, 2, 2, 9)], 2, "d"))
  {
    var t, p := TornDraft(), [Shard(SHARD, 1, 2, 2, 6)];
    s := PublishedTail(t, p);
    TornDraftIsDrafting();
    ProbeFindsDraft(t, p);
    ClassifiedExactly(1, [DRAFT], false);
    assert Consecutive([DRAFT], 2);
    Lengths();
    assert Front(p) == [];
    assert Entry(t.files, SHARD) == Shard(SHARD, 1, 2, 2, 9);
    assert Rebuilt(t.files, p) == [Shard(SHARD, 1, 2, 2, 9)];
    assert Front([Shard(SHARD, 1, 2, 2, 9)]) == [];
  }

  const AGAIN := Row(3, "e", "y")

  /** The recovered store after one more draft row, of just the torn length. */
  function Mistaken(): Store {
    Store(map[SHARD := File([FIRST, DRAFT, LOST], 0)], Head(2, [Shard(SHARD, 1, 2, 2, 9)], 2, "d"))
  }

  /** ... and after the row was committed again. */
  function Corrupted(): Store {
    Store(map[SHARD := File([FIRST, DRAFT, LOST, AGAIN], 0)], Head(3, [Shard(SHARD, 1, 3, 3, 12)], 3, "e"))
  }

  lemma AddedRetry()
    ensures Assigned([RETRY], 2, "e") == Ok([AGAIN])
  {
    var rows := [RETRY];
    assert rows[1..] == [];
    assert Numbered(rows[1..], 2, 4, "e") == Ok([]);
    assert [AGAIN] + [] == [AGAIN];
  }

  lemma MistakenIsTrusted()
    ensures Trusted(Mistaken()) && Lists([], Mistaken())
  {
    Lengths();
    assert Mistaken().head.shards[0].name == SHARD;
    assert Listed(Mistaken().head.shards, SHARD);
  }

  lemma CommitOverDraft()
    ensures Writing(Mistaken().head, [AGAIN], 4) == Plan([Append(SHARD, [AGAIN])], Corrupted().head.(lastCommit := "d"))
  {
    Lengths();
    var head, delta := Mistaken().head, [AGAIN];
    var e := Extend(head, delta, 4);
    assert delta[..1] == delta && delta[1..] == [];
    assert Front(head.shards) == [] && [] + [Last(e.head.shards)] == [Last(e.head.shards)];
    assert Writing(e.head, [], 4) == Plan([], e.head);
    assert [Append(SHARD, [AGAIN])] + [] == [Append(SHARD, [AGAIN])];
  }

  lemma CommitCorrupts()
    ensures After(Mistaken(), CommitOps(Mistaken(), [], [RETRY], "e", 4)) == Corrupted()
  {
    AddedRetry();
    MistakenIsTrusted();
    CommitOverDraft();
    assert Reaping(Mistaken(), [], true) == [];
    var ops := CommitOps(Mistaken(), [], [RETRY], "e", 4);
    assert ops == [Append(SHARD, [AGAIN]), Publish(Corrupted().head)];
    assert Front(ops) == [Append(SHARD, [AGAIN])];
    AfterOne(Mistaken(), Append(SHARD, [AGAIN]));
    assert [FIRST, DRAFT, LOST] + [AGAIN] == [FIRST, DRAFT, LOST, AGAIN];
  }

  /** A draft row of just that length then passes for published, is not cut off by the next
      commit, and stays in the log beside the committed row of the same number. */
  lemma TornPublishCorrupts()
    ensures var s := PublishedTail(TornDraft(), [Shard(SHARD, 1, 2, 2, 6)]);
            Do(s, Append(SHARD, [LOST])) == Mistaken()
    ensures After(Mistaken(), CommitOps(Mistaken(), [], [RETRY], "e", 4)) == Corrupted()
    ensures Log(Corrupted()) == [FIRST, DRAFT, LOST, AGAIN] && LOST.id == AGAIN.id
  {
    hide PublishedTail, CommitOps, Between;
    var _ := TornRecovery();
    assert [FIRST, DRAFT] + [LOST] == [FIRST, DRAFT, LOST];
    CommitCorrupts();
    assert Front(Corrupted().head.shards) == [];
    BetweenAll([FIRST, DRAFT, LOST, AGAIN], 1, 3);
  }
}
