/** The project board log (store/board/board.go): one read rule, bounded appends, and a
    compaction that preserves meaning exactly while no removed key comes back with an older
    number. */
module ProjectBoard {
  datatype Option<T> = None | Some(value: T)

  datatype Row = Row(schema: nat, kind: string, key: string, session: string, seqNo: nat,
                     removed: bool, payload: string)

  datatype Bucket = Bucket(session: string, key: string)

  const SCHEMA := 1
  const KINDS: set<string> := {"work", "milestone", "milestone_item"}
  const MAX_ROWS := 512

  predicate IsSpace(c: char) {
    c == ' ' || c == '\t' || c == '\n' || c == '\r'
  }

  function TrimLeft(s: string): string {
    if s != [] && IsSpace(s[0]) then TrimLeft(s[1..]) else s
  }

  function Trim(s: string): string {
    var left := TrimLeft(s);
    TrimRight(left)
  }

  function TrimRight(s: string): string {
    if s != [] && IsSpace(s[|s| - 1]) then TrimRight(s[..|s| - 1]) else s
  }

  predicate Usable(row: Row) {
    row.schema == SCHEMA && row.kind in KINDS && Trim(row.key) != ""
  }

  function BucketOf(row: Row): Bucket {
    Bucket(Trim(row.session), Trim(row.key))
  }

  predicate AllSpace(s: string) {
    forall i :: 0 <= i < |s| ==> IsSpace(s[i])
  }

  lemma {:induction false} TrimLeftExactly(s: string) returns (n: nat)
    ensures n <= |s| && TrimLeft(s) == s[n..] && AllSpace(s[..n]) && (n < |s| ==> !IsSpace(s[n]))
    decreases |s|
  {
    if s != [] && IsSpace(s[0]) {
      var m := TrimLeftExactly(s[1..]);
      n := m + 1;
      assert s[..n] == [s[0]] + s[1..][..m] && s[1..][m..] == s[n..];
    } else {
      n := 0;
    }
  }

  lemma {:induction false} TrimRightExactly(s: string) returns (n: nat)
    ensures n <= |s| && TrimRight(s) == s[..n] && AllSpace(s[n..]) && (n > 0 ==> !IsSpace(s[n - 1]))
    decreases |s|
  {
    if s != [] && IsSpace(s[|s| - 1]) {
      n := TrimRightExactly(s[..|s| - 1]);
      assert s[n..] == s[..|s| - 1][n..] + [s[|s| - 1]] && s[..|s| - 1][..n] == s[..n];
    } else {
      n := |s|;
    }
  }

  /** Trimming takes the white space at both ends off, all of it and nothing else. */
  lemma TrimExactly(s: string) returns (a: nat, b: nat)
    ensures a <= b <= |s| && Trim(s) == s[a..b] && AllSpace(s[..a]) && AllSpace(s[b..])
    ensures a < b ==> !IsSpace(s[a]) && !IsSpace(s[b - 1])
  {
    a := TrimLeftExactly(s);
    var n := TrimRightExactly(s[a..]);
    b := a + n;
    assert s[a..][..n] == s[a..b] && s[a..][n..] == s[b..];
  }

  // ---- the order of the output ----

  function Compare(a: string, b: string): int {
    if a == [] && b == [] then 0
    else if a == [] then -1
    else if b == [] then 1
    else if a[0] < b[0] then -1
    else if a[0] > b[0] then 1
    else Compare(a[1..], b[1..])
  }

  lemma {:induction false} CompareIsOrder(a: string, b: string, c: string)
    ensures Compare(a, b) == 0 <==> a == b
    ensures Compare(a, b) < 0 <==> Compare(b, a) > 0
    ensures Compare(a, b) < 0 && Compare(b, c) < 0 ==> Compare(a, c) < 0
    decreases |a| + |b| + |c|
  {
    if a != [] && b != [] {
      if a[0] == b[0] {
        assert a == b <==> a[1..] == b[1..] by {
          assert a == [a[0]] + a[1..] && b == [b[0]] + b[1..];
        }
      }
      CompareIsOrder(a[1..], b[1..], if c == [] then [] else c[1..]);
    } else if c != [] {
      CompareIsOrder([], [], []);
    }
  }

  /** Byte by byte: at the first difference the smaller byte decides, and a beginning of a
      longer string comes first. */
  predicate Precedes(a: string, b: string) {
    a < b || exists i :: 0 <= i < |a| && i < |b| && a[..i] == b[..i] && a[i] < b[i]
  }

  lemma {:induction false} CompareExactly(a: string, b: string)
    ensures Compare(a, b) < 0 <==> Precedes(a, b)
    ensures Compare(a, b) == 0 <==> a == b
    decreases |a|
  {
    CompareIsOrder(a, b, a);
    if a != [] && b != [] && a[0] == b[0] {
      CompareExactly(a[1..], b[1..]);
      PrecedesRest(a, b);
    } else if a != [] && b != [] {
      if a[0] < b[0] {
        assert a[..0] == b[..0];
      }
      if i :| 0 <= i < |a| && i < |b| && a[..i] == b[..i] && a[i] < b[i] {
        assert i > 0 ==> a[..i][0] == b[..i][0];
      }
    }
  }

  lemma PrecedesRest(a: string, b: string)
    requires a != [] && b != [] && a[0] == b[0]
    ensures Precedes(a, b) <==> Precedes(a[1..], b[1..])
  {
    var s, t := a[1..], b[1..];
    assert a == [a[0]] + s && b == [b[0]] + t;
    if i :| 0 <= i < |a| && i < |b| && a[..i] == b[..i] && a[i] < b[i] {
      assert s[..i - 1] == a[..i][1..] && t[..i - 1] == b[..i][1..];
      assert s[i - 1] < t[i - 1];
    }
    if i :| 0 <= i < |s| && i < |t| && s[..i] == t[..i] && s[i] < t[i] {
      assert a[..i + 1] == [a[0]] + s[..i] && b[..i + 1] == [b[0]] + t[..i];
      assert a[i + 1] < b[i + 1];
    }
  }

  /** The output is ordered by kind, then key, then session. */
  lemma RowLessExactly(a: Row, b: Row)
    ensures RowLess(a, b)
       <==> Precedes(a.kind, b.kind)
            || (a.kind == b.kind && (Precedes(a.key, b.key) || (a.key == b.key && Precedes(a.session, b.session))))
  {
    CompareExactly(a.kind, b.kind);
    CompareExactly(a.key, b.key);
    CompareExactly(a.session, b.session);
    CompareExactly(a.kind, a.kind);
  }

  predicate RowLess(a: Row, b: Row) {
    if a.kind != b.kind then Compare(a.kind, b.kind) < 0
    else if a.key != b.key then Compare(a.key, b.key) < 0
    else Compare(a.session, b.session) < 0
  }

  lemma RowLessIsOrder(a: Row, b: Row, c: Row)
    ensures !RowLess(a, a) && !(RowLess(a, b) && RowLess(b, a))
    ensures RowLess(a, b) && RowLess(b, c) ==> RowLess(a, c)
    ensures RowLess(a, b) || RowLess(b, a) || (a.kind == b.kind && a.key == b.key && a.session == b.session)
  {
    CompareIsOrder(a.kind, b.kind, c.kind);
    CompareIsOrder(a.key, b.key, c.key);
    CompareIsOrder(a.session, b.session, c.session);
    CompareIsOrder(a.session, a.session, a.session);
    CompareIsOrder(b.kind, a.kind, c.kind);
    CompareIsOrder(b.key, a.key, c.key);
    CompareIsOrder(b.session, a.session, c.session);
  }

  predicate Sorted(rows: seq<Row>)
    decreases |rows|
  {
    |rows| <= 1 || (Sorted(rows[1..]) && RowLess(rows[0], rows[1]))
  }

  // ---- the read rule ----

  /** The row of the bucket with the greatest number; of equal numbers the later one. */
  function Latest(rows: seq<Row>, b: Bucket): Option<Row> {
    if rows == [] then None
    else
      var before, row := Latest(rows[..|rows| - 1], b), rows[|rows| - 1];
      if Usable(row) && BucketOf(row) == b && (before.None? || row.seqNo >= before.value.seqNo) then Some(row) else before
  }

  /** The row is part of what a reader sees. */
  predicate Live(rows: seq<Row>, row: Row) {
    Latest(rows, BucketOf(row)) == Some(row) && !row.removed
  }

  ghost predicate IsFold(rows: seq<Row>, out: seq<Row>) {
    Sorted(out) && forall row :: row in out <==> Live(rows, row)
  }

  lemma {:induction false} LatestIsInBucket(rows: seq<Row>, b: Bucket)
    requires Latest(rows, b).Some?
    ensures var row := Latest(rows, b).value; row in rows && Usable(row) && BucketOf(row) == b
    decreases |rows|
  {
    if Latest(rows, b) == Latest(rows[..|rows| - 1], b) && Latest(rows[..|rows| - 1], b).Some? {
      LatestIsInBucket(rows[..|rows| - 1], b);
    }
  }

  /** A row that counts: of this schema, of a known kind, with a key that is not blank. */
  predicate Counts(row: Row) {
    row.schema == 1 && (row.kind == "work" || row.kind == "milestone" || row.kind == "milestone_item") && Trim(row.key) != ""
  }

  predicate SameKey(a: Row, b: Row) {
    Trim(a.session) == Trim(b.session) && Trim(a.key) == Trim(b.key)
  }

  /** Row i counts, and no row of its session and key has a greater number, nor the same one
      further down. */
  predicate Newest(rows: seq<Row>, i: nat)
    requires i < |rows|
  {
    Counts(rows[i]) &&
    forall j :: 0 <= j < |rows| && Counts(rows[j]) && SameKey(rows[j], rows[i]) ==>
      rows[j].seqNo < rows[i].seqNo || (rows[j].seqNo == rows[i].seqNo && j <= i)
  }

  lemma {:induction false} LatestAt(rows: seq<Row>, b: Bucket) returns (i: nat)
    requires Latest(rows, b).Some?
    ensures i < |rows| && rows[i] == Latest(rows, b).value && Usable(rows[i]) && BucketOf(rows[i]) == b
    ensures forall j :: 0 <= j < |rows| && Usable(rows[j]) && BucketOf(rows[j]) == b ==>
              rows[j].seqNo < rows[i].seqNo || (rows[j].seqNo == rows[i].seqNo && j <= i)
    decreases |rows|
  {
    hide Usable, BucketOf;
    var n := |rows| - 1;
    var front, last := rows[..n], rows[n];
    assert forall j :: 0 <= j < n ==> front[j] == rows[j];
    if Latest(front, b).Some? {
      i := LatestAt(front, b);
      if Usable(last) && BucketOf(last) == b && last.seqNo >= rows[i].seqNo {
        i := n;
      }
    } else {
      i := n;
      NoLatest(front, b);
    }
  }

  lemma {:induction false} NoLatest(rows: seq<Row>, b: Bucket)
    requires Latest(rows, b).None?
    ensures forall j :: 0 <= j < |rows| ==> !(Usable(rows[j]) && BucketOf(rows[j]) == b)
    decreases |rows|
  {
    hide Usable, BucketOf;
    if rows != [] {
      NoLatest(rows[..|rows| - 1], b);
      assert forall j :: 0 <= j < |rows| - 1 ==> rows[..|rows| - 1][j] == rows[j];
    }
  }

  lemma CountsAreUsable(a: Row, b: Row)
    ensures Usable(a) <==> Counts(a)
    ensures BucketOf(a) == BucketOf(b) <==> SameKey(a, b)
  {
  }

  /** The read rule, row by row: a fold shows exactly the rows that are the newest of their
      session and key and do not remove it. */
  lemma FoldShowsExactly(rows: seq<Row>, out: seq<Row>, row: Row)
    requires IsFold(rows, out)
    ensures row in out <==> !row.removed && exists i :: 0 <= i < |rows| && rows[i] == row && Newest(rows, i)
  {
    hide Counts, Usable, BucketOf, SameKey;
    forall a, b ensures (Usable(a) <==> Counts(a)) && (BucketOf(a) == BucketOf(b) <==> SameKey(a, b)) {
      CountsAreUsable(a, b);
    }
    if Live(rows, row) {
      var i := LatestAt(rows, BucketOf(row));
      assert Newest(rows, i);
    }
    if i :| !row.removed && 0 <= i < |rows| && rows[i] == row && Newest(rows, i) {
      if Latest(rows, BucketOf(row)).None? {
        NoLatest(rows, BucketOf(row));
      }
      var k := LatestAt(rows, BucketOf(row));
      assert k == i;
    }
  }

  function Later(x: Option<Row>, y: Option<Row>): Option<Row> {
    if y.None? || (x.Some? && x.value.seqNo > y.value.seqNo) then x else y
  }

  lemma {:induction false} LatestOfConcat(f: seq<Row>, g: seq<Row>, b: Bucket)
    ensures Latest(f + g, b) == Later(Latest(f, b), Latest(g, b))
    decreases |g|
  {
    if g == [] {
      assert f + g == f;
    } else {
      assert (f + g)[..|f + g| - 1] == f + g[..|g| - 1];
      LatestOfConcat(f, g[..|g| - 1], b);
    }
  }

  lemma {:induction false} SortedAfterFirst(rows: seq<Row>, k: nat)
    requires Sorted(rows) && 0 < k < |rows|
    ensures RowLess(rows[0], rows[k])
    decreases |rows|
  {
    if k > 1 {
      SortedAfterFirst(rows[1..], k - 1);
      RowLessIsOrder(rows[0], rows[1], rows[k]);
    }
  }

  lemma FirstIsLeast(rows: seq<Row>, row: Row)
    requires Sorted(rows) && row in rows
    ensures row == rows[0] || RowLess(rows[0], row)
  {
    var k :| 0 <= k < |rows| && rows[k] == row;
    if k > 0 {
      SortedAfterFirst(rows, k);
    }
  }

  lemma RestMembers(rows: seq<Row>, row: Row)
    requires Sorted(rows) && rows != []
    ensures row in rows[1..] <==> row in rows && row != rows[0]
  {
    assert rows == [rows[0]] + rows[1..];
    if row in rows[1..] {
      var k :| 0 <= k < |rows| - 1 && rows[1..][k] == row;
      SortedAfterFirst(rows, k + 1);
      RowLessIsOrder(rows[0], rows[0], rows[0]);
    }
  }

  lemma HasMember(rows: seq<Row>)
    requires rows != []
    ensures exists row :: row in rows
  {
    assert rows[0] in rows;
  }

  /** The output depends only on which rows are shown: never on the order in which the
      buckets were visited. */
  lemma {:induction false} SortedIsUnique(a: seq<Row>, b: seq<Row>)
    requires Sorted(a) && Sorted(b) && forall row :: row in a <==> row in b
    ensures a == b
    decreases |a|
  {
    if a == [] {
      if b != [] {
        HasMember(b);
      }
    } else {
      assert a[0] in b && b != [] && b[0] in a;
      FirstIsLeast(a, b[0]);
      FirstIsLeast(b, a[0]);
      RowLessIsOrder(a[0], b[0], a[0]);
      forall row ensures row in a[1..] <==> row in b[1..] {
        RestMembers(a, row);
        RestMembers(b, row);
      }
      SortedIsUnique(a[1..], b[1..]);
      assert a == [a[0]] + a[1..] && b == [b[0]] + b[1..];
    }
  }

  /** The fold is a function of the rows: two runs over them give the same sequence. */
  lemma FoldIsDeterministic(rows: seq<Row>, a: seq<Row>, b: seq<Row>)
    requires IsFold(rows, a) && IsFold(rows, b)
    ensures a == b
  {
    SortedIsUnique(a, b);
  }

  // ---- compaction ----

  function Shown(x: Option<Row>): Option<Row> {
    if x.Some? && x.value.removed then None else x
  }

  lemma {:induction false} LatestOfSingles(c: seq<Row>, b: Bucket, row: Option<Row>)
    requires forall r :: r in c ==> Usable(r) && (BucketOf(r) == b ==> row == Some(r))
    requires row.Some? ==> row.value in c && BucketOf(row.value) == b
    ensures Latest(c, b) == row
    decreases |c|
  {
    if c != [] {
      var front, last := c[..|c| - 1], c[|c| - 1];
      assert c == front + [last];
      if row.Some? && row.value in front {
        LatestOfSingles(front, b, row);
      } else {
        LatestOfSingles(front, b, None);
      }
    }
  }

  /** A compacted file holds for each bucket just what a reader sees of it. */
  lemma CompactedLatest(f: seq<Row>, c: seq<Row>, b: Bucket)
    requires IsFold(f, c)
    ensures Latest(c, b) == Shown(Latest(f, b))
  {
    forall r | r in c ensures Usable(r) && (BucketOf(r) == b ==> Shown(Latest(f, b)) == Some(r)) {
      LatestIsInBucket(f, BucketOf(r));
    }
    if Shown(Latest(f, b)).Some? {
      LatestIsInBucket(f, b);
      assert Live(f, Latest(f, b).value);
    }
    LatestOfSingles(c, b, Shown(Latest(f, b)));
  }

  /** Compacting a file does not change what it says. */
  lemma CompactionPreservesFold(f: seq<Row>, c: seq<Row>, d: seq<Row>)
    requires IsFold(f, c) && IsFold(c, d)
    ensures d == c
  {
    forall row ensures row in d <==> row in c {
      CompactedLatest(f, c, BucketOf(row));
    }
    SortedIsUnique(d, c);
  }

  /** The bucket's newest row in f removes it, and g brings it back under a smaller number. */
  predicate Resurrects(f: seq<Row>, g: seq<Row>, b: Bucket) {
    && Latest(f, b).Some? && Latest(f, b).value.removed
    && Latest(g, b).Some? && !Latest(g, b).value.removed
    && Latest(g, b).value.seqNo < Latest(f, b).value.seqNo
  }

  lemma ResurrectedExactly(f: seq<Row>, c: seq<Row>, g: seq<Row>, b: Bucket)
    requires IsFold(f, c)
    ensures Shown(Latest(c + g, b)) == Shown(Latest(f + g, b)) <==> !Resurrects(f, g, b)
  {
    LatestOfConcat(f, g, b);
    LatestOfConcat(c, g, b);
    CompactedLatest(f, c, b);
  }

  lemma ShownIsLive(rows: seq<Row>, b: Bucket, row: Row)
    ensures Shown(Latest(rows, b)) == Some(row) <==> BucketOf(row) == b && Live(rows, row)
  {
    if Latest(rows, b).Some? {
      LatestIsInBucket(rows, b);
    }
  }

  /** Compacting between two appends gives the same reading as not compacting exactly when no
      key whose newest row is a removal is appended again under a smaller number. */
  lemma CompactionIsTransparentExactly(f: seq<Row>, c: seq<Row>, g: seq<Row>, with_: seq<Row>, without: seq<Row>)
    requires IsFold(f, c) && IsFold(c + g, with_) && IsFold(f + g, without)
    ensures with_ == without <==> forall b :: !Resurrects(f, g, b)
  {
    if forall b :: !Resurrects(f, g, b) {
      forall row ensures row in with_ <==> row in without {
        ResurrectedExactly(f, c, g, BucketOf(row));
      }
      SortedIsUnique(with_, without);
    } else {
      var b :| Resurrects(f, g, b);
      ResurrectedExactly(f, c, g, b);
      var x, y := Shown(Latest(c + g, b)), Shown(Latest(f + g, b));
      var row := if x.Some? then x.value else y.value;
      ShownIsLive(c + g, b, row);
      ShownIsLive(f + g, b, row);
      assert row in with_ <==> x == Some(row);
      assert row in without <==> y == Some(row);
    }
  }

  // ---- the watermark and one append ----

  function Watermark(rows: seq<Row>): nat {
    if rows == [] then 0
    else
      var before, row := Watermark(rows[..|rows| - 1]), rows[|rows| - 1];
      if row.seqNo > before then row.seqNo else before
  }

  lemma {:induction false} WatermarkIsMax(rows: seq<Row>)
    ensures forall row :: row in rows ==> row.seqNo <= Watermark(rows)
    ensures rows != [] ==> exists row :: row in rows && row.seqNo == Watermark(rows)
    decreases |rows|
  {
    if rows != [] {
      var front, last := rows[..|rows| - 1], rows[|rows| - 1];
      WatermarkIsMax(front);
      assert rows == front + [last];
      if front != [] && Watermark(front) >= last.seqNo {
        var row :| row in front && row.seqNo == Watermark(front);
        assert row in rows;
      } else {
        assert last in rows;
      }
    }
  }

  /** Rows numbered at or above everything in the file resurrect nothing: a batch stamped
      with the next number is safe. */
  lemma NewerRowsAreSafe(f: seq<Row>, g: seq<Row>, b: Bucket)
    requires forall row :: row in g ==> row.seqNo >= Watermark(f)
    ensures !Resurrects(f, g, b)
  {
    if Latest(f, b).Some? && Latest(g, b).Some? {
      LatestIsInBucket(f, b);
      LatestIsInBucket(g, b);
      WatermarkIsMax(f);
    }
  }

  /** A compaction lowers the watermark of the file exactly when none of the rows with the
      greatest number is shown. */
  lemma CompactionLowersWatermarkExactly(f: seq<Row>, c: seq<Row>)
    requires IsFold(f, c)
    ensures Watermark(c) <= Watermark(f)
    ensures Watermark(c) < Watermark(f) <==> 0 < Watermark(f) && forall row :: Live(f, row) ==> row.seqNo < Watermark(f)
  {
    WatermarkIsMax(f);
    WatermarkIsMax(c);
    forall row | row in c ensures row.seqNo <= Watermark(f) {
      LatestIsInBucket(f, BucketOf(row));
    }
  }

  predicate AlreadyThere(existing: seq<Row>, rows: seq<Row>) {
    rows != [] && exists i :: 0 <= i < |existing| && existing[i].seqNo == rows[0].seqNo
  }

  /** A batch that was there is still recognised after a compaction exactly when one of the
      rows of its number is shown; otherwise a retry adds it a second time. */
  lemma RetryIsRecognisedExactly(f: seq<Row>, c: seq<Row>, batch: seq<Row>)
    requires IsFold(f, c) && batch != []
    ensures AlreadyThere(c, batch) <==> exists row :: Live(f, row) && row.seqNo == batch[0].seqNo
  {
    if row :| Live(f, row) && row.seqNo == batch[0].seqNo {
      assert row in c;
      var i :| 0 <= i < |c| && c[i] == row;
    }
    if i :| 0 <= i < |c| && c[i].seqNo == batch[0].seqNo {
      assert c[i] in c;
    }
  }

  const KEPT := Row(1, "work", "a", "s", 1, false, "")
  const GONE := Row(1, "work", "b", "s", 2, true, "")

  lemma Names()
    ensures BucketOf(KEPT) == Bucket("s", "a") && BucketOf(GONE) == Bucket("s", "b") && Usable(KEPT) && Usable(GONE)
  {
    assert Trim("a") == "a" && Trim("b") == "b" && Trim("s") == "s";
  }

  lemma LatestOfOne(row: Row, b: Bucket)
    ensures Latest([row], b) == if Usable(row) && BucketOf(row) == b then Some(row) else None
  {
    assert [row][..0] == [];
  }

  /** The newest batch removed a key: compaction forgets its number, so the file's watermark
      falls, against the promise that it only grows, and the batch is not recognised again. */
  lemma CompactionForgetsRemoval()
    ensures IsFold([KEPT, GONE], [KEPT]) && Watermark([KEPT]) < Watermark([KEPT, GONE])
    ensures AlreadyThere([KEPT, GONE], [GONE]) && !AlreadyThere([KEPT], [GONE])
  {
    var f := [KEPT, GONE];
    Names();
    assert f == [KEPT] + [GONE];
    forall b ensures Latest(f, b) == if b == BucketOf(KEPT) then Some(KEPT) else if b == BucketOf(GONE) then Some(GONE) else None {
      LatestOfOne(KEPT, b);
      LatestOfOne(GONE, b);
      LatestOfConcat([KEPT], [GONE], b);
    }
    forall row ensures row in [KEPT] <==> Live(f, row) {
      if Latest(f, BucketOf(row)).Some? {
        LatestIsInBucket(f, BucketOf(row));
      }
    }
    assert f[1].seqNo == GONE.seqNo;
    assert [KEPT][..0] == [] && f[..1] == [KEPT];
  }

  // ---- the fold and the append as they run ----

  /** What the map of latest rows holds after the first n rows. */
  ghost predicate Tracks(latest: map<Bucket, Row>, rows: seq<Row>) {
    forall b :: Latest(rows, b) == if b in latest then Some(latest[b]) else None
  }

  lemma TrackNext(latest: map<Bucket, Row>, rows: seq<Row>, n: nat)
    requires n < |rows| && Tracks(latest, rows[..n])
    ensures !Usable(rows[n]) ==> Tracks(latest, rows[..n + 1])
    ensures Usable(rows[n]) ==>
              var b := BucketOf(rows[n]);
              Tracks(if b !in latest || rows[n].seqNo >= latest[b].seqNo then latest[b := rows[n]] else latest, rows[..n + 1])
  {
    assert rows[..n + 1][..n] == rows[..n];
  }

  method Insert(sorted: seq<Row>, row: Row) returns (out: seq<Row>)
    requires Sorted(sorted) && row !in sorted && forall r :: r in sorted ==> RowLess(r, row) || RowLess(row, r)
    ensures Sorted(out) && forall r :: r in out <==> r in sorted || r == row
    decreases |sorted|
  {
    if sorted == [] || RowLess(row, sorted[0]) {
      out := [row] + sorted;
      assert out[1..] == sorted;
    } else {
      var rest := Insert(sorted[1..], row);
      out := [sorted[0]] + rest;
      assert sorted == [sorted[0]] + sorted[1..] && out[1..] == rest;
      assert rest[0] in rest;
      if rest[0] != row {
        FirstIsLeast(sorted, rest[0]);
        RestMembers(sorted, rest[0]);
      }
    }
  }

  method Fold(rows: seq<Row>) returns (out: seq<Row>)
    ensures IsFold(rows, out)
  {
    var latest: map<Bucket, Row> := map[];
    var i := 0;
    assert rows[..0] == [];
    while i < |rows|
      invariant i <= |rows| && Tracks(latest, rows[..i])
    {
      var row := rows[i];
      TrackNext(latest, rows, i);
      i := i + 1;
      if row.schema != SCHEMA || row.kind !in KINDS || Trim(row.key) == "" {
        continue;
      }
      var b := BucketOf(row);
      if b !in latest || row.seqNo >= latest[b].seqNo {
        latest := latest[b := row];
      }
    }
    assert rows[..i] == rows;
    var buckets := latest.Keys;
    out := [];
    while buckets != {}
      invariant buckets <= latest.Keys && Sorted(out)
      invariant forall row :: row in out <==> Live(rows, row) && BucketOf(row) !in buckets
      decreases |buckets|
    {
      var b :| b in buckets;
      var row := latest[b];
      LatestIsInBucket(rows, b);
      buckets := buckets - {b};
      if !row.removed {
        forall r | r in out ensures RowLess(r, row) || RowLess(row, r) {
          RowLessIsOrder(r, row, r);
        }
        out := Insert(out, row);
      }
    }
    forall row ensures row in out <==> Live(rows, row) {
      assert Live(rows, row) ==> BucketOf(row) !in buckets;
    }
  }

  datatype Outcome = Written(watermark: nat) | Unchanged(watermark: nat) | Refused(watermark: nat)

  predicate Stampable(session: string, rows: seq<Row>) {
    forall i :: 0 <= i < |rows| ==> Trim(rows[i].session) == "" || Trim(rows[i].session) == session
  }

  function StampedRows(session: string, rows: seq<Row>): seq<Row> {
    seq(|rows|, i requires 0 <= i < |rows| =>
      if Trim(rows[i].session) == "" then rows[i].(session := session) else rows[i])
  }

  function Greater(a: nat, b: nat): nat {
    if a < b then b else a
  }

  /** When a batch is written, recognised or refused, and when the file is compacted for it:
      any fold tells, for there is only one. */
  ghost predicate Answers(rows: seq<Row>, batch: seq<Row>, session: string, outcome: Outcome, compacted: bool) {
    var legal := |batch| <= MAX_ROWS &&
                 forall i :: 0 <= i < |batch| ==> Trim(batch[i].session) == "" || Trim(batch[i].session) == session;
    var unwritten := batch != [] && legal && !AlreadyThere(rows, batch);
    var tight := |rows| + |batch| > MAX_ROWS;
    && (outcome.Unchanged? <==> batch == [] || (legal && AlreadyThere(rows, batch)))
    && (outcome.Written? <==> unwritten && (tight ==> forall c :: IsFold(rows, c) ==> |c| + |batch| <= MAX_ROWS))
    && (outcome.Refused? <==> !legal || (unwritten && tight && exists c :: IsFold(rows, c) && |c| + |batch| > MAX_ROWS))
    && (compacted <==> unwritten && tight)
  }

  lemma OneFoldLength(rows: seq<Row>, c: seq<Row>, d: seq<Row>)
    requires IsFold(rows, c) && IsFold(rows, d)
    ensures |c| == |d|
  {
    FoldIsDeterministic(rows, c, d);
  }

  /** One projection file of one session: its complete lines, then `torn` bytes of another that
      a crash has left. */
  class BoardFile {
    var rows: seq<Row>
    var torn: nat
    const session: string

    constructor (session: string)
      ensures rows == [] && torn == 0 && this.session == session
    {
      rows, torn := [], 0;
      this.session := session;
    }

    /** board.Append: the batch is refused whole, already there, or added at the end, after a
        compaction where the file would grow too long. A torn line is cut off before the file
        is read. */
    method Append(batch: seq<Row>) returns (outcome: Outcome, ghost compacted: bool)
      modifies this
      ensures Answers(old(rows), batch, session, outcome, compacted)
      ensures outcome.Written? ==>
                && outcome.watermark == Greater(Watermark(old(rows)), Watermark(batch))
                && outcome.watermark >= Watermark(rows) && |rows| <= MAX_ROWS
                && (!compacted ==> rows == old(rows) + StampedRows(session, batch))
                && (compacted ==> exists c :: IsFold(old(rows), c) && rows == c + StampedRows(session, batch))
      ensures outcome.Unchanged? ==> rows == old(rows) && outcome.watermark == Watermark(old(rows))
      ensures outcome.Refused? ==>
                if compacted then IsFold(old(rows), rows) && outcome.watermark == Watermark(old(rows))
                else rows == old(rows) && outcome.watermark == 0
      ensures torn == if batch == [] || |batch| > MAX_ROWS || !Stampable(session, batch) then old(torn) else 0
    {
      compacted := false;
      if batch == [] {
        return Unchanged(Watermark(rows)), false;
      }
      if |batch| > MAX_ROWS {
        return Refused(0), false;
      }
      var i := 0;
      while i < |batch|
        invariant i <= |batch| && unchanged(this)
        invariant forall k :: 0 <= k < i ==> Trim(batch[k].session) == "" || Trim(batch[k].session) == session
      {
        if Trim(batch[i].session) != "" && Trim(batch[i].session) != session {
          return Refused(0), false;
        }
        i := i + 1;
      }
      torn := 0;
      var mark := Watermark(rows);
      if AlreadyThere(rows, batch) {
        return Unchanged(mark), false;
      }
      WatermarkIsMax(rows);
      var existing := rows;
      if |rows| + |batch| > MAX_ROWS {
        existing := Fold(rows);
        CompactionLowersWatermarkExactly(rows, existing);
        rows := existing;
        compacted := true;
        forall c | IsFold(old(rows), c) ensures |c| == |existing| {
          OneFoldLength(old(rows), c, existing);
        }
        if |existing| + |batch| > MAX_ROWS {
          return Refused(mark), true;
        }
      }
      var stamped := StampedRows(session, batch);
      StampKeepsNumbers(session, batch);
      WatermarkOfConcat(existing, stamped);
      rows := existing + stamped;
      if Watermark(batch) > mark {
        mark := Watermark(batch);
      }
      outcome := Written(mark);
    }
  }

  /** Stamping names the session where none is named, and changes nothing else: every row of
      an accepted batch is of this session. */
  lemma StampedExactly(session: string, rows: seq<Row>)
    ensures |StampedRows(session, rows)| == |rows|
    ensures forall i :: 0 <= i < |rows| ==>
              StampedRows(session, rows)[i] == rows[i].(session := if Trim(rows[i].session) == "" then session else rows[i].session)
    ensures Trim(session) == session && Stampable(session, rows) ==>
              forall i :: 0 <= i < |rows| ==> Trim(StampedRows(session, rows)[i].session) == session
  {
  }

  lemma {:induction false} StampKeepsNumbers(session: string, rows: seq<Row>)
    ensures Watermark(StampedRows(session, rows)) == Watermark(rows)
    decreases |rows|
  {
    if rows != [] {
      var front := rows[..|rows| - 1];
      StampKeepsNumbers(session, front);
      assert StampedRows(session, rows)[..|rows| - 1] == StampedRows(session, front);
    }
  }

  lemma {:induction false} WatermarkOfConcat(a: seq<Row>, b: seq<Row>)
    ensures Watermark(a + b) == if Watermark(b) > Watermark(a) then Watermark(b) else Watermark(a)
    decreases |b|
  {
    if b == [] {
      assert a + b == a;
    } else {
      assert (a + b)[..|a + b| - 1] == a + b[..|b| - 1];
      WatermarkOfConcat(a, b[..|b| - 1]);
    }
  }

  // ---- an append that crashes ----

  /** The batch lies whole behind the rows that were there, or behind their compaction. */
  ghost predicate WholeBehind(session: string, rows: seq<Row>, batch: seq<Row>, after: seq<Row>) {
    after == rows + StampedRows(session, batch) || exists c :: IsFold(rows, c) && after == c + StampedRows(session, batch)
  }

  /** What the append of a batch within the limits leaves. */
  ghost predicate Appends(session: string, rows: seq<Row>, batch: seq<Row>, after: seq<Row>) {
    if AlreadyThere(rows, batch) then after == rows else WholeBehind(session, rows, batch, after)
  }

  lemma PartIsRecognised(session: string, rows: seq<Row>, batch: seq<Row>, k: nat)
    requires 0 < k <= |batch|
    ensures AlreadyThere(rows + StampedRows(session, batch)[..k], batch)
  {
    var left := rows + StampedRows(session, batch)[..k];
    assert left[|rows|] == StampedRows(session, batch)[0];
  }

  /** A part of a batch looks like the whole only if the batch was there before. */
  lemma PartLooksWhole(session: string, rows: seq<Row>, batch: seq<Row>, k: nat, c: seq<Row>)
    requires 0 < k < |batch| && rows + StampedRows(session, batch)[..k] == c + StampedRows(session, batch)
    ensures AlreadyThere(rows, batch)
  {
    var left, stamped := rows + StampedRows(session, batch)[..k], StampedRows(session, batch);
    assert |c| < |rows| && left[|c|] == stamped[0];
    assert rows[|c|] == left[|c|];
  }

  /** A crash after k lines of a batch, and the batch sent again: its rows are all there exactly
      if the crash came before the first line or after the last. Anywhere else the retry finds
      the first row, takes the batch for written, and the others are lost. */
  lemma RetryIsWholeExactly(session: string, rows: seq<Row>, batch: seq<Row>, k: nat, after: seq<Row>)
    requires batch != [] && !AlreadyThere(rows, batch) && k <= |batch|
    requires Appends(session, rows + StampedRows(session, batch)[..k], batch, after)
    ensures WholeBehind(session, rows, batch, after) <==> k == 0 || k == |batch|
    ensures 0 < k < |batch| ==> after == rows + StampedRows(session, batch)[..k]
  {
    hide IsFold;
    var stamped := StampedRows(session, batch);
    if k == 0 {
      assert rows + stamped[..0] == rows;
    } else {
      PartIsRecognised(session, rows, batch, k);
      if k == |batch| {
        assert stamped[..k] == stamped;
      } else {
        forall c ensures after != c + stamped {
          if after == c + stamped {
            PartLooksWhole(session, rows, batch, k, c);
          }
        }
      }
    }
  }

  /** When the file is compacted first, the crash and the retry are those of the compacted file,
      which does not recognise the batch either. */
  lemma CompactionBringsNothingIn(rows: seq<Row>, batch: seq<Row>, c: seq<Row>)
    requires IsFold(rows, c) && !AlreadyThere(rows, batch)
    ensures !AlreadyThere(c, batch)
  {
    forall i | 0 <= i < |c| ensures c[i] in rows {
      assert c[i] in c && Live(rows, c[i]);
      LatestIsInBucket(rows, BucketOf(c[i]));
    }
  }
}
