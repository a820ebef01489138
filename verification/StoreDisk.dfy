/** The disk under a channel, one primitive file operation at a time, and the reaper that
    both channels run before they append (store/message_rows.go, store/structural_events.go). */
module StoreDisk {
  import opened ShardStore

  lemma WithoutOneMore(files: map<Name, File>, order: seq<Name>, name: Name)
    ensures Without(files, order + [name]) == Without(files, order) - {name}
    ensures Removals(order + [name]) == Removals(order) + [Op.Remove(name)]
  {
  }

  /** Of the entries seen so far, exactly the unlisted ones are in `order`. */
  ghost predicate Sorted(files: map<Name, File>, shards: seq<Shard>, entries: set<Name>, order: seq<Name>) {
    && entries <= files.Keys
    && forall name :: name in order <==> name in files && name !in entries && !Listed(shards, name)
  }

  lemma SortOne(files: map<Name, File>, shards: seq<Shard>, entries: set<Name>, order: seq<Name>, name: Name)
    requires Sorted(files, shards, entries, order) && name in entries
    ensures Sorted(files, shards, entries - {name}, if Listed(shards, name) then order else order + [name])
  {
  }

  /** `trace` records every primitive, so that what a method guarantees covers each state the
      disk passes through, and with it every crash point. */
  class Disk {
    var files: map<Name, File>
    var head: Head
    ghost const start: Store
    ghost var trace: seq<Op>

    ghost function Contents(): Store
      reads this
    {
      Store(files, head)
    }

    ghost predicate Valid()
      reads this
    {
      Contents() == After(start, trace)
    }

    constructor (files: map<Name, File>, head: Head)
      ensures Valid() && Contents() == Store(files, head) && trace == []
    {
      this.files, this.head := files, head;
      this.start := Store(files, head);
      trace := [];
    }

    method Remove(name: Name)
      requires Valid()
      modifies this
      ensures Valid() && trace == old(trace) + [Op.Remove(name)]
      ensures Contents() == Do(old(Contents()), Op.Remove(name))
    {
      files := files - {name};
      trace := trace + [Op.Remove(name)];
    }

    method DropTorn(name: Name)
      requires Valid()
      modifies this
      ensures Valid() && trace == old(trace) + [Op.DropTorn(name)]
      ensures Contents() == Do(old(Contents()), Op.DropTorn(name))
    {
      files := files[name := Content(files, name).(torn := 0)];
      trace := trace + [Op.DropTorn(name)];
    }

    method KeepRows(name: Name, n: nat)
      requires Valid()
      modifies this
      ensures Valid() && trace == old(trace) + [Op.KeepRows(name, n)]
      ensures Contents() == Do(old(Contents()), Op.KeepRows(name, n))
    {
      files := files[name := File(Prefix(Content(files, name).rows, n), 0)];
      trace := trace + [Op.KeepRows(name, n)];
    }

    /** Appends whole lines, after cutting a torn one, and reports the size on disk. */
    method Append(name: Name, rows: seq<Row>) returns (size: nat)
      requires Valid()
      modifies this
      ensures Valid() && trace == old(trace) + [Op.Append(name, rows)]
      ensures Contents() == Do(old(Contents()), Op.Append(name, rows))
      ensures size == Size(Content(files, name))
    {
      files := files[name := File(Content(files, name).rows + rows, 0)];
      trace := trace + [Op.Append(name, rows)];
      size := Size(files[name]);
    }

    method Publish(head: Head)
      requires Valid()
      modifies this
      ensures Valid() && trace == old(trace) + [Op.Publish(head)]
      ensures Contents() == Do(old(Contents()), Op.Publish(head))
    {
      this.head := head;
      trace := trace + [Op.Publish(head)];
    }

    /** Deletes every file the head does not list, in the order the directory yields them. */
    method RemoveUnlisted() returns (ghost order: seq<Name>)
      requires Valid()
      modifies this
      ensures Valid() && Lists(order, old(Contents()))
      ensures trace == old(trace) + Removals(order) && head == old(head)
      ensures files == Without(old(files), order)
    {
      hide After;
      order := [];
      var entries := files.Keys;
      assert Without(files, []) == files && trace + Removals([]) == trace;
      while entries != {}
        invariant Valid() && head == old(head)
        invariant trace == old(trace) + Removals(order)
        invariant files == Without(old(files), order)
        invariant Sorted(old(files), head.shards, entries, order)
        decreases |entries|
      {
        var name :| name in entries;
        SortOne(old(files), head.shards, entries, order, name);
        entries := entries - {name};
        if !Listed(head.shards, name) {
          Remove(name);
          WithoutOneMore(old(files), order, name);
          order := order + [name];
        }
      }
    }

    /** Cuts the last listed file back to its published rows. */
    method RepairTail()
      requires Valid() && head.shards != []
      modifies this
      ensures Valid() && head == old(head)
      ensures trace == old(trace) + TailRepair(old(Contents()), false)
    {
      hide After;
      var name := Last(head.shards).name;
      DropTorn(name);
      var rows := files[name].rows;
      if rows != [] && Last(rows).id > head.lastId {
        var keep := 0;
        while keep < |rows| && rows[keep].id <= head.lastId
          invariant keep <= |rows|
          invariant Leading(rows, head.lastId) == keep + Leading(rows[keep..], head.lastId)
        {
          assert rows[keep..][1..] == rows[keep + 1..];
          keep := keep + 1;
        }
        KeepRows(name, keep);
      }
    }

    /** Removes every trace of unpublished work before a commit appends anything. */
    method Reap(trusted: bool) returns (ghost order: seq<Name>)
      requires Valid() && WellFormed(Contents()) && (trusted ==> TailExact(Contents()))
      modifies this
      ensures Valid() && Lists(order, old(Contents()))
      ensures trace == old(trace) + Reaping(old(Contents()), order, trusted)
      ensures Clean(Contents()) && head == old(head) && Log(Contents()) == Log(old(Contents()))
    {
      hide WellFormed, Log, Clean, After;
      order := RemoveUnlisted();
      ghost var removed := Contents();
      if head.shards != [] {
        assert Listed(head.shards, Last(head.shards).name) by { ListedTail(removed); }
        assert Content(files, Last(head.shards).name) == Content(old(files), Last(head.shards).name);
        if !trusted {
          RepairTail();
        }
      }
      ghost var ops := Reaping(old(Contents()), order, trusted);
      assert trace == old(trace) + ops;
      AfterConcat(start, old(trace), ops);
      ReapingCleans(old(Contents()), order, trusted);
    }
  }
}
