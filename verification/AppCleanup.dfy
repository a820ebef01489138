/** Assembling and releasing the application (boot/app.go, boot/runtime.go): whatever step of
    the assembly fails, and however often shutdown is called, everything acquired is released
    once, in reverse order, the diagnostic output last. */
module AppCleanup {
  datatype Resource = Output | Runtime | Store | Lifecycle | Board

  /** The steps of the assembly that can fail, in order. */
  datatype Stage =
    | ParseFlags | ParseFrontend | OpenOutput | GuiAvailable | ParsePermission
    | NewRuntime | RetainWindow | SingleProcess | Plugins | OpenStore
    | PermissionGate | DefaultPlugin | WorkspaceRepo | Teamwork | NewApplication | BoardSink | BindProject

  function Reversed(items: seq<Resource>): seq<Resource> {
    if items == [] then [] else [items[|items| - 1]] + Reversed(items[..|items| - 1])
  }

  function Rank(stage: Stage): nat {
    match stage
    case ParseFlags => 0 case ParseFrontend => 1 case OpenOutput => 2 case GuiAvailable => 3
    case ParsePermission => 4 case NewRuntime => 5 case RetainWindow => 6 case SingleProcess => 7
    case Plugins => 8 case OpenStore => 9 case PermissionGate => 10 case DefaultPlugin => 11
    case WorkspaceRepo => 12 case Teamwork => 13 case NewApplication => 14 case BoardSink => 15
    case BindProject => 16
  }

  /** What has been opened when the assembly gets as far as a stage of this rank: everything
      that earlier stages open, the output only for the backend frontend. */
  function OpenedBefore(rank: nat, backend: bool): seq<Resource> {
    (if backend && Rank(OpenOutput) < rank then [Output] else [])
    + (if Rank(NewRuntime) < rank then [Runtime] else [])
    + (if Rank(OpenStore) < rank then [Store] else [])
    + (if Rank(NewApplication) < rank then [Lifecycle] else [])
    + (if Rank(BoardSink) < rank then [Board] else [])
  }

  class App {
    var cleanup: seq<Resource>
    var closeOutput: bool
    /** History: what was acquired and what was released, in order. */
    ghost var acquired: seq<Resource>
    ghost var released: seq<Resource>

    /** What is to be released still, in the order it was acquired. */
    ghost function Held(): seq<Resource>
      reads this
    {
      (if closeOutput then [Output] else []) + cleanup
    }

    /** Everything acquired is still registered, or has been released in reverse order. */
    ghost predicate Valid()
      reads this
    {
      && Output !in cleanup && Held() <= acquired
      && released == Reversed(acquired[|Held()|..])
    }

    ghost predicate Empty()
      reads this
    {
      cleanup == [] && !closeOutput && released == Reversed(acquired)
    }

    constructor ()
      ensures Valid() && acquired == [] && released == []
    {
      cleanup, closeOutput, acquired, released := [], false, [], [];
    }

    /** Registers what has just been opened. */
    method AddCleanup(r: Resource)
      requires r != Output && Output !in cleanup && released == [] && acquired == Held() + [r]
      modifies this
      ensures Valid() && acquired == old(acquired) && released == [] && Held() == acquired
    {
      cleanup := cleanup + [r];
      assert Held() == old(Held()) + [r];
      assert acquired[|Held()|..] == [];
    }

    /** The cleanup stack, last registered first; then the output. */
    method Close()
      requires Valid()
      modifies this
      ensures Empty() && acquired == old(acquired)
      ensures old(Empty()) ==> released == old(released)
    {
      hide Reversed;
      ghost var registered, before, out := cleanup, released, closeOutput;
      ghost var lost := acquired[|Held()|..];
      var i := |cleanup|;
      ReversedPrefix(cleanup, i);
      while i > 0
        invariant 0 <= i <= |cleanup| && cleanup == registered
        invariant acquired == old(acquired) && closeOutput == out
        invariant released + Reversed(cleanup[..i]) == before + Reversed(cleanup)
      {
        i := i - 1;
        LastFirst(cleanup, i, released);
        released := released + [cleanup[i]];
      }
      assert cleanup[..0] == [];
      assert released + [] == released;
      cleanup := [];
      if closeOutput {
        released := released + [Output];
        closeOutput := false;
      }
      AllReleased(registered, lost, out);
      assert acquired == old(Held()) + lost;
    }

    method Shutdown()
      requires Valid()
      modifies this
      ensures Valid() && Empty() && acquired == old(acquired)
      ensures old(Empty()) ==> released == old(released)
    {
      Close();
    }

    /** initRuntime: a runtime that turns out unusable is shut down before the error returns;
        a usable one is handed over open, for the caller to register. */
    method InitRuntime(fails: set<Stage>) returns (ok: bool)
      requires Valid() && released == [] && Held() == acquired
      modifies this`acquired, this`released
      ensures ok <==> NewRuntime !in fails && RetainWindow !in fails
      ensures ok ==> acquired == old(acquired) + [Runtime] && released == []
      ensures !ok ==> Valid() && released == (if NewRuntime in fails then [] else [Runtime])
      ensures !ok ==> acquired == old(acquired) + released
    {
      if NewRuntime in fails {
        assert acquired + [] == acquired;
        return false;
      }
      acquired := acquired + [Runtime];
      if RetainWindow in fails {
        released := released + [Runtime];
        assert acquired[|Held()|..] == [Runtime];
        return false;
      }
      ok := true;
    }

    /** Run: `fails` are the stages that fail; `gui` and `backend` say which frontend. */
    method Run(fails: set<Stage>, backend: bool, gui: bool) returns (ok: bool)
      requires Valid() && acquired == [] && released == []
      modifies this
      ensures ok <==> PassedTo(17, fails, backend, gui)
      ensures ok ==> Valid() && released == [] && acquired == OpenedBefore(17, backend)
      ensures !ok ==> CleanedUp(fails, backend, gui)
    {
      hide PassedTo, FirstFailure, OpenedBefore;
      NothingPassed(fails, backend, gui);
      assert OpenedBefore(0, backend) == [] by { StageOpens(ParseFlags, backend); }
      if ParseFlags in fails {
        ok := Fail(ParseFlags, fails, backend, gui);
        return;
      }
      Passes(ParseFlags, fails, backend, gui);
      if ParseFrontend in fails {
        ok := Fail(ParseFrontend, fails, backend, gui);
        return;
      }
      Passes(ParseFrontend, fails, backend, gui);
      if backend && OpenOutput in fails {
        ok := Fail(OpenOutput, fails, backend, gui);
        return;
      }
      if backend {
        closeOutput := true;
        acquired := [Output];
        assert Held() == [Output] + [] == acquired && acquired[1..] == [];
      }
      Passes(OpenOutput, fails, backend, gui);
      assert [] + [Output] == [Output];
      if gui && GuiAvailable in fails {
        ok := Fail(GuiAvailable, fails, backend, gui);
        return;
      }
      Passes(GuiAvailable, fails, backend, gui);
      if ParsePermission in fails {
        ok := Fail(ParsePermission, fails, backend, gui);
        return;
      }
      Passes(ParsePermission, fails, backend, gui);
      ok := RunRuntime(fails, backend, gui);
    }

    /** The runtime, registered as soon as it is usable. */
    method RunRuntime(fails: set<Stage>, backend: bool, gui: bool) returns (ok: bool)
      requires Valid() && released == [] && Held() == acquired == OpenedBefore(5, backend) && PassedTo(5, fails, backend, gui)
      modifies this
      ensures ok <==> PassedTo(17, fails, backend, gui)
      ensures ok ==> Valid() && released == [] && acquired == OpenedBefore(17, backend)
      ensures !ok ==> CleanedUp(fails, backend, gui)
    {
      hide PassedTo, FirstFailure, OpenedBefore;
      var runtimeOk := InitRuntime(fails);
      if !runtimeOk {
        if NewRuntime !in fails {
          Passes(NewRuntime, fails, backend, gui);
        }
        ok := Fail(if NewRuntime in fails then NewRuntime else RetainWindow, fails, backend, gui);
        return;
      }
      Passes(NewRuntime, fails, backend, gui);
      Passes(RetainWindow, fails, backend, gui);
      AddCleanup(Runtime);
      ok := RunStores(fails, backend, gui);
    }

    /** From the single-process gate to the store. */
    method RunStores(fails: set<Stage>, backend: bool, gui: bool) returns (ok: bool)
      requires Valid() && released == [] && Held() == acquired == OpenedBefore(7, backend) && PassedTo(7, fails, backend, gui)
      modifies this
      ensures ok <==> PassedTo(17, fails, backend, gui)
      ensures ok ==> Valid() && released == [] && acquired == OpenedBefore(17, backend)
      ensures !ok ==> CleanedUp(fails, backend, gui)
    {
      hide PassedTo, FirstFailure, OpenedBefore;
      if SingleProcess in fails {
        ok := Fail(SingleProcess, fails, backend, gui);
        return;
      }
      Passes(SingleProcess, fails, backend, gui);
      if Plugins in fails {
        ok := Fail(Plugins, fails, backend, gui);
        return;
      }
      Passes(Plugins, fails, backend, gui);
      if OpenStore in fails {
        ok := Fail(OpenStore, fails, backend, gui);
        return;
      }
      Passes(OpenStore, fails, backend, gui);
      acquired := acquired + [Store];
      AddCleanup(Store);
      ok := RunServices(fails, backend, gui);
    }

    /** From the permission gate to the teamwork store. */
    method RunServices(fails: set<Stage>, backend: bool, gui: bool) returns (ok: bool)
      requires Valid() && released == [] && Held() == acquired == OpenedBefore(10, backend) && PassedTo(10, fails, backend, gui)
      modifies this
      ensures ok <==> PassedTo(17, fails, backend, gui)
      ensures ok ==> Valid() && released == [] && acquired == OpenedBefore(17, backend)
      ensures !ok ==> CleanedUp(fails, backend, gui)
    {
      hide PassedTo, FirstFailure, OpenedBefore;
      if PermissionGate in fails {
        ok := Fail(PermissionGate, fails, backend, gui);
        return;
      }
      Passes(PermissionGate, fails, backend, gui);
      if DefaultPlugin in fails {
        ok := Fail(DefaultPlugin, fails, backend, gui);
        return;
      }
      Passes(DefaultPlugin, fails, backend, gui);
      if WorkspaceRepo in fails {
        ok := Fail(WorkspaceRepo, fails, backend, gui);
        return;
      }
      Passes(WorkspaceRepo, fails, backend, gui);
      if Teamwork in fails {
        ok := Fail(Teamwork, fails, backend, gui);
        return;
      }
      Passes(Teamwork, fails, backend, gui);
      ok := RunApplication(fails, backend, gui);
    }

    /** From the application to the end. */
    method RunApplication(fails: set<Stage>, backend: bool, gui: bool) returns (ok: bool)
      requires Valid() && released == [] && Held() == acquired == OpenedBefore(14, backend) && PassedTo(14, fails, backend, gui)
      modifies this
      ensures ok <==> PassedTo(17, fails, backend, gui)
      ensures ok ==> Valid() && released == [] && acquired == OpenedBefore(17, backend)
      ensures !ok ==> CleanedUp(fails, backend, gui)
    {
      hide PassedTo, FirstFailure, OpenedBefore;
      if NewApplication in fails {
        ok := Fail(NewApplication, fails, backend, gui);
        return;
      }
      Passes(NewApplication, fails, backend, gui);
      acquired := acquired + [Lifecycle];
      AddCleanup(Lifecycle);
      if BoardSink in fails {
        ok := Fail(BoardSink, fails, backend, gui);
        return;
      }
      Passes(BoardSink, fails, backend, gui);
      acquired := acquired + [Board];
      AddCleanup(Board);
      if backend && BindProject in fails {
        ok := Fail(BindProject, fails, backend, gui);
        return;
      }
      Passes(BindProject, fails, backend, gui);
      ok := true;
    }

    /** The error return: the stack is emptied first. */
    method Fail(stage: Stage, fails: set<Stage>, backend: bool, gui: bool) returns (ok: bool)
      requires Valid() && acquired == OpenedBefore(Rank(stage), backend)
      requires stage in fails && !Skipped(stage, backend, gui) && PassedTo(Rank(stage), fails, backend, gui)
      modifies this
      ensures !ok && CleanedUp(fails, backend, gui) && !PassedTo(17, fails, backend, gui)
    {
      Close();
      ok := false;
      assert FirstFailure(stage, fails, backend, gui);
    }

    /** Everything acquired before the first stage that failed has been released, in reverse. */
    ghost predicate CleanedUp(fails: set<Stage>, backend: bool, gui: bool)
      reads this
    {
      Empty() && exists stage :: FirstFailure(stage, fails, backend, gui)
                                 && acquired == OpenedBefore(Rank(stage), backend)
    }
  }

  /** The frontend decides whether a stage takes place. */
  predicate Skipped(stage: Stage, backend: bool, gui: bool) {
    (stage == OpenOutput && !backend) || (stage == GuiAvailable && !gui) || (stage == BindProject && !backend)
  }

  /** No stage of a lower rank fails. */
  predicate PassedTo(rank: nat, fails: set<Stage>, backend: bool, gui: bool) {
    forall stage :: stage in fails && Rank(stage) < rank ==> Skipped(stage, backend, gui)
  }

  predicate FirstFailure(stage: Stage, fails: set<Stage>, backend: bool, gui: bool) {
    stage in fails && !Skipped(stage, backend, gui) && PassedTo(Rank(stage), fails, backend, gui)
  }

  lemma NothingPassed(fails: set<Stage>, backend: bool, gui: bool)
    ensures PassedTo(0, fails, backend, gui)
  {
  }

  lemma RanksDiffer(a: Stage, b: Stage)
    ensures Rank(a) == Rank(b) <==> a == b
  {
  }

  /** What a stage that succeeds opens. */
  function Opens(stage: Stage, backend: bool): seq<Resource> {
    match stage
    case OpenOutput => if backend then [Output] else []
    case NewRuntime => [Runtime]
    case OpenStore => [Store]
    case NewApplication => [Lifecycle]
    case BoardSink => [Board]
    case _ => []
  }

  lemma StageOpens(stage: Stage, backend: bool)
    ensures OpenedBefore(Rank(stage) + 1, backend) == OpenedBefore(Rank(stage), backend) + Opens(stage, backend)
    ensures Opens(stage, backend) == [] ==> OpenedBefore(Rank(stage) + 1, backend) == OpenedBefore(Rank(stage), backend)
    ensures OpenedBefore(0, backend) == []
  {
  }

  lemma Passes(stage: Stage, fails: set<Stage>, backend: bool, gui: bool)
    requires PassedTo(Rank(stage), fails, backend, gui) && (stage in fails ==> Skipped(stage, backend, gui))
    ensures PassedTo(Rank(stage) + 1, fails, backend, gui)
    ensures OpenedBefore(Rank(stage) + 1, backend) == OpenedBefore(Rank(stage), backend) + Opens(stage, backend)
    ensures Opens(stage, backend) == [] ==> OpenedBefore(Rank(stage) + 1, backend) == OpenedBefore(Rank(stage), backend)
  {
    StageOpens(stage, backend);
    forall other | other in fails && Rank(other) < Rank(stage) + 1 ensures Skipped(other, backend, gui) {
      RanksDiffer(other, stage);
    }
  }

  /** Each resource once, in reverse, the output last. */
  ghost predicate OnceInReverse(acquired: seq<Resource>, released: seq<Resource>, backend: bool) {
    && released == Reversed(acquired) && multiset(released) == multiset(acquired)
    && (forall r :: multiset(released)[r] <= 1)
    && (backend && acquired != [] ==> released != [] && released[|released| - 1] == Output)
  }

  /** The whole story of one run: whichever stage fails first, and however many more times
      shutdown is called, each resource opened until then has been released once, in reverse,
      the output last. */
  method RunAndShutdown(fails: set<Stage>, backend: bool, gui: bool, more: nat) returns (app: App, ok: bool)
    ensures ok <==> PassedTo(17, fails, backend, gui)
    ensures OnceInReverse(app.acquired, app.released, backend)
    ensures ok ==> app.acquired == (if backend then [Output] else []) + [Runtime, Store, Lifecycle, Board]
    ensures !ok ==> exists stage :: FirstFailure(stage, fails, backend, gui)
                                    && app.acquired == OpenedBefore(Rank(stage), backend)
  {
    hide PassedTo, FirstFailure, OpenedBefore, Reversed, OnceInReverse;
    app := new App();
    ok := app.Run(fails, backend, gui);
    app.Shutdown();
    ghost var released, acquired := app.released, app.acquired;
    if ok {
      OpenedInAll(backend);
      OpenedAndReversed(17, backend);
    } else {
      ghost var stage :| FirstFailure(stage, fails, backend, gui) && acquired == OpenedBefore(Rank(stage), backend);
      OpenedAndReversed(Rank(stage), backend);
    }
    var i := 0;
    while i < more
      invariant app.Valid() && app.Empty() && app.released == released && app.acquired == acquired
    {
      app.Shutdown();
      i := i + 1;
    }
  }

  lemma OpenedAndReversed(rank: nat, backend: bool)
    ensures OnceInReverse(OpenedBefore(rank, backend), Reversed(OpenedBefore(rank, backend)), backend)
  {
    hide OpenedBefore, Reversed;
    ReversedIsPermutation(OpenedBefore(rank, backend));
    OutputIsFirst(rank, backend);
    OpenedOnce(rank, backend);
  }

  lemma OpenedInAll(backend: bool)
    ensures OpenedBefore(17, backend) == (if backend then [Output] else []) + [Runtime, Store, Lifecycle, Board]
  {
  }

  lemma OpenedOnce(rank: nat, backend: bool)
    ensures forall r :: multiset(OpenedBefore(rank, backend))[r] <= 1
  {
  }

  lemma OutputIsFirst(rank: nat, backend: bool)
    ensures backend && OpenedBefore(rank, backend) != [] ==> OpenedBefore(rank, backend)[0] == Output
  {
  }

  lemma LastFirst(items: seq<Resource>, i: nat, before: seq<Resource>)
    requires i < |items|
    ensures before + Reversed(items[..i + 1]) == (before + [items[i]]) + Reversed(items[..i])
  {
    assert items[..i + 1][..i] == items[..i];
  }

  lemma ReversedPrefix(items: seq<Resource>, n: nat)
    requires n == |items|
    ensures items[..n] == items
  {
  }

  /** What was lost on the way, then the stack, then the output: everything in reverse. */
  lemma AllReleased(items: seq<Resource>, lost: seq<Resource>, out: bool)
    ensures Reversed([]) == []
    ensures Reversed((if out then [Output] else []) + items + lost)
         == Reversed(lost) + Reversed(items) + if out then [Output] else []
  {
    var first: seq<Resource> := if out then [Output] else [];
    ReversedConcat(first + items, lost);
    ReversedConcat(first, items);
    assert out ==> [Output][..0] == [] && Reversed([Output]) == [Output];
    assert Reversed(lost) + (Reversed(items) + Reversed(first)) == Reversed(lost) + Reversed(items) + Reversed(first);
  }

  lemma {:induction false} ReversedConcat(a: seq<Resource>, b: seq<Resource>)
    ensures Reversed(a + b) == Reversed(b) + Reversed(a)
    decreases |b|
  {
    if b == [] {
      assert a + b == a;
    } else {
      assert (a + b)[..|a + b| - 1] == a + b[..|b| - 1];
      ReversedConcat(a, b[..|b| - 1]);
    }
  }

  /** Reversal releases each resource as often as it was acquired. */
  lemma {:induction false} ReversedIsPermutation(items: seq<Resource>)
    ensures multiset(Reversed(items)) == multiset(items) && |Reversed(items)| == |items|
    ensures forall i :: 0 <= i < |items| ==> Reversed(items)[i] == items[|items| - 1 - i]
    decreases |items|
  {
    if items != [] {
      var front, last := items[..|items| - 1], items[|items| - 1];
      ReversedIsPermutation(front);
      LastApart(items);
      var rest := Reversed(front);
      assert Reversed(items) == [last] + rest;
      hide Reversed;
      FirstApart(last, rest);
      forall i | 0 <= i < |items| ensures Reversed(items)[i] == items[|items| - 1 - i] {
        assert i > 0 ==> Reversed(items)[i] == rest[i - 1] == front[|items| - 1 - i];
      }
    }
  }

  lemma FirstApart(first: Resource, rest: seq<Resource>)
    ensures multiset([first] + rest) == multiset{first} + multiset(rest)
  {
  }

  lemma LastApart(items: seq<Resource>)
    requires items != []
    ensures items == items[..|items| - 1] + [items[|items| - 1]]
    ensures multiset(items) == multiset(items[..|items| - 1]) + multiset{items[|items| - 1]}
  {
    assert items == items[..|items| - 1] + [items[|items| - 1]];
  }
}
