/** Walking the add-on tree and running `update_versions` on every TOC file
    (`process_files` in toc_interface_updater/file_processor.py). The walk is
    the list of (directory, file name) entries `os.walk(".")` yields, in
    the order it yields them. */
module Processing {
  import opened Wrappers
  import opened PyStr
  import opened Types
  import opened Catalog
  import opened VersionClient
  import opened FileProcessor
  import opened Update

  /** A file `os.walk` yields: its directory and its name. */
  datatype Entry = Entry(root: string, name: string)

  /** One call of `update_versions`: the path and the pass it runs. */
  datatype Run = Run(path: string, pass: Pass)

  /** The calls made for one walked file. */
  function RunsFor(e: Entry, flavor: FullProduct): seq<Run> {
    var path := JoinPath(e.root, e.name);
    var passes := PassesFor(e.name, path, flavor);
    seq(|passes|, k requires 0 <= k < |passes| => Run(path, passes[k]))
  }

  /** The calls made for each walked file. */
  type Planner = Entry -> seq<Run>

  function Plan(flavor: FullProduct): Planner {
    (e: Entry) => RunsFor(e, flavor)
  }

  /** `plan` is `Plan(flavor)`. */
  ghost predicate Plans(plan: Planner, flavor: FullProduct) {
    forall e {:trigger RunsFor(e, flavor)} :: plan(e) == RunsFor(e, flavor)
  }

  /** The calls `process_files` makes for a walk, in order, when none fails. */
  function Schedule(walk: seq<Entry>, plan: Planner): seq<Run>
    decreases |walk|
  {
    if |walk| == 0 then [] else Schedule(walk[..|walk| - 1], plan) + plan(walk[|walk| - 1])
  }

  /** The files and the `modified_files` list. */
  datatype State = State(files: map<string, string>, modified: seq<string>)

  /** Where a sequence of calls leaves the state, and the exception that
      ended it, if one did. */
  datatype Outcome = Outcome(state: State, error: Option<PyError>)

  /** One call of `update_versions` on a state. */
  function Step(st: State, run: Run, entries: map<Product, string>, fetch: Product -> Option<string>,
                beta: bool, test: bool, orders: Orders): Result<State>
  {
    if run.path !in st.files then Raise(FileNotFoundError)
    else
      var text := Normalize(st.files[run.path]);
      match UpdatedText(text, entries, fetch, run.pass.product, run.pass.multi, beta, test, orders)
      case Raise(e) => Raise(e)
      case Ok(updated) =>
        Ok(if updated == text then st else State(st.files[run.path := updated], st.modified + [run.path]))
  }

  /** The call iterates its own version sets, when it reads its file. */
  ghost predicate Iterates(st: State, run: Run, entries: map<Product, string>, fetch: Product -> Option<string>,
                           beta: bool, test: bool, orders: Orders)
  {
    run.path in st.files ==>
      IteratesSets(Normalize(st.files[run.path]), entries, fetch, run.pass.product, run.pass.multi, beta, test, orders)
  }

  /** What one call does to the state, and what holds of its orders. */
  type Stepper = (State, Run, Orders) -> Result<State>
  type Checker = (State, Run, Orders) -> bool

  /** `Step` and `Iterates` for a given cache, service and options. */
  function UpdateStep(entries: map<Product, string>, fetch: Product -> Option<string>, beta: bool, test: bool): Stepper {
    (st: State, run: Run, orders: Orders) => Step(st, run, entries, fetch, beta, test, orders)
  }

  ghost function UpdateIterates(entries: map<Product, string>, fetch: Product -> Option<string>, beta: bool, test: bool): Checker {
    (st: State, run: Run, orders: Orders) => Iterates(st, run, entries, fetch, beta, test, orders)
  }

  /** `step` and `iterates` are `Step` and `Iterates`. */
  ghost predicate Models(step: Stepper, iterates: Checker, entries: map<Product, string>,
                         fetch: Product -> Option<string>, beta: bool, test: bool)
  {
    (forall st, run, orders {:trigger Step(st, run, entries, fetch, beta, test, orders)} ::
       step(st, run, orders) == Step(st, run, entries, fetch, beta, test, orders))
    && (forall st, run, orders {:trigger Iterates(st, run, entries, fetch, beta, test, orders)} ::
       iterates(st, run, orders) == Iterates(st, run, entries, fetch, beta, test, orders))
  }

  lemma UpdateStepModels(entries: map<Product, string>, fetch: Product -> Option<string>, beta: bool, test: bool)
    ensures Models(UpdateStep(entries, fetch, beta, test), UpdateIterates(entries, fetch, beta, test), entries, fetch, beta, test)
  {
  }

  /** The calls `runs` made one after the other, stopping at the first
      exception; `orders[k]` holds the set iteration orders of call `k`. */
  function Runs(st: State, runs: seq<Run>, orders: seq<Orders>, step: Stepper): Outcome
    requires |orders| == |runs|
    decreases |runs|
  {
    if |runs| == 0 then Outcome(st, None)
    else
      var n := |runs| - 1;
      var before := Runs(st, runs[..n], orders[..n], step);
      if before.error.Some? then before
      else
        match step(before.state, runs[n], orders[n])
        case Raise(e) => Outcome(before.state, Some(e))
        case Ok(next) => Outcome(next, None)
  }

  /** Every call that is reached iterates its own version sets. */
  ghost predicate RunsIterate(st: State, runs: seq<Run>, orders: seq<Orders>, step: Stepper, iterates: Checker)
    requires |orders| == |runs|
    decreases |runs|
  {
    |runs| == 0 ||
    var n := |runs| - 1;
    var before := Runs(st, runs[..n], orders[..n], step);
    RunsIterate(st, runs[..n], orders[..n], step, iterates)
    && (before.error.None? ==> iterates(before.state, runs[n], orders[n]))
  }

  /** One more call: it is made unless an earlier one raised. */
  lemma RunsSnoc(st: State, runs: seq<Run>, orders: seq<Orders>, step: Stepper, iterates: Checker, run: Run, o: Orders)
    requires |orders| == |runs|
    ensures var before := Runs(st, runs, orders, step);
      Runs(st, runs + [run], orders + [o], step)
        == if before.error.Some? then before
           else match step(before.state, run, o)
                case Raise(e) => Outcome(before.state, Some(e))
                case Ok(next) => Outcome(next, None)
    ensures RunsIterate(st, runs + [run], orders + [o], step, iterates)
      == (RunsIterate(st, runs, orders, step, iterates)
          && (Runs(st, runs, orders, step).error.None? ==> iterates(Runs(st, runs, orders, step).state, run, o)))
  {
    assert (runs + [run])[..|runs|] == runs && (orders + [o])[..|runs|] == orders;
  }

  /** One call of `update_versions` does what `Step` says, for any cache
      that answers as the current one does. */
  method UpdateRun(run: Run, beta: bool, test: bool, cache: VersionCache, fetch: Product -> Option<string>,
                   disk: Disk, modified: ModifiedFiles, ghost entries: map<Product, string>)
    returns (r: Result<bool>, ghost o: Orders)
    requires SameAnswers(cache.entries, entries, fetch)
    modifies cache, disk, modified
    ensures SameAnswers(cache.entries, entries, fetch)
    ensures var before := State(old(disk.files), old(modified.paths));
      Iterates(before, run, entries, fetch, beta, test, o)
      && match Step(before, run, entries, fetch, beta, test, o)
         case Raise(e) => r == Raise(e) && disk.files == before.files && modified.paths == before.modified
         case Ok(next) => r.Ok? && disk.files == next.files && modified.paths == next.modified
  {
    ghost var before := State(disk.files, modified.paths);
    ghost var current := cache.entries;
    r, o := UpdateVersions(run.path, run.pass.product, run.pass.multi, beta, test, cache, fetch, disk, modified);
    if run.path in before.files {
      UpdatedTextSameAnswers(Normalize(before.files[run.path]), current, entries, fetch,
                             run.pass.product, run.pass.multi, beta, test, o);
    }
  }

  /** One call of `update_versions`, extending the calls made so far. */
  method RunOnce(run: Run, beta: bool, test: bool, cache: VersionCache, fetch: Product -> Option<string>,
                 disk: Disk, modified: ModifiedFiles, ghost step: Stepper, ghost iterates: Checker,
                 ghost start: State, ghost entries: map<Product, string>, ghost done: seq<Run>, ghost orders: seq<Orders>)
    returns (error: Option<PyError>, ghost orders': seq<Orders>)
    requires Models(step, iterates, entries, fetch, beta, test)
    requires |orders| == |done|
    requires SameAnswers(cache.entries, entries, fetch)
    requires Runs(start, done, orders, step) == Outcome(State(disk.files, modified.paths), None)
    requires RunsIterate(start, done, orders, step, iterates)
    modifies cache, disk, modified
    ensures |orders'| == |done| + 1
    ensures SameAnswers(cache.entries, entries, fetch)
    ensures Runs(start, done + [run], orders', step) == Outcome(State(disk.files, modified.paths), error)
    ensures RunsIterate(start, done + [run], orders', step, iterates)
  {
    ghost var before := State(disk.files, modified.paths);
    var r, o := UpdateRun(run, beta, test, cache, fetch, disk, modified, entries);
    assert step(before, run, o) == Step(before, run, entries, fetch, beta, test, o);
    assert iterates(before, run, o) == Iterates(before, run, entries, fetch, beta, test, o);
    RunsSnoc(start, done, orders, step, iterates, run, o);
    orders' := orders + [o];
    error := if r.Raise? then Some(r.error) else None;
  }

  /** Walking one more file appends its calls. */
  lemma ScheduleStep(walk: seq<Entry>, i: nat, plan: Planner)
    requires i < |walk|
    ensures Schedule(walk[..i + 1], plan) == Schedule(walk[..i], plan) + plan(walk[i])
  {
    assert walk[..i + 1][..i] == walk[..i];
  }

  /** The calls made for the first walked files come first. */
  lemma {:induction false} SchedulePrefix(walk: seq<Entry>, i: nat, plan: Planner)
    requires i <= |walk|
    ensures Schedule(walk[..i], plan) <= Schedule(walk, plan)
    decreases |walk| - i
  {
    if i < |walk| {
      SchedulePrefix(walk, i + 1, plan);
      ScheduleStep(walk, i, plan);
    } else {
      assert walk[..i] == walk;
    }
  }

  /** The calls planned for a file whose name does not end with `.toc`,
      for one the suffix pattern does not match, and for one it matches. */
  lemma PlanSkips(plan: Planner, e: Entry, flavor: FullProduct)
    requires Plans(plan, flavor) && !EndsWith(e.name, ".toc")
    ensures plan(e) == []
  {
    assert plan(e) == RunsFor(e, flavor);
  }

  lemma PlanUnmatched(plan: Planner, e: Entry, flavor: FullProduct)
    requires Plans(plan, flavor) && EndsWith(e.name, ".toc") && !MatchesSuffixPattern(JoinPath(e.root, e.name))
    ensures var path := JoinPath(e.root, e.name);
      plan(e) == [Run(path, Pass(flavor, false)), Run(path, Pass(WowClassic, true)), Run(path, Pass(WowClassicEra, true))]
  {
    assert plan(e) == RunsFor(e, flavor);
  }

  lemma PlanMatched(plan: Planner, e: Entry, flavor: FullProduct)
    requires Plans(plan, flavor) && EndsWith(e.name, ".toc") && MatchesSuffixPattern(JoinPath(e.root, e.name))
    ensures var path := JoinPath(e.root, e.name);
      plan(e) == [Run(path, ProductForFile(path, flavor))]
  {
    assert plan(e) == RunsFor(e, flavor);
  }

  /** The body of the walk for one file: no call unless its name ends with
      `.toc`; for a path the suffix pattern does not match, the default
      flavor alone and then classic and classic era with one directive per
      flavor; otherwise the flavor its name picks. `ran` calls were made,
      all of them unless one raised. */
  method ProcessEntry(entry: Entry, flavor: FullProduct, beta: bool, test: bool, cache: VersionCache,
                      fetch: Product -> Option<string>, disk: Disk, modified: ModifiedFiles,
                      ghost step: Stepper, ghost iterates: Checker, ghost plan: Planner,
                      ghost start: State, ghost entries: map<Product, string>, ghost done: seq<Run>, ghost orders: seq<Orders>)
    returns (error: Option<PyError>, ghost ran: nat, ghost orders': seq<Orders>)
    requires Models(step, iterates, entries, fetch, beta, test) && Plans(plan, flavor)
    requires |orders| == |done|
    requires SameAnswers(cache.entries, entries, fetch)
    requires Runs(start, done, orders, step) == Outcome(State(disk.files, modified.paths), None)
    requires RunsIterate(start, done, orders, step, iterates)
    modifies cache, disk, modified
    ensures ran <= |plan(entry)| && |orders'| == |done| + ran
    ensures error.None? ==> ran == |plan(entry)|
    ensures SameAnswers(cache.entries, entries, fetch)
    ensures Runs(start, done + plan(entry)[..ran], orders', step) == Outcome(State(disk.files, modified.paths), error)
    ensures RunsIterate(start, done + plan(entry)[..ran], orders', step, iterates)
  {
    error, ran, orders' := None, 0, orders;
    if !EndsWith(entry.name, ".toc") {
      PlanSkips(plan, entry, flavor);
      assert done + plan(entry)[..0] == done;
      return;
    }
    var path := JoinPath(entry.root, entry.name);
    if !MatchesSuffixPattern(path) {
      PlanUnmatched(plan, entry, flavor);
      error, ran, orders' := ProcessUnmatched(path, flavor, beta, test, cache, fetch, disk, modified,
                                              step, iterates, start, entries, done, orders, plan(entry));
    } else {
      var run := Run(path, ProductForFile(path, flavor));
      PlanMatched(plan, entry, flavor);
      assert [run][..1] == [run];
      error, orders' := RunOnce(run, beta, test, cache, fetch, disk, modified, step, iterates, start, entries, done, orders');
      ran := 1;
    }
  }

  /** A file the suffix pattern does not match: updated for the default
      flavor with one directive, then for classic and classic era with one
      directive per flavor, stopping at the first exception. */
  method ProcessUnmatched(path: string, flavor: FullProduct, beta: bool, test: bool, cache: VersionCache,
                          fetch: Product -> Option<string>, disk: Disk, modified: ModifiedFiles,
                          ghost step: Stepper, ghost iterates: Checker, ghost start: State,
                          ghost entries: map<Product, string>, ghost done: seq<Run>, ghost orders: seq<Orders>,
                          ghost runs: seq<Run>)
    returns (error: Option<PyError>, ghost ran: nat, ghost orders': seq<Orders>)
    requires Models(step, iterates, entries, fetch, beta, test)
    requires runs == [Run(path, Pass(flavor, false)), Run(path, Pass(WowClassic, true)), Run(path, Pass(WowClassicEra, true))]
    requires |orders| == |done|
    requires SameAnswers(cache.entries, entries, fetch)
    requires Runs(start, done, orders, step) == Outcome(State(disk.files, modified.paths), None)
    requires RunsIterate(start, done, orders, step, iterates)
    modifies cache, disk, modified
    ensures 1 <= ran <= 3 && |orders'| == |done| + ran
    ensures error.None? ==> ran == 3
    ensures SameAnswers(cache.entries, entries, fetch)
    ensures Runs(start, done + runs[..ran], orders', step) == Outcome(State(disk.files, modified.paths), error)
    ensures RunsIterate(start, done + runs[..ran], orders', step, iterates)
  {
    var first := Run(path, Pass(flavor, false));
    var second := Run(path, Pass(WowClassic, true));
    var third := Run(path, Pass(WowClassicEra, true));
    ThreePrefixes(done, runs);
    error, orders' := RunOnce(first, beta, test, cache, fetch, disk, modified, step, iterates, start, entries, done, orders);
    ran := 1;
    if error.Some? {
      return;
    }
    error, orders' := RunOnce(second, beta, test, cache, fetch, disk, modified, step, iterates, start, entries, done + [first], orders');
    ran := 2;
    if error.Some? {
      return;
    }
    error, orders' := RunOnce(third, beta, test, cache, fetch, disk, modified, step, iterates, start, entries, done + runs[..2], orders');
    ran := 3;
  }

  /** The calls made so far after one, two and three of three calls. */
  lemma ThreePrefixes(done: seq<Run>, runs: seq<Run>)
    requires |runs| == 3
    ensures done + runs[..1] == done + [runs[0]]
    ensures done + runs[..2] == done + [runs[0]] + [runs[1]]
    ensures done + runs[..3] == done + runs[..2] + [runs[2]]
  {
    assert runs[..2] == [runs[0]] + [runs[1]];
    assert runs[..3] == runs[..2] + [runs[2]];
  }

  /** The loop of `process_files` over the walk, for any `step` that is
      `update_versions`. */
  method Walk(flavor: FullProduct, beta: bool, test: bool, cache: VersionCache,
              fetch: Product -> Option<string>, disk: Disk, modified: ModifiedFiles, walk: seq<Entry>,
              ghost step: Stepper, ghost iterates: Checker, ghost plan: Planner)
    returns (r: Result<seq<string>>, ghost orders: seq<Orders>)
    requires Models(step, iterates, cache.entries, fetch, beta, test) && Plans(plan, flavor)
    requires modified.paths == []
    modifies cache, disk, modified
    ensures SameAnswers(cache.entries, old(cache.entries), fetch)
    ensures |orders| <= |Schedule(walk, plan)|
    ensures var runs := Schedule(walk, plan)[..|orders|];
      var out := Runs(State(old(disk.files), []), runs, orders, step);
      RunsIterate(State(old(disk.files), []), runs, orders, step, iterates)
      && disk.files == out.state.files
      && (out.error.Some? ==> r == Raise(out.error.value))
      && (out.error.None? ==> |orders| == |Schedule(walk, plan)| && r == Ok(out.state.modified))
  {
    ghost var start := State(disk.files, []);
    ghost var entries := cache.entries;
    ghost var done: seq<Run> := [];
    orders := [];
    var error: Option<PyError> := None;
    var i := 0;
    while i < |walk| && error.None?
      invariant 0 <= i <= |walk|
      invariant done <= Schedule(walk, plan) && |orders| == |done|
      invariant error.None? ==> done == Schedule(walk[..i], plan)
      invariant SameAnswers(cache.entries, entries, fetch)
      invariant Runs(start, done, orders, step) == Outcome(State(disk.files, modified.paths), error)
      invariant RunsIterate(start, done, orders, step, iterates)
    {
      SchedulePrefix(walk, i + 1, plan);
      ScheduleStep(walk, i, plan);
      ghost var ran;
      error, ran, orders := ProcessEntry(walk[i], flavor, beta, test, cache, fetch, disk, modified, step, iterates, plan,
                                         start, entries, done, orders);
      done := done + plan(walk[i])[..ran];
      i := i + 1;
    }
    if error.None? {
      assert walk[..i] == walk;
    }
    assert Schedule(walk, plan)[..|orders|] == done;
    r := if error.Some? then Raise(error.value) else Ok(modified.paths);
  }

  /** `process_files`: every file whose name ends with `.toc` is updated,
      an unmatched path for the default flavor alone and then for classic
      and classic era with one directive per flavor, a matched path once
      for the flavor its name picks. The first exception ends the walk;
      otherwise the paths written are returned, in the order written. */
  method ProcessFiles(flavor: FullProduct, beta: bool, test: bool, cache: VersionCache,
                      fetch: Product -> Option<string>, disk: Disk, walk: seq<Entry>)
    returns (r: Result<seq<string>>, ghost orders: seq<Orders>)
    modifies cache, disk
    ensures SameAnswers(cache.entries, old(cache.entries), fetch)
    ensures |orders| <= |Schedule(walk, Plan(flavor))|
    ensures var runs := Schedule(walk, Plan(flavor))[..|orders|];
      var step := UpdateStep(old(cache.entries), fetch, beta, test);
      var out := Runs(State(old(disk.files), []), runs, orders, step);
      RunsIterate(State(old(disk.files), []), runs, orders, step, UpdateIterates(old(cache.entries), fetch, beta, test))
      && disk.files == out.state.files
      && (out.error.Some? ==> r == Raise(out.error.value))
      && (out.error.None? ==> |orders| == |Schedule(walk, Plan(flavor))| && r == Ok(out.state.modified))
  {
    var modified := new ModifiedFiles();
    UpdateStepModels(cache.entries, fetch, beta, test);
    r, orders := Walk(flavor, beta, test, cache, fetch, disk, modified, walk,
                      UpdateStep(cache.entries, fetch, beta, test), UpdateIterates(cache.entries, fetch, beta, test), Plan(flavor));
  }

  // ---------------------------------------------------------------------------
  // What the walk may touch

  /** The paths of some calls. */
  function Paths(runs: seq<Run>): set<string> {
    set k | 0 <= k < |runs| :: runs[k].path
  }

  /** A call that returns leaves every other file alone, creates none, and
      records its own path or nothing. */
  ghost predicate Framed(step: Stepper) {
    forall st, run, orders | step(st, run, orders).Ok? ::
      var next := step(st, run, orders).value;
      next.files.Keys == st.files.Keys
      && (forall p | p in st.files && p != run.path :: next.files[p] == st.files[p])
      && (next.modified == st.modified || next.modified == st.modified + [run.path])
  }

  /** `update_versions` is framed so. */
  lemma UpdateStepFramed(entries: map<Product, string>, fetch: Product -> Option<string>, beta: bool, test: bool)
    ensures Framed(UpdateStep(entries, fetch, beta, test))
  {
    var step := UpdateStep(entries, fetch, beta, test);
    forall st, run, orders | step(st, run, orders).Ok?
      ensures var next := step(st, run, orders).value;
        next.files.Keys == st.files.Keys
        && (forall p | p in st.files && p != run.path :: next.files[p] == st.files[p])
        && (next.modified == st.modified || next.modified == st.modified + [run.path])
    {
      assert step(st, run, orders) == Step(st, run, entries, fetch, beta, test, orders);
      StepFramed(st, run, entries, fetch, beta, test, orders);
    }
  }

  /** One call of `update_versions` is framed so. */
  lemma StepFramed(st: State, run: Run, entries: map<Product, string>, fetch: Product -> Option<string>,
                   beta: bool, test: bool, orders: Orders)
    requires Step(st, run, entries, fetch, beta, test, orders).Ok?
    ensures var next := Step(st, run, entries, fetch, beta, test, orders).value;
      next.files.Keys == st.files.Keys
      && (forall p | p in st.files && p != run.path :: next.files[p] == st.files[p])
      && (next.modified == st.modified || next.modified == st.modified + [run.path])
  {
  }

  /** The paths of one more call. */
  lemma PathsSnoc(runs: seq<Run>)
    requires |runs| > 0
    ensures Paths(runs) == Paths(runs[..|runs| - 1]) + {runs[|runs| - 1].path}
  {
    var n := |runs| - 1;
    forall p | p in Paths(runs) ensures p in Paths(runs[..n]) + {runs[n].path} {
      var k :| 0 <= k < |runs| && runs[k].path == p;
      if k < n {
        assert runs[..n][k].path == p;
      }
    }
    forall p | p in Paths(runs[..n]) ensures p in Paths(runs) {
      var k :| 0 <= k < n && runs[..n][k].path == p;
      assert runs[k].path == p;
    }
  }

  /** Framed calls write only their own files, create none, and record
      only their own paths, after what was recorded before. */
  lemma {:induction false} RunsFrame(st: State, runs: seq<Run>, orders: seq<Orders>, step: Stepper)
    requires |orders| == |runs| && Framed(step)
    ensures var out := Runs(st, runs, orders, step).state;
      out.files.Keys == st.files.Keys
      && (forall p | p in st.files && p !in Paths(runs) :: out.files[p] == st.files[p])
      && st.modified <= out.modified
      && (forall k | |st.modified| <= k < |out.modified| :: out.modified[k] in Paths(runs))
    decreases |runs|
  {
    if |runs| > 0 {
      var n := |runs| - 1;
      RunsFrame(st, runs[..n], orders[..n], step);
      PathsSnoc(runs);
    }
  }

  /** The paths of two runs of calls together. */
  lemma PathsAppend(a: seq<Run>, b: seq<Run>)
    ensures Paths(a + b) == Paths(a) + Paths(b)
  {
    forall p | p in Paths(a + b) ensures p in Paths(a) + Paths(b) {
      var k :| 0 <= k < |a + b| && (a + b)[k].path == p;
      if k < |a| {
        assert a[k].path == p;
      } else {
        assert b[k - |a|].path == p;
      }
    }
    forall p | p in Paths(a) + Paths(b) ensures p in Paths(a + b) {
      if p in Paths(a) {
        var k :| 0 <= k < |a| && a[k].path == p;
        assert (a + b)[k].path == p;
      } else {
        var k :| 0 <= k < |b| && b[k].path == p;
        assert (a + b)[|a| + k].path == p;
      }
    }
  }

  /** The calls for a file are at its joined path, and only for a `.toc`
      name. */
  lemma RunsForPaths(e: Entry, flavor: FullProduct)
    ensures forall p | p in Paths(RunsFor(e, flavor)) :: EndsWith(e.name, ".toc") && p == JoinPath(e.root, e.name)
  {
  }

  /** A walked `.toc` file: `p` is the path joined from one of them. */
  ghost predicate WalkedToc(walk: seq<Entry>, p: string) {
    exists e | e in walk :: EndsWith(e.name, ".toc") && p == JoinPath(e.root, e.name)
  }

  /** The plan calls only at a file's joined path, and only for a `.toc`
      name. */
  ghost predicate TocOnly(plan: Planner) {
    forall e, p | p in Paths(plan(e)) :: EndsWith(e.name, ".toc") && p == JoinPath(e.root, e.name)
  }

  lemma PlanTocOnly(flavor: FullProduct)
    ensures TocOnly(Plan(flavor))
  {
    forall e, p | p in Paths(Plan(flavor)(e)) ensures EndsWith(e.name, ".toc") && p == JoinPath(e.root, e.name) {
      RunsForPaths(e, flavor);
    }
  }

  /** Every call of the schedule is for a walked file whose name ends with
      `.toc`, at the path joined from its directory and name. */
  lemma {:induction false} ScheduleTocFiles(walk: seq<Entry>, plan: Planner)
    requires TocOnly(plan)
    ensures forall p | p in Paths(Schedule(walk, plan)) :: WalkedToc(walk, p)
    decreases |walk|
  {
    if |walk| > 0 {
      var n := |walk| - 1;
      var before := Schedule(walk[..n], plan);
      var last := plan(walk[n]);
      ScheduleTocFiles(walk[..n], plan);
      PathsAppend(before, last);
      forall p | p in Paths(before + last) ensures WalkedToc(walk, p) {
        if p in Paths(before) {
          var e :| e in walk[..n] && EndsWith(e.name, ".toc") && p == JoinPath(e.root, e.name);
          assert e in walk;
        } else {
          assert walk[n] in walk;
        }
      }
    }
  }

  /** `process_files` writes and records only walked `.toc` files, and
      creates no file. */
  lemma ProcessFilesTouchesOnlyToc(files: map<string, string>, walk: seq<Entry>, flavor: FullProduct, orders: seq<Orders>,
                                  entries: map<Product, string>, fetch: Product -> Option<string>, beta: bool, test: bool)
    requires |orders| <= |Schedule(walk, Plan(flavor))|
    ensures var out := Runs(State(files, []), Schedule(walk, Plan(flavor))[..|orders|], orders,
                            UpdateStep(entries, fetch, beta, test)).state;
      out.files.Keys == files.Keys
      && (forall p | p in files && out.files[p] != files[p] ::
            WalkedToc(walk, p))
      && (forall k | 0 <= k < |out.modified| :: WalkedToc(walk, out.modified[k]))
  {
    var schedule := Schedule(walk, Plan(flavor));
    var runs := schedule[..|orders|];
    UpdateStepFramed(entries, fetch, beta, test);
    RunsFrame(State(files, []), runs, orders, UpdateStep(entries, fetch, beta, test));
    PlanTocOnly(flavor);
    ScheduleTocFiles(walk, Plan(flavor));
    assert Paths(runs) <= Paths(schedule) by {
      forall p | p in Paths(runs) ensures p in Paths(schedule) {
        var k :| 0 <= k < |runs| && runs[k].path == p;
        assert schedule[k].path == p;
      }
    }
  }
}
