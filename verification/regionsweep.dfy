/** The concurrent sweep over regions: one worker per region, at most ten in flight, each
    merging the pages it fetches into one shared map. Any interleaving of the workers and of
    the loop that starts them is a schedule below. */
module RegionSweep {
  import opened Types
  import opened Sums
  import opened Filters

  const MAX_CONCURRENT := 10

  /** What a region answers when a page is fetched: instances and whether more pages follow,
      an error, or a panic inside the worker. */
  datatype Answer = Page(instances: seq<Instance>, more: bool) | Failed | Panicked

  /** The answers of every region, page by page. */
  type Answers = (nat, nat) -> Answer

  /** `merged` counts the pages a worker has merged. A worker holds its semaphore slot from
      the moment it is started until it releases it; only then does it signal completion. */
  datatype Worker =
    | NotStarted
    | Fetching(merged: nat)
    | Merging(merged: nat, page: seq<Instance>, more: bool)
    | Releasing(merged: nat)
    | Signalling(merged: nat)
    | Finished(merged: nat)

  /** The starting loop: about to count in the next worker, waiting for a slot for it, waiting
      for all workers, or returned. */
  datatype Starter = CountingIn | Acquiring | Waiting | Returned

  datatype State = State(
    starter: Starter,
    next: nat,
    slots: int,
    pending: int,
    workers: seq<Worker>,
    versions: map<string, seq<Instance>>
  )

  function Initial(regions: nat): State
  {
    State(CountingIn, 0, 0, 0, seq(regions, _ => NotStarted), map[])
  }

  function MergePage(versions: map<string, seq<Instance>>, page: seq<Instance>): map<string, seq<Instance>>
    decreases page
  {
    if page == [] then versions
    else
      var v := page[0];
      MergePage(versions[v.instanceClass := Listed(versions, v.instanceClass) + [v]], page[1..])
  }

  function StartStep(s: State): State
  {
    match s.starter
    case CountingIn =>
      if s.next < |s.workers| then s.(starter := Acquiring, pending := s.pending + 1) else s.(starter := Waiting)
    case Acquiring =>
      if s.slots < MAX_CONCURRENT && s.next < |s.workers|
      then s.(
        starter := CountingIn, slots := s.slots + 1, workers := s.workers[s.next := Fetching(0)], next := s.next + 1)
      else s
    case Waiting => if s.pending == 0 then s.(starter := Returned) else s
    case Returned => s
  }

  function WorkStep(s: State, i: nat, answers: Answers): State
    requires i < |s.workers|
  {
    match s.workers[i]
    case NotStarted => s
    case Fetching(n) =>
      var next := match answers(i, n)
                  case Page(instances, more) => Merging(n, instances, more)
                  case Failed => Releasing(n)
                  case Panicked => Releasing(n);
      s.(workers := s.workers[i := next])
    case Merging(n, page, more) =>
      s.(workers := s.workers[i := if more then Fetching(n + 1) else Releasing(n + 1)],
         versions := MergePage(s.versions, page))
    case Releasing(n) => s.(workers := s.workers[i := Signalling(n)], slots := s.slots - 1)
    case Signalling(n) => s.(workers := s.workers[i := Finished(n)], pending := s.pending - 1)
    case Finished(_) => s
  }

  /** Who moves next: the starting loop, or the worker of a region. */
  datatype Turn = StarterTurn | WorkerTurn(region: nat)

  function Step(s: State, turn: Turn, answers: Answers): State
  {
    match turn
    case StarterTurn => StartStep(s)
    case WorkerTurn(i) => if i < |s.workers| then WorkStep(s, i, answers) else s
  }

  function Run(s: State, schedule: seq<Turn>, answers: Answers): State
    decreases |schedule|
  {
    if schedule == [] then s
    else
      var n := |schedule| - 1;
      Step(Run(s, schedule[..n], answers), schedule[n], answers)
  }

  // ---- Counting workers -------------------------------------------------------------------

  function InFlight(w: Worker): int { if w.Fetching? || w.Merging? || w.Releasing? then 1 else 0 }

  function Unfinished(w: Worker): int { if w.NotStarted? || w.Finished? then 0 else 1 }

  lemma {:induction false} SumUpdate(f: Worker -> int, workers: seq<Worker>, i: nat, w: Worker)
    requires i < |workers|
    ensures SumInt(f, workers[i := w]) == SumInt(f, workers) - f(workers[i]) + f(w)
  {
    if i == 0 {
      assert workers[0 := w][1..] == workers[1..];
    } else {
      SumUpdate(f, workers[1..], i - 1, w);
      assert workers[i := w][1..] == workers[1..][i - 1 := w];
    }
  }

  lemma {:induction false} NoneStarted(f: Worker -> int, workers: seq<Worker>)
    requires f(NotStarted) == 0 && forall i :: 0 <= i < |workers| ==> workers[i] == NotStarted
    ensures SumInt(f, workers) == 0
  {
    if workers != [] {
      NoneStarted(f, workers[1..]);
    }
  }

  /** The bookkeeping of the semaphore and of the wait group. */
  ghost predicate Counted(s: State)
  {
    && s.next <= |s.workers|
    && s.slots == SumInt(InFlight, s.workers) <= MAX_CONCURRENT
    && s.pending == SumInt(Unfinished, s.workers) + (if s.starter.Acquiring? then 1 else 0)
    && (forall i :: s.next <= i < |s.workers| ==> s.workers[i] == NotStarted)
    && (forall i :: 0 <= i < s.next ==> s.workers[i] != NotStarted)
    && (s.starter.Acquiring? ==> s.next < |s.workers|)
    && (s.starter.Waiting? || s.starter.Returned? ==> s.next == |s.workers|)
    && (s.starter.Returned? ==> s.pending == 0)
  }

  lemma StepKeepsCounts(s: State, turn: Turn, answers: Answers)
    requires Counted(s)
    ensures Counted(Step(s, turn, answers))
  {
    hide Counted, StartStep, WorkStep;
    match turn
    case StarterTurn => StartKeepsCounts(s);
    case WorkerTurn(i) =>
      if i < |s.workers| {
        WorkKeepsCounts(s, i, answers);
      }
  }

  lemma StartKeepsCounts(s: State)
    requires Counted(s)
    ensures Counted(StartStep(s))
  {
    hide SumInt;
    if s.starter.Acquiring? {
      SumUpdate(InFlight, s.workers, s.next, Fetching(0));
      SumUpdate(Unfinished, s.workers, s.next, Fetching(0));
    }
  }

  lemma WorkKeepsCounts(s: State, i: nat, answers: Answers)
    requires Counted(s) && i < |s.workers|
    ensures Counted(WorkStep(s, i, answers))
  {
    hide SumInt, MergePage;
    var s' := WorkStep(s, i, answers);
    SumUpdate(InFlight, s.workers, i, s'.workers[i]);
    SumUpdate(Unfinished, s.workers, i, s'.workers[i]);
    assert s'.workers == s.workers[i := s'.workers[i]];
    if s.starter.Returned? {
      AllDone(s.workers, i);
    }
  }

  lemma {:induction false} AllDone(workers: seq<Worker>, i: nat)
    requires i < |workers| && SumInt(Unfinished, workers) == 0
    ensures Unfinished(workers[i]) == 0
  {
    assert workers == workers[..i] + ([workers[i]] + workers[i + 1..]);
    SumIntAppend(Unfinished, workers[..i], [workers[i]] + workers[i + 1..]);
    SumIntAppend(Unfinished, [workers[i]], workers[i + 1..]);
    SumIntNonNegative(Unfinished, workers[..i]);
    SumIntNonNegative(Unfinished, workers[i + 1..]);
    assert [workers[i]][1..] == [];
  }

  // ---- What has been merged ---------------------------------------------------------------

  /** How many pages a worker has merged so far. */
  function Merged(w: Worker): nat { if w.NotStarted? then 0 else w.merged }

  function PageOf(a: Answer): seq<Instance> { if a.Page? then a.instances else [] }

  function InClass(class_: string): Instance -> bool
  {
    (v: Instance) => v.instanceClass == class_
  }

  /** How often `x` is listed under its class on a page. */
  function OnPage(page: seq<Instance>, class_: string, x: Instance): nat
  {
    multiset(Filter(InClass(class_), page))[x]
  }

  /** How often `x` is listed on the first `n` pages of a region. */
  function RegionRows(answers: Answers, region: nat, n: nat, class_: string, x: Instance): nat
  {
    if n == 0 then 0
    else RegionRows(answers, region, n - 1, class_, x) + OnPage(PageOf(answers(region, n - 1)), class_, x)
  }

  /** How often `x` is listed on the pages merged by all workers. */
  function AllRows(answers: Answers, workers: seq<Worker>, class_: string, x: Instance): nat
  {
    if workers == [] then 0
    else
      var n := |workers| - 1;
      AllRows(answers, workers[..n], class_, x) + RegionRows(answers, n, Merged(workers[n]), class_, x)
  }

  lemma {:induction false} SameRows(answers: Answers, a: seq<Worker>, b: seq<Worker>, class_: string, x: Instance)
    requires |a| == |b| && forall i :: 0 <= i < |a| ==> Merged(a[i]) == Merged(b[i])
    ensures AllRows(answers, a, class_, x) == AllRows(answers, b, class_, x)
    decreases |a|
  {
    if a != [] {
      var n := |a| - 1;
      SameRows(answers, a[..n], b[..n], class_, x);
    }
  }

  /** One more merged page of region `i` adds that page. */
  lemma {:induction false} OnePageMore(answers: Answers, workers: seq<Worker>, i: nat, w: Worker, class_: string,
                                       x: Instance)
    requires i < |workers| && Merged(w) == Merged(workers[i]) + 1
    ensures AllRows(answers, workers[i := w], class_, x)
         == AllRows(answers, workers, class_, x) + OnPage(PageOf(answers(i, Merged(workers[i]))), class_, x)
    decreases |workers|
  {
    hide OnPage, PageOf;
    var n := |workers| - 1;
    if i == n {
      assert workers[i := w][..n] == workers[..n];
    } else {
      OnePageMore(answers, workers[..n], i, w, class_, x);
      assert workers[i := w][..n] == workers[..n][i := w];
    }
  }

  lemma {:induction false} MergedPage(versions: map<string, seq<Instance>>, page: seq<Instance>, class_: string,
                                      x: Instance)
    requires forall c :: c in versions ==> versions[c] != []
    ensures multiset(Listed(MergePage(versions, page), class_))[x]
         == multiset(Listed(versions, class_))[x] + OnPage(page, class_, x)
    ensures forall c :: c in MergePage(versions, page) ==> MergePage(versions, page)[c] != []
    decreases page
  {
    if page != [] {
      var v := page[0];
      var next := versions[v.instanceClass := Listed(versions, v.instanceClass) + [v]];
      MergedPage(next, page[1..], class_, x);
      ListedAfter(versions, v.instanceClass, v, class_);
    }
  }

  /** A worker only ever asks for a page when all earlier ones said that more follow. */
  ghost predicate OnTrack(answers: Answers, region: nat, n: nat)
  {
    forall k :: 0 <= k < n ==> answers(region, k).Page? && answers(region, k).more
  }

  /** The worker of a region is through after `n` pages: the last one said that none follow,
      or the next fetch failed or panicked. */
  ghost predicate ThroughAfter(answers: Answers, region: nat, n: nat)
  {
    || (OnTrack(answers, region, n) && !answers(region, n).Page?)
    || (n > 0 && OnTrack(answers, region, n - 1) && answers(region, n - 1).Page? && !answers(region, n - 1).more)
  }

  ghost predicate WorkerInv(answers: Answers, region: nat, w: Worker)
  {
    match w
    case NotStarted => true
    case Fetching(n) => OnTrack(answers, region, n)
    case Merging(n, page, more) => OnTrack(answers, region, n) && answers(region, n) == Page(page, more)
    case Releasing(n) => ThroughAfter(answers, region, n)
    case Signalling(n) => ThroughAfter(answers, region, n)
    case Finished(n) => ThroughAfter(answers, region, n)
  }

  ghost predicate MergeInv(s: State, answers: Answers)
  {
    && (forall c, x :: multiset(Listed(s.versions, c))[x] == AllRows(answers, s.workers, c, x))
    && (forall c :: c in s.versions ==> s.versions[c] != [])
    && (forall i :: 0 <= i < |s.workers| ==> WorkerInv(answers, i, s.workers[i]))
  }

  lemma StepKeepsMerges(s: State, turn: Turn, answers: Answers)
    requires MergeInv(s, answers) && Counted(s)
    ensures MergeInv(Step(s, turn, answers), answers)
  {
    hide AllRows, MergePage, WorkerInv;
    var s' := Step(s, turn, answers);
    match turn
    case StarterTurn =>
      StarterKeepsWorkerInv(s, answers);
      if s'.workers != s.workers {
        assert s.workers[s.next] == NotStarted;
        forall c, x ensures AllRows(answers, s'.workers, c, x) == AllRows(answers, s.workers, c, x) {
          SameRows(answers, s'.workers, s.workers, c, x);
        }
      }
    case WorkerTurn(i) =>
      if i < |s.workers| {
        WorkerStepKeepsInv(s, i, answers);
        assert WorkerInv(answers, i, s.workers[i]);
        assert s'.workers == s.workers[i := s'.workers[i]];
        forall c, x ensures multiset(Listed(s'.versions, c))[x] == AllRows(answers, s'.workers, c, x) {
          RowsAfterStep(s, i, answers, c, x);
        }
        if s.workers[i].Merging? {
          MergedNonEmpty(s.versions, s.workers[i].page);
        }
      }
  }

  lemma MergedNonEmpty(versions: map<string, seq<Instance>>, page: seq<Instance>)
    requires forall c :: c in versions ==> versions[c] != []
    ensures forall c :: c in MergePage(versions, page) ==> MergePage(versions, page)[c] != []
  {
    MergedPage(versions, page, "", Instance("", "", "", ""));
  }

  lemma RowsAfterStep(s: State, i: nat, answers: Answers, c: string, x: Instance)
    requires i < |s.workers| && WorkerInv(answers, i, s.workers[i])
    requires multiset(Listed(s.versions, c))[x] == AllRows(answers, s.workers, c, x)
    requires forall d :: d in s.versions ==> s.versions[d] != []
    ensures var s' := WorkStep(s, i, answers);
            multiset(Listed(s'.versions, c))[x] == AllRows(answers, s'.workers, c, x)
  {
    hide AllRows, MergePage, OnPage;
    var s', w := WorkStep(s, i, answers), s.workers[i];
    var w' := s'.workers[i];
    assert s'.workers == s.workers[i := w'];
    if w.Merging? {
      OnePageMore(answers, s.workers, i, w', c, x);
      MergedPage(s.versions, w.page, c, x);
    } else {
      SameRows(answers, s'.workers, s.workers, c, x);
    }
  }

  lemma StarterKeepsWorkerInv(s: State, answers: Answers)
    requires forall i :: 0 <= i < |s.workers| ==> WorkerInv(answers, i, s.workers[i])
    ensures forall i :: 0 <= i < |s.workers| ==> WorkerInv(answers, i, StartStep(s).workers[i])
  {
  }

  lemma WorkerStepKeepsInv(s: State, i: nat, answers: Answers)
    requires i < |s.workers| && WorkerInv(answers, i, s.workers[i])
    ensures WorkerInv(answers, i, WorkStep(s, i, answers).workers[i])
  {
  }

  lemma {:induction false} NothingMerged(answers: Answers, workers: seq<Worker>, class_: string, x: Instance)
    requires forall i :: 0 <= i < |workers| ==> workers[i] == NotStarted
    ensures AllRows(answers, workers, class_, x) == 0
    decreases |workers|
  {
    if workers != [] {
      NothingMerged(answers, workers[..|workers| - 1], class_, x);
    }
  }

  lemma {:induction false} RunKeepsInv(regions: nat, schedule: seq<Turn>, answers: Answers)
    ensures var s := Run(Initial(regions), schedule, answers);
            Counted(s) && MergeInv(s, answers) && |s.workers| == regions
    decreases |schedule|
  {
    if schedule == [] {
      var s := Initial(regions);
      NoneStarted(InFlight, s.workers);
      NoneStarted(Unfinished, s.workers);
      forall c, x ensures AllRows(answers, s.workers, c, x) == 0 {
        NothingMerged(answers, s.workers, c, x);
      }
    } else {
      hide Counted, MergeInv;
      var n := |schedule| - 1;
      RunKeepsInv(regions, schedule[..n], answers);
      var mid := Run(Initial(regions), schedule[..n], answers);
      StepKeepsCounts(mid, schedule[n], answers);
      StepKeepsMerges(mid, schedule[n], answers);
      StepKeepsWorkers(mid, schedule[n], answers);
    }
  }

  lemma StepKeepsWorkers(s: State, turn: Turn, answers: Answers)
    ensures |Step(s, turn, answers).workers| == |s.workers|
  {
  }

  /** Over every interleaving: at most ten workers are in flight, and when the sweep returns
      every worker has finished, the ones whose fetch failed or panicked included. */
  lemma BoundedAndJoined(regions: nat, schedule: seq<Turn>, answers: Answers)
    ensures var s := Run(Initial(regions), schedule, answers);
            && SumInt(InFlight, s.workers) <= MAX_CONCURRENT == 10
            && (s.starter.Returned? ==>
                  forall i :: 0 <= i < regions ==> i < |s.workers| && s.workers[i].Finished?)
  {
    var s := Run(Initial(regions), schedule, answers);
    RunKeepsInv(regions, schedule, answers);
    if s.starter.Returned? {
      forall i | 0 <= i < regions ensures s.workers[i].Finished? {
        AllDone(s.workers, i);
      }
    }
  }

  lemma EndsOnce(answers: Answers, region: nat, m: nat, n: nat)
    requires ThroughAfter(answers, region, m) && m < n
    ensures !ThroughAfter(answers, region, n)
  {
    var last := answers(region, m);
    if m > 0 {
      var before := answers(region, m - 1);
    }
  }

  /** Two sweeps of the same answers that return have merged the same instances for every
      class, whatever the schedules. */
  lemma SweepsAgree(regions: nat, one: seq<Turn>, two: seq<Turn>, answers: Answers)
    requires Run(Initial(regions), one, answers).starter.Returned?
    requires Run(Initial(regions), two, answers).starter.Returned?
    ensures var a, b := Run(Initial(regions), one, answers).versions, Run(Initial(regions), two, answers).versions;
            a.Keys == b.Keys && forall c :: multiset(Listed(a, c)) == multiset(Listed(b, c))
  {
    var s, t := Run(Initial(regions), one, answers), Run(Initial(regions), two, answers);
    RunKeepsInv(regions, one, answers);
    RunKeepsInv(regions, two, answers);
    BoundedAndJoined(regions, one, answers);
    BoundedAndJoined(regions, two, answers);
    hide Run, AllRows, Counted, ThroughAfter;
    forall i | 0 <= i < regions ensures Merged(s.workers[i]) == Merged(t.workers[i]) {
      assert WorkerInv(answers, i, s.workers[i]) && WorkerInv(answers, i, t.workers[i]);
      var m, n := s.workers[i].merged, t.workers[i].merged;
      if m < n {
        EndsOnce(answers, i, m, n);
      } else if n < m {
        EndsOnce(answers, i, n, m);
      }
    }
    forall c ensures multiset(Listed(s.versions, c)) == multiset(Listed(t.versions, c)) {
      forall x ensures multiset(Listed(s.versions, c))[x] == multiset(Listed(t.versions, c))[x] {
        SameRows(answers, s.workers, t.workers, c, x);
      }
    }
    forall c ensures c in s.versions <==> c in t.versions {
      assert |Listed(s.versions, c)| == |multiset(Listed(s.versions, c))|;
      assert |Listed(t.versions, c)| == |multiset(Listed(t.versions, c))|;
    }
  }

  /** So the extended-support adjustment of a recommendation is the same for every
      interleaving of the sweep that fed it. */
  lemma AdjustmentIgnoresInterleaving(
      regions: nat, one: seq<Turn>, two: seq<Turn>, answers: Answers, rec: Rec, data: EngineData)
    requires Run(Initial(regions), one, answers).starter.Returned?
    requires Run(Initial(regions), two, answers).starter.Returned?
    ensures WithoutExcluded(rec, data.(versions := Run(Initial(regions), one, answers).versions))
         == WithoutExcluded(rec, data.(versions := Run(Initial(regions), two, answers).versions))
  {
    SweepsAgree(regions, one, two, answers);
    var a, b := Run(Initial(regions), one, answers).versions, Run(Initial(regions), two, answers).versions;
    hide Run, WithoutExcluded;
    forall c | c in a ensures multiset(a[c]) == multiset(b[c]) {
      assert multiset(Listed(a, c)) == multiset(Listed(b, c));
    }
    ExclusionIgnoresListingOrder(rec, data.(versions := a), data.(versions := b));
  }

  /** The sweep cannot deadlock: until it returns, the loop or some worker can move. */
  lemma NeverStuck(regions: nat, schedule: seq<Turn>, answers: Answers)
    ensures var s := Run(Initial(regions), schedule, answers);
            s.starter.Returned? || exists turn :: Step(s, turn, answers) != s
  {
    var s := Run(Initial(regions), schedule, answers);
    RunKeepsInv(regions, schedule, answers);
    hide Run, MergeInv;
    if !s.starter.Returned? && Step(s, StarterTurn, answers) == s {
      if s.starter.Acquiring? {
        var i := SomeCounted(InFlight, s.workers);
        assert Step(s, WorkerTurn(i), answers).workers[i] != s.workers[i];
      } else {
        assert s.starter.Waiting? && s.pending != 0;
        SumIntNonNegative(Unfinished, s.workers);
        var i := SomeCounted(Unfinished, s.workers);
        assert Step(s, WorkerTurn(i), answers).workers[i] != s.workers[i];
      }
    }
  }

  lemma {:induction false} SomeCounted(f: Worker -> int, workers: seq<Worker>) returns (i: nat)
    requires SumInt(f, workers) > 0
    ensures i < |workers| && f(workers[i]) != 0
  {
    if f(workers[0]) != 0 {
      i := 0;
    } else {
      i := SomeCounted(f, workers[1..]);
      i := i + 1;
    }
  }

  // ---- Every run ends ------------------------------------------------------------------------

  /** The listing of a region comes to an end, or fails, after at most `pages` pages that announce
      more. */
  ghost predicate ListingEnds(answers: Answers, region: nat, pages: nat)
  {
    exists k :: 0 <= k <= pages && !(answers(region, k).Page? && answers(region, k).more)
  }

  ghost predicate EndsWithin(answers: Answers, regions: nat, pages: nat)
  {
    forall i :: 0 <= i < regions ==> ListingEnds(answers, i, pages)
  }

  /** How far a worker has come when no listing goes on for more than `pages` pages. */
  function WorkerProgress(pages: nat): Worker -> int
  {
    (w: Worker) =>
      match w
      case NotStarted => 0
      case Fetching(n) => 2 * n + 1
      case Merging(n, _, _) => 2 * n + 2
      case Releasing(_) => 2 * pages + 5
      case Signalling(_) => 2 * pages + 6
      case Finished(_) => 2 * pages + 7
  }

  function StarterProgress(s: State): nat
  {
    match s.starter
    case CountingIn => 2 * s.next
    case Acquiring => 2 * s.next + 1
    case Waiting => 2 * s.next + 1
    case Returned => 2 * s.next + 2
  }

  function TotalProgress(s: State, pages: nat): int
  {
    StarterProgress(s) + SumInt(WorkerProgress(pages), s.workers)
  }

  lemma OnTrackIsShort(answers: Answers, i: nat, pages: nat, n: nat)
    requires ListingEnds(answers, i, pages) && OnTrack(answers, i, n)
    ensures n <= pages
  {
    var k :| 0 <= k <= pages && !(answers(i, k).Page? && answers(i, k).more);
    assert n <= k;
  }

  lemma WorkerMovesOn(s: State, i: nat, answers: Answers, pages: nat)
    requires i < |s.workers| && EndsWithin(answers, |s.workers|, pages)
    requires WorkerInv(answers, i, s.workers[i]) && WorkStep(s, i, answers) != s
    ensures WorkerProgress(pages)(WorkStep(s, i, answers).workers[i]) > WorkerProgress(pages)(s.workers[i])
  {
    var w := s.workers[i];
    if w.Fetching? || w.Merging? {
      OnTrackIsShort(answers, i, pages, w.merged);
    }
  }

  /** A turn that does anything brings the sweep forward. */
  lemma EveryMoveIsProgress(s: State, turn: Turn, answers: Answers, pages: nat)
    requires Counted(s) && MergeInv(s, answers) && EndsWithin(answers, |s.workers|, pages)
    requires Step(s, turn, answers) != s
    ensures TotalProgress(Step(s, turn, answers), pages) > TotalProgress(s, pages)
  {
    hide ListingEnds, AllRows, MergePage, WorkerInv;
    match turn
    case StarterTurn =>
      if s.starter.Acquiring? {
        SumUpdate(WorkerProgress(pages), s.workers, s.next, Fetching(0));
      }
    case WorkerTurn(i) =>
      assert i < |s.workers|;
      var s' := WorkStep(s, i, answers);
      WorkerMovesOn(s, i, answers, pages);
      SumUpdate(WorkerProgress(pages), s.workers, i, s'.workers[i]);
      assert s'.workers == s.workers[i := s'.workers[i]];
  }

  lemma WorkerIsBounded(answers: Answers, i: nat, w: Worker, pages: nat)
    requires ListingEnds(answers, i, pages) && WorkerInv(answers, i, w)
    ensures 0 <= WorkerProgress(pages)(w) <= 2 * pages + 7
  {
    hide ListingEnds;
    if w.Fetching? || w.Merging? {
      OnTrackIsShort(answers, i, pages, w.merged);
    }
  }

  lemma {:induction false} SumWithin(f: Worker -> int, workers: seq<Worker>, bound: int)
    requires forall i :: 0 <= i < |workers| ==> f(workers[i]) <= bound
    ensures SumInt(f, workers) <= bound * |workers|
  {
    if workers != [] {
      SumWithin(f, workers[1..], bound);
      assert bound * |workers| == bound + bound * |workers[1..]|;
    }
  }

  /** How many turns of the schedule did something. */
  function Moves(s: State, schedule: seq<Turn>, answers: Answers): nat
    decreases |schedule|
  {
    if schedule == [] then 0
    else
      var n := |schedule| - 1;
      Moves(s, schedule[..n], answers) + if Run(s, schedule, answers) != Run(s, schedule[..n], answers) then 1 else 0
  }

  lemma {:induction false} MovesAreProgress(regions: nat, schedule: seq<Turn>, answers: Answers, pages: nat)
    requires EndsWithin(answers, regions, pages)
    ensures Moves(Initial(regions), schedule, answers) <= TotalProgress(Run(Initial(regions), schedule, answers), pages)
    decreases |schedule|
  {
    hide Step, EndsWithin, Counted, MergeInv, TotalProgress;
    if schedule == [] {
      NothingYet(regions, pages);
    } else {
      var n := |schedule| - 1;
      MovesAreProgress(regions, schedule[..n], answers, pages);
      RunKeepsInv(regions, schedule[..n], answers);
      var mid := Run(Initial(regions), schedule[..n], answers);
      if Run(Initial(regions), schedule, answers) != mid {
        EveryMoveIsProgress(mid, schedule[n], answers, pages);
      }
    }
  }

  lemma NothingYet(regions: nat, pages: nat)
    ensures TotalProgress(Initial(regions), pages) == 0
  {
    NoneStarted(WorkerProgress(pages), Initial(regions).workers);
  }

  lemma Collect(pages: nat, regions: nat)
    ensures (2 * pages + 7) * regions + 2 * regions == (2 * pages + 9) * regions
  {
  }

  lemma ProgressIsBounded(regions: nat, schedule: seq<Turn>, answers: Answers, pages: nat)
    requires EndsWithin(answers, regions, pages)
    ensures TotalProgress(Run(Initial(regions), schedule, answers), pages) <= (2 * pages + 9) * regions + 2
  {
    var s := Run(Initial(regions), schedule, answers);
    RunKeepsInv(regions, schedule, answers);
    hide Run, WorkerInv, ListingEnds, WorkerProgress;
    forall i | 0 <= i < regions ensures WorkerProgress(pages)(s.workers[i]) <= 2 * pages + 7 {
      assert ListingEnds(answers, i, pages) && WorkerInv(answers, i, s.workers[i]);
      WorkerIsBounded(answers, i, s.workers[i], pages);
    }
    SumWithin(WorkerProgress(pages), s.workers, 2 * pages + 7);
    assert StarterProgress(s) <= 2 * regions + 2;
    Collect(pages, regions);
  }

  /** When every listing ends, so does the sweep: over every schedule only so many turns do anything. */
  lemma MovesAreBounded(regions: nat, schedule: seq<Turn>, answers: Answers, pages: nat)
    requires EndsWithin(answers, regions, pages)
    ensures Moves(Initial(regions), schedule, answers) <= (2 * pages + 9) * regions + 2
  {
    hide EndsWithin, TotalProgress;
    MovesAreProgress(regions, schedule, answers, pages);
    ProgressIsBounded(regions, schedule, answers, pages);
  }

  /** And every run can be brought to its end: some continuation makes the sweep return. */
  lemma {:induction false} EveryRunCanReturn(regions: nat, schedule: seq<Turn>, answers: Answers, pages: nat)
    returns (more: seq<Turn>)
    requires EndsWithin(answers, regions, pages)
    ensures Run(Initial(regions), schedule + more, answers).starter.Returned?
    decreases (2 * pages + 9) * regions + 2 - TotalProgress(Run(Initial(regions), schedule, answers), pages)
  {
    hide Step, EndsWithin, TotalProgress, Counted, MergeInv;
    var s := Run(Initial(regions), schedule, answers);
    if s.starter.Returned? {
      more := [];
      assert schedule + more == schedule;
    } else {
      NeverStuck(regions, schedule, answers);
      RunKeepsInv(regions, schedule, answers);
      var turn :| Step(s, turn, answers) != s;
      EveryMoveIsProgress(s, turn, answers, pages);
      var next := schedule + [turn];
      assert next[..|next| - 1] == schedule;
      ProgressIsBounded(regions, next, answers, pages);
      var rest := EveryRunCanReturn(regions, next, answers, pages);
      more := [turn] + rest;
      assert schedule + more == next + rest;
    }
  }
}
