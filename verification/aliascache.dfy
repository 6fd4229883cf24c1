/** The account alias cache: double-checked locking around one directory lookup. First the
    cache as an object, then every interleaving of concurrent calls. */
module AliasCache {
  /** What the directory answers about one account. */
  datatype Description = Failed | Unnamed | Named(name: string)

  /** The account ID stands in when the lookup fails or yields no name. */
  function AliasFrom(id: string, d: Description): string
  {
    if d.Named? then d.name else id
  }

  class AccountAliasCache {
    var cache: map<string, string>

    constructor ()
      ensures cache == map[]
    {
      cache := map[];
    }

    /** `described` tells whether the directory was asked; a failed lookup is cached too. */
    method GetAccountAlias(id: string, describe: string -> Description) returns (alias: string, described: bool)
      modifies this
      ensures id == "" ==> alias == "" && !described && cache == old(cache)
      ensures id != "" && id in old(cache) ==> alias == old(cache)[id] && !described && cache == old(cache)
      ensures id != "" && id !in old(cache) ==>
                alias == AliasFrom(id, describe(id)) && described && cache == old(cache)[id := alias]
      ensures id != "" && id !in old(cache) ==>
                match describe(id)
                case Named(name) => alias == name
                case Unnamed => alias == id
                case Failed => alias == id
    {
      if id == "" {
        return "", false;
      }
      if id in cache {
        return cache[id], false;
      }
      var d := describe(id);
      alias, described := AliasFrom(id, d), true;
      cache := cache[id := alias];
    }
  }

  // ---- Interleavings --------------------------------------------------------------------

  /** Where one call stands. `Reading`, `Hit` and `Miss` hold the read lock; `Locked`,
      `Describing`, `Storing` and `Leaving` hold the write lock. */
  datatype Pc =
    | Start
    | Reading
    | Hit(alias: string)
    | Miss
    | Missed
    | Locked
    | Describing
    | Storing(alias: string)
    | Leaving(alias: string)
    | Done(alias: string)

  predicate HoldsRead(pc: Pc) { pc.Reading? || pc.Hit? || pc.Miss? }

  predicate HoldsWrite(pc: Pc) { pc.Locked? || pc.Describing? || pc.Storing? || pc.Leaving? }

  /** One directory lookup that took place. */
  datatype Lookup = Lookup(id: string, answer: Description)

  /** All calls in progress, the shared cache, and the lookups so far. */
  datatype State = State(calls: seq<string>, pcs: seq<Pc>, cache: map<string, string>, lookups: seq<Lookup>)

  predicate WellFormed(s: State) { |s.pcs| == |s.calls| }

  predicate ReadFree(s: State) { forall t :: 0 <= t < |s.pcs| ==> !HoldsWrite(s.pcs[t]) }

  predicate WriteFree(s: State) { forall t :: 0 <= t < |s.pcs| ==> !HoldsWrite(s.pcs[t]) && !HoldsRead(s.pcs[t]) }

  function Goto(s: State, t: nat, pc: Pc): State
    requires t < |s.pcs|
  {
    s.(pcs := s.pcs[t := pc])
  }

  /** Call `t` makes one atomic step, if it can; `d` is what the directory would answer. */
  function Step(s: State, t: nat, d: Description): State
    requires WellFormed(s)
  {
    if t >= |s.calls| then s
    else
      var id := s.calls[t];
      match s.pcs[t]
      case Start =>
        if id == "" then Goto(s, t, Done("")) else if ReadFree(s) then Goto(s, t, Reading) else s
      case Reading => Goto(s, t, if id in s.cache then Hit(s.cache[id]) else Miss)
      case Hit(alias) => Goto(s, t, Done(alias))
      case Miss => Goto(s, t, Missed)
      case Missed => if WriteFree(s) then Goto(s, t, Locked) else s
      case Locked => Goto(s, t, if id in s.cache then Leaving(s.cache[id]) else Describing)
      case Describing => Goto(s, t, Storing(AliasFrom(id, d))).(lookups := s.lookups + [Lookup(id, d)])
      case Storing(alias) => Goto(s, t, Leaving(alias)).(cache := s.cache[id := alias])
      case Leaving(alias) => Goto(s, t, Done(alias))
      case Done(_) => s
  }

  /** A schedule says which call steps next, and what the directory answers if it is asked. */
  datatype Turn = Turn(call: nat, answer: Description)

  function Run(s: State, schedule: seq<Turn>): (r: State)
    requires WellFormed(s)
    ensures WellFormed(r) && r.calls == s.calls
    decreases |schedule|
  {
    if schedule == [] then s
    else
      var n := |schedule| - 1;
      Step(Run(s, schedule[..n]), schedule[n].call, schedule[n].answer)
  }

  function Initial(calls: seq<string>): State
  {
    State(calls, seq(|calls|, _ => Start), map[], [])
  }

  /** Some lookup of `id` produced `alias`. */
  ghost predicate LookedUp(s: State, id: string, alias: string)
  {
    exists k :: 0 <= k < |s.lookups| && s.lookups[k].id == id && alias == AliasFrom(id, s.lookups[k].answer)
  }

  /** What call `t` may rely on where it stands. */
  ghost predicate CallInv(s: State, t: nat)
    requires WellFormed(s) && t < |s.pcs|
  {
    var id := s.calls[t];
    match s.pcs[t]
    case Start => true
    case Reading => id != ""
    case Hit(alias) => id != "" && id in s.cache && s.cache[id] == alias
    case Miss => id != ""
    case Missed => id != ""
    case Locked => id != ""
    case Describing => id != "" && id !in s.cache
    case Storing(alias) => id != "" && id !in s.cache && LookedUp(s, id, alias)
    case Leaving(alias) => id != "" && id in s.cache && s.cache[id] == alias
    case Done(alias) => if id == "" then alias == "" else id in s.cache && s.cache[id] == alias
  }

  ghost predicate Exclusive(s: State)
  {
    forall t, u :: 0 <= t < |s.pcs| && 0 <= u < |s.pcs| && t != u && HoldsWrite(s.pcs[t]) ==>
      !HoldsWrite(s.pcs[u]) && !HoldsRead(s.pcs[u])
  }

  /** A lookup is either in the cache already or about to be stored by the call that made it. */
  ghost predicate LookupsSettle(s: State)
    requires WellFormed(s)
  {
    forall k :: 0 <= k < |s.lookups| ==>
      var id := s.lookups[k].id;
      id != "" && (id in s.cache || exists t :: 0 <= t < |s.pcs| && s.calls[t] == id && s.pcs[t].Storing?)
  }

  ghost predicate LookupsDistinct(s: State)
  {
    forall j, k :: 0 <= j < k < |s.lookups| ==> s.lookups[j].id != s.lookups[k].id
  }

  ghost predicate CacheIsLookedUp(s: State)
  {
    forall id :: id in s.cache ==> LookedUp(s, id, s.cache[id])
  }

  ghost predicate Inv(s: State)
  {
    && WellFormed(s)
    && Exclusive(s)
    && (forall t :: 0 <= t < |s.pcs| ==> CallInv(s, t))
    && LookupsSettle(s)
    && LookupsDistinct(s)
    && CacheIsLookedUp(s)
  }

  lemma InitialInv(calls: seq<string>)
    ensures Inv(Initial(calls)) && Initial(calls).calls == calls
  {
  }

  lemma StepKeepsExclusive(s: State, t: nat, d: Description)
    requires WellFormed(s) && Exclusive(s)
    ensures Exclusive(Step(s, t, d))
  {
    var s' := Step(s, t, d);
    if t < |s.pcs| && s' != s {
      forall i, j | 0 <= i < |s'.pcs| && 0 <= j < |s'.pcs| && i != j && HoldsWrite(s'.pcs[i])
        ensures !HoldsWrite(s'.pcs[j]) && !HoldsRead(s'.pcs[j])
      {
        assert i != t ==> s'.pcs[i] == s.pcs[i];
        assert j != t ==> s'.pcs[j] == s.pcs[j];
      }
    }
  }

  lemma LookedUpStays(s: State, s': State, id: string, alias: string)
    requires LookedUp(s, id, alias) && s.lookups <= s'.lookups
    ensures LookedUp(s', id, alias)
  {
    var k :| 0 <= k < |s.lookups| && s.lookups[k].id == id && alias == AliasFrom(id, s.lookups[k].answer);
    assert s'.lookups[k] == s.lookups[k];
  }

  lemma StepKeepsLookedUp(s: State, t: nat, d: Description)
    requires Inv(s)
    ensures CacheIsLookedUp(Step(s, t, d))
  {
    var s' := Step(s, t, d);
    assert s.lookups <= s'.lookups;
    forall id | id in s'.cache ensures LookedUp(s', id, s'.cache[id]) {
      if t < |s.pcs| && s.pcs[t].Storing? && id == s.calls[t] {
        assert CallInv(s, t);
      }
      LookedUpStays(s, s', id, s'.cache[id]);
    }
  }

  /** Only the holder of the write lock changes the cache, so nobody else's view goes stale. */
  lemma StepKeepsCalls(s: State, t: nat, d: Description, u: nat)
    requires Inv(s) && u < |s.pcs|
    ensures CallInv(Step(s, t, d), u)
  {
    var s' := Step(s, t, d);
    if t < |s.pcs| {
      assert CallInv(s, u) && CallInv(s, t);
      assert s.lookups <= s'.lookups;
      if u == t {
        if s.pcs[t].Describing? {
          var k := |s.lookups|;
          assert s'.lookups[k] == Lookup(s.calls[t], d);
        }
      } else {
        assert s'.pcs[u] == s.pcs[u];
        if s.pcs[u].Storing? {
          LookedUpStays(s, s', s.calls[u], s.pcs[u].alias);
        }
      }
    }
  }

  lemma StepKeepsLookups(s: State, t: nat, d: Description)
    requires Inv(s)
    ensures LookupsSettle(Step(s, t, d)) && LookupsDistinct(Step(s, t, d))
  {
    var s' := Step(s, t, d);
    if t < |s.pcs| {
      var id := s.calls[t];
      assert CallInv(s, t);
      forall k | 0 <= k < |s'.lookups|
        ensures s'.lookups[k].id != ""
        ensures s'.lookups[k].id in s'.cache
             || exists u :: 0 <= u < |s'.pcs| && s'.calls[u] == s'.lookups[k].id && s'.pcs[u].Storing?
      {
        if k == |s.lookups| {
          assert s'.pcs[t].Storing? && s'.calls[t] == s'.lookups[k].id;
        } else if s.lookups[k].id !in s.cache {
          var u :| 0 <= u < |s.pcs| && s.calls[u] == s.lookups[k].id && s.pcs[u].Storing?;
          if u != t {
            assert s'.pcs[u] == s.pcs[u];
          }
        }
      }
      if s.pcs[t].Describing? {
        forall k | 0 <= k < |s.lookups| ensures s.lookups[k].id != id {
        }
      }
    }
  }

  lemma {:induction false} RunKeepsInv(s: State, schedule: seq<Turn>)
    requires Inv(s)
    ensures Inv(Run(s, schedule))
    decreases |schedule|
  {
    if schedule != [] {
      var n := |schedule| - 1;
      RunKeepsInv(s, schedule[..n]);
      var mid, turn := Run(s, schedule[..n]), schedule[n];
      StepKeepsExclusive(mid, turn.call, turn.answer);
      StepKeepsLookedUp(mid, turn.call, turn.answer);
      StepKeepsLookups(mid, turn.call, turn.answer);
      forall u | 0 <= u < |mid.pcs| ensures CallInv(Step(mid, turn.call, turn.answer), u) {
        StepKeepsCalls(mid, turn.call, turn.answer, u);
      }
    }
  }

  /** Over every interleaving of any number of calls: the directory is asked at most once per
      account, never about the empty one, and every finished call for an account returns what
      that one lookup yielded. */
  lemma LookedUpAtMostOnce(calls: seq<string>, schedule: seq<Turn>)
    ensures var s := Run(Initial(calls), schedule);
            && LookupsDistinct(s)
            && (forall k :: 0 <= k < |s.lookups| ==> s.lookups[k].id != "")
            && (forall t :: 0 <= t < |calls| && s.pcs[t].Done? ==>
                  if calls[t] == "" then s.pcs[t].alias == ""
                  else LookedUp(s, calls[t], s.pcs[t].alias))
            && (forall t, u :: 0 <= t < |calls| && 0 <= u < |calls| && s.pcs[t].Done? && s.pcs[u].Done? ==>
                  calls[t] == calls[u] ==> s.pcs[t].alias == s.pcs[u].alias)
            && (forall t :: 0 <= t < |calls| && s.pcs[t].Done? && s.pcs[t].alias != calls[t] ==>
                  Lookup(calls[t], Named(s.pcs[t].alias)) in s.lookups)
            && (forall t, name :: 0 <= t < |calls| && s.pcs[t].Done? && Lookup(calls[t], Named(name)) in s.lookups ==>
                  s.pcs[t].alias == name)
  {
    InitialInv(calls);
    RunKeepsInv(Initial(calls), schedule);
    var s := Run(Initial(calls), schedule);
    forall t | 0 <= t < |calls| && s.pcs[t].Done?
      ensures if calls[t] == "" then s.pcs[t].alias == ""
              else calls[t] in s.cache && LookedUp(s, calls[t], s.pcs[t].alias) && s.cache[calls[t]] == s.pcs[t].alias
    {
      assert CallInv(s, t);
    }
  }

  lemma StepKeepsAnswers(s: State, t: nat, d: Description)
    requires Inv(s)
    ensures var s' := Step(s, t, d);
            && (forall id :: id in s.cache ==> id in s'.cache && s'.cache[id] == s.cache[id])
            && (forall u :: 0 <= u < |s.pcs| && s.pcs[u].Done? ==> s'.pcs[u] == s.pcs[u])
            && s.lookups <= s'.lookups
  {
    if t < |s.calls| {
      assert CallInv(s, t);
    }
  }

  /** A finished call keeps its answer, and later calls get the same one: the cache only grows. */
  lemma {:induction false} AnswersAreFinal(calls: seq<string>, schedule: seq<Turn>, more: seq<Turn>)
    ensures var s, s' := Run(Initial(calls), schedule), Run(Initial(calls), schedule + more);
            && (forall id :: id in s.cache ==> id in s'.cache && s'.cache[id] == s.cache[id])
            && (forall t :: 0 <= t < |calls| && s.pcs[t].Done? ==> s'.pcs[t] == s.pcs[t])
            && s.lookups <= s'.lookups
    decreases |more|
  {
    hide Step, Initial;
    if more == [] {
      assert schedule + more == schedule;
    } else {
      var n := |more| - 1;
      AnswersAreFinal(calls, schedule, more[..n]);
      var whole := schedule + more;
      assert whole[..|whole| - 1] == schedule + more[..n];
      InitialInv(calls);
      RunKeepsInv(Initial(calls), schedule + more[..n]);
      StepKeepsAnswers(Run(Initial(calls), schedule + more[..n]), more[n].call, more[n].answer);
    }
  }

  /** No schedule gets stuck: while a call is unfinished, some call can move. */
  lemma NeverStuck(calls: seq<string>, schedule: seq<Turn>, t: nat, d: Description)
    requires t < |calls| && !Run(Initial(calls), schedule).pcs[t].Done?
    ensures exists u :: 0 <= u < |calls|
              && Step(Run(Initial(calls), schedule), u, d) != Run(Initial(calls), schedule)
  {
    var s := Run(Initial(calls), schedule);
    InitialInv(calls);
    RunKeepsInv(Initial(calls), schedule);
    hide Step, Run, Inv;
    if u :| 0 <= u < |calls| && (HoldsWrite(s.pcs[u]) || HoldsRead(s.pcs[u])) {
      HolderMoves(s, u, d);
    } else {
      assert WriteFree(s) && ReadFree(s);
      FreeCallMoves(s, t, d);
    }
  }

  lemma HolderMoves(s: State, u: nat, d: Description)
    requires WellFormed(s) && u < |s.calls| && (HoldsWrite(s.pcs[u]) || HoldsRead(s.pcs[u]))
    ensures Step(s, u, d) != s
  {
    assert Step(s, u, d).pcs[u] != s.pcs[u];
  }

  lemma FreeCallMoves(s: State, t: nat, d: Description)
    requires WellFormed(s) && WriteFree(s) && ReadFree(s) && t < |s.calls| && !s.pcs[t].Done?
    ensures Step(s, t, d) != s
  {
    assert Step(s, t, d).pcs[t] != s.pcs[t];
  }

  // ---- Every run ends ------------------------------------------------------------------------

  /** How far a call has come. */
  function Progress(pc: Pc): nat
  {
    match pc
    case Start => 0
    case Reading => 1
    case Hit(_) => 2
    case Miss => 2
    case Missed => 3
    case Locked => 4
    case Describing => 5
    case Storing(_) => 6
    case Leaving(_) => 7
    case Done(_) => 8
  }

  function TotalProgress(pcs: seq<Pc>): nat
  {
    if pcs == [] then 0 else TotalProgress(pcs[..|pcs| - 1]) + Progress(pcs[|pcs| - 1])
  }

  lemma {:induction false} ProgressUpdate(pcs: seq<Pc>, t: nat, pc: Pc)
    requires t < |pcs|
    ensures TotalProgress(pcs[t := pc]) == TotalProgress(pcs) - Progress(pcs[t]) + Progress(pc)
    decreases |pcs|
  {
    var n := |pcs| - 1;
    if t == n {
      assert pcs[t := pc][..n] == pcs[..n];
    } else {
      ProgressUpdate(pcs[..n], t, pc);
      assert pcs[t := pc][..n] == pcs[..n][t := pc];
    }
  }

  lemma {:induction false} ProgressIsBounded(pcs: seq<Pc>)
    ensures TotalProgress(pcs) <= 8 * |pcs|
    ensures TotalProgress(pcs) == 8 * |pcs| ==> forall t :: 0 <= t < |pcs| ==> pcs[t].Done?
    decreases |pcs|
  {
    if pcs != [] {
      ProgressIsBounded(pcs[..|pcs| - 1]);
    }
  }

  /** A turn that does anything brings its call forward. */
  lemma EveryMoveIsProgress(s: State, t: nat, d: Description)
    requires WellFormed(s) && Step(s, t, d) != s
    ensures TotalProgress(Step(s, t, d).pcs) > TotalProgress(s.pcs)
  {
    var s' := Step(s, t, d);
    ProgressUpdate(s.pcs, t, s'.pcs[t]);
    assert s'.pcs == s.pcs[t := s'.pcs[t]];
  }

  /** How many turns of the schedule did something. */
  function Moves(s: State, schedule: seq<Turn>): nat
    requires WellFormed(s)
    decreases |schedule|
  {
    if schedule == [] then 0
    else
      var n := |schedule| - 1;
      Moves(s, schedule[..n]) + if Run(s, schedule) != Run(s, schedule[..n]) then 1 else 0
  }

  lemma {:induction false} MovesAreProgress(s: State, schedule: seq<Turn>)
    requires WellFormed(s)
    ensures TotalProgress(s.pcs) + Moves(s, schedule) <= TotalProgress(Run(s, schedule).pcs)
    decreases |schedule|
  {
    if schedule != [] {
      hide Step;
      var n := |schedule| - 1;
      MovesAreProgress(s, schedule[..n]);
      var mid := Run(s, schedule[..n]);
      if Run(s, schedule) != mid {
        EveryMoveIsProgress(mid, schedule[n].call, schedule[n].answer);
      }
    }
  }

  /** Over every schedule at most eight turns per call do anything, and once that many have, every
      call has its answer. */
  lemma AtMostEightMovesEach(calls: seq<string>, schedule: seq<Turn>)
    ensures var s := Run(Initial(calls), schedule);
            && Moves(Initial(calls), schedule) <= 8 * |calls|
            && (Moves(Initial(calls), schedule) == 8 * |calls| ==> forall t :: 0 <= t < |calls| ==> s.pcs[t].Done?)
  {
    hide Step;
    InitialInv(calls);
    MovesAreProgress(Initial(calls), schedule);
    ProgressIsBounded(Run(Initial(calls), schedule).pcs);
  }

  /** And every run can be brought to its end: some continuation answers every call. */
  lemma {:induction false} EveryRunCanFinish(calls: seq<string>, schedule: seq<Turn>, d: Description)
    returns (more: seq<Turn>)
    ensures forall t :: 0 <= t < |calls| ==> Run(Initial(calls), schedule + more).pcs[t].Done?
    decreases 8 * |calls| - TotalProgress(Run(Initial(calls), schedule).pcs)
  {
    hide Step;
    var s := Run(Initial(calls), schedule);
    InitialInv(calls);
    ProgressIsBounded(s.pcs);
    if t :| 0 <= t < |calls| && !s.pcs[t].Done? {
      NeverStuck(calls, schedule, t, d);
      var u :| 0 <= u < |calls| && Step(s, u, d) != s;
      EveryMoveIsProgress(s, u, d);
      var next := schedule + [Turn(u, d)];
      assert next[..|next| - 1] == schedule;
      ProgressIsBounded(Run(Initial(calls), next).pcs);
      var rest := EveryRunCanFinish(calls, next, d);
      more := [Turn(u, d)] + rest;
      assert schedule + more == next + rest;
    } else {
      more := [];
      assert schedule + more == schedule;
    }
  }

  // ---- One call alone -------------------------------------------------------------------------

  /** `n` turns in a row for the one call there is. */
  function Alone(s: State, d: Description, n: nat): State
    requires WellFormed(s)
    decreases n
  {
    if n == 0 then s else Alone(Step(s, 0, d), d, n - 1)
  }

  lemma AloneStep(s: State, d: Description, n: nat)
    requires WellFormed(s) && n > 0
    ensures Alone(s, d, n) == Alone(Step(s, 0, d), d, n - 1)
  {
  }

  lemma AloneCached(id: string, d: Description, cache: map<string, string>)
    requires id != "" && id in cache
    ensures Alone(State([id], [Start], cache, []), d, 8) == State([id], [Done(cache[id])], cache, [])
  {
    var s, k := State([id], [Start], cache, []), 0;
    while k < 8
      invariant 0 <= k <= 8 && WellFormed(s)
      invariant Alone(State([id], [Start], cache, []), d, 8) == Alone(s, d, 8 - k)
      invariant s == State([id], [if k == 0 then Start else if k == 1 then Reading
                                  else if k == 2 then Hit(cache[id]) else Done(cache[id])], cache, [])
    {
      AloneStep(s, d, 8 - k);
      s, k := Step(s, 0, d), k + 1;
    }
  }

  /** Where an uncached call alone stands after `k` turns. */
  function UncachedAfter(id: string, d: Description, cache: map<string, string>, k: nat): State
  {
    var alias := AliasFrom(id, d);
    var pc := match k
              case 0 => Start
              case 1 => Reading
              case 2 => Miss
              case 3 => Missed
              case 4 => Locked
              case 5 => Describing
              case 6 => Storing(alias)
              case 7 => Leaving(alias)
              case _ => Done(alias);
    State([id], [pc], if k < 7 then cache else cache[id := alias], if k < 6 then [] else [Lookup(id, d)])
  }

  lemma UncachedTurn(id: string, d: Description, cache: map<string, string>, k: nat)
    requires id != "" && id !in cache && k < 8
    ensures Step(UncachedAfter(id, d, cache, k), 0, d) == UncachedAfter(id, d, cache, k + 1)
  {
  }

  lemma AloneUncached(id: string, d: Description, cache: map<string, string>)
    requires id != "" && id !in cache
    ensures var alias := AliasFrom(id, d);
            Alone(State([id], [Start], cache, []), d, 8)
              == State([id], [Done(alias)], cache[id := alias], [Lookup(id, d)])
  {
    hide Step;
    var s, k := State([id], [Start], cache, []), 0;
    while k < 8
      invariant 0 <= k <= 8 && WellFormed(s)
      invariant Alone(State([id], [Start], cache, []), d, 8) == Alone(s, d, 8 - k)
      invariant s == UncachedAfter(id, d, cache, k)
    {
      AloneStep(s, d, 8 - k);
      UncachedTurn(id, d, cache, k);
      s, k := Step(s, 0, d), k + 1;
    }
  }

  lemma AloneEmpty(d: Description, cache: map<string, string>)
    ensures Alone(State([""], [Start], cache, []), d, 8) == State([""], [Done("")], cache, [])
  {
    var s, k := State([""], [Start], cache, []), 0;
    while k < 8
      invariant 0 <= k <= 8 && WellFormed(s)
      invariant Alone(State([""], [Start], cache, []), d, 8) == Alone(s, d, 8 - k)
      invariant s == State([""], [if k == 0 then Start else Done("")], cache, [])
    {
      AloneStep(s, d, 8 - k);
      s, k := Step(s, 0, d), k + 1;
    }
  }

  /** A call nobody interferes with does what `GetAccountAlias` does as a method. */
  lemma AloneItIsTheMethod(id: string, d: Description, cache: map<string, string>)
    ensures var s := Alone(State([id], [Start], cache, []), d, 8);
            var asked := id != "" && id !in cache;
            var alias := if id == "" then "" else if id in cache then cache[id] else AliasFrom(id, d);
            && s.pcs == [Done(alias)]
            && s.cache == (if asked then cache[id := alias] else cache)
            && s.lookups == (if asked then [Lookup(id, d)] else [])
  {
    hide Step, Alone;
    if id == "" {
      AloneEmpty(d, cache);
    } else if id in cache {
      AloneCached(id, d, cache);
    } else {
      AloneUncached(id, d, cache);
    }
  }
}
