/**
 Swapping the configuration under load: requests, the resolver swap and cleanup as interleaved
 steps (pkg/runtime/dispatcher.go, pkg/runtime/resolver.go, pkg/runtime/controller.go).
 */
module ConfigSwap {
  import opened Values
  import opened HandlerTables

  /** A request holds the read lock while it resolves; it is counted before it lets go of it. */
  datatype Flight = Resolving(r: nat) | Counted(r: nat) | Flying(r: nat)

  /** The controller: publishing a snapshot, then waiting for the old resolver and closing its handlers. */
  datatype Phase =
    | Steady
    | Prepared(next: Table)
    | Waiting(victim: nat)
    | Closing(victim: nat, todo: set<string>)

  /** Resolvers are numbered in order; the last one is installed. `closes` counts the closes of each handler. */
  datatype System = System(
    tables: seq<Table>, refs: seq<int>, leaked: seq<nat>, requests: map<nat, Flight>,
    phase: Phase, built: set<nat>, closes: multiset<nat>, abandoned: set<nat>)

  const INIT := System([map[]], [0], [0], map[], Steady, {}, multiset{}, {})

  datatype Transition =
    | Acquire(q: nat)
    | Select(q: nat)
    | Reject(q: nat)
    | Unwind(q: nat)
    | Unlock(q: nat)
    | Finish(q: nat)
    | Prepare(config: Config, builds: Builds, marked: Table, next: Table)
    | Swap
    | Drain
    | Timeout
    | Shut(name: string)
    | Settle

  function Current(s: System): int {
    |s.tables| - 1
  }

  ghost predicate IsResolving(s: System, q: nat) {
    q in s.requests && s.requests[q].Resolving? && s.requests[q].r < |s.refs| && |s.refs| == |s.leaked|
  }

  ghost predicate Enabled(s: System, st: Transition) {
    && 0 < |s.tables| == |s.refs| == |s.leaked|
    && match st
       case Acquire(q) => q !in s.requests
       case Select(q) => IsResolving(s, q)
       case Reject(q) => IsResolving(s, q)
       case Unwind(q) => IsResolving(s, q)
       case Unlock(q) => q in s.requests && s.requests[q].Counted?
       case Finish(q) => q in s.requests && s.requests[q].Flying? && s.requests[q].r < |s.refs|
       case Prepare(config, builds, marked, next) =>
         && s.phase.Steady? && config.Keys <= builds.Keys && FreshBuilds(builds, s.built)
         && MarkedAs(s.tables[Current(s)], config, marked) && InitializedAs(s.tables[Current(s)], config, builds, next)
       case Swap => s.phase.Prepared? && forall q :: q in s.requests ==> s.requests[q].Flying?
       case Drain => s.phase.Waiting? && s.phase.victim < |s.refs| && s.refs[s.phase.victim] <= 0
       case Timeout => s.phase.Waiting? && s.phase.victim < |s.refs| && s.refs[s.phase.victim] > 0
       case Shut(n) =>
         && s.phase.Closing? && n in s.phase.todo && s.phase.victim < |s.tables|
         && n in s.tables[s.phase.victim] && s.tables[s.phase.victim][n].handler.Some?
       case Settle => s.phase.Closing? && s.phase.todo == {}
  }

  /** The names whose handler cleanup closes. */
  function ToClose(t: Table): set<string> {
    set n | n in t && t[n].closeOnCleanup && t[n].handler.Some?
  }

  ghost function Handlers(t: Table): set<nat> {
    set n | n in t && t[n].handler.Some? :: t[n].handler.value
  }

  ghost function Apply(s: System, st: Transition): System
    requires Enabled(s, st)
  {
    match st
    case Acquire(q) => s.(requests := s.requests[q := Resolving(Current(s))])
    case Select(q) =>
      var r := s.requests[q].r;
      s.(requests := s.requests[q := Counted(r)], refs := s.refs[r := s.refs[r] + 1])
    case Reject(q) => s.(requests := s.requests - {q})
    case Unwind(q) =>
      // the deferred increment runs while the panic unwinds, and nothing will take it back
      var r := s.requests[q].r;
      s.(requests := s.requests - {q}, refs := s.refs[r := s.refs[r] + 1], leaked := s.leaked[r := s.leaked[r] + 1])
    case Unlock(q) => s.(requests := s.requests[q := Flying(s.requests[q].r)])
    case Finish(q) =>
      var r := s.requests[q].r;
      s.(requests := s.requests - {q}, refs := s.refs[r := s.refs[r] - 1])
    case Prepare(_, _, marked, next) =>
      s.(tables := s.tables[Current(s) := marked], phase := Prepared(next), built := s.built + Handlers(next))
    case Swap =>
      s.(tables := s.tables + [s.phase.next], refs := s.refs + [0], leaked := s.leaked + [0],
         phase := Waiting(Current(s)))
    case Drain => s.(phase := Closing(s.phase.victim, ToClose(s.tables[s.phase.victim])))
    case Timeout => s.(phase := Steady, abandoned := s.abandoned + {s.phase.victim})
    case Shut(n) =>
      var h := s.tables[s.phase.victim][n].handler.value;
      s.(phase := Closing(s.phase.victim, s.phase.todo - {n}), closes := s.closes + multiset{h})
    case Settle => s.(phase := Steady)
  }

  // ----- the invariant -----

  /** The counted requests of a resolver. */
  function Holders(requests: map<nat, Flight>, r: nat): set<nat> {
    set q | q in requests && requests[q] in {Counted(r), Flying(r)}
  }

  /** A reference count is the number of requests in flight, and of those lost to panics. */
  ghost predicate CountsExact(s: System) {
    && 0 < |s.tables| == |s.refs| == |s.leaked|
    && forall r :: 0 <= r < |s.refs| ==> s.refs[r] == |Holders(s.requests, r)| + s.leaked[r]
  }

  /** A request is on the installed resolver, on the one being drained, or on one given up. */
  ghost predicate FlightLocated(s: System, q: nat)
    requires q in s.requests
  {
    var r := s.requests[q].r;
    && (r == Current(s) || r in s.abandoned || (s.phase.Waiting? && r == s.phase.victim))
    && (!s.requests[q].Flying? ==> r == Current(s))
  }

  ghost predicate Located(s: System) {
    && |s.tables| > 0
    && (forall q :: q in s.requests ==> FlightLocated(s, q))
    && (forall r :: r in s.abandoned ==> r < Current(s))
    && (s.phase.Waiting? || s.phase.Closing? ==> s.phase.victim == Current(s) - 1 && s.phase.victim !in s.abandoned)
  }

  ghost predicate Open(t: Table, built: set<nat>, closes: multiset<nat>) {
    forall h :: Contains(t, h) ==> h in built && closes[h] == 0
  }

  /** The entries of `v` split between those to close and those that `t` carries on. */
  ghost predicate Splits(v: Table, t: Table) {
    forall h :: Contains(v, h) ==> (HasMarked(v, h) <==> !Contains(t, h))
  }

  /** What is still to be closed is open, and the rest of the marked handlers are closed. */
  ghost predicate Progress(v: Table, todo: set<string>, built: set<nat>, closes: multiset<nat>) {
    && todo <= ToClose(v)
    && forall n, h :: Owns(v, n, h) && v[n].closeOnCleanup ==> h in built && closes[h] == if n in todo then 0 else 1
  }

  ghost predicate TablesSound(s: System) {
    && |s.tables| > 0
    && var t := s.tables[Current(s)];
       && Injective(t) && Open(t, s.built, s.closes)
       && match s.phase
          case Steady => Unmarked(t)
          case Prepared(next) => Injective(next) && Unmarked(next) && Open(next, s.built, s.closes) && Splits(t, next)
          case Waiting(v) =>
            && Unmarked(t) && v < |s.tables|
            && Injective(s.tables[v]) && Open(s.tables[v], s.built, s.closes) && Splits(s.tables[v], t)
          case Closing(v, todo) =>
            && Unmarked(t) && v < |s.tables|
            && Injective(s.tables[v]) && Progress(s.tables[v], todo, s.built, s.closes) && Splits(s.tables[v], t)
  }

  ghost predicate ClosedOnce(s: System) {
    forall h :: s.closes[h] <= 1 && (s.closes[h] > 0 ==> h in s.built)
  }

  /** A handler is in use, closed, or about to be. */
  ghost predicate Accounted(s: System, h: nat)
    requires |s.tables| > 0
  {
    || s.closes[h] == 1 || Contains(s.tables[Current(s)], h)
    || match s.phase
       case Steady => false
       case Prepared(next) => Contains(next, h)
       case Waiting(v) => v < |s.tables| && Contains(s.tables[v], h)
       case Closing(v, todo) => v < |s.tables| && exists n :: n in todo && Owns(s.tables[v], n, h)
  }

  ghost predicate NothingLost(s: System) {
    |s.tables| > 0 && (s.abandoned == {} ==> forall h :: h in s.built ==> Accounted(s, h))
  }

  ghost predicate Inv(s: System) {
    CountsExact(s) && Located(s) && TablesSound(s) && ClosedOnce(s) && NothingLost(s)
  }

  lemma InitInv()
    ensures Inv(INIT)
  {
    assert Holders(map[], 0) == {};
  }

  // ----- every step keeps it -----

  lemma HoldersPut(requests: map<nat, Flight>, q: nat, x: Flight, r: nat)
    ensures Holders(requests[q := x], r) ==
      if x in {Counted(r), Flying(r)} then Holders(requests, r) + {q} else Holders(requests, r) - {q}
  {
  }

  lemma HoldersRemove(requests: map<nat, Flight>, q: nat, r: nat)
    ensures Holders(requests - {q}, r) == Holders(requests, r) - {q}
  {
  }

  lemma CountsKept(s: System, st: Transition)
    requires Inv(s) && Enabled(s, st)
    ensures CountsExact(Apply(s, st))
  {
    hide TablesSound, NothingLost, ClosedOnce, FreshBuilds, Holders;
    var s' := Apply(s, st);
    forall r | 0 <= r < |s'.refs| ensures s'.refs[r] == |Holders(s'.requests, r)| + s'.leaked[r] {
      if st.Acquire? || st.Select? || st.Unlock? {
        HoldersPut(s.requests, st.q, s'.requests[st.q], r);
        HolderIs(s.requests, st.q, r);
      } else if st.Reject? || st.Unwind? || st.Finish? {
        HoldersRemove(s.requests, st.q, r);
        HolderIs(s.requests, st.q, r);
      } else if st.Swap? && r == |s.refs| {
        NoHolders(s);
      }
    }
  }

  lemma HolderIs(requests: map<nat, Flight>, q: nat, r: nat)
    ensures q in Holders(requests, r) <==> q in requests && requests[q] in {Counted(r), Flying(r)}
    ensures q in Holders(requests, r) ==>
      |Holders(requests, r) - {q}| == |Holders(requests, r)| - 1 && Holders(requests, r) + {q} == Holders(requests, r)
    ensures q !in Holders(requests, r) ==>
      |Holders(requests, r) + {q}| == |Holders(requests, r)| + 1 && Holders(requests, r) - {q} == Holders(requests, r)
  {
  }

  /** Nothing is on a resolver that does not exist yet. */
  lemma NoHolders(s: System)
    requires Located(s)
    ensures Holders(s.requests, |s.tables|) == {}
  {
    forall q | q in s.requests ensures s.requests[q].r < |s.tables| { assert FlightLocated(s, q); }
  }

  lemma PlacedKept(s: System, st: Transition)
    requires Inv(s) && Enabled(s, st)
    ensures Located(Apply(s, st))
  {
    hide TablesSound, NothingLost, ClosedOnce, FreshBuilds, Holders, CountsExact;
    var s' := Apply(s, st);
    if st.Drain? { Drained(s); }
    forall q | q in s'.requests ensures FlightLocated(s', q) {
      if q in s.requests { assert FlightLocated(s, q); }
    }
  }

  /** Once the count is zero no request is left on the old resolver. */
  lemma Drained(s: System)
    requires CountsExact(s) && Located(s) && s.phase.Waiting? && s.refs[s.phase.victim] <= 0
    ensures forall q :: q in s.requests ==> s.requests[q].r != s.phase.victim
  {
    var v := s.phase.victim;
    assert |Holders(s.requests, v)| == 0;
    forall q | q in s.requests ensures s.requests[q].r != v {
      assert FlightLocated(s, q);
      assert q !in Holders(s.requests, v);
    }
  }

  /** Only publishing and cleaning up touch tables, handlers and the phase. */
  predicate OfRequest(st: Transition) {
    st.Acquire? || st.Select? || st.Reject? || st.Unwind? || st.Unlock? || st.Finish?
  }

  lemma RequestsLeaveTables(s: System, st: Transition)
    requires Enabled(s, st) && OfRequest(st)
    ensures var s' := Apply(s, st);
      s'.tables == s.tables && s'.phase == s.phase && s'.built == s.built && s'.closes == s.closes
          && s'.abandoned == s.abandoned
  {
  }

  lemma PrepareSound(s: System, st: Transition)
    requires Inv(s) && Enabled(s, st) && st.Prepare?
    ensures var s' := Apply(s, st); TablesSound(s') && ClosedOnce(s') && NothingLost(s')
  {
    hide CountsExact, Located, InitializedAs, MarkedAs, FreshBuilds, Injective, HasMarked, Contains, Handlers;
    var s' := Apply(s, st);
    InitializeSplits(s.tables[Current(s)], st.config, st.builds, s.built, st.marked, st.next);
    forall h ensures h in Handlers(st.next) <==> Contains(st.next, h) { HandlersAre(st.next, h); }
    assert s'.tables[Current(s')] == st.marked;
  }

  lemma HandlersAre(t: Table, h: nat)
    ensures h in Handlers(t) <==> Contains(t, h)
  {
    if h in Handlers(t) {
      var n :| n in t && t[n].handler.Some? && t[n].handler.value == h;
      assert Owns(t, n, h);
    }
    if Contains(t, h) { var n :| Owns(t, n, h); }
  }

  lemma SwapSound(s: System)
    requires Inv(s) && Enabled(s, Swap)
    ensures var s' := Apply(s, Swap); TablesSound(s') && ClosedOnce(s') && NothingLost(s')
  {
    hide CountsExact, Located, Injective, HasMarked, Contains;
    var s' := Apply(s, Swap);
    assert s'.tables[Current(s')] == s.phase.next && s'.tables[Current(s)] == s.tables[Current(s)];
  }

  lemma DrainSound(s: System)
    requires Inv(s) && Enabled(s, Drain)
    ensures var s' := Apply(s, Drain); TablesSound(s') && ClosedOnce(s') && NothingLost(s')
  {
    hide CountsExact, Injective;
    var s', v := Apply(s, Drain), s.tables[s.phase.victim];
    forall n, h | Owns(v, n, h) && v[n].closeOnCleanup ensures h in s.built && s.closes[h] == 0 && n in ToClose(v) {
      assert Contains(v, h);
    }
    if s.abandoned == {} {
      forall h | h in s.built ensures Accounted(s', h) {
        assert Accounted(s, h);
        if Contains(v, h) && !Contains(s.tables[Current(s)], h) {
          var n :| Owns(v, n, h) && v[n].closeOnCleanup;
          assert n in ToClose(v);
        }
      }
    }
  }

  lemma TimeoutSound(s: System)
    requires Inv(s) && Enabled(s, Timeout)
    ensures var s' := Apply(s, Timeout); TablesSound(s') && ClosedOnce(s') && NothingLost(s')
  {
    hide CountsExact, Injective, HasMarked, Contains;
  }

  lemma SettleSound(s: System)
    requires Inv(s) && Enabled(s, Settle)
    ensures var s' := Apply(s, Settle); TablesSound(s') && ClosedOnce(s') && NothingLost(s')
  {
    hide CountsExact, Injective, HasMarked, Contains;
    var s' := Apply(s, Settle);
    if s.abandoned == {} {
      forall h | h in s.built ensures Accounted(s', h) { assert Accounted(s, h); }
    }
  }

  lemma CloseSound(s: System, n: string)
    requires Inv(s) && Enabled(s, Shut(n))
    ensures var s' := Apply(s, Shut(n)); TablesSound(s') && ClosedOnce(s') && NothingLost(s')
  {
    hide CountsExact;
    var s', v, t := Apply(s, Shut(n)), s.tables[s.phase.victim], s.tables[Current(s)];
    var h := v[n].handler.value;
    assert Owns(v, n, h) && HasMarked(v, h) && Contains(v, h) && !Contains(t, h);
    assert forall x :: s'.closes[x] == s.closes[x] + if x == h then 1 else 0;
    forall m, x | Owns(v, m, x) && v[m].closeOnCleanup
      ensures x in s'.built && s'.closes[x] == if m in s'.phase.todo then 0 else 1
    {
      if x == h { assert m == n; }
    }
    if s.abandoned == {} {
      forall x | x in s.built ensures Accounted(s', x) {
        assert Accounted(s, x);
        if exists m :: m in s.phase.todo && Owns(v, m, x) {
          var m :| m in s.phase.todo && Owns(v, m, x);
          if m != n { assert m in s'.phase.todo && Owns(v, m, x); }
        }
      }
    }
  }

  lemma StepKeepsInv(s: System, st: Transition)
    requires Inv(s) && Enabled(s, st)
    ensures Inv(Apply(s, st))
  {
    hide CountsExact, Located, TablesSound, ClosedOnce, NothingLost, Apply, Enabled;
    CountsKept(s, st);
    PlacedKept(s, st);
    if OfRequest(st) { SoundKept(s, st); }
    else if st.Prepare? { PrepareSound(s, st); }
    else if st.Swap? { SwapSound(s); }
    else if st.Drain? { DrainSound(s); }
    else if st.Timeout? { TimeoutSound(s); }
    else if st.Shut? { CloseSound(s, st.name); }
    else { SettleSound(s); }
  }

  lemma SoundKept(s: System, st: Transition)
    requires Inv(s) && Enabled(s, st) && OfRequest(st)
    ensures var s' := Apply(s, st); TablesSound(s') && ClosedOnce(s') && NothingLost(s')
  {
    hide CountsExact, Located, Apply, Enabled, Contains, HasMarked, Injective;
    RequestsLeaveTables(s, st);
    var s' := Apply(s, st);
    if s.abandoned == {} {
      forall h | h in s.built ensures Accounted(s', h) { assert Accounted(s, h); }
    }
  }

  // ----- whole runs -----

  ghost predicate Legal(s: System, steps: seq<Transition>)
    decreases |steps|
  {
    steps != [] ==> Enabled(s, steps[0]) && Legal(Apply(s, steps[0]), steps[1..])
  }

  ghost function EndState(s: System, steps: seq<Transition>): System
    requires Legal(s, steps)
    decreases |steps|
  {
    if steps == [] then s else EndState(Apply(s, steps[0]), steps[1..])
  }

  lemma {:induction false} RunKeepsInv(s: System, steps: seq<Transition>)
    requires Inv(s) && Legal(s, steps)
    ensures Inv(EndState(s, steps))
    decreases |steps|
  {
    hide Inv, Enabled, Apply;
    if steps != [] {
      StepKeepsInv(s, steps[0]);
      RunKeepsInv(Apply(s, steps[0]), steps[1..]);
    }
  }

  /** No request that cleanup waited for, and not the installed configuration, refers to a closed handler. */
  ghost predicate Safe(s: System) {
    && |s.tables| > 0
    && (forall h :: Contains(s.tables[Current(s)], h) ==> s.closes[h] == 0)
    && forall q, h :: Refers(s, q, h) && s.requests[q].r !in s.abandoned ==> s.closes[h] == 0
  }

  /** A request in flight may use the handler. */
  ghost predicate Refers(s: System, q: nat, h: nat) {
    q in s.requests && s.requests[q].r < |s.tables| && Contains(s.tables[s.requests[q].r], h)
  }

  /** In every interleaving, with timeouts and panics. */
  lemma AlwaysSafe(steps: seq<Transition>)
    requires Legal(INIT, steps)
    ensures Safe(EndState(INIT, steps))
  {
    hide CountsExact, Enabled, Apply, Contains;
    InitInv();
    RunKeepsInv(INIT, steps);
    var s := EndState(INIT, steps);
    forall q, h | Refers(s, q, h) && s.requests[q].r !in s.abandoned ensures s.closes[h] == 0 {
      assert FlightLocated(s, q);
    }
  }

  ghost predicate NoTimeouts(steps: seq<Transition>) {
    forall i :: 0 <= i < |steps| ==> !steps[i].Timeout?
  }

  ghost predicate NoPanics(steps: seq<Transition>) {
    forall i :: 0 <= i < |steps| ==> !steps[i].Unwind?
  }

  lemma {:induction false} NeverAbandoned(s: System, steps: seq<Transition>)
    requires Legal(s, steps) && s.abandoned == {} && NoTimeouts(steps)
    ensures EndState(s, steps).abandoned == {}
    decreases |steps|
  {
    if steps != [] {
      assert !steps[0].Timeout?;
      NeverAbandoned(Apply(s, steps[0]), steps[1..]);
    }
  }

  lemma {:induction false} NeverLeaked(s: System, steps: seq<Transition>)
    requires Legal(s, steps) && NoPanics(steps) && forall r :: 0 <= r < |s.leaked| ==> s.leaked[r] == 0
    ensures forall r :: 0 <= r < |EndState(s, steps).leaked| ==> EndState(s, steps).leaked[r] == 0
    decreases |steps|
  {
    if steps != [] {
      assert !steps[0].Unwind?;
      NeverLeaked(Apply(s, steps[0]), steps[1..]);
    }
  }

  /** Where no cleanup times out, no request in flight at all refers to a closed handler. */
  lemma SafeWithoutTimeouts(steps: seq<Transition>, q: nat, h: nat)
    requires Legal(INIT, steps) && NoTimeouts(steps) && Refers(EndState(INIT, steps), q, h)
    ensures EndState(INIT, steps).closes[h] == 0
  {
    hide Enabled, Apply, Contains, TablesSound, NothingLost, ClosedOnce, CountsExact;
    AlwaysSafe(steps);
    NeverAbandoned(INIT, steps);
  }

  /** Where no resolve panics, a resolver's count is exactly its requests in flight. */
  lemma CountIsInFlight(steps: seq<Transition>, r: nat)
    requires Legal(INIT, steps) && NoPanics(steps) && r < |EndState(INIT, steps).refs|
    ensures EndState(INIT, steps).refs[r] == |Holders(EndState(INIT, steps).requests, r)|
  {
    hide Enabled, Apply, TablesSound, NothingLost, ClosedOnce, Located, Holders;
    InitInv();
    RunKeepsInv(INIT, steps);
    NeverLeaked(INIT, steps);
  }

  /**
   Every handler ever built is closed at most once; without timeouts, between publications it is either installed or
   closed.
   */
  lemma HandlerLifecycle(steps: seq<Transition>, h: nat)
    requires Legal(INIT, steps)
    ensures EndState(INIT, steps).closes[h] <= 1
    ensures var s := EndState(INIT, steps);
      NoTimeouts(steps) && s.phase.Steady? && h in s.built ==>
        |s.tables| > 0 && (Contains(s.tables[Current(s)], h) <==> s.closes[h] == 0)
  {
    hide Enabled, Apply, Contains, CountsExact, Located;
    InitInv();
    RunKeepsInv(INIT, steps);
    if NoTimeouts(steps) { NeverAbandoned(INIT, steps); }
    var s := EndState(INIT, steps);
    if s.abandoned == {} && h in s.built { assert Accounted(s, h); }
  }

  // ----- one publication, from its start to the end of its cleanup -----

  /** Cleanup of a marked table is over: every handler that was to be closed is. */
  ghost predicate CleanedUp(marked: Table, closes: multiset<nat>) {
    forall n, h :: Owns(marked, n, h) && marked[n].closeOnCleanup ==> closes[h] == 1
  }

  /** How far the publication of `next` over `marked` has come. */
  ghost predicate Publishing(s: System, marked: Table, next: Table) {
    && |s.tables| > 0
    && match s.phase
       case Steady => s.tables[Current(s)] == next && CleanedUp(marked, s.closes)
       case Prepared(t) => t == next && s.tables[Current(s)] == marked
       case Waiting(v) => v < |s.tables| && s.tables[v] == marked && s.tables[Current(s)] == next
       case Closing(v, _) => v < |s.tables| && s.tables[v] == marked && s.tables[Current(s)] == next
  }

  /** No other publication, and no timeout. */
  ghost predicate OnePublication(steps: seq<Transition>) {
    forall i :: 0 <= i < |steps| ==> !steps[i].Prepare? && !steps[i].Timeout?
  }

  lemma PublishingKept(s: System, st: Transition, marked: Table, next: Table)
    requires Inv(s) && Enabled(s, st) && Publishing(s, marked, next) && !st.Prepare? && !st.Timeout?
    ensures Publishing(Apply(s, st), marked, next)
  {
    hide CountsExact, Located, ClosedOnce, NothingLost, Injective, Open, Splits, Unmarked, HasMarked, Contains, ToClose;
    if OfRequest(st) { RequestsLeaveTables(s, st); }
  }

  lemma {:induction false} PublishingRuns(s: System, steps: seq<Transition>, marked: Table, next: Table)
    requires Inv(s) && Legal(s, steps) && Publishing(s, marked, next) && OnePublication(steps)
    ensures Publishing(EndState(s, steps), marked, next)
    decreases |steps|
  {
    hide Inv, Enabled, Apply, Publishing;
    if steps != [] {
      assert !steps[0].Prepare? && !steps[0].Timeout?;
      PublishingKept(s, steps[0], marked, next);
      StepKeepsInv(s, steps[0]);
      PublishingRuns(Apply(s, steps[0]), steps[1..], marked, next);
    }
  }

  /**
   In every run: when a publication and its cleanup are over, without a timeout, a handler of the old
   configuration is closed exactly if its name is gone or its hash has changed, and otherwise it is
   installed under its name; and every name that is new or changed has the handler built for it.
   */
  lemma PublicationCloses(before: seq<Transition>, config: Config, builds: Builds, marked: Table, next: Table,
          steps: seq<Transition>, n: string, h: nat)
    requires Legal(INIT, before) && Enabled(EndState(INIT, before), Prepare(config, builds, marked, next))
    requires var s := Apply(EndState(INIT, before), Prepare(config, builds, marked, next));
      Legal(s, steps) && OnePublication(steps) && EndState(s, steps).phase.Steady?
    ensures var s := EndState(INIT, before);
      var s' := EndState(Apply(s, Prepare(config, builds, marked, next)), steps);
      && |s.tables| > 0 && |s'.tables| > 0
      && var t, t' := s.tables[Current(s)], s'.tables[Current(s')];
         && (Owns(t, n, h) && n in config && config[n] == t[n].sha ==> Owns(t', n, h) && s'.closes[h] == 0)
         && (Owns(t, n, h) && !(n in config && config[n] == t[n].sha) ==> !Contains(t', h) && s'.closes[h] == 1)
         && (n in config && !(n in t && t[n].sha == config[n]) ==>
               n in builds && n in t' && t'[n] == Entry(builds[n], config[n], false))
  {
    hide CountsExact, Located, ClosedOnce, NothingLost, Legal, EndState, MarkedAs, InitializedAs, FreshBuilds;
    InitInv();
    RunKeepsInv(INIT, before);
    var s, st := EndState(INIT, before), Prepare(config, builds, marked, next);
    StepKeepsInv(s, st);
    var t := s.tables[Current(s)];
    PublishingRuns(Apply(s, st), steps, marked, next);
    RunKeepsInv(Apply(s, st), steps);
    if Owns(t, n, h) {
      CarriedOver(t, config, builds, marked, next, n, h);
      MarkedOwns(t, config, marked, n, h);
    }
    if n in config { BuiltAnew(t, config, builds, next, n); }
  }

  lemma MarkedOwns(t: Table, config: Config, m: Table, n: string, h: nat)
    requires MarkedAs(t, config, m) && Owns(t, n, h)
    ensures Owns(m, n, h)
  {
  }

  // ----- exactly when closing is unsafe -----

  /** A resolver that was given up still counts a request, and its table holds the handler. */
  ghost predicate StillCounted(s: System, h: nat) {
    exists r :: r in s.abandoned && CountsRequest(s, r) && Contains(s.tables[r], h)
  }

  /** The count of a resolver, less what panics left in it, is not zero. */
  ghost predicate CountsRequest(s: System, r: nat) {
    r < |s.tables| == |s.refs| == |s.leaked| && s.refs[r] > s.leaked[r]
  }

  /** Cleanup is about to close the handler. */
  ghost predicate AboutToClose(s: System, h: nat) {
    exists n :: Enabled(s, Shut(n)) && s.tables[s.phase.victim][n].handler == Some(h)
  }

  /** A handler closed, or about to be, is installed nowhere and waited for nowhere. */
  lemma RetiredHandler(s: System, h: nat)
    requires Inv(s) && (AboutToClose(s, h) || s.closes[h] > 0)
    ensures !Contains(s.tables[Current(s)], h) && (s.phase.Waiting? ==> !Contains(s.tables[s.phase.victim], h))
  {
    hide CountsExact, Located, NothingLost, ClosedOnce;
    if AboutToClose(s, h) {
      var n :| Enabled(s, Shut(n)) && s.tables[s.phase.victim][n].handler == Some(h);
      var v := s.tables[s.phase.victim];
      assert Owns(v, n, h) && Contains(v, h) && HasMarked(v, h);
    }
  }

  lemma CountedHolder(s: System, r: nat) returns (q: nat)
    requires CountsExact(s) && CountsRequest(s, r)
    ensures q in Holders(s.requests, r)
  {
    var holders := Holders(s.requests, r);
    assert |holders| > 0;
    q :| q in holders;
  }

  lemma HolderCounted(s: System, r: nat, q: nat)
    requires CountsExact(s) && r < |s.tables| && q in Holders(s.requests, r)
    ensures CountsRequest(s, r)
  {
    assert Holders(s.requests, r) != {};
  }

  /** Whether a handler that is closed, or about to be, is still in use can be told from the counts. */
  lemma UseIsCounted(s: System, h: nat)
    requires Inv(s) && (AboutToClose(s, h) || s.closes[h] > 0)
    ensures (exists q :: Refers(s, q, h)) <==> StillCounted(s, h)
  {
    hide TablesSound, NothingLost, ClosedOnce, CountsExact, Contains, Enabled, AboutToClose, CountsRequest;
    RetiredHandler(s, h);
    if exists q :: Refers(s, q, h) {
      var q :| Refers(s, q, h);
      assert FlightLocated(s, q);
      var r := s.requests[q].r;
      assert q in Holders(s.requests, r);
      HolderCounted(s, r, q);
    }
    if StillCounted(s, h) {
      var r :| r in s.abandoned && CountsRequest(s, r) && Contains(s.tables[r], h);
      var q := CountedHolder(s, r);
      assert Refers(s, q, h);
    }
  }

  /**
   In every run, with timeouts and panics: the close that cleanup is about to make hits a handler
   that a request in flight may use exactly if a resolver that was given up still counts a request
   and holds that handler. Without panics the reference counts alone decide it.
   */
  lemma ClosingIsUnsafeExactly(steps: seq<Transition>, n: string)
    requires Legal(INIT, steps) && Enabled(EndState(INIT, steps), Shut(n))
    ensures var s := EndState(INIT, steps); var h := s.tables[s.phase.victim][n].handler.value;
      && ((exists q :: Refers(s, q, h)) <==> StillCounted(s, h))
      && (NoPanics(steps) ==>
            ((exists q :: Refers(s, q, h)) <==>
             exists r :: r in s.abandoned && r < |s.refs| && s.refs[r] > 0 && Contains(s.tables[r], h)))
  {
    hide Inv, Legal, EndState, Contains, NoPanics, Apply, Refers;
    InitInv();
    RunKeepsInv(INIT, steps);
    var s := EndState(INIT, steps);
    var h := s.tables[s.phase.victim][n].handler.value;
    assert AboutToClose(s, h);
    UseIsCounted(s, h);
    if NoPanics(steps) { NeverLeaked(INIT, steps); }
  }

  // ----- exactly which runs are unsafe -----

  /** A request in flight may use a closed handler. */
  ghost predicate UsesClosed(s: System) {
    exists q, h :: Refers(s, q, h) && s.closes[h] > 0
  }

  ghost predicate ClosesInUse(s: System, st: Transition) {
    st.Shut? && Enabled(s, st) && StillCounted(s, s.tables[s.phase.victim][st.name].handler.value)
  }

  /** No state of the run has a request that may use a closed handler. */
  ghost predicate SafeThroughout(s: System, steps: seq<Transition>)
    requires Legal(s, steps)
    decreases |steps|
  {
    !UsesClosed(s) && (steps != [] ==> SafeThroughout(Apply(s, steps[0]), steps[1..]))
  }

  /** No close of the run hits a handler that a given-up resolver still counts a request for. */
  ghost predicate ClosesIdleOnly(s: System, steps: seq<Transition>)
    requires Legal(s, steps)
    decreases |steps|
  {
    steps != [] ==> !ClosesInUse(s, steps[0]) && ClosesIdleOnly(Apply(s, steps[0]), steps[1..])
  }

  /** A reference after a step, to a handler closed after it, was there before unless the step closed the handler. */
  lemma NoNewUse(s: System, st: Transition, q: nat, h: nat)
    requires Inv(s) && Enabled(s, st) && Inv(Apply(s, st))
    requires Refers(Apply(s, st), q, h) && Apply(s, st).closes[h] > 0
    ensures Refers(s, q, h) && (s.closes[h] > 0 || (st.Shut? && s.tables[s.phase.victim][st.name].handler == Some(h)))
  {
    hide CountsExact, NothingLost, ClosedOnce, Contains, MarkedAs, InitializedAs, FreshBuilds, Splits, Progress,
      Injective, Unmarked, Holders;
    var s' := Apply(s, st);
    assert FlightLocated(s', q);
    var r := s'.requests[q].r;
    assert Open(s'.tables[Current(s')], s'.built, s'.closes);
    assert r != Current(s');
    assert q in s.requests && s.requests[q].r == r;
    if st.Swap? {
      assert s'.phase == Waiting(Current(s)) && Open(s'.tables[Current(s)], s'.built, s'.closes);
      assert r != Current(s);
    }
    assert s'.tables[r] == s.tables[r];
  }

  lemma UnsafeStep(s: System, st: Transition)
    requires Inv(s) && Enabled(s, st) && !UsesClosed(s)
    ensures UsesClosed(Apply(s, st)) <==> ClosesInUse(s, st)
  {
    hide Inv, Contains, Apply, Enabled, StillCounted, Refers;
    var s' := Apply(s, st);
    StepKeepsInv(s, st);
    if UsesClosed(s') {
      var q, h :| Refers(s', q, h) && s'.closes[h] > 0;
      NoNewUse(s, st, q, h);
      ShutIs(s, st.name);
      UseIsCounted(s, h);
    }
    if ClosesInUse(s, st) {
      ShutIs(s, st.name);
      var h := s.tables[s.phase.victim][st.name].handler.value;
      UseIsCounted(s, h);
      var q :| Refers(s, q, h);
      ShutKeepsUse(s, st.name, q, h);
    }
  }

  lemma ShutIs(s: System, n: string)
    requires Enabled(s, Shut(n))
    ensures s.phase.Closing? && s.phase.victim < |s.tables| && n in s.tables[s.phase.victim]
    ensures s.tables[s.phase.victim][n].handler.Some? && AboutToClose(s, s.tables[s.phase.victim][n].handler.value)
  {
  }

  lemma ShutKeepsUse(s: System, n: string, q: nat, h: nat)
    requires Enabled(s, Shut(n)) && Refers(s, q, h) && s.tables[s.phase.victim][n].handler == Some(h)
    ensures Refers(Apply(s, Shut(n)), q, h) && Apply(s, Shut(n)).closes[h] > 0
  {
    hide Contains;
  }

  lemma {:induction false} SafeFrom(s: System, steps: seq<Transition>)
    requires Inv(s) && Legal(s, steps) && !UsesClosed(s)
    ensures SafeThroughout(s, steps) <==> ClosesIdleOnly(s, steps)
    decreases |steps|
  {
    hide Inv, Apply, Enabled, UsesClosed, ClosesInUse;
    if steps != [] {
      UnsafeStep(s, steps[0]);
      StepKeepsInv(s, steps[0]);
      if !UsesClosed(Apply(s, steps[0])) { SafeFrom(Apply(s, steps[0]), steps[1..]); }
      else { UnsafeFrom(Apply(s, steps[0]), steps[1..]); }
    }
  }

  lemma UnsafeFrom(s: System, steps: seq<Transition>)
    requires Legal(s, steps) && UsesClosed(s)
    ensures !SafeThroughout(s, steps)
  {
  }

  /**
   A run is safe in every state exactly if none of its closes hits a handler for which a given-up resolver still
   counts.
   */
  lemma SafeExactly(steps: seq<Transition>)
    requires Legal(INIT, steps)
    ensures SafeThroughout(INIT, steps) <==> ClosesIdleOnly(INIT, steps)
  {
    InitInv();
    SafeFrom(INIT, steps);
  }

  // ----- a timeout breaks safety -----

  const ONE: Config := map["a" := 1]
  const TABLE: Table := map["a" := Entry(Some(7), 1, false)]
  const MARKED: Table := map["a" := Entry(Some(7), 1, true)]

  lemma {:induction false} RunConcat(s: System, a: seq<Transition>, b: seq<Transition>)
    requires Legal(s, a) && Legal(EndState(s, a), b)
    ensures Legal(s, a + b) && EndState(s, a + b) == EndState(EndState(s, a), b)
    decreases |a|
  {
    hide Enabled, Apply;
    if a == [] {
      assert a + b == b;
    } else {
      assert (a + b)[1..] == a[1..] + b;
      RunConcat(Apply(s, a[0]), a[1..], b);
    }
  }

  lemma Two(s: System, a: Transition, b: Transition)
    requires Enabled(s, a) && Enabled(Apply(s, a), b)
    ensures Legal(s, [a, b]) && EndState(s, [a, b]) == Apply(Apply(s, a), b)
  {
    hide Enabled, Apply;
    assert [a, b][1..] == [b] && [b][1..] == [];
    assert Legal(Apply(s, a), [b]) && EndState(Apply(s, a), [b]) == Apply(Apply(s, a), b);
  }

  /** Between publications, with the given tables, counts, requests and resolvers given up. */
  ghost function Between(tables: seq<Table>, refs: seq<int>, requests: map<nat, Flight>, built: set<nat>,
          abandoned: set<nat>): System {
    System(tables, refs, seq(|refs|, _ => 0), requests, Steady, built, multiset{}, abandoned)
  }

  lemma Publish(s: System, config: Config, builds: Builds, marked: Table, next: Table)
    requires Enabled(s, Prepare(config, builds, marked, next))
    requires forall q :: q in s.requests ==> s.requests[q].Flying?
    ensures var steps, p := [Prepare(config, builds, marked, next), Swap],
      Apply(s, Prepare(config, builds, marked, next));
      && Legal(s, steps)
      && EndState(s, steps) ==
         p.(tables := p.tables + [next], refs := p.refs + [0], leaked := p.leaked + [0],
            phase := Waiting(Current(s)))
  {
    Two(s, Prepare(config, builds, marked, next), Swap);
  }

  lemma FirstPublish()
    ensures var a := [Prepare(ONE, map["a" := Some(7)], map[], TABLE), Swap];
      && Legal(INIT, a)
      && EndState(INIT, a) == Between([map[], TABLE], [0, 0], map[], {7}, {}).(phase := Waiting(0))
  {
    hide Legal, EndState, Handlers;
    HandlersOfTable();
    Publish(INIT, ONE, map["a" := Some(7)], map[], TABLE);
    assert seq(2, _ => 0) == [0, 0];
  }

  lemma FirstCleanup()
    ensures var s := Between([map[], TABLE], [0, 0], map[], {7}, {});
      Legal(s.(phase := Waiting(0)), [Drain, Settle]) && EndState(s.(phase := Waiting(0)), [Drain, Settle]) == s
  {
    hide Legal, EndState, Handlers;
    assert ToClose(map[]) == {};
    Two(Between([map[], TABLE], [0, 0], map[], {7}, {}).(phase := Waiting(0)), Drain, Settle);
  }

  lemma HandlersOfTable()
    ensures Handlers(TABLE) == {7} && Handlers(map[]) == {} && Contains(TABLE, 7) && ToClose(MARKED) == {"a"}
  {
    assert Owns(TABLE, "a", 7);
    assert TABLE["a"].handler.value in Handlers(TABLE);
  }

  lemma TakeRequest()
    ensures var s := Between([map[], TABLE], [0, 0], map[], {7}, {});
      && Legal(s, [Acquire(1), Select(1)]) && Legal(EndState(s, [Acquire(1), Select(1)]), [Unlock(1)])
      && EndState(EndState(s, [Acquire(1), Select(1)]), [Unlock(1)]) ==
          Between([map[], TABLE], [0, 1], map[1 := Flying(1)], {7}, {})
  {
    var s := Between([map[], TABLE], [0, 0], map[], {7}, {});
    Two(s, Acquire(1), Select(1));
    var u := Apply(Apply(s, Acquire(1)), Select(1));
    assert u.requests == map[1 := Counted(1)] && u.refs == [0, 1];
    assert Enabled(u, Unlock(1)) && [Unlock(1)][1..] == [];
    assert Apply(u, Unlock(1)).requests == map[1 := Flying(1)];
  }

  /** The same configuration again: the handler is carried over, and cleanup of the old resolver gives up. */
  lemma ReloadTimesOut()
    ensures var s := Between([map[], TABLE], [0, 1], map[1 := Flying(1)], {7}, {});
      var a := [Prepare(ONE, map["a" := None], TABLE, TABLE), Swap];
      && Legal(s, a) && Legal(EndState(s, a), [Timeout])
      && EndState(EndState(s, a), [Timeout]) == Between([map[], TABLE, TABLE], [0, 1, 0], map[1 := Flying(1)], {7}, {1})
  {
    hide Legal, EndState;
    HandlersOfTable();
    var s := Between([map[], TABLE], [0, 1], map[1 := Flying(1)], {7}, {});
    Publish(s, ONE, map["a" := None], TABLE, TABLE);
    var u := EndState(s, [Prepare(ONE, map["a" := None], TABLE, TABLE), Swap]);
    assert u.tables == [map[], TABLE, TABLE] && u.refs == [0, 1, 0] && u.leaked == [0, 0, 0];
    OneStep(u, Timeout);
    assert seq(3, _ => 0) == [0, 0, 0];
  }

  lemma OneStep(s: System, st: Transition)
    requires Enabled(s, st)
    ensures Legal(s, [st]) && EndState(s, [st]) == Apply(s, st)
  {
    hide Enabled, Apply;
    assert [st][1..] == [];
    assert Legal(Apply(s, st), []) && EndState(Apply(s, st), []) == Apply(s, st);
  }

  /** The handler is dropped; cleanup waits for the resolver in between, which has no requests. */
  lemma DropCloses()
    ensures var s := Between([map[], TABLE, TABLE], [0, 1, 0], map[1 := Flying(1)], {7}, {1});
      var a := [Prepare(map[], map[], MARKED, map[]), Swap];
      && Legal(s, a) && Legal(EndState(s, a), [Drain, Shut("a")])
      && var u := EndState(EndState(s, a), [Drain, Shut("a")]); Refers(u, 1, 7) && u.closes[7] == 1
  {
    hide Legal, EndState;
    HandlersOfTable();
    var s := Between([map[], TABLE, TABLE], [0, 1, 0], map[1 := Flying(1)], {7}, {1});
    Publish(s, map[], map[], MARKED, map[]);
    var u := EndState(s, [Prepare(map[], map[], MARKED, map[]), Swap]);
    assert u.tables == [map[], TABLE, MARKED, map[]] && u.refs == [0, 1, 0, 0];
    Two(u, Drain, Shut("a"));
  }

  /** There is a run in which a request is still in flight when its handler is closed. */
  lemma TimeoutIsUnsafe() returns (steps: seq<Transition>)
    ensures Legal(INIT, steps) && var s := EndState(INIT, steps); Refers(s, 1, 7) && s.closes[7] == 1
  {
    hide Legal, EndState, Enabled, Apply, Refers, Between;
    FirstPublish();
    FirstCleanup();
    TakeRequest();
    ReloadTimesOut();
    DropCloses();
    steps := [Prepare(ONE, map["a" := Some(7)], map[], TABLE), Swap];
    steps := Then(steps, [Drain, Settle]);
    steps := Then(steps, [Acquire(1), Select(1)]);
    steps := Then(steps, [Unlock(1)]);
    steps := Then(steps, [Prepare(ONE, map["a" := None], TABLE, TABLE), Swap]);
    steps := Then(steps, [Timeout]);
    steps := Then(steps, [Prepare(map[], map[], MARKED, map[]), Swap]);
    steps := Then(steps, [Drain, Shut("a")]);
  }

  lemma Then(a: seq<Transition>, b: seq<Transition>) returns (steps: seq<Transition>)
    requires Legal(INIT, a) && Legal(EndState(INIT, a), b)
    ensures Legal(INIT, steps) && EndState(INIT, steps) == EndState(EndState(INIT, a), b)
  {
    RunConcat(INIT, a, b);
    steps := a + b;
  }
}
