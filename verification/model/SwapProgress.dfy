/** Whether a publication can come to an end: requests finish, the old resolver drains, its handlers are closed. */
module SwapProgress {
  import opened HandlerTables
  import opened ConfigSwap

  // ----- reference counts, with panics -----

  /** The resolves on a resolver that were lost to panics. */
  ghost function Panics(s: System, steps: seq<Transition>, r: nat): nat
    requires Legal(s, steps)
    decreases |steps|
  {
    if steps == [] then 0
    else
      (if steps[0].Unwind? && s.requests[steps[0].q].r == r then 1 else 0) + Panics(Apply(s, steps[0]), steps[1..], r)
  }

  ghost function Leak(s: System, r: nat): nat {
    if r < |s.leaked| then s.leaked[r] else 0
  }

  lemma {:induction false} LeaksArePanics(s: System, steps: seq<Transition>, r: nat)
    requires Legal(s, steps)
    ensures Leak(EndState(s, steps), r) == Leak(s, r) + Panics(s, steps, r)
    decreases |steps|
  {
    hide Enabled, Apply;
    if steps != [] {
      LeakStep(s, steps[0], r);
      LeaksArePanics(Apply(s, steps[0]), steps[1..], r);
    }
  }

  lemma LeakStep(s: System, st: Transition, r: nat)
    requires Enabled(s, st)
    ensures st.Unwind? ==> st.q in s.requests
    ensures Leak(Apply(s, st), r) == Leak(s, r) + if st.Unwind? && s.requests[st.q].r == r then 1 else 0
  {
  }

  /** In every run a resolver's count is its requests in flight and the resolves lost to panics. */
  lemma CountIsExact(steps: seq<Transition>, r: nat)
    requires Legal(INIT, steps) && r < |EndState(INIT, steps).refs|
    ensures var s := EndState(INIT, steps); s.refs[r] == |Holders(s.requests, r)| + Panics(INIT, steps, r)
  {
    hide Enabled, Apply, TablesSound, NothingLost, ClosedOnce, Located, Holders, Legal, EndState, Panics;
    InitInv();
    RunKeepsInv(INIT, steps);
    LeaksArePanics(INIT, steps, r);
  }

  // ----- a panic blocks the cleanup -----

  /** A run that waits for a resolver with a lost resolve goes on waiting, until it times out. */
  lemma {:induction false} PanicBlocks(s: System, steps: seq<Transition>)
    requires Inv(s) && Legal(s, steps) && NoTimeouts(steps)
    requires s.phase.Waiting? && s.phase.victim < |s.leaked| && s.leaked[s.phase.victim] > 0
    ensures EndState(s, steps).phase == s.phase
    decreases |steps|
  {
    hide Enabled, Apply, Inv;
    if steps != [] {
      assert !steps[0].Timeout?;
      BlockedStep(s, steps[0]);
      StepKeepsInv(s, steps[0]);
      PanicBlocks(Apply(s, steps[0]), steps[1..]);
    }
  }

  lemma BlockedStep(s: System, st: Transition)
    requires Inv(s) && Enabled(s, st) && !st.Timeout?
    requires s.phase.Waiting? && s.phase.victim < |s.leaked| && s.leaked[s.phase.victim] > 0
    ensures var s' := Apply(s, st); var v := s.phase.victim;
      s'.phase == s.phase && v < |s'.leaked| && s'.leaked[v] > 0
  {
    hide TablesSound, NothingLost, ClosedOnce, Located, Holders;
  }

  // ----- requests can finish -----

  /** Steps of requests only. */
  ghost predicate OfRequests(steps: seq<Transition>) {
    forall i :: 0 <= i < |steps| ==> OfRequest(steps[i]) && !steps[i].Unwind?
  }

  /** The controller's side of the state. */
  ghost predicate SameControl(s: System, s': System) {
    s'.tables == s.tables && s'.phase == s.phase && s'.leaked == s.leaked && s'.closes == s.closes
  }

  /** A request that is resolving is rejected, a counted one goes on, one in flight finishes. */
  function NextStep(q: nat, f: Flight): Transition {
    match f
    case Resolving(_) => Reject(q)
    case Counted(_) => Unlock(q)
    case Flying(_) => Finish(q)
  }

  function Togo(f: Flight): nat {
    if f.Counted? then 2 else 1
  }

  lemma RequestMoves(s: System, q: nat)
    requires Inv(s) && q in s.requests
    ensures var st := NextStep(q, s.requests[q]);
      && Enabled(s, st) && SameControl(s, Apply(s, st))
      && Apply(s, st).requests ==
           if s.requests[q].Counted? then s.requests[q := Flying(s.requests[q].r)] else s.requests - {q}
  {
    hide TablesSound, NothingLost, ClosedOnce, Holders;
    assert FlightLocated(s, q);
  }

  lemma {:induction false} RequestEnds(s: System, q: nat) returns (steps: seq<Transition>)
    requires Inv(s) && q in s.requests
    ensures Legal(s, steps) && OfRequests(steps) && Inv(EndState(s, steps))
    ensures SameControl(s, EndState(s, steps)) && EndState(s, steps).requests == s.requests - {q}
    decreases Togo(s.requests[q])
  {
    hide Inv, Enabled, Apply, Legal, EndState, OfRequest;
    var st := NextStep(q, s.requests[q]);
    RequestMoves(s, q);
    StepKeepsInv(s, st);
    OneStep(s, st);
    IsOfRequest(st);
    var s' := Apply(s, st);
    steps := [st];
    if s.requests[q].Counted? {
      var rest := RequestEnds(s', q);
      RunConcat(s, [st], rest);
      steps := [st] + rest;
    }
  }

  lemma IsOfRequest(st: Transition)
    requires st.Reject? || st.Unlock? || st.Finish?
    ensures OfRequest(st)
  {
  }

  lemma {:induction false} RequestsEnd(s: System) returns (steps: seq<Transition>)
    requires Inv(s)
    ensures Legal(s, steps) && OfRequests(steps) && Inv(EndState(s, steps))
    ensures SameControl(s, EndState(s, steps)) && EndState(s, steps).requests == map[]
    decreases |s.requests|
  {
    hide Inv, Enabled, Apply, OfRequest;
    steps := [];
    if s.requests.Keys != {} {
      var q :| q in s.requests.Keys;
      var first := RequestEnds(s, q);
      var s' := EndState(s, first);
      Fewer(s.requests, q);
      var rest := RequestsEnd(s');
      RunConcat(s, first, rest);
      steps := first + rest;
    } else {
      assert s.requests == map[];
    }
  }

  lemma Fewer(m: map<nat, Flight>, q: nat)
    requires q in m
    ensures |m - {q}| < |m|
  {
    assert (m - {q}).Keys == m.Keys - {q};
  }

  // ----- the cleanup can finish -----

  ghost predicate NoLeaks(s: System) {
    forall r :: 0 <= r < |s.leaked| ==> s.leaked[r] == 0
  }

  /** Steps of a controller that finishes what it has begun, without giving up. */
  ghost predicate Finishing(steps: seq<Transition>) {
    forall i :: 0 <= i < |steps| ==> !steps[i].Timeout? && !steps[i].Unwind? && !steps[i].Prepare?
  }

  lemma {:induction false} ClosingEnds(s: System) returns (steps: seq<Transition>)
    requires Inv(s) && s.phase.Closing?
    ensures Legal(s, steps) && Finishing(steps) && EndState(s, steps).phase.Steady?
    ensures EndState(s, steps).requests == s.requests
    decreases |s.phase.todo|
  {
    hide Inv, Enabled, Apply, Legal, EndState;
    if s.phase.todo == {} {
      SettleMoves(s);
      OneStep(s, Settle);
      steps := [Settle];
    } else {
      var n :| n in s.phase.todo;
      ShutMoves(s, n);
      StepKeepsInv(s, Shut(n));
      OneStep(s, Shut(n));
      var rest := ClosingEnds(Apply(s, Shut(n)));
      RunConcat(s, [Shut(n)], rest);
      steps := [Shut(n)] + rest;
    }
  }

  lemma SettleMoves(s: System)
    requires Inv(s) && s.phase.Closing? && s.phase.todo == {}
    ensures Enabled(s, Settle) && Apply(s, Settle).phase.Steady? && Apply(s, Settle).requests == s.requests
  {
    hide TablesSound, NothingLost, ClosedOnce, Located, Holders;
  }

  lemma ShutMoves(s: System, n: string)
    requires Inv(s) && s.phase.Closing? && n in s.phase.todo
    ensures Enabled(s, Shut(n))
    ensures var p := Apply(s, Shut(n)).phase; p.Closing? && p.todo == s.phase.todo - {n} && |p.todo| < |s.phase.todo|
    ensures Apply(s, Shut(n)).requests == s.requests
  {
    hide NothingLost, ClosedOnce, Holders, Injective, Splits, Unmarked, Open;
    var v := s.tables[s.phase.victim];
    assert n in ToClose(v);
    assert |s.phase.todo - {n}| == |s.phase.todo| - 1;
  }

  lemma DrainMoves(s: System)
    requires Inv(s) && s.phase.Waiting? && s.requests == map[] && Leak(s, s.phase.victim) == 0
    ensures Enabled(s, Drain) && Apply(s, Drain).phase.Closing? && Apply(s, Drain).requests == map[]
  {
    hide TablesSound, NothingLost, ClosedOnce;
    assert Holders(s.requests, s.phase.victim) == {};
  }

  lemma SwapMoves(s: System)
    requires Inv(s) && s.phase.Prepared? && s.requests == map[] && NoLeaks(s)
    ensures Enabled(s, Swap)
    ensures var s' := Apply(s, Swap); s'.phase.Waiting? && s'.requests == map[] && NoLeaks(s')
  {
    hide TablesSound, NothingLost, ClosedOnce, Holders, Located;
  }

  lemma WaitingEnds(s: System) returns (steps: seq<Transition>)
    requires Inv(s) && s.phase.Waiting? && s.requests == map[] && Leak(s, s.phase.victim) == 0
    ensures Legal(s, steps) && Finishing(steps) && EndState(s, steps).phase.Steady?
    ensures EndState(s, steps).requests == map[]
  {
    hide Inv, Enabled, Apply, Legal, EndState;
    DrainMoves(s);
    StepKeepsInv(s, Drain);
    OneStep(s, Drain);
    var rest := ClosingEnds(Apply(s, Drain));
    RunConcat(s, [Drain], rest);
    steps := [Drain] + rest;
  }

  lemma PublicationEnds(s: System) returns (steps: seq<Transition>)
    requires Inv(s) && s.requests == map[] && NoLeaks(s)
    ensures Legal(s, steps) && Finishing(steps) && EndState(s, steps).phase.Steady?
    ensures EndState(s, steps).requests == map[]
  {
    hide Inv, Enabled, Apply;
    match s.phase {
      case Steady => { steps := []; }
      case Prepared(_) => {
        SwapMoves(s);
        StepKeepsInv(s, Swap);
        OneStep(s, Swap);
        var rest := WaitingEnds(Apply(s, Swap));
        RunConcat(s, [Swap], rest);
        steps := [Swap] + rest;
      }
      case Waiting(_) => { steps := WaitingEnds(s); }
      case Closing(_, _) => { steps := ClosingEnds(s); }
    }
  }

  /**
   From every state that a run without panics reaches, the requests can finish and the publication
   can come to its end, without giving up on anything.
   */
  lemma CleanupCanFinish(steps: seq<Transition>) returns (more: seq<Transition>)
    requires Legal(INIT, steps) && NoPanics(steps)
    ensures Legal(EndState(INIT, steps), more) && Finishing(more)
    ensures var s := EndState(EndState(INIT, steps), more); s.phase.Steady? && s.requests == map[]
  {
    hide Inv, Enabled, Apply, Legal, EndState, NoPanics;
    InitInv();
    RunKeepsInv(INIT, steps);
    NeverLeaked(INIT, steps);
    var s := EndState(INIT, steps);
    var first := RequestsEnd(s);
    AreFinishing(first);
    var rest := PublicationEnds(EndState(s, first));
    RunConcat(s, first, rest);
    more := first + rest;
  }

  lemma AreFinishing(steps: seq<Transition>)
    requires OfRequests(steps)
    ensures Finishing(steps)
  {
  }

  /**
   In every run: a cleanup that waits can end without a timeout exactly if no resolve on its resolver
   was lost to a panic.
   */
  lemma WaitingCanEndExactly(steps: seq<Transition>)
    requires Legal(INIT, steps) && EndState(INIT, steps).phase.Waiting?
    ensures var s := EndState(INIT, steps);
      (exists more :: Legal(s, more) && NoTimeouts(more) && EndState(s, more).phase.Steady?) <==>
      Panics(INIT, steps, s.phase.victim) == 0
  {
    hide Inv, Enabled, Apply, Legal, EndState, NoTimeouts, Panics;
    InitInv();
    RunKeepsInv(INIT, steps);
    var s := EndState(INIT, steps);
    var v := s.phase.victim;
    LeaksArePanics(INIT, steps, v);
    VictimIs(s);
    if Panics(INIT, steps, v) == 0 {
      var first := RequestsEnd(s);
      AreFinishing(first);
      var rest := WaitingEnds(EndState(s, first));
      RunConcat(s, first, rest);
      InNoTimeouts(first + rest);
    } else {
      forall more | Legal(s, more) && NoTimeouts(more) ensures !EndState(s, more).phase.Steady? {
        PanicBlocks(s, more);
      }
    }
  }

  lemma InNoTimeouts(steps: seq<Transition>)
    requires Finishing(steps)
    ensures NoTimeouts(steps)
  {
  }

  lemma VictimIs(s: System)
    requires Inv(s) && s.phase.Waiting?
    ensures s.phase.victim < |s.leaked|
  {
  }

  // ----- nothing is held up -----

  /** In every reachable state, whatever the controller does, requests can start and go on. */
  lemma RequestsNeverBlocked(steps: seq<Transition>, q: nat)
    requires Legal(INIT, steps)
    ensures var s := EndState(INIT, steps);
      if q !in s.requests then
        Enabled(s, Acquire(q)) && Apply(s, Acquire(q)).requests[q] == Resolving(|s.tables| - 1)
      else match s.requests[q]
        case Resolving(r) =>
          && Enabled(s, Select(q)) && Enabled(s, Reject(q)) && Enabled(s, Unwind(q))
          && Apply(s, Select(q)).requests[q] == Counted(r)
        case Counted(r) => Enabled(s, Unlock(q)) && Apply(s, Unlock(q)).requests[q] == Flying(r)
        case Flying(_) => Enabled(s, Finish(q)) && q !in Apply(s, Finish(q)).requests
  {
    hide TablesSound, NothingLost, ClosedOnce, Holders, Legal, EndState;
    InitInv();
    RunKeepsInv(INIT, steps);
    var s := EndState(INIT, steps);
    if q in s.requests { assert FlightLocated(s, q); }
  }

  /** Between publications any configuration can be published, whatever building its handlers gives. */
  lemma PublishingNeverBlocked(steps: seq<Transition>, config: Config, builds: Builds)
    returns (marked: Table, next: Table)
    requires Legal(INIT, steps) && EndState(INIT, steps).phase.Steady?
    requires config.Keys <= builds.Keys && FreshBuilds(builds, EndState(INIT, steps).built)
    ensures Enabled(EndState(INIT, steps), Prepare(config, builds, marked, next))
  {
    hide TablesSound, NothingLost, ClosedOnce, Holders, Located, Legal, EndState, FreshBuilds, MarkedAs, InitializedAs;
    InitInv();
    RunKeepsInv(INIT, steps);
    var s := EndState(INIT, steps);
    marked := MarkedTable(s.tables[Current(s)], config);
    next := InitializedTable(s.tables[Current(s)], config, builds);
  }

  lemma MarkedTable(t: Table, config: Config) returns (m: Table)
    ensures MarkedAs(t, config, m)
  {
    m := map[];
    var todo := t.Keys;
    while todo != {}
      invariant todo <= t.Keys && m.Keys == t.Keys - todo
      invariant forall n :: n in m ==>
        m[n] == if Persists(t, config, n) then t[n] else t[n].(closeOnCleanup := true)
      decreases |todo|
    {
      var n :| n in todo;
      m := m[n := if Persists(t, config, n) then t[n] else t[n].(closeOnCleanup := true)];
      todo := todo - {n};
    }
  }

  lemma InitializedTable(t: Table, config: Config, builds: Builds) returns (t': Table)
    requires config.Keys <= builds.Keys
    ensures InitializedAs(t, config, builds, t')
  {
    t' := map[];
    var todo := config.Keys;
    while todo != {}
      invariant todo <= config.Keys && t'.Keys == config.Keys - todo
      invariant forall n :: n in t' ==> t'[n] == Entry(HandlerFor(t, config, builds, n), config[n], false)
      decreases |todo|
    {
      var n :| n in todo;
      t' := t'[n := Entry(HandlerFor(t, config, builds, n), config[n], false)];
      todo := todo - {n};
    }
  }

  /** A wait can always be given up while requests are counted, and never when none is. */
  lemma TimeoutExactly(steps: seq<Transition>)
    requires Legal(INIT, steps) && EndState(INIT, steps).phase.Waiting?
    ensures var s := EndState(INIT, steps); var v := s.phase.victim;
      && (Enabled(s, Timeout) <==> |Holders(s.requests, v)| + Panics(INIT, steps, v) > 0)
      && (Enabled(s, Drain) <==> |Holders(s.requests, v)| + Panics(INIT, steps, v) == 0)
  {
    hide TablesSound, NothingLost, ClosedOnce, Holders, Legal, EndState, Panics;
    InitInv();
    RunKeepsInv(INIT, steps);
    CountIsExact(steps, EndState(INIT, steps).phase.victim);
  }
}
