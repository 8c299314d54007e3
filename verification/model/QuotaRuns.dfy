/** Whole runs of the memory quota adapter: requests and reaps in any order. */
module QuotaRuns {
  import opened Values
  import opened Windows
  import opened Quotas

  /** Every key has one limit throughout. */
  type Limits = string -> Limit

  datatype Operation = Ask(r: Request) | Reap

  function Front(ops: seq<Operation>): seq<Operation>
    requires ops != []
  {
    ops[..|ops| - 1]
  }

  function Last(ops: seq<Operation>): Operation
    requires ops != []
  {
    ops[|ops| - 1]
  }

  ghost predicate NotBefore(ops: seq<Operation>, now: nat) {
    forall i :: 0 <= i < |ops| && ops[i].Ask? ==> ops[i].r.now <= now
  }

  /** Requests come in the order of their times. */
  ghost predicate InTime(ops: seq<Operation>) {
    ops == [] || (InTime(Front(ops)) && (Last(ops).Ask? ==> NotBefore(Front(ops), Last(ops).r.now)))
  }

  ghost function Served(s: Store, limits: Limits, r: Request, keep: bool): (Store, Answer) {
    if Serves(s, r.key, limits(r.key), r.now) then Handle(s, limits(r.key), r, keep) else (s, Answer(0, 0))
  }

  ghost function NextStore(s: Store, limits: Limits, op: Operation, keep: bool): Store {
    if op.Reap? then Reaped(s) else Served(s, limits, op.r, keep).0
  }

  ghost function After(limits: Limits, ops: seq<Operation>, keep: bool): Store {
    if ops == [] then EMPTY else NextStore(After(limits, Front(ops), keep), limits, Last(ops), keep)
  }

  /** In every reachable state every key can be served at any later time. */
  lemma {:induction false} AlwaysServes(limits: Limits, ops: seq<Operation>, keep: bool, key: string, later: nat)
    requires InTime(ops) && NotBefore(ops, later)
    ensures Serves(After(limits, ops, keep), key, limits(key), later)
  {
    hide Serves, Handle;
    if ops == [] {
      EmptyServes(key, limits(key), later);
    } else {
      var s := After(limits, Front(ops), keep);
      AlwaysServes(limits, Front(ops), keep, key, later);
      if Last(ops).Reap? {
        ReapServes(s, key, limits(key), later);
      } else {
        var r := Last(ops).r;
        assert r == ops[|ops| - 1].r;
        AlwaysServes(limits, Front(ops), keep, r.key, r.now);
        HandleKeeps(s, limits(r.key), r, keep, key, limits(key), later);
      }
    }
  }

  lemma EmptyServes(key: string, lim: Limit, later: nat)
    ensures Serves(EMPTY, key, lim, later)
  {
    FreshServes(SlotCount(lim.duration));
  }

  lemma ReapServes(s: Store, key: string, lim: Limit, later: nat)
    requires Serves(s, key, lim, later)
    ensures Serves(Reaped(s), key, lim, later)
  {
  }

  /** The next request of a run is served. */
  lemma NextServed(limits: Limits, ops: seq<Operation>, keep: bool)
    requires InTime(ops) && ops != [] && Last(ops).Ask?
    ensures var s, r := After(limits, Front(ops), keep), Last(ops).r;
      Serves(s, r.key, limits(r.key), r.now) && After(limits, ops, keep) == Handle(s, limits(r.key), r, keep).0
  {
    hide Serves, Handle;
    AlwaysServes(limits, Front(ops), keep, Last(ops).r.key, Last(ops).r.now);
  }

  // ----- deduplication -----

  /** Reaps since an operation was last executed under an id. */
  function Age(ops: seq<Operation>, id: string): Option<nat> {
    if ops == [] then None
    else
      var n := Age(Front(ops), id);
      match Last(ops)
      case Reap => if n.Some? then Some(n.value + 1) else None
      case Ask(r) => if r.id != id || r.amount == 0 || IsRemembered(n) then n else Some(0)
  }

  predicate IsRemembered(age: Option<nat>) {
    age.Some? && age.value < 2
  }

  /** The last operation is executed, and not answered from memory. */
  predicate Executes(ops: seq<Operation>)
    requires ops != []
  {
    Last(ops).Ask? && Last(ops).r.amount != 0 && !IsRemembered(Age(Front(ops), Last(ops).r.id))
  }

  /** What the last execution under an id was answered. */
  ghost function LastAnswer(limits: Limits, ops: seq<Operation>, id: string, keep: bool): nat {
    if ops == [] then 0
    else if Executes(ops) && Last(ops).r.id == id
    then Served(After(limits, Front(ops), keep), limits, Last(ops).r, keep).1.amount
    else LastAnswer(limits, Front(ops), id, keep)
  }

  ghost predicate DedupIs(s: Store, id: string, age: Option<nat>, amount: nat) {
    && (id in s.recentDedup <==> age == Some(0))
    && (id in s.oldDedup <==> age == Some(1))
    && (id in s.recentDedup ==> s.recentDedup[id].amount == amount)
    && (id in s.oldDedup ==> s.oldDedup[id].amount == amount)
  }

  /** An id is remembered exactly until the second reap after its execution, with the amount answered then. */
  lemma {:induction false} DedupExact(limits: Limits, ops: seq<Operation>, id: string, keep: bool)
    requires InTime(ops)
    ensures DedupIs(After(limits, ops, keep), id, Age(ops, id), LastAnswer(limits, ops, id, keep))
  {
    hide Serves, Execute;
    if ops != [] {
      DedupExact(limits, Front(ops), id, keep);
      var s := After(limits, Front(ops), keep);
      if Last(ops).Ask? {
        var r := Last(ops).r;
        NextServed(limits, ops, keep);
        DedupExact(limits, Front(ops), r.id, keep);
        if r.amount != 0 { ExecuteLeavesDedup(s, limits(r.key), r, keep); }
      }
    }
  }

  lemma ExecuteLeavesDedup(s: Store, lim: Limit, r: Request, keep: bool)
    requires r.amount != 0 && Serves(s, r.key, lim, r.now)
    ensures var s' := Execute(s, lim, r, keep).0; s'.recentDedup == s.recentDedup && s'.oldDedup == s.oldDedup
  {
  }

  /** A replay within two reaps gives the recorded amount and changes nothing. */
  lemma ReplayChangesNothing(limits: Limits, ops: seq<Operation>, keep: bool)
    requires InTime(ops) && ops != [] && Last(ops).Ask? && !Executes(ops) && Last(ops).r.amount != 0
    ensures After(limits, ops, keep) == After(limits, Front(ops), keep)
    ensures Served(After(limits, Front(ops), keep), limits, Last(ops).r, keep).1.amount
      == LastAnswer(limits, Front(ops), Last(ops).r.id, keep)
  {
    hide Serves, Execute;
    NextServed(limits, ops, keep);
    DedupExact(limits, Front(ops), Last(ops).r.id, keep);
  }

  /** Until when the last execution under an id was valid, if it was. */
  ghost function LastExpiry(limits: Limits, ops: seq<Operation>, id: string, keep: bool): Option<nat> {
    if ops == [] then None
    else if Executes(ops) && Last(ops).r.id == id then
      var a := Served(After(limits, Front(ops), keep), limits, Last(ops).r, keep).1;
      if a.validFor > 0 then Some(Last(ops).r.now + a.validFor) else None
    else LastExpiry(limits, Front(ops), id, keep)
  }

  ghost predicate ExpiryIs(s: Store, id: string, exp: Option<nat>) {
    && (id in s.recentDedup ==> s.recentDedup[id].exp == exp)
    && (id in s.oldDedup ==> s.oldDedup[id].exp == exp)
  }

  lemma {:induction false} ExpiryExact(limits: Limits, ops: seq<Operation>, id: string, keep: bool)
    requires InTime(ops)
    ensures ExpiryIs(After(limits, ops, keep), id, LastExpiry(limits, ops, id, keep))
  {
    hide Serves, Execute;
    if ops != [] {
      ExpiryExact(limits, Front(ops), id, keep);
      var s := After(limits, Front(ops), keep);
      if Last(ops).Ask? {
        var r := Last(ops).r;
        NextServed(limits, ops, keep);
        DedupExact(limits, Front(ops), id, keep);
        DedupExact(limits, Front(ops), r.id, keep);
        if r.amount != 0 {
          ExecuteLeavesDedup(s, limits(r.key), r, keep);
          ExecuteExpires(s, limits(r.key), r, keep);
        }
      }
    }
  }

  lemma ExecuteExpires(s: Store, lim: Limit, r: Request, keep: bool)
    requires r.amount != 0 && Serves(s, r.key, lim, r.now)
    ensures var e := Execute(s, lim, r, keep).1;
      e.exp.Some? ==> r.amount > 0 && lim.duration > 0 && e.exp == Some(r.now + lim.duration)
  {
    hide Sum, Tick, SlotCount, Allocated, Released;
  }

  /** A replayed grant is valid until the same time as when it was executed, and no longer. */
  lemma ReplayValidity(limits: Limits, ops: seq<Operation>, keep: bool)
    requires InTime(ops) && ops != [] && Last(ops).Ask? && !Executes(ops) && Last(ops).r.amount > 0
    ensures var exp := LastExpiry(limits, Front(ops), Last(ops).r.id, keep);
      Served(After(limits, Front(ops), keep), limits, Last(ops).r, keep).1.validFor ==
        if exp.Some? && exp.value > Last(ops).r.now then exp.value - Last(ops).r.now else 0
  {
    hide Serves, Execute;
    NextServed(limits, ops, keep);
    DedupExact(limits, Front(ops), Last(ops).r.id, keep);
    ExpiryExact(limits, Front(ops), Last(ops).r.id, keep);
  }

  /** What the last request of a run did. */
  lemma RequestDone(limits: Limits, ops: seq<Operation>, keep: bool)
    requires InTime(ops) && ops != [] && Last(ops).Ask?
    ensures var s, s', r := After(limits, Front(ops), keep), After(limits, ops, keep), Last(ops).r;
      && Serves(s, r.key, limits(r.key), r.now)
      && (!Executes(ops) ==> s'.windows == s.windows && s'.cells == s.cells)
      && (Executes(ops) ==>
            var e := Execute(s, limits(r.key), r, keep);
            s'.windows == e.0.windows && s'.cells == e.0.cells && Served(s, limits, r, keep).1.amount == e.1.amount)
  {
    hide Execute, Serves;
    NextServed(limits, ops, keep);
    DedupExact(limits, Front(ops), Last(ops).r.id, keep);
  }

  // ----- quotas that do not expire -----

  /** Executed grants minus executed frees of a key. */
  ghost function Net(limits: Limits, ops: seq<Operation>, key: string, keep: bool): int {
    if ops == [] then 0
    else if Executes(ops) && Last(ops).r.key == key then
      Net(limits, Front(ops), key, keep)
        + Sign(Last(ops).r) * Served(After(limits, Front(ops), keep), limits, Last(ops).r, keep).1.amount
    else Net(limits, Front(ops), key, keep)
  }

  function Sign(r: Request): int {
    if r.amount > 0 then 1 else -1
  }

  /** A cell always equals what was granted minus what was given back, and stays within its limit. */
  lemma {:induction false} CellExact(limits: Limits, ops: seq<Operation>, key: string, keep: bool)
    requires InTime(ops) && limits(key).duration == 0
    ensures Cell(After(limits, ops, keep), key) == Net(limits, ops, key, keep)
    ensures 0 <= Net(limits, ops, key, keep) <= limits(key).max
  {
    hide Execute, Serves, Served, Age;
    if ops != [] {
      CellExact(limits, Front(ops), key, keep);
      var s := After(limits, Front(ops), keep);
      if Last(ops).Ask? {
        var r := Last(ops).r;
        RequestDone(limits, ops, keep);
        if Executes(ops) {
          if r.key == key { ExecuteCell(s, limits(key), r, keep); }
          else { ExecuteElsewhere(s, limits(r.key), r, keep, key); }
        }
      }
    }
  }

  lemma ExecuteCell(s: Store, lim: Limit, r: Request, keep: bool)
    requires r.amount != 0 && Serves(s, r.key, lim, r.now) && lim.duration == 0
    ensures var e := Execute(s, lim, r, keep);
      Cell(e.0, r.key) == Cell(s, r.key) + Sign(r) * e.1.amount && Cell(e.0, r.key) <= lim.max
  {
  }

  // ----- rate limits -----

  /** The window operations by which a request is executed. */
  function EventsOf(s: Store, lim: Limit, r: Request): seq<Event>
    requires r.amount > 0 && lim.duration > 0 && Serves(s, r.key, lim, r.now)
  {
    var w, t := WindowFor(s, r.key, lim), Tick(r.now);
    var a := Allocated(w, lim.max, r.amount, t);
    if a.1 || !r.bestEffort then [AllocAt(r.amount, t)]
    else
      RollKeepsLess(w, t);
      [AllocAt(r.amount, t), AllocAt(lim.max - Sum(a.0.recent), t)]
  }

  /** The operations on the window of a key that is never given anything back. */
  ghost function EventsFor(limits: Limits, ops: seq<Operation>, key: string, keep: bool): seq<Event>
    requires limits(key).duration > 0
  {
    if ops == [] then []
    else
      var evs, s := EventsFor(limits, Front(ops), key, keep), After(limits, Front(ops), keep);
      if Executes(ops) && Last(ops).r.key == key && Last(ops).r.amount > 0
          && Serves(s, key, limits(key), Last(ops).r.now)
      then evs + EventsOf(s, limits(key), Last(ops).r)
      else evs
  }

  ghost predicate NoFrees(ops: seq<Operation>, key: string) {
    forall i :: 0 <= i < |ops| && ops[i].Ask? && ops[i].r.key == key ==> ops[i].r.amount >= 0
  }

  /** Amounts granted to a key, by executed requests with times from `x` to `y`. */
  ghost function GrantTotal(limits: Limits, ops: seq<Operation>, key: string, keep: bool, x: nat, y: nat): nat {
    if ops == [] then 0
    else
      GrantTotal(limits, Front(ops), key, keep, x, y) +
      if Executes(ops) && Last(ops).r.key == key && Last(ops).r.amount > 0 && x <= Last(ops).r.now <= y
      then Served(After(limits, Front(ops), keep), limits, Last(ops).r, keep).1.amount
      else 0
  }

  /** A window and the grants made from it, as a run of events on a fresh window. */
  ghost predicate Explains(evs: seq<Event>, w: Window, n: nat, limit: nat, t: int, m: nat, granted: nat) {
    && n > 0 && InOrder(evs, 0) && AllocOnly(evs)
    && w == WindowAfter(Fresh(n), limit, evs)
    && granted <= GrantedIn(evs, WindowRun(Fresh(n), limit, evs), t, m)
  }

  lemma {:induction false} GrantedAppend(evs: seq<Event>, answers: seq<nat>, e: Event, a: nat, t: int, m: nat)
    requires |evs| == |answers|
    ensures GrantedIn(evs + [e], answers + [a], t, m) ==
      GrantedIn(evs, answers, t, m) + if t - m < e.tick <= t then a else 0
    decreases |evs|
  {
    if evs == [] {
      assert evs + [e] == [e] && answers + [a] == [a];
    } else {
      assert (evs + [e])[1..] == evs[1..] + [e] && (answers + [a])[1..] == answers[1..] + [a];
      GrantedAppend(evs[1..], answers[1..], e, a, t, m);
    }
  }

  /** One more grant. */
  lemma ExplainsMore(evs: seq<Event>, w: Window, n: nat, limit: nat, t: int, m: nat, granted: nat, amount: nat,
          now: int)
    requires Explains(evs, w, n, limit, t, m, granted) && w.tick <= now && |w.recent| > 0
    ensures var r := Allocated(w, limit, amount, now);
      Explains(evs + [AllocAt(amount, now)], r.0, n, limit, t, m,
               granted + if r.1 && t - m < now <= t then amount else 0)
  {
    hide Allocated, InOrder, WindowAfter, WindowRun, GrantedIn;
    var e := AllocAt(amount, now);
    RunAppend(Fresh(n), limit, evs, e);
    var r := WindowStep(w, limit, e);
    GrantedAppend(evs, WindowRun(Fresh(n), limit, evs), e, r.1, t, m);
  }

  lemma ExecuteExplained(s: Store, lim: Limit, r: Request, keep: bool, evs: seq<Event>, t: int, m: nat, granted: nat,
          counts: bool)
    requires r.amount > 0 && lim.duration > 0 && Serves(s, r.key, lim, r.now)
    requires Explains(evs, WindowFor(s, r.key, lim), SlotCount(lim.duration), lim.max, t, m, granted)
    requires counts ==> t - m < Tick(r.now) <= t
    ensures var e := Execute(s, lim, r, keep);
      Explains(evs + EventsOf(s, lim, r), WindowFor(e.0, r.key, lim), SlotCount(lim.duration), lim.max, t, m,
               granted + if counts then e.1.amount else 0)
  {
    hide Allocated, Explains, Sum, Tick;
    var w, n, now := WindowFor(s, r.key, lim), SlotCount(lim.duration), Tick(r.now);
    ExplainsMore(evs, w, n, lim.max, t, m, granted, r.amount, now);
    var a := Allocated(w, lim.max, r.amount, now);
    if !a.1 && r.bestEffort {
      RollKeepsLess(w, now);
      AllocRest(w, lim.max, r.amount, now);
      var rest, first := lim.max - Sum(a.0.recent), evs + [AllocAt(r.amount, now)];
      ExplainsMore(first, a.0, n, lim.max, t, m, granted, rest, now);
      assert first + [AllocAt(rest, now)] == evs + EventsOf(s, lim, r);
    }
    ExplainsLess();
  }

  lemma ExplainsLess()
    ensures forall evs, w, n, limit, t, m, g, h :: Explains(evs, w, n, limit, t, m, g) && h <= g ==>
      Explains(evs, w, n, limit, t, m, h)
  {
  }

  /** All that is available can be allocated. */
  lemma AllocRest(w: Window, limit: nat, amount: nat, t: int)
    requires w.tick <= t && |w.recent| > 0 && Sum(w.recent) <= limit && !Allocated(w, limit, amount, t).1
    ensures var a := Allocated(w, limit, amount, t).0;
      Sum(a.recent) <= limit && Allocated(a, limit, limit - Sum(a.recent), t).1
  {
    RollKeepsLess(w, t);
    var a := Allocated(w, limit, amount, t).0;
    assert Behind(a, t) == 0 && Zeros(0) + a.recent[..|a.recent|] == a.recent;
  }

  lemma {:induction false} RunExplained(limits: Limits, ops: seq<Operation>, key: string, keep: bool, x: nat, y: nat,
          t: int, m: nat)
    requires InTime(ops) && NoFrees(ops, key) && limits(key).duration > 0
    requires t - m < Tick(x) && Tick(y) <= t
    ensures Explains(EventsFor(limits, ops, key, keep), WindowFor(After(limits, ops, keep), key, limits(key)),
                     SlotCount(limits(key).duration), limits(key).max, t, m, GrantTotal(limits, ops, key, keep, x, y))
  {
    hide Execute, Serves, Explains, EventsOf, Served, Age, SlotCount, Tick;
    var lim := limits(key);
    if ops == [] {
      NothingExplained(SlotCount(lim.duration), lim.max, t, m);
    } else {
      RunExplained(limits, Front(ops), key, keep, x, y, t, m);
      var s := After(limits, Front(ops), keep);
      if Last(ops).Ask? {
        var r := Last(ops).r;
        assert ops[|ops| - 1].r == r;
        RequestDone(limits, ops, keep);
        if Executes(ops) && r.key == key {
          var evs := EventsFor(limits, Front(ops), key, keep);
          var counts := x <= r.now <= y;
          if counts { TickOrder(x, r.now); TickOrder(r.now, y); }
          ExecuteExplained(s, lim, r, keep, evs, t, m, GrantTotal(limits, Front(ops), key, keep, x, y), counts);
        } else if Executes(ops) {
          ExecuteElsewhere(s, limits(r.key), r, keep, key);
        }
      }
    }
  }

  lemma NothingExplained(n: nat, limit: nat, t: int, m: nat)
    requires n > 0
    ensures Explains([], Fresh(n), n, limit, t, m, 0)
  {
  }

  /** Nanoseconds of the configured duration, rounded up to whole seconds. */
  function WholeSeconds(duration: nat): nat {
    (duration + 999_999_999) / 1_000_000_000 * 1_000_000_000
  }

  /** The slots of a window cover the duration, rounded up to seconds. */
  lemma SlotSpan(duration: nat)
    ensures SlotCount(duration) * NANOS_PER_TICK == WholeSeconds(duration)
    ensures duration <= WholeSeconds(duration) < duration + 1_000_000_000
  {
  }

  /**
   The rate bound in real time: without frees, what executed requests are granted for a key within
   any span of the configured duration, rounded up to seconds, less a tenth of a second, is at most
   the limit.
   */
  lemma RealTimeRate(limits: Limits, ops: seq<Operation>, key: string, keep: bool, x: nat, y: nat)
    requires InTime(ops) && NoFrees(ops, key) && limits(key).duration > 0
    requires x <= y && y - x <= WholeSeconds(limits(key).duration) - 100_000_000
    ensures GrantTotal(limits, ops, key, keep, x, y) <= limits(key).max
  {
    hide GrantTotal, EventsFor, WindowFor, SlotCount, WholeSeconds, Tick;
    var n := SlotCount(limits(key).duration);
    assert n > 0 by { SlotCountPositive(limits(key).duration); }
    SlotSpan(limits(key).duration);
    SpanTicks(x, y, n - 1);
    RunExplained(limits, ops, key, keep, x, y, Tick(x) + n - 1, n);
    RateLimited(n, limits(key).max, EventsFor(limits, ops, key, keep), Tick(x) + n - 1);
  }

  /** So in particular within any span of the duration itself, less a tenth of a second. */
  lemma DurationRate(limits: Limits, ops: seq<Operation>, key: string, keep: bool, x: nat, y: nat)
    requires InTime(ops) && NoFrees(ops, key) && limits(key).duration > 0
    requires x <= y && y - x <= limits(key).duration - 100_000_000
    ensures GrantTotal(limits, ops, key, keep, x, y) <= limits(key).max
  {
    hide GrantTotal, WholeSeconds, SlotCount, InTime, NoFrees;
    SlotSpan(limits(key).duration);
    RealTimeRate(limits, ops, key, keep, x, y);
  }

  lemma SpanTicks(x: nat, y: nat, k: nat)
    requires y <= x + k * NANOS_PER_TICK
    ensures Tick(y) <= Tick(x) + k
  {
    TickOrder(y, x + k * NANOS_PER_TICK);
    TickShift(x, k);
  }

  lemma {:induction false} TickShift(x: nat, k: nat)
    ensures Tick(x + k * NANOS_PER_TICK) == Tick(x) + k
  {
    if k > 0 {
      TickShift(x, k - 1);
      var z := x + (k - 1) * NANOS_PER_TICK;
      assert x + k * NANOS_PER_TICK == z + NANOS_PER_TICK;
      OneTick(z);
    }
  }

  lemma OneTick(z: nat)
    ensures Tick(z + NANOS_PER_TICK) == Tick(z) + 1
  {
  }

  // ----- deleting idle windows cannot be observed -----

  /** The same window, or two in which nothing is in use. */
  predicate SameOrIdle(w: Window, v: Window) {
    w == v || (|w.recent| == |v.recent| && Sum(w.recent) == Sum(v.recent) == 0)
  }

  ghost predicate Alike(s: Store, u: Store, limits: Limits) {
    && s.cells == u.cells && s.recentDedup == u.recentDedup && s.oldDedup == u.oldDedup
    && forall key :: SameOrIdle(WindowFor(s, key, limits(key)), WindowFor(u, key, limits(key)))
  }

  lemma SameRolls(w: Window, v: Window, t: int)
    requires SameOrIdle(w, v) && w.tick <= t && v.tick <= t
    ensures Rolled(w, t) == Rolled(v, t)
  {
    if w != v { IdleRolls(w, v, t); }
  }

  lemma FreeAlike(s: Store, u: Store, lim: Limit, r: Request)
    requires r.amount < 0 && lim.duration > 0 && Serves(s, r.key, lim, r.now) && Serves(u, r.key, lim, r.now)
    requires SameOrIdle(WindowFor(s, r.key, lim), WindowFor(u, r.key, lim))
    ensures var a, b := WindowFree(s, lim, r, true), WindowFree(u, lim, r, false);
      a.1 == b.1 && SameOrIdle(WindowFor(a.0, r.key, lim), WindowFor(b.0, r.key, lim))
  {
    hide Sum, Rolled, Take, Tick, SlotCount;
    var w, v, t := WindowFor(s, r.key, lim), WindowFor(u, r.key, lim), Tick(r.now);
    SameRolls(w, v, t);
    FreshServes(SlotCount(lim.duration));
    TakeExact(Rolled(w, t).recent, -r.amount);
    RollKeepsLess(w, t);
    RollKeepsLess(v, t);
  }

  lemma SameAllocates(w: Window, v: Window, limit: nat, amount: nat, t: int)
    requires SameOrIdle(w, v) && w.tick <= t && v.tick <= t && |w.recent| > 0 && |v.recent| > 0
    ensures Allocated(w, limit, amount, t) == Allocated(v, limit, amount, t)
  {
    hide Sum, Rolled;
    SameRolls(w, v, t);
  }

  lemma AllocAlike(s: Store, u: Store, lim: Limit, r: Request)
    requires r.amount > 0 && lim.duration > 0 && Serves(s, r.key, lim, r.now) && Serves(u, r.key, lim, r.now)
    requires SameOrIdle(WindowFor(s, r.key, lim), WindowFor(u, r.key, lim))
    ensures var a, b := WindowAlloc(s, lim, r), WindowAlloc(u, lim, r);
      a.1 == b.1 && WindowFor(a.0, r.key, lim) == WindowFor(b.0, r.key, lim)
  {
    hide Sum, Rolled, Allocated, Tick, SlotCount, SameOrIdle;
    SameAllocates(WindowFor(s, r.key, lim), WindowFor(u, r.key, lim), lim.max, r.amount, Tick(r.now));
  }

  lemma CellsAlike(s: Store, u: Store, lim: Limit, r: Request)
    requires r.amount != 0 && Serves(s, r.key, lim, r.now) && Serves(u, r.key, lim, r.now) && s.cells == u.cells
    ensures var a, b := Execute(s, lim, r, true), Execute(u, lim, r, false);
      && a.0.cells == b.0.cells
      && (lim.duration == 0 ==> a.1 == b.1 && a.0.windows == s.windows && b.0.windows == u.windows)
  {
    hide CellAlloc, CellFree, Sum, Allocated, Released, Tick, SlotCount;
    if lim.duration == 0 { SameCells(s, u, lim, r); }
  }

  lemma SameCells(s: Store, u: Store, lim: Limit, r: Request)
    requires Cell(s, r.key) <= lim.max && s.cells == u.cells
    ensures Cell(u, r.key) == Cell(s, r.key)
    ensures r.amount > 0 ==>
      var a, b := CellAlloc(s, lim, r), CellAlloc(u, lim, r);
      a.0.cells == b.0.cells && a.1 == b.1 && a.0.windows == s.windows && b.0.windows == u.windows
    ensures r.amount < 0 ==>
      var a, b := CellFree(s, r), CellFree(u, r);
      a.0.cells == b.0.cells && a.1 == b.1 && a.0.windows == s.windows && b.0.windows == u.windows
  {
    hide CellFree, CellAlloc;
    if r.amount > 0 { SameCellAlloc(s, u, lim, r); } else if r.amount < 0 { SameCellFree(s, u, r); }
  }

  lemma SameCellAlloc(s: Store, u: Store, lim: Limit, r: Request)
    requires Cell(s, r.key) <= lim.max && s.cells == u.cells && r.amount > 0
    ensures Cell(u, r.key) <= lim.max
    ensures var a, b := CellAlloc(s, lim, r), CellAlloc(u, lim, r);
      a.0.cells == b.0.cells && a.1 == b.1 && a.0.windows == s.windows && b.0.windows == u.windows
  {
  }

  lemma SameCellFree(s: Store, u: Store, r: Request)
    requires s.cells == u.cells && r.amount < 0
    ensures var a, b := CellFree(s, r), CellFree(u, r);
      a.0.cells == b.0.cells && a.1 == b.1 && a.0.windows == s.windows && b.0.windows == u.windows
  {
  }

  lemma ExecuteAlike(s: Store, u: Store, limits: Limits, r: Request)
    requires r.amount != 0 && Serves(s, r.key, limits(r.key), r.now) && Serves(u, r.key, limits(r.key), r.now)
      && Alike(s, u, limits)
    ensures var a, b := Execute(s, limits(r.key), r, true), Execute(u, limits(r.key), r, false);
      a.1 == b.1 && Alike(a.0, b.0, limits)
  {
    hide CellAlloc, CellFree, WindowAlloc, WindowFree, SlotCount, SameOrIdle, Serves;
    var lim := limits(r.key);
    var a, b := Execute(s, lim, r, true), Execute(u, lim, r, false);
    assert SameOrIdle(WindowFor(s, r.key, lim), WindowFor(u, r.key, lim));
    ExecuteLeavesDedup(s, lim, r, true);
    ExecuteLeavesDedup(u, lim, r, false);
    CellsAlike(s, u, lim, r);
    if lim.duration > 0 {
      if r.amount > 0 { AllocAlike(s, u, lim, r); SameIsSame(); } else { FreeAlike(s, u, lim, r); }
    }
    forall key ensures SameOrIdle(WindowFor(a.0, key, limits(key)), WindowFor(b.0, key, limits(key))) {
      if key != r.key {
        ExecuteElsewhere(s, lim, r, true, key);
        ExecuteElsewhere(u, lim, r, false, key);
        assert SameOrIdle(WindowFor(s, key, limits(key)), WindowFor(u, key, limits(key)));
      }
    }
  }

  lemma SameIsSame()
    ensures forall w :: SameOrIdle(w, w)
  {
  }

  /** A run that deletes idle windows, and one that keeps them, stay alike and answer alike. */
  lemma {:induction false} DeletionUnobservable(limits: Limits, ops: seq<Operation>)
    requires InTime(ops)
    ensures Alike(After(limits, ops, true), After(limits, ops, false), limits)
    ensures ops != [] && Last(ops).Ask? ==>
      Served(After(limits, Front(ops), true), limits, Last(ops).r, true).1 ==
          Served(After(limits, Front(ops), false), limits, Last(ops).r, false).1
  {
    hide Execute, Serves, SameOrIdle, WindowFor;
    if ops == [] {
      SameIsSame();
    } else {
      DeletionUnobservable(limits, Front(ops));
      var s, u := After(limits, Front(ops), true), After(limits, Front(ops), false);
      if Last(ops).Reap? {
        ReapAlike(s, u, limits);
      } else {
        var r := Last(ops).r;
        NextServed(limits, ops, true);
        NextServed(limits, ops, false);
        if r.amount != 0 {
          ExecuteAlike(s, u, limits, r);
          var a, b := Execute(s, limits(r.key), r, true), Execute(u, limits(r.key), r, false);
          RecordAlike(a.0, b.0, limits, r.id, a.1);
        }
      }
    }
  }

  lemma ReapAlike(s: Store, u: Store, limits: Limits)
    requires Alike(s, u, limits)
    ensures Alike(Reaped(s), Reaped(u), limits)
  {
    hide SameOrIdle;
    forall key ensures SameOrIdle(WindowFor(Reaped(s), key, limits(key)), WindowFor(Reaped(u), key, limits(key))) {
      assert SameOrIdle(WindowFor(s, key, limits(key)), WindowFor(u, key, limits(key)));
    }
  }

  lemma RecordAlike(s: Store, u: Store, limits: Limits, id: string, d: Dedup)
    requires Alike(s, u, limits)
    ensures Alike(s.(recentDedup := s.recentDedup[id := d]), u.(recentDedup := u.recentDedup[id := d]), limits)
  {
    hide SameOrIdle;
    var s', u' := s.(recentDedup := s.recentDedup[id := d]), u.(recentDedup := u.recentDedup[id := d]);
    forall key ensures SameOrIdle(WindowFor(s', key, limits(key)), WindowFor(u', key, limits(key))) {
      assert SameOrIdle(WindowFor(s, key, limits(key)), WindowFor(u, key, limits(key)));
    }
  }
}
