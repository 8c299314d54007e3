/** Quota requests with deduplication (adapter/memquota/memquota.go, adapter/memquota/dedup.go). */
module Quotas {
  import opened Values
  import opened Windows

  const SECOND: nat := 1_000_000_000
  const TICKS_PER_SECOND: nat := 10
  const NANOS_PER_TICK: nat := 100_000_000

  /** A duration of 0 is a quota that does not expire. */
  datatype Limit = Limit(max: nat, duration: nat)

  /** A positive amount asks for quota, a negative one gives it back. */
  datatype Request = Request(id: string, key: string, amount: int, bestEffort: bool, now: nat)

  datatype Answer = Answer(amount: nat, validFor: nat)

  datatype Dedup = Dedup(amount: nat, exp: Option<nat>)

  datatype Store = Store(cells: map<string, nat>, windows: map<string, Window>, recentDedup: map<string, Dedup>,
      oldDedup: map<string, Dedup>)

  const EMPTY := Store(map[], map[], map[], map[])

  function Tick(now: nat): nat {
    now / NANOS_PER_TICK
  }

  /** Slots of a window: ten for every second begun. */
  function SlotCount(duration: nat): (n: nat)
    ensures duration > 0 ==> n > 0
  {
    (duration + SECOND - 1) / SECOND * TICKS_PER_SECOND
  }

  lemma SlotCountPositive(d: nat)
    requires d > 0
    ensures SlotCount(d) > 0
  {
  }

  function Cell(s: Store, key: string): nat {
    if key in s.cells then s.cells[key] else 0
  }

  function WindowFor(s: Store, key: string, lim: Limit): Window {
    if key in s.windows then s.windows[key] else Fresh(SlotCount(lim.duration))
  }

  /** The state of a key can serve a request at `now`. */
  ghost predicate Serves(s: Store, key: string, lim: Limit, now: nat) {
    && Cell(s, key) <= lim.max
    && var w := WindowFor(s, key, lim);
       w.tick <= Tick(now) && Sum(w.recent) <= lim.max && |w.recent| == SlotCount(lim.duration)
  }

  // ----- one request -----

  function CellAlloc(s: Store, lim: Limit, r: Request): (Store, Dedup)
    requires r.amount > 0 && Cell(s, r.key) <= lim.max
  {
    var inUse := Cell(s, r.key);
    if r.amount > lim.max - inUse && !r.bestEffort then (s, Dedup(0, None))
    else
      var result := Min(r.amount, lim.max - inUse);
      (s.(cells := s.cells[r.key := inUse + result]), Dedup(result, None))
  }

  function WindowAlloc(s: Store, lim: Limit, r: Request): (Store, Dedup)
    requires r.amount > 0 && lim.duration > 0 && Serves(s, r.key, lim, r.now)
  {
    var w := WindowFor(s, r.key, lim);
    var a := Allocated(w, lim.max, r.amount, Tick(r.now));
    if a.1 then (s.(windows := s.windows[r.key := a.0]), Dedup(r.amount, Some(r.now + lim.duration)))
    else if !r.bestEffort then (s.(windows := s.windows[r.key := a.0]), Dedup(0, None))
    else
      RollKeepsLess(w, Tick(r.now));
      var result := lim.max - Sum(a.0.recent);
      var b := Allocated(a.0, lim.max, result, Tick(r.now));
      (s.(windows := s.windows[r.key := b.0]), Dedup(result, Some(r.now + lim.duration)))
  }

  function CellFree(s: Store, r: Request): (Store, Dedup)
    requires r.amount < 0
  {
    var amount, inUse := -r.amount, Cell(s, r.key);
    if amount >= inUse then (s.(cells := s.cells - {r.key}), Dedup(inUse, None))
    else (s.(cells := s.cells[r.key := inUse - amount]), Dedup(amount, None))
  }

  /** With `keep`, a window is not deleted when nothing is left in use. */
  function WindowFree(s: Store, lim: Limit, r: Request, keep: bool): (Store, Dedup)
    requires r.amount < 0 && lim.duration > 0 && Serves(s, r.key, lim, r.now)
  {
    if r.key !in s.windows then (s, Dedup(0, None))
    else
      var a := Released(s.windows[r.key], -r.amount, Tick(r.now));
      var windows := if Sum(a.0.recent) == 0 && !keep then s.windows - {r.key} else s.windows[r.key := a.0];
      (s.(windows := windows), Dedup(a.1, None))
  }

  function Execute(s: Store, lim: Limit, r: Request, keep: bool): (Store, Dedup)
    requires r.amount != 0 && Serves(s, r.key, lim, r.now)
  {
    if lim.duration == 0 then (if r.amount > 0 then CellAlloc(s, lim, r) else CellFree(s, r))
    else if r.amount > 0 then WindowAlloc(s, lim, r) else WindowFree(s, lim, r, keep)
  }

  /** What was recorded under an id. */
  function Recorded(s: Store, id: string): Option<Dedup> {
    if id in s.recentDedup then Some(s.recentDedup[id]) else if id in s.oldDedup then Some(s.oldDedup[id]) else None
  }

  /** The validity left of a grant; only a grant of an expiring quota has any. */
  function Validity(r: Request, d: Dedup): nat {
    if r.amount > 0 && d.exp.Some? && d.exp.value > r.now then d.exp.value - r.now else 0
  }

  function Handle(s: Store, lim: Limit, r: Request, keep: bool): (Store, Answer)
    requires Serves(s, r.key, lim, r.now)
  {
    if r.amount == 0 then (s, Answer(0, 0))
    else match Recorded(s, r.id)
      case Some(d) => (s, Answer(d.amount, Validity(r, d)))
      case None =>
        var e := Execute(s, lim, r, keep);
        (e.0.(recentDedup := e.0.recentDedup[r.id := e.1]), Answer(e.1.amount, Validity(r, e.1)))
  }

  function Reaped(s: Store): Store {
    s.(oldDedup := s.recentDedup, recentDedup := map[])
  }

  /** A grant of an expiring quota is valid for its duration, and nothing else has a validity. */
  lemma GrantValidity(s: Store, lim: Limit, r: Request, keep: bool)
    requires r.amount != 0 && Serves(s, r.key, lim, r.now) && Recorded(s, r.id) == None
    ensures var a := Handle(s, lim, r, keep).1;
      && (a.validFor == lim.duration || a.validFor == 0)
      && (r.amount > 0 && (a.amount > 0 || r.bestEffort) ==> a.validFor == lim.duration)
      && (r.amount < 0 || (!r.bestEffort && a.amount == 0) ==> a.validFor == 0)
  {
    hide Sum, Tick, SlotCount, Allocated, Released;
  }

  // ----- what a request keeps -----

  lemma {:induction false} SumFront(s: seq<nat>, k: nat)
    requires k <= |s|
    ensures Sum(s[..k]) <= Sum(s)
  {
    assert s == s[..k] + s[k..];
    SumConcat(s[..k], s[k..]);
  }

  lemma RollKeepsLess(w: Window, t: int)
    requires w.tick <= t
    ensures Sum(Rolled(w, t).recent) <= Sum(w.recent)
  {
    var b := Behind(w, t);
    SumZeros(b);
    SumConcat(Zeros(b), w.recent[..|w.recent| - b]);
    SumFront(w.recent, |w.recent| - b);
  }

  lemma AllocKeepsLimit(w: Window, limit: nat, amount: nat, t: int)
    requires w.tick <= t && |w.recent| > 0 && Sum(w.recent) <= limit
    ensures Sum(Allocated(w, limit, amount, t).0.recent) <= limit
  {
    RollKeepsLess(w, t);
    var r := Rolled(w, t).recent;
    SumMore(r, 0, amount);
  }

  lemma ReleaseKeepsLimit(w: Window, limit: nat, amount: nat, t: int)
    requires w.tick <= t && Sum(w.recent) <= limit
    ensures Sum(Released(w, amount, t).0.recent) <= limit
  {
    RollKeepsLess(w, t);
    TakeExact(Rolled(w, t).recent, amount);
  }

  /** A request leaves other keys alone, and its own key able to serve later requests. */
  lemma HandleKeeps(s: Store, lim: Limit, r: Request, keep: bool, key: string, lim': Limit, later: nat)
    requires Serves(s, r.key, lim, r.now) && Serves(s, key, lim', later) && r.now <= later
      && (key == r.key ==> lim' == lim)
    ensures Serves(Handle(s, lim, r, keep).0, key, lim', later)
  {
    hide Execute, Sum, Tick, Allocated, Released;
    if key == r.key && r.amount != 0 {
      ExecuteKeeps(s, lim, r, keep, later);
    } else if r.amount != 0 {
      ExecuteElsewhere(s, lim, r, keep, key);
    }
  }

  lemma ExecuteElsewhere(s: Store, lim: Limit, r: Request, keep: bool, key: string)
    requires r.amount != 0 && Serves(s, r.key, lim, r.now) && key != r.key
    ensures var s' := Execute(s, lim, r, keep).0;
      && Cell(s', key) == Cell(s, key) && (key in s'.windows <==> key in s.windows)
      && (key in s.windows ==> s'.windows[key] == s.windows[key])
  {
    hide Sum, Tick, Allocated, Released;
  }

  lemma ExecuteKeeps(s: Store, lim: Limit, r: Request, keep: bool, later: nat)
    requires r.amount != 0 && Serves(s, r.key, lim, r.now) && r.now <= later
    ensures Serves(Execute(s, lim, r, keep).0, r.key, lim, later)
  {
    hide Sum, Tick, Allocated, Released;
    TickOrder(r.now, later);
    var w, t := WindowFor(s, r.key, lim), Tick(r.now);
    FreshServes(SlotCount(lim.duration));
    if lim.duration > 0 && r.amount > 0 {
      AllocKeepsLimit(w, lim.max, r.amount, t);
      var a := Allocated(w, lim.max, r.amount, t).0;
      if Sum(a.recent) <= lim.max { AllocKeepsLimit(a, lim.max, lim.max - Sum(a.recent), t); }
    } else if lim.duration > 0 {
      ReleaseKeepsLimit(w, lim.max, -r.amount, t);
    }
  }

  lemma FreshServes(n: nat)
    ensures Fresh(n).tick == 0 && Sum(Fresh(n).recent) == 0 && |Fresh(n).recent| == n
  {
    SumZeros(n);
  }

  lemma TickOrder(a: nat, b: nat)
    requires a <= b
    ensures Tick(a) <= Tick(b)
  {
  }

  // ----- what a request is granted -----

  /** The part of the limit in use when a request comes: in the cell, or in the ticks that the window still covers. */
  function InUse(s: Store, lim: Limit, r: Request): nat
    requires Serves(s, r.key, lim, r.now)
  {
    if lim.duration == 0 then Cell(s, r.key) else Sum(Rolled(WindowFor(s, r.key, lim), Tick(r.now)).recent)
  }

  /** A request gets all or nothing, or on best effort what is left; and exactly that is in use afterwards. */
  lemma GrantRule(s: Store, lim: Limit, r: Request, keep: bool)
    requires r.amount > 0 && Serves(s, r.key, lim, r.now)
    ensures InUse(s, lim, r) <= lim.max
    ensures var rest, e := lim.max - InUse(s, lim, r), Execute(s, lim, r, keep);
      && e.1.amount == (if r.amount <= rest then r.amount else if r.bestEffort then rest else 0)
      && Serves(e.0, r.key, lim, r.now) && InUse(e.0, lim, r) == InUse(s, lim, r) + e.1.amount
      && (e.1.exp == Some(r.now + lim.duration) <==> lim.duration > 0 && (r.amount <= rest || r.bestEffort))
  {
    hide Sum, Tick, SlotCount, Allocated, Rolled;
    ExecuteKeeps(s, lim, r, keep, r.now);
    if lim.duration > 0 {
      var w, t := WindowFor(s, r.key, lim), Tick(r.now);
      RollKeepsLess(w, t);
      AllocUses(w, lim.max, r.amount, t);
      var a := Allocated(w, lim.max, r.amount, t).0;
      if Sum(a.recent) <= lim.max { AllocUses(a, lim.max, lim.max - Sum(a.recent), t); }
    }
  }

  /** An allocation adds to what is in use, and later rolls to the same tick change nothing. */
  lemma AllocUses(w: Window, limit: nat, amount: nat, t: int)
    requires w.tick <= t && |w.recent| > 0
    ensures var used, a := Sum(Rolled(w, t).recent), Allocated(w, limit, amount, t);
      && (a.1 <==> amount <= limit - used)
      && Sum(a.0.recent) == (if a.1 then used + amount else used) && Rolled(a.0, t) == a.0
  {
    var r := Rolled(w, t);
    SumMore(r.recent, 0, amount);
    RollAgain(Allocated(w, limit, amount, t).0);
  }

  lemma RollAgain(w: Window)
    ensures Rolled(w, w.tick) == w
  {
    assert Zeros(0) + w.recent[..|w.recent|] == w.recent;
  }

  /** A free gives back what is in use, up to the amount, and exactly that much less is in use afterwards. */
  lemma FreeRule(s: Store, lim: Limit, r: Request, keep: bool)
    requires r.amount < 0 && Serves(s, r.key, lim, r.now)
    ensures var e := Execute(s, lim, r, keep);
      && e.1.amount == Min(-r.amount, InUse(s, lim, r)) && e.1.exp == None
      && Serves(e.0, r.key, lim, r.now) && InUse(e.0, lim, r) == InUse(s, lim, r) - e.1.amount
  {
    hide Sum, Tick, SlotCount, Take, Rolled, Zeros;
    ExecuteKeeps(s, lim, r, keep, r.now);
    if lim.duration > 0 {
      var w, t := WindowFor(s, r.key, lim), Tick(r.now);
      TakeExact(Rolled(w, t).recent, -r.amount);
      FreshRolls(SlotCount(lim.duration), t);
      if r.key in s.windows { RollAgain(Released(w, -r.amount, t).0); }
    }
  }

  lemma FreshRolls(n: nat, t: nat)
    ensures Sum(Rolled(Fresh(n), t).recent) == 0
  {
    SumZeros(n);
    RollKeepsLess(Fresh(n), t);
  }
}
