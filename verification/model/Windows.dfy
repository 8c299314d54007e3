/** The rolling window of the memory quota adapter (adapter/memquota/rollingWindow.go). */
module Windows {

  function Sum(s: seq<nat>): nat {
    if s == [] then 0 else s[0] + Sum(s[1..])
  }

  function Zeros(n: nat): seq<nat> {
    seq(n, _ => 0)
  }

  function Min(a: nat, b: nat): nat {
    if a < b then a else b
  }

  lemma {:induction false} SumConcat(a: seq<nat>, b: seq<nat>)
    ensures Sum(a + b) == Sum(a) + Sum(b)
    decreases |a|
  {
    if a == [] {
      assert a + b == b;
    } else {
      assert (a + b)[1..] == a[1..] + b;
      SumConcat(a[1..], b);
    }
  }

  lemma {:induction false} SumZeros(n: nat)
    ensures Sum(Zeros(n)) == 0
  {
    if n > 0 {
      assert Zeros(n)[1..] == Zeros(n - 1);
      SumZeros(n - 1);
    }
  }

  lemma {:induction false} NothingUsed(s: seq<nat>)
    ensures Sum(s) == 0 <==> s == Zeros(|s|)
  {
    if s != [] {
      NothingUsed(s[1..]);
      assert s == [s[0]] + s[1..];
      assert Zeros(|s|) == [0] + Zeros(|s| - 1);
    }
  }

  // ----- the window as a value -----

  /** Consumption by tick, from the current tick back. */
  datatype Window = Window(recent: seq<nat>, tick: int)

  function Fresh(n: nat): Window {
    Window(Zeros(n), 0)
  }

  function Behind(w: Window, t: int): nat
    requires w.tick <= t
  {
    Min(t - w.tick, |w.recent|)
  }

  function Rolled(w: Window, t: int): (r: Window)
    requires w.tick <= t
    ensures |r.recent| == |w.recent| && r.tick == t
  {
    var b := Behind(w, t);
    Window(Zeros(b) + w.recent[..|w.recent| - b], t)
  }

  function Allocated(w: Window, limit: nat, amount: nat, t: int): (r: (Window, bool))
    requires w.tick <= t && |w.recent| > 0
    ensures |r.0.recent| == |w.recent| && r.0.tick == t
  {
    var r := Rolled(w, t);
    if amount > limit - Sum(r.recent) then (r, false)
    else (r.(recent := r.recent[0 := r.recent[0] + amount]), true)
  }

  /** Takes an amount from the front on, as far as there is any. */
  function Take(recent: seq<nat>, amount: nat): (r: (seq<nat>, nat))
    ensures |r.0| == |recent|
  {
    if recent == [] then ([], 0)
    else if recent[0] >= amount then (recent[0 := recent[0] - amount], amount)
    else
      var rest := Take(recent[1..], amount - recent[0]);
      ([0] + rest.0, recent[0] + rest.1)
  }

  function Released(w: Window, amount: nat, t: int): (r: (Window, nat))
    requires w.tick <= t
    ensures |r.0.recent| == |w.recent| && r.0.tick == t
  {
    var r := Rolled(w, t);
    var taken := Take(r.recent, amount);
    (r.(recent := taken.0), taken.1)
  }

  /** A release takes exactly as much as there is, and the sums balance. */
  lemma {:induction false} TakeExact(recent: seq<nat>, amount: nat)
    ensures Take(recent, amount).1 == Min(amount, Sum(recent))
    ensures Sum(Take(recent, amount).0) == Sum(recent) - Take(recent, amount).1
  {
    if recent != [] {
      var r := Take(recent, amount);
      if recent[0] >= amount {
        assert r.0 == [recent[0] - amount] + recent[1..];
        SumConcat([recent[0] - amount], recent[1..]);
        assert Sum([recent[0] - amount]) == recent[0] - amount;
      } else {
        TakeExact(recent[1..], amount - recent[0]);
        SumConcat([0], Take(recent[1..], amount - recent[0]).0);
        assert Sum([0]) == 0;
      }
    }
  }

  /** From each tick it takes what newer ticks did not cover. */
  lemma {:induction false} TakeNewestFirst(recent: seq<nat>, amount: nat, k: nat)
    requires k < |recent|
    ensures var newer := Sum(recent[..k]);
      Take(recent, amount).0[k] == recent[k] - Min(recent[k], if newer < amount then amount - newer else 0)
  {
    if k > 0 {
      assert recent[..k] == [recent[0]] + recent[1..][..k - 1];
      SumConcat([recent[0]], recent[1..][..k - 1]);
      assert Sum([recent[0]]) == recent[0];
      if recent[0] < amount {
        TakeNewestFirst(recent[1..], amount - recent[0], k - 1);
      }
    }
  }

  // ----- the class -----

  /** The place in the ring of the slot `k` ticks behind the current one. */
  function Slot(cur: nat, k: nat, n: nat): (i: nat)
    requires cur < n && k <= n
    ensures k < n ==> i < n
  {
    if k <= cur then cur - k else cur - k + n
  }

  function Recent(slots: seq<nat>, cur: nat): (r: seq<nat>)
    requires cur < |slots|
    ensures |r| == |slots|
  {
    seq(|slots|, k requires 0 <= k < |slots| => slots[Slot(cur, k, |slots|)])
  }

  lemma RecentUpdate(slots: seq<nat>, cur: nat, k: nat, x: nat)
    requires cur < |slots| && k < |slots|
    ensures Recent(slots[Slot(cur, k, |slots|) := x], cur) == Recent(slots, cur)[k := x]
  {
  }

  lemma ModOnce(x: nat, n: nat)
    requires 0 < n && x < 2 * n
    ensures x % n == if x < n then x else x - n
  {
  }

  /** Moving the current slot on by `b` turns the ring. */
  lemma RecentTurned(slots: seq<nat>, cur: nat, b: nat)
    requires cur < |slots| && b <= |slots|
    ensures var n := |slots|;
      var r := Recent(slots, cur);
      Recent(slots, (cur + b) % n) == r[n - b..] + r[..n - b]
  {
    var n := |slots|;
    ModOnce(cur + b, n);
  }

  class RollingWindow {
    const slots: array<nat>
    var currentSlot: nat
    var currentSlotTick: int
    var avail: int
    ghost const limit: nat

    /** Availability and consumption add up to the limit, and neither is negative. */
    ghost predicate Valid()
      reads this, slots
    {
      && 0 < slots.Length && currentSlot < slots.Length
      && 0 <= avail && avail + Sum(Now().recent) == limit
    }

    ghost function Now(): Window
      reads this, slots
    {
      Window(if currentSlot < slots.Length then Recent(slots[..], currentSlot) else [], currentSlotTick)
    }

    constructor (limit: nat, ticksInWindow: nat)
      requires ticksInWindow > 0
      ensures Valid() && fresh(slots) && this.limit == limit && Now() == Fresh(ticksInWindow)
        && slots.Length == ticksInWindow
    {
      this.limit := limit;
      avail := limit;
      slots := new nat[ticksInWindow](_ => 0);
      currentSlot, currentSlotTick := 0, 0;
      new;
      assert slots[..] == Zeros(ticksInWindow);
      assert Now().recent == Zeros(ticksInWindow);
      SumZeros(ticksInWindow);
    }

    method Roll(currentTick: int)
      requires Valid() && currentSlotTick <= currentTick
      modifies this, slots
      ensures Valid() && Now() == Rolled(old(Now()), currentTick)
    {
      hide Sum, Recent;
      ghost var r, n := Now().recent, slots.Length;
      assert r[..n] + Zeros(0) == r;
      var behind := currentTick - currentSlotTick;
      if behind > slots.Length {
        behind := slots.Length;
      }
      var i := 0;
      while i < behind
        invariant i <= behind <= n && currentSlot == old(currentSlot) < n && currentSlotTick == old(currentSlotTick)
        invariant Now().recent == r[..n - i] + Zeros(i)
        invariant 0 <= avail && avail + Sum(Now().recent) == limit
      {
        Reclaim(i, r);
        i := i + 1;
      }
      RecentTurned(slots[..], currentSlot, behind);
      Turned(r, behind);
      currentSlot := (currentSlot + behind) % slots.Length;
      currentSlotTick := currentTick;
    }

    /** Reclaims the units of the oldest tick not reclaimed yet. */
    method Reclaim(i: nat, ghost r: seq<nat>)
      requires i < slots.Length == |r| && currentSlot < slots.Length && 0 <= avail
      requires Now().recent == r[..|r| - i] + Zeros(i) && avail + Sum(Now().recent) == limit
      modifies this`avail, slots
      ensures 0 <= avail && Now().recent == r[..|r| - i - 1] + Zeros(i + 1) && avail + Sum(Now().recent) == limit
    {
      ghost var n := |r|;
      ModOnce(currentSlot + 1 + i, n);
      var index := (currentSlot + 1 + i) % slots.Length;
      assert index == Slot(currentSlot, n - 1 - i, n);
      RecentAt(slots[..], currentSlot, n - 1 - i);
      SumLess(Now().recent, n - 1 - i);
      avail := avail + slots[index];
      Write(index, n - 1 - i, 0);
      assert r[..n - i - 1] + Zeros(i + 1) == (r[..n - i] + Zeros(i))[n - 1 - i := 0];
    }

    method Alloc(amount: nat, currentTick: int) returns (ok: bool)
      requires Valid() && currentSlotTick <= currentTick
      modifies this, slots
      ensures Valid() && (Now(), ok) == Allocated(old(Now()), limit, amount, currentTick)
    {
      hide Sum, Recent;
      Roll(currentTick);
      if amount > avail {
        return false;
      }
      RecentAt(slots[..], currentSlot, 0);
      SumMore(Now().recent, 0, amount);
      Write(currentSlot, 0, slots[currentSlot] + amount);
      avail := avail - amount;
      ok := true;
    }

    method Release(amount: nat, currentTick: int) returns (total: nat)
      requires Valid() && currentSlotTick <= currentTick
      modifies this, slots
      ensures Valid() && (Now(), total) == Released(old(Now()), amount, currentTick)
    {
      hide Sum, Recent, Take, Rolled;
      Roll(currentTick);
      ghost var r := Now().recent;
      TakeExact(r, amount);
      total := TakeBack(amount);
      avail := avail + total;
    }

    /** Sets the slot `k` ticks behind the current one. */
    method Write(index: nat, ghost k: nat, x: nat)
      requires currentSlot < slots.Length && k < slots.Length && index == Slot(currentSlot, k, slots.Length)
      modifies slots
      ensures Recent(slots[..], currentSlot) == old(Recent(slots[..], currentSlot))[k := x]
    {
      hide Recent;
      RecentUpdate(slots[..], currentSlot, k, x);
      ghost var before := slots[..];
      slots[index] := x;
      assert slots[..] == before[index := x];
    }

    /** Empties slots from the current one backwards until the amount is covered. */
    method TakeBack(amount: nat) returns (total: nat)
      requires currentSlot < slots.Length
      modifies slots
      ensures (Recent(slots[..], currentSlot), total) == Take(old(Recent(slots[..], currentSlot)), amount)
    {
      hide Recent, Take, Cleared, TakeRest;
      ghost var r, n := Recent(slots[..], currentSlot), slots.Length;
      var index, left, k := currentSlot, amount, 0;
      total := 0;
      TakeStarts(r, amount);
      while k < slots.Length
        invariant k <= n && index == Slot(currentSlot, k, n) && slots.Length == n == |r|
        invariant Recent(slots[..], currentSlot) == Cleared(r, k)
        invariant Take(r, amount) == TakeRest(r, k, left, total)
      {
        RecentAt(slots[..], currentSlot, k);
        TakeStep(r, k, left, total);
        var here := slots[index];
        if here >= left {
          Write(index, k, here - left);
          total := total + left;
          return;
        }
        Write(index, k, 0);
        total, left := total + here, left - here;
        index := if index == 0 then slots.Length - 1 else index - 1;
        k := k + 1;
      }
      TakeEnds(r, left, total);
    }
  }

  lemma RecentAt(slots: seq<nat>, cur: nat, k: nat)
    requires cur < |slots| && k < |slots|
    ensures Recent(slots, cur)[k] == slots[Slot(cur, k, |slots|)]
  {
  }

  /** The first `k` ticks emptied. */
  function Cleared(r: seq<nat>, k: nat): (s: seq<nat>)
    requires k <= |r|
    ensures |s| == |r|
  {
    Zeros(k) + r[k..]
  }

  /** What a release comes to, with `k` ticks emptied for `total` and `left` still to take. */
  function TakeRest(r: seq<nat>, k: nat, left: nat, total: nat): (seq<nat>, nat)
    requires k <= |r|
  {
    var rest := Take(r[k..], left);
    (Zeros(k) + rest.0, total + rest.1)
  }

  lemma TakeStarts(r: seq<nat>, amount: nat)
    ensures Cleared(r, 0) == r && TakeRest(r, 0, amount, 0) == Take(r, amount)
  {
    assert r[0..] == r && Zeros(0) + Take(r, amount).0 == Take(r, amount).0;
  }

  lemma TakeEnds(r: seq<nat>, left: nat, total: nat)
    ensures TakeRest(r, |r|, left, total) == (Cleared(r, |r|), total)
  {
    assert r[|r|..] == [];
  }

  /** One turn of the release loop. */
  lemma TakeStep(r: seq<nat>, k: nat, left: nat, total: nat)
    requires k < |r|
    ensures Cleared(r, k)[k] == r[k]
    ensures r[k] >= left ==> TakeRest(r, k, left, total) == (Cleared(r, k)[k := r[k] - left], total + left)
    ensures r[k] < left ==>
      TakeRest(r, k, left, total) == TakeRest(r, k + 1, left - r[k], total + r[k])
          && Cleared(r, k)[k := 0] == Cleared(r, k + 1)
  {
    assert r[k..][1..] == r[k + 1..] && r[k..][0] == r[k];
    if r[k] < left {
      assert Zeros(k + 1) == Zeros(k) + [0];
      var rest := Take(r[k + 1..], left - r[k]);
      assert Take(r[k..], left) == ([0] + rest.0, r[k] + rest.1);
      assert Zeros(k) + ([0] + rest.0) == Zeros(k) + [0] + rest.0;
    } else {
      assert Take(r[k..], left) == (r[k..][0 := r[k] - left], left);
      assert Zeros(k) + r[k..][0 := r[k] - left] == Cleared(r, k)[k := r[k] - left];
    }
  }

  lemma SumMore(s: seq<nat>, k: nat, amount: nat)
    requires k < |s|
    ensures Sum(s[k := s[k] + amount]) == Sum(s) + amount
  {
    hide Sum;
    var s' := s[k := s[k] + amount];
    SumLess(s, k);
    SumLess(s', k);
    assert s'[k := 0] == s[k := 0];
  }

  /** Setting one entry to zero takes it out of the sum. */
  lemma SumLess(s: seq<nat>, k: nat)
    requires k < |s|
    ensures Sum(s[k := 0]) + s[k] == Sum(s)
  {
    assert s == s[..k] + [s[k]] + s[k + 1..] && s[k := 0] == s[..k] + [0] + s[k + 1..];
    SumConcat(s[..k] + [s[k]], s[k + 1..]);
    SumConcat(s[..k], [s[k]]);
    SumConcat(s[..k] + [0], s[k + 1..]);
    SumConcat(s[..k], [0]);
    assert Sum([s[k]]) == s[k] && Sum([0]) == 0;
  }

  lemma Turned(r: seq<nat>, b: nat)
    requires b <= |r|
    ensures var s := r[..|r| - b] + Zeros(b);
      && s[|r| - b..] + s[..|r| - b] == Zeros(b) + r[..|r| - b]
      && Sum(Zeros(b) + r[..|r| - b]) == Sum(s)
  {
    SumConcat(r[..|r| - b], Zeros(b));
    SumConcat(Zeros(b), r[..|r| - b]);
  }

  // ----- the window refines a ledger of every tick -----

  /** Net consumption of every tick there ever was or will be. */
  type Ledger = int -> nat

  /** The consumption of the `n` ticks up to `t`. */
  ghost function UsedBack(l: Ledger, t: int, n: nat): nat
    decreases n
  {
    if n == 0 then 0 else l(t) + UsedBack(l, t - 1, n - 1)
  }

  ghost function SetTick(l: Ledger, t: int, x: nat): Ledger {
    u => if u == t then x else l(u)
  }

  ghost function LedgerAlloc(l: Ledger, n: nat, limit: nat, amount: nat, t: int): (Ledger, bool) {
    if amount > limit - UsedBack(l, t, n) then (l, false) else (SetTick(l, t, l(t) + amount), true)
  }

  /** Takes an amount from the `n` ticks up to `t`, newest first. */
  ghost function LedgerRelease(l: Ledger, n: nat, amount: nat, t: int): (Ledger, nat) {
    if n == 0 then (l, 0)
    else if l(t) >= amount then (SetTick(l, t, l(t) - amount), amount)
    else
      var rest := LedgerRelease(SetTick(l, t, 0), n - 1, amount - l(t), t - 1);
      (rest.0, l(t) + rest.1)
  }

  ghost predicate Shows(recent: seq<nat>, t: int, l: Ledger) {
    forall k {:trigger recent[k]} :: 0 <= k < |recent| ==> recent[k] == l(t - k)
  }

  /** The window holds the ledger's last ticks, and nothing was used after its current one. */
  ghost predicate Matches(w: Window, l: Ledger) {
    Shows(w.recent, w.tick, l) && forall u :: u > w.tick ==> l(u) == 0
  }

  lemma RolledMatches(w: Window, l: Ledger, t: int)
    requires Matches(w, l) && w.tick <= t
    ensures Matches(Rolled(w, t), l)
  {
    var r, b := Rolled(w, t), Behind(w, t);
    forall k | 0 <= k < |r.recent| ensures r.recent[k] == l(t - k) {
      if k >= b { assert r.recent[k] == w.recent[k - b]; }
    }
  }

  lemma {:induction false} ShowsSum(recent: seq<nat>, t: int, l: Ledger)
    requires Shows(recent, t, l)
    ensures UsedBack(l, t, |recent|) == Sum(recent)
    decreases |recent|
  {
    if recent != [] {
      assert recent[0] == l(t - 0);
      assert Shows(recent[1..], t - 1, l) by {
        forall k | 0 <= k < |recent| - 1 ensures recent[1..][k] ==
            l(t - 1 - k) { assert recent[1..][k] == recent[k + 1]; }
      }
      ShowsSum(recent[1..], t - 1, l);
    }
  }

  lemma AllocMatches(w: Window, l: Ledger, limit: nat, amount: nat, t: int)
    requires Matches(w, l) && w.tick <= t && |w.recent| > 0
    ensures var a, b := Allocated(w, limit, amount, t), LedgerAlloc(l, |w.recent|, limit, amount, t);
      a.1 == b.1 && Matches(a.0, b.0)
  {
    hide Rolled, Sum, UsedBack;
    RolledMatches(w, l, t);
    var r := Rolled(w, t);
    ShowsSum(r.recent, t, l);
    assert r.recent[0] == l(t - 0);
  }

  /** Ticks before the ones a release looks at keep their consumption. */
  lemma {:induction false} ReleaseKeeps(l: Ledger, n: nat, amount: nat, t: int, u: int)
    requires u > t || u <= t - n
    ensures LedgerRelease(l, n, amount, t).0(u) == l(u)
    decreases n
  {
    if n > 0 && l(t) < amount { ReleaseKeeps(SetTick(l, t, 0), n - 1, amount - l(t), t - 1, u); }
  }

  lemma {:induction false} TakeShows(recent: seq<nat>, l: Ledger, amount: nat, t: int)
    requires Shows(recent, t, l)
    ensures var a, b := Take(recent, amount), LedgerRelease(l, |recent|, amount, t);
      a.1 == b.1 && Shows(a.0, t, b.0)
    decreases |recent|
  {
    if recent != [] {
      assert recent[0] == l(t - 0);
      if recent[0] < amount {
        var l', rest := SetTick(l, t, 0), recent[1..];
        forall k | 0 <= k < |rest| ensures rest[k] == l'(t - 1 - k) { assert rest[k] == recent[k + 1]; }
        TakeShows(rest, l', amount - recent[0], t - 1);
        var a, b := Take(recent, amount), LedgerRelease(l, |recent|, amount, t);
        ReleaseKeeps(l', |recent| - 1, amount - l(t), t - 1, t);
        forall k | 0 <= k < |a.0| ensures a.0[k] == b.0(t - k) {
          if k > 0 { assert a.0[k] == Take(rest, amount - recent[0]).0[k - 1]; }
        }
      } else {
        forall k | 0 <= k < |recent| ensures Take(recent, amount).0[k] == SetTick(l, t, l(t) - amount)(t - k) {
          assert recent[k] == l(t - k);
        }
      }
    }
  }

  lemma ReleaseMatches(w: Window, l: Ledger, amount: nat, t: int)
    requires Matches(w, l) && w.tick <= t
    ensures var a, b := Released(w, amount, t), LedgerRelease(l, |w.recent|, amount, t);
      a.1 == b.1 && Matches(a.0, b.0)
  {
    hide Rolled, Take, LedgerRelease;
    RolledMatches(w, l, t);
    TakeShows(Rolled(w, t).recent, l, amount, t);
    forall u | u > t ensures LedgerRelease(l, |w.recent|, amount, t).0(u) == 0 {
      ReleaseKeeps(l, |w.recent|, amount, t, u);
    }
  }

  // ----- whole runs -----

  datatype Event = AllocAt(amount: nat, tick: int) | ReleaseAt(amount: nat, tick: int)

  ghost predicate InOrder(evs: seq<Event>, from: int) {
    evs == [] || (from <= evs[0].tick && InOrder(evs[1..], evs[0].tick))
  }

  /** The state after an event, and its answer: the amount granted or released. */
  function WindowStep(w: Window, limit: nat, e: Event): (r: (Window, nat))
    requires w.tick <= e.tick && |w.recent| > 0
    ensures |r.0.recent| == |w.recent| && r.0.tick == e.tick
  {
    match e
    case AllocAt(a, t) => var r := Allocated(w, limit, a, t); (r.0, if r.1 then a else 0)
    case ReleaseAt(a, t) => Released(w, a, t)
  }

  ghost function LedgerStep(l: Ledger, n: nat, limit: nat, e: Event): (Ledger, nat) {
    match e
    case AllocAt(a, t) => var r := LedgerAlloc(l, n, limit, a, t); (r.0, if r.1 then a else 0)
    case ReleaseAt(a, t) => LedgerRelease(l, n, a, t)
  }

  function WindowRun(w: Window, limit: nat, evs: seq<Event>): (r: seq<nat>)
    requires InOrder(evs, w.tick) && |w.recent| > 0
    ensures |r| == |evs|
    decreases |evs|
  {
    if evs == [] then []
    else
      var r := WindowStep(w, limit, evs[0]);
      [r.1] + WindowRun(r.0, limit, evs[1..])
  }

  ghost function LedgerRun(l: Ledger, n: nat, limit: nat, evs: seq<Event>): (r: seq<nat>)
    ensures |r| == |evs|
    decreases |evs|
  {
    if evs == [] then []
    else
      var r := LedgerStep(l, n, limit, evs[0]);
      [r.1] + LedgerRun(r.0, n, limit, evs[1..])
  }

  lemma StepMatches(w: Window, l: Ledger, limit: nat, e: Event)
    requires w.tick <= e.tick && |w.recent| > 0 && Matches(w, l)
    ensures var a, b := WindowStep(w, limit, e), LedgerStep(l, |w.recent|, limit, e);
      a.1 == b.1 && Matches(a.0, b.0)
  {
    hide Matches, Allocated, Released, LedgerAlloc, LedgerRelease;
    match e
    case AllocAt(a, t) => AllocMatches(w, l, limit, a, t);
    case ReleaseAt(a, t) => ReleaseMatches(w, l, a, t);
  }

  /** A window that forgets old ticks answers as a ledger that forgets nothing, and shows its last ticks. */
  lemma {:induction false} WindowRefinesLedger(w: Window, l: Ledger, limit: nat, evs: seq<Event>)
    requires InOrder(evs, w.tick) && |w.recent| > 0 && Matches(w, l)
    ensures WindowRun(w, limit, evs) == LedgerRun(l, |w.recent|, limit, evs)
    ensures Matches(WindowAfter(w, limit, evs), LedgerAfter(l, |w.recent|, limit, evs))
    decreases |evs|
  {
    hide Matches, WindowStep, LedgerStep;
    if evs != [] {
      StepMatches(w, l, limit, evs[0]);
      WindowRefinesLedger(WindowStep(w, limit, evs[0]).0, LedgerStep(l, |w.recent|, limit, evs[0]).0, limit, evs[1..]);
    }
  }

  lemma FreshMatches(n: nat)
    ensures Matches(Fresh(n), u => 0)
  {
  }

  /** An idle window answers every future as a fresh one does. */
  lemma IdleIsFresh(w: Window, limit: nat, evs: seq<Event>)
    requires |w.recent| > 0 && 0 <= w.tick && Sum(w.recent) == 0 && InOrder(evs, w.tick)
    ensures InOrder(evs, 0) && WindowRun(w, limit, evs) == WindowRun(Fresh(|w.recent|), limit, evs)
  {
    hide Rolled, Sum, Take;
    SumZeros(|w.recent|);
    if evs != [] { IdleRolls(w, Fresh(|w.recent|), evs[0].tick); }
  }

  lemma IdleRolls(w: Window, v: Window, t: int)
    requires w.tick <= t && v.tick <= t && |w.recent| == |v.recent| && Sum(w.recent) == Sum(v.recent) == 0
    ensures Rolled(w, t) == Rolled(v, t)
  {
    NothingUsed(w.recent);
    NothingUsed(v.recent);
    var n := |w.recent|;
    assert Rolled(w, t).recent == Zeros(n) && Rolled(v, t).recent == Zeros(n);
  }

  // ----- one event more -----

  function WindowAfter(w: Window, limit: nat, evs: seq<Event>): (r: Window)
    requires InOrder(evs, w.tick) && |w.recent| > 0
    ensures |r.recent| == |w.recent|
    decreases |evs|
  {
    if evs == [] then w else WindowAfter(WindowStep(w, limit, evs[0]).0, limit, evs[1..])
  }

  lemma {:induction false} RunAppend(w: Window, limit: nat, evs: seq<Event>, e: Event)
    requires InOrder(evs, w.tick) && |w.recent| > 0 && WindowAfter(w, limit, evs).tick <= e.tick
    ensures InOrder(evs + [e], w.tick)
    ensures var r := WindowStep(WindowAfter(w, limit, evs), limit, e);
      && WindowAfter(w, limit, evs + [e]) == r.0
      && WindowRun(w, limit, evs + [e]) == WindowRun(w, limit, evs) + [r.1]
    decreases |evs|
  {
    hide WindowStep;
    if evs == [] {
      assert evs + [e] == [e] && [e][1..] == [];
    } else {
      assert (evs + [e])[1..] == evs[1..] + [e] && (evs + [e])[0] == evs[0];
      RunAppend(WindowStep(w, limit, evs[0]).0, limit, evs[1..], e);
    }
  }

  // ----- the rate limit -----

  ghost function LedgerAfter(l: Ledger, n: nat, limit: nat, evs: seq<Event>): Ledger
    decreases |evs|
  {
    if evs == [] then l else LedgerAfter(LedgerStep(l, n, limit, evs[0]).0, n, limit, evs[1..])
  }

  /** Nothing was used after `t`, and no `n` ticks in a row used more than the limit. */
  ghost predicate Bounded(l: Ledger, t: int, n: nat, limit: nat) {
    && (forall u :: u > t ==> l(u) == 0)
    && (forall u :: UsedBack(l, u, n) <= limit)
  }

  lemma {:induction false} UsedPut(l: Ledger, t: int, x: nat, u: int, n: nat)
    ensures UsedBack(SetTick(l, t, x), u, n) ==
      if u - n < t <= u then UsedBack(l, u, n) - l(t) + x else UsedBack(l, u, n)
    decreases n
  {
    if n > 0 { UsedPut(l, t, x, u - 1, n - 1); }
  }

  lemma {:induction false} UsedMore(l: Ledger, u: int, n: nat, m: nat)
    ensures UsedBack(l, u, n) <= UsedBack(l, u, n + m)
    decreases n
  {
    if n > 0 { UsedMore(l, u - 1, n - 1, m); }
  }

  /** Ticks in which nothing was used can be left out. */
  lemma {:induction false} UsedSkip(l: Ledger, t: int, u: int, n: nat)
    requires t <= u && forall v :: v > t ==> l(v) == 0
    ensures UsedBack(l, u, n) <= UsedBack(l, t, n)
    decreases u - t + n
  {
    if t < u && n > 0 {
      UsedSkip(l, t, u - 1, n - 1);
      UsedMore(l, t, n - 1, 1);
    }
  }

  lemma AllocBounded(l: Ledger, from: int, n: nat, limit: nat, amount: nat, t: int)
    requires Bounded(l, from, n, limit) && from <= t
    ensures Bounded(LedgerAlloc(l, n, limit, amount, t).0, t, n, limit)
  {
    hide UsedBack;
    var r := LedgerAlloc(l, n, limit, amount, t);
    if r.1 {
      forall u ensures UsedBack(r.0, u, n) <= limit {
        UsedPut(l, t, l(t) + amount, u, n);
        if u - n < t <= u { UsedSkip(l, t, u, n); }
      }
    }
  }

  lemma {:induction false} ReleaseBounded(l: Ledger, n: nat, amount: nat, t: int, u: int, m: nat)
    ensures UsedBack(LedgerRelease(l, n, amount, t).0, u, m) <= UsedBack(l, u, m)
    decreases n
  {
    if n > 0 {
      UsedPut(l, t, if l(t) >= amount then l(t) - amount else 0, u, m);
      if l(t) < amount { ReleaseBounded(SetTick(l, t, 0), n - 1, amount - l(t), t - 1, u, m); }
    }
  }

  /** In every run, the net consumption of any `n` ticks in a row stays within the limit. */
  lemma {:induction false} NetBounded(l: Ledger, from: int, n: nat, limit: nat, evs: seq<Event>)
    requires Bounded(l, from, n, limit) && InOrder(evs, from)
    ensures forall u :: UsedBack(LedgerAfter(l, n, limit, evs), u, n) <= limit
    decreases |evs|
  {
    hide UsedBack, LedgerAlloc, LedgerRelease;
    if evs != [] {
      match evs[0]
      case AllocAt(a, t) =>
        AllocBounded(l, from, n, limit, a, t);
        NetBounded(LedgerAlloc(l, n, limit, a, t).0, t, n, limit, evs[1..]);
      case ReleaseAt(a, t) =>
        var l' := LedgerRelease(l, n, a, t).0;
        forall u ensures UsedBack(l', u, n) <= limit && (u > t ==> l'(u) == 0) {
          ReleaseBounded(l, n, a, t, u, n);
          if u > t { ReleaseKeeps(l, n, a, t, u); }
        }
        NetBounded(l', t, n, limit, evs[1..]);
    }
  }

  ghost predicate AllocOnly(evs: seq<Event>) {
    forall i :: 0 <= i < |evs| ==> evs[i].AllocAt?
  }

  /** The answers to the events at the `n` ticks up to `t`. */
  function GrantedIn(evs: seq<Event>, answers: seq<nat>, t: int, n: nat): nat
    requires |evs| == |answers|
  {
    if evs == [] then 0
    else (if t - n < evs[0].tick <= t then answers[0] else 0) + GrantedIn(evs[1..], answers[1..], t, n)
  }

  lemma {:induction false} NetIsGranted(l: Ledger, n: nat, limit: nat, evs: seq<Event>, t: int)
    requires AllocOnly(evs)
    ensures UsedBack(LedgerAfter(l, n, limit, evs), t, n) ==
      UsedBack(l, t, n) + GrantedIn(evs, LedgerRun(l, n, limit, evs), t, n)
    decreases |evs|
  {
    hide UsedBack;
    if evs != [] {
      var a, u := evs[0].amount, evs[0].tick;
      assert evs[0].AllocAt?;
      var r := LedgerAlloc(l, n, limit, a, u);
      UsedPut(l, u, l(u) + a, t, n);
      NetIsGranted(r.0, n, limit, evs[1..], t);
      var all := LedgerRun(l, n, limit, evs);
      assert all == [if r.1 then a else 0] + LedgerRun(r.0, n, limit, evs[1..]);
      assert all[1..] == LedgerRun(r.0, n, limit, evs[1..]);
    }
  }

  lemma {:induction false} UsedNothing(t: int, n: nat)
    ensures UsedBack(u => 0, t, n) == 0
    decreases n
  {
    if n > 0 { UsedNothing(t - 1, n - 1); }
  }

  /** Without releases, the grants in any `n` ticks in a row total at most the limit. */
  lemma RateLimited(n: nat, limit: nat, evs: seq<Event>, t: int)
    requires 0 < n && InOrder(evs, 0) && AllocOnly(evs)
    ensures GrantedIn(evs, WindowRun(Fresh(n), limit, evs), t, n) <= limit
  {
    hide UsedBack;
    var zero: Ledger := u => 0;
    FreshMatches(n);
    WindowRefinesLedger(Fresh(n), zero, limit, evs);
    forall u ensures UsedBack(zero, u, n) == 0 { UsedNothing(u, n); }
    NetBounded(zero, 0, n, limit, evs);
    NetIsGranted(zero, n, limit, evs, t);
  }
}
