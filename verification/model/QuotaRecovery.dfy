/** A window forgets: once grants are older than the window, the whole limit is there again. */
module QuotaRecovery {
  import opened Windows
  import opened Quotas
  import opened QuotaRuns

  /** Something was granted to the key by an executed request in this tick. */
  ghost predicate GrantedOn(limits: Limits, ops: seq<Operation>, key: string, keep: bool, tick: int) {
    && ops != []
    && (|| GrantedOn(limits, Front(ops), key, keep, tick)
        || (&& Executes(ops) && Last(ops).r.key == key && Last(ops).r.amount > 0 && Tick(Last(ops).r.now) == tick
            && Served(After(limits, Front(ops), keep), limits, Last(ops).r, keep).1.amount > 0))
  }

  /** Every slot in use belongs to a tick in which something was granted. */
  ghost predicate Justified(limits: Limits, ops: seq<Operation>, key: string, keep: bool, w: Window) {
    forall k :: 0 <= k < |w.recent| && w.recent[k] > 0 ==> GrantedOn(limits, ops, key, keep, w.tick - k)
  }

  lemma RolledJustified(limits: Limits, ops: seq<Operation>, key: string, keep: bool, w: Window, t: int)
    requires w.tick <= t && Justified(limits, ops, key, keep, w)
    ensures Justified(limits, ops, key, keep, Rolled(w, t))
  {
    hide GrantedOn;
    var r, b := Rolled(w, t), Behind(w, t);
    forall k | 0 <= k < |r.recent| && r.recent[k] > 0 ensures GrantedOn(limits, ops, key, keep, t - k) {
      assert k >= b && r.recent[k] == w.recent[k - b];
      assert w.tick - (k - b) == t - k;
    }
  }

  lemma {:induction false} TakeLess(recent: seq<nat>, amount: nat, k: nat)
    requires k < |recent|
    ensures Take(recent, amount).0[k] <= recent[k]
    decreases |recent|
  {
    if recent[0] < amount && k > 0 { TakeLess(recent[1..], amount - recent[0], k - 1); }
  }

  lemma ReleasedJustified(limits: Limits, ops: seq<Operation>, key: string, keep: bool, w: Window, amount: nat, t: int)
    requires w.tick <= t && Justified(limits, ops, key, keep, w)
    ensures Justified(limits, ops, key, keep, Released(w, amount, t).0)
  {
    hide GrantedOn, Take, Rolled;
    RolledJustified(limits, ops, key, keep, w, t);
    var r := Rolled(w, t);
    forall k | 0 <= k < |r.recent| ensures Released(w, amount, t).0.recent[k] <= r.recent[k] {
      TakeLess(r.recent, amount, k);
    }
  }

  lemma AllocatedJustified(limits: Limits, ops: seq<Operation>, key: string, keep: bool, w: Window, limit: nat,
          amount: nat, t: int)
    requires w.tick <= t && |w.recent| > 0 && Justified(limits, ops, key, keep, w)
    requires Allocated(w, limit, amount, t).1 && amount > 0 ==> GrantedOn(limits, ops, key, keep, t)
    ensures Justified(limits, ops, key, keep, Allocated(w, limit, amount, t).0)
  {
    hide GrantedOn, Rolled, Sum;
    RolledJustified(limits, ops, key, keep, w, t);
  }

  lemma MoreJustified(limits: Limits, ops: seq<Operation>, key: string, keep: bool, w: Window)
    requires ops != [] && Justified(limits, Front(ops), key, keep, w)
    ensures Justified(limits, ops, key, keep, w)
  {
  }

  lemma FreshJustified(limits: Limits, ops: seq<Operation>, key: string, keep: bool, n: nat)
    ensures Justified(limits, ops, key, keep, Fresh(n))
  {
  }

  /** An executed request keeps the window justified. */
  lemma ExecuteJustified(limits: Limits, ops: seq<Operation>, key: string, keep: bool, s: Store)
    requires ops != [] && Executes(ops) && Last(ops).r.key == key && limits(key).duration > 0
    requires s == After(limits, Front(ops), keep) && Serves(s, key, limits(key), Last(ops).r.now)
    requires Served(s, limits, Last(ops).r, keep).1.amount == Execute(s, limits(key), Last(ops).r, keep).1.amount
    requires Justified(limits, ops, key, keep, WindowFor(s, key, limits(key)))
    ensures Justified(limits, ops, key, keep, WindowFor(Execute(s, limits(key), Last(ops).r, keep).0, key, limits(key)))
  {
    hide Justified, Served, After, Age, Allocated, Released, Sum, Tick, SlotCount, Fresh, GrantedOn;
    var lim, r := limits(key), Last(ops).r;
    var w, t := WindowFor(s, key, lim), Tick(r.now);
    FreshJustified(limits, ops, key, keep, SlotCount(lim.duration));
    if r.amount > 0 {
      LastGranted(limits, ops, key, keep);
      var a := Allocated(w, lim.max, r.amount, t);
      AllocatedJustified(limits, ops, key, keep, w, lim.max, r.amount, t);
      if !a.1 && r.bestEffort {
        RollKeepsLess(w, t);
        AllocKeepsLimit(w, lim.max, r.amount, t);
        AllocatedJustified(limits, ops, key, keep, a.0, lim.max, lim.max - Sum(a.0.recent), t);
      }
    } else {
      ReleasedJustified(limits, ops, key, keep, w, -r.amount, t);
    }
  }

  lemma LastGranted(limits: Limits, ops: seq<Operation>, key: string, keep: bool)
    requires ops != [] && Executes(ops) && Last(ops).r.key == key && Last(ops).r.amount > 0
    ensures Served(After(limits, Front(ops), keep), limits, Last(ops).r, keep).1.amount > 0 ==>
      GrantedOn(limits, ops, key, keep, Tick(Last(ops).r.now))
  {
  }

  lemma {:induction false} RunJustified(limits: Limits, ops: seq<Operation>, key: string, keep: bool)
    requires InTime(ops) && limits(key).duration > 0
    ensures Justified(limits, ops, key, keep, WindowFor(After(limits, ops, keep), key, limits(key)))
    decreases |ops|
  {
    hide Justified, Execute, Served, Serves, Age, Handle, Fresh, SlotCount, GrantedOn;
    var lim := limits(key);
    if ops == [] {
      FreshJustified(limits, ops, key, keep, SlotCount(lim.duration));
    } else {
      RunJustified(limits, Front(ops), key, keep);
      var s := After(limits, Front(ops), keep);
      MoreJustified(limits, ops, key, keep, WindowFor(s, key, lim));
      if Last(ops).Ask? {
        var r := Last(ops).r;
        RequestDone(limits, ops, keep);
        if Executes(ops) {
          if r.key == key { ExecuteJustified(limits, ops, key, keep, s); }
          else { ExecuteElsewhere(s, limits(r.key), r, keep, key); }
        }
      }
    }
  }

  /** A tick with a grant lies before a time since which nothing was granted. */
  lemma {:induction false} GrantedBefore(limits: Limits, ops: seq<Operation>, key: string, keep: bool, tick: int,
          x: nat, now: nat)
    requires NotBefore(ops, now) && GrantTotal(limits, ops, key, keep, x, now) == 0
    requires GrantedOn(limits, ops, key, keep, tick)
    ensures tick <= Tick(x)
    decreases |ops|
  {
    hide Tick, Served, Age;
    assert ops[|ops| - 1] == Last(ops);
    if GrantedOn(limits, Front(ops), key, keep, tick) {
      assert NotBefore(Front(ops), now);
      GrantedBefore(limits, Front(ops), key, keep, tick, x, now);
    } else {
      var r := Last(ops).r;
      if r.now <= x { TickOrder(r.now, x); }
    }
  }

  /**
   In every run, with frees or without: when nothing was granted for a key for the configured duration,
   rounded up to seconds, nothing is in use any more.
   */
  lemma NothingInUse(limits: Limits, ops: seq<Operation>, key: string, keep: bool, x: nat, now: nat)
    requires InTime(ops) && NotBefore(ops, now) && limits(key).duration > 0
    requires x + WholeSeconds(limits(key).duration) <= now && GrantTotal(limits, ops, key, keep, x, now) == 0
    ensures var s, w := After(limits, ops, keep), WindowFor(After(limits, ops, keep), key, limits(key));
      Serves(s, key, limits(key), now) && Sum(Rolled(w, Tick(now)).recent) == 0
  {
    hide After, GrantTotal, GrantedOn, WindowFor, SlotCount, Tick, Rolled, WholeSeconds, InTime, Sum;
    AlwaysServes(limits, ops, keep, key, now);
    RunJustified(limits, ops, key, keep);
    var lim := limits(key);
    var w, n := WindowFor(After(limits, ops, keep), key, lim), SlotCount(lim.duration);
    RolledJustified(limits, ops, key, keep, w, Tick(now));
    var r := Rolled(w, Tick(now));
    SlotSpan(lim.duration);
    TickOrder(x + n * NANOS_PER_TICK, now);
    TickShift(x, n);
    forall k | 0 <= k < |r.recent| ensures r.recent[k] == 0 {
      if r.recent[k] > 0 { GrantedBefore(limits, ops, key, keep, Tick(now) - k, x, now); }
    }
    AllZero(r.recent);
  }

  lemma {:induction false} AllZero(s: seq<nat>)
    requires forall k :: 0 <= k < |s| ==> s[k] == 0
    ensures Sum(s) == 0
    decreases |s|
  {
    if s != [] { AllZero(s[1..]); }
  }

  /** So the next request for that key, if it is executed, gets all that the limit allows. */
  lemma WholeLimitAgain(limits: Limits, ops: seq<Operation>, keep: bool, x: nat)
    requires InTime(ops) && ops != [] && Executes(ops) && Last(ops).r.amount > 0
    requires var r := Last(ops).r;
      && limits(r.key).duration > 0 && x + WholeSeconds(limits(r.key).duration) <= r.now
      && GrantTotal(limits, Front(ops), r.key, keep, x, r.now) == 0
    ensures var r := Last(ops).r; var lim := limits(r.key);
      Served(After(limits, Front(ops), keep), limits, r, keep).1.amount ==
        if r.amount <= lim.max then r.amount else if r.bestEffort then lim.max else 0
  {
    hide After, GrantTotal, WindowFor, SlotCount, Tick, Rolled, WholeSeconds, Execute, Served, Sum, Age;
    var r := Last(ops).r;
    var s, lim := After(limits, Front(ops), keep), limits(r.key);
    RequestDone(limits, ops, keep);
    NothingInUse(limits, Front(ops), r.key, keep, x, r.now);
    GrantRule(s, lim, r, keep);
  }
}
