/** The quota handler over its maps and windows (adapter/memquota/memquota.go, adapter/memquota/dedup.go). */
module QuotaHandlers {
  import opened Values
  import opened Windows
  import opened Quotas

  class Handler {
    const limits: string -> Limit
    var cells: map<string, nat>
    var windows: map<string, RollingWindow>
    var recentDedup: map<string, Dedup>
    var oldDedup: map<string, Dedup>

    /** The windows as values, by key. */
    ghost var views: map<string, Window>

    /** Every key has a window of its own, made for its limit. */
    ghost predicate Valid()
      reads this`windows, this`views, windows.Values, set k | k in windows :: windows[k].slots
    {
      && windows.Keys == views.Keys
      && (forall k :: k in windows ==> Fits(windows[k], limits(k), views[k]))
      && (forall j, k :: j in windows && k in windows && j != k ==>
            windows[j] != windows[k] && windows[j].slots != windows[k].slots)
    }

    ghost function Now(): Store
      reads this
    {
      Store(cells, views, recentDedup, oldDedup)
    }

    ghost function Footprint(): set<object>
      reads this`windows
    {
      {this} + windows.Values + set k | k in windows :: windows[k].slots
    }

    constructor (limits: string -> Limit)
      ensures Valid() && Now() == EMPTY && this.limits == limits
    {
      this.limits := limits;
      cells, windows, recentDedup, oldDedup, views := map[], map[], map[], map[], map[];
    }

    lemma WindowIs(key: string)
      requires Valid() && key in windows
      ensures key in views && Fits(windows[key], limits(key), views[key])
      ensures forall k :: k in windows && k != key ==>
        windows[k] != windows[key] && windows[k].slots != windows[key].slots
      ensures windows[key] in Footprint() && windows[key].slots in Footprint()
      ensures views[key].tick == windows[key].currentSlotTick
      ensures limits(key).max - Sum(views[key].recent) == windows[key].avail >= 0
    {
      hide Sum, Recent;
    }

    lemma InFootprint()
      ensures this in Footprint()
    {
    }

    method AllocIn(key: string, amount: nat, t: int) returns (ok: bool)
      requires Valid() && key in windows && views[key].tick <= t
      modifies this`views, windows[key], windows[key].slots
      ensures Valid()
      ensures var a := Allocated(old(views)[key], limits(key).max, amount, t);
        ok == a.1 && views == old(views)[key := a.0]
    {
      hide Allocated, Sum, Recent, Rolled, SlotCount, Fits;
      WindowIs(key);
      FitsParts(windows[key], limits(key), views[key]);
      ok := windows[key].Alloc(amount, t);
      views := views[key := windows[key].Now()];
      FitsParts(windows[key], limits(key), views[key]);
      assert forall k :: k in windows && k != key ==> old(Fits(windows[k], limits(k), views[k]));
    }

    method ReleaseIn(key: string, amount: nat, t: int) returns (total: nat)
      requires Valid() && key in windows && views[key].tick <= t
      modifies this`views, windows[key], windows[key].slots
      ensures Valid()
      ensures var a := Released(old(views)[key], amount, t);
        total == a.1 && views == old(views)[key := a.0]
    {
      hide Released, Sum, Recent, Rolled, SlotCount, Fits;
      WindowIs(key);
      FitsParts(windows[key], limits(key), views[key]);
      total := windows[key].Release(amount, t);
      views := views[key := windows[key].Now()];
      FitsParts(windows[key], limits(key), views[key]);
      assert forall k :: k in windows && k != key ==> old(Fits(windows[k], limits(k), views[k]));
    }

    twostate lemma Added(key: string)
      requires key in windows && windows == old(windows)[key := windows[key]] && fresh(windows[key])
        && fresh(windows[key].slots)
      ensures fresh(Footprint() - old(Footprint()))
    {
    }

    /** A new window joins the others. */
    method Adopt(key: string, w: RollingWindow)
      requires Valid() && key !in windows && Fits(w, limits(key), w.Now())
      requires forall k :: k in windows ==> windows[k] != w && windows[k].slots != w.slots
      modifies this`windows, this`views
      ensures Valid() && windows == old(windows)[key := w] && views == old(views)[key := w.Now()]
    {
      hide Fits;
      windows, views := windows[key := w], views[key := w.Now()];
    }

    /** The window of a key, made on first use. */
    method Obtain(key: string)
      requires Valid() && limits(key).duration > 0
      modifies this`windows, this`views
      ensures Valid() && key in windows && fresh(Footprint() - old(Footprint()))
      ensures views == old(views)[key := WindowFor(old(Now()), key, limits(key))]
    {
      hide Sum, Recent, SlotCount, Fresh, Fits, Footprint;
      if key !in windows {
        var lim := limits(key);
        var seconds := (lim.duration + 1_000_000_000 - 1) / 1_000_000_000;
        SlotsAre(lim.duration);
        var w := new RollingWindow(lim.max, seconds * 10);
        FitsParts(w, lim, w.Now());
        Adopt(key, w);
        Added(key);
      } else {
        assert views[key := views[key]] == views;
      }
    }

    /** Quota from a window; short of it, all there is if the request makes do with that. */
    method AllocFromWindow(r: Request) returns (d: Dedup)
      requires Valid() && r.amount > 0 && limits(r.key).duration > 0 && Serves(Now(), r.key, limits(r.key), r.now)
      modifies Footprint()
      ensures Valid() && fresh(Footprint() - old(Footprint()))
      ensures (Now(), d) == WindowAlloc(old(Now()), limits(r.key), r)
    {
      hide Valid, Fits, Footprint, Allocated, Sum, Tick, WindowFor, WindowAlloc, Serves;
      InFootprint();
      var lim, t := limits(r.key), Tick(r.now);
      ghost var s := Now();
      WindowAllocCases(s, lim, r);
      Obtain(r.key);
      WindowIs(r.key);
      var ok := AllocIn(r.key, r.amount, t);
      d := Dedup(r.amount, Some(r.now + lim.duration));
      if !ok {
        if !r.bestEffort { return Dedup(0, None); }
        WindowIs(r.key);
        var result := windows[r.key].avail;
        ok := AllocIn(r.key, result, t);
        d := Dedup(result, Some(r.now + lim.duration));
      }
    }

    /** Deletes a window. */
    method Forget(key: string)
      requires Valid() && key in windows
      modifies this`windows, this`views
      ensures Valid() && Footprint() <= old(Footprint())
      ensures views == old(views) - {key}
    {
      hide Fits;
      windows, views := windows - {key}, views - {key};
    }

    /** Gives quota back to a window, and deletes the window when it holds no useful state. */
    method FreeToWindow(r: Request) returns (d: Dedup)
      requires Valid() && r.amount < 0 && limits(r.key).duration > 0 && Serves(Now(), r.key, limits(r.key), r.now)
      modifies Footprint()
      ensures Valid() && fresh(Footprint() - old(Footprint()))
      ensures (Now(), d) == WindowFree(old(Now()), limits(r.key), r, false)
    {
      hide Valid, Fits, Footprint, Released, Sum, Tick, SlotCount, Fresh;
      InFootprint();
      Keys();
      if r.key !in windows { return Dedup(0, None); }
      WindowIs(r.key);
      ghost var before := views;
      var result := ReleaseIn(r.key, -r.amount, Tick(r.now));
      WindowIs(r.key);
      if windows[r.key].avail == limits(r.key).max {
        Forget(r.key);
        Overwritten(before, r.key, Released(before[r.key], -r.amount, Tick(r.now)).0);
      }
      d := Dedup(result, None);
    }

    lemma Keys()
      requires Valid()
      ensures views.Keys == windows.Keys
    {
    }

    method AllocFromCell(r: Request) returns (d: Dedup)
      requires Valid() && r.amount > 0 && Cell(Now(), r.key) <= limits(r.key).max
      modifies this`cells
      ensures Valid() && Footprint() == old(Footprint()) && (Now(), d) == CellAlloc(old(Now()), limits(r.key), r)
    {
      hide Valid, Footprint, Fits;
      var lim, result := limits(r.key), r.amount;
      var inUse := if r.key in cells then cells[r.key] else 0;
      if result > lim.max - inUse {
        if !r.bestEffort { return Dedup(0, None); }
        result := lim.max - inUse;
      }
      cells := cells[r.key := inUse + result];
      d := Dedup(result, None);
    }

    method FreeToCell(r: Request) returns (d: Dedup)
      requires Valid() && r.amount < 0
      modifies this`cells
      ensures Valid() && Footprint() == old(Footprint()) && (Now(), d) == CellFree(old(Now()), r)
    {
      hide Valid, Footprint, Fits;
      var inUse := if r.key in cells then cells[r.key] else 0;
      if -r.amount >= inUse {
        cells := cells - {r.key};
        return Dedup(inUse, None);
      }
      cells := cells[r.key := inUse - -r.amount];
      d := Dedup(-r.amount, None);
    }

    /** A request: answered from memory if its id is remembered, and otherwise executed and remembered. */
    method HandleQuota(r: Request) returns (a: Answer)
      requires Valid() && Serves(Now(), r.key, limits(r.key), r.now)
      modifies Footprint()
      ensures Valid() && fresh(Footprint() - old(Footprint()))
      ensures (Now(), a) == Handle(old(Now()), limits(r.key), r, false)
    {
      hide Valid, Footprint, CellAlloc, CellFree, WindowAlloc, WindowFree;
      InFootprint();
      Keys();
      if r.amount == 0 { return Answer(0, 0); }
      if r.id in recentDedup { return Answer(recentDedup[r.id].amount, Validity(r, recentDedup[r.id])); }
      if r.id in oldDedup { return Answer(oldDedup[r.id].amount, Validity(r, oldDedup[r.id])); }
      var d := Perform(r);
      Remember(r.id, d);
      a := Answer(d.amount, Validity(r, d));
    }

    method Perform(r: Request) returns (d: Dedup)
      requires Valid() && r.amount != 0 && Serves(Now(), r.key, limits(r.key), r.now)
      modifies Footprint()
      ensures Valid() && fresh(Footprint() - old(Footprint()))
      ensures (Now(), d) == Execute(old(Now()), limits(r.key), r, false)
    {
      hide Valid, Footprint, CellAlloc, CellFree, WindowAlloc, WindowFree;
      InFootprint();
      if limits(r.key).duration == 0 {
        if r.amount > 0 { d := AllocFromCell(r); } else { d := FreeToCell(r); }
      } else {
        if r.amount > 0 { d := AllocFromWindow(r); } else { d := FreeToWindow(r); }
      }
    }

    method Remember(id: string, d: Dedup)
      requires Valid()
      modifies this`recentDedup
      ensures Valid() && Footprint() == old(Footprint())
      ensures Now() == old(Now()).(recentDedup := old(Now()).recentDedup[id := d])
    {
      hide Valid, Footprint, Fits;
      recentDedup := recentDedup[id := d];
    }

    /** Forgets the older generation of ids, and ages the younger one. */
    method ReapDedup()
      requires Valid()
      modifies this`recentDedup, this`oldDedup
      ensures Valid() && Now() == Reaped(old(Now())) && Footprint() == old(Footprint())
    {
      hide Valid, Footprint, Fits;
      var t := oldDedup;
      oldDedup := recentDedup;
      recentDedup := t;
      while recentDedup.Keys != {}
        invariant oldDedup == old(recentDedup) && cells == old(cells) && windows == old(windows)
        decreases |recentDedup|
      {
        var k :| k in recentDedup;
        recentDedup := recentDedup - {k};
      }
      assert recentDedup == map[];
    }
  }

  /** An allocation as the states it passes through, the window made first if there is none. */
  lemma WindowAllocCases(s: Store, lim: Limit, r: Request)
    requires r.amount > 0 && lim.duration > 0 && Serves(s, r.key, lim, r.now)
    ensures var w, t, exp := WindowFor(s, r.key, lim), Tick(r.now), Some(r.now + lim.duration);
      && w.tick <= t && |w.recent| > 0
      && var a := Allocated(w, lim.max, r.amount, t);
         var s1 := s.(windows := s.windows[r.key := w][r.key := a.0]);
         && (a.1 ==> WindowAlloc(s, lim, r) == (s1, Dedup(r.amount, exp)))
         && (!a.1 && !r.bestEffort ==> WindowAlloc(s, lim, r) == (s1, Dedup(0, None)))
         && (!a.1 && r.bestEffort ==>
               && Sum(a.0.recent) <= lim.max
               && var b := Allocated(a.0, lim.max, lim.max - Sum(a.0.recent), t);
                  WindowAlloc(s, lim, r) ==
                    (s.(windows := s1.windows[r.key := b.0]), Dedup(lim.max - Sum(a.0.recent), exp)))
  {
    hide Allocated, Sum, Tick, SlotCount;
    var w, t := WindowFor(s, r.key, lim), Tick(r.now);
    var a := Allocated(w, lim.max, r.amount, t);
    Overwrite(s.windows, r.key, w, a.0);
    if !a.1 && r.bestEffort {
      RollKeepsLess(w, t);
      AllocKeepsLimit(w, lim.max, r.amount, t);
      Overwrite(s.windows, r.key, a.0, Allocated(a.0, lim.max, lim.max - Sum(a.0.recent), t).0);
    }
  }

  /** A window made for a limit, and its value. */
  ghost predicate Fits(w: RollingWindow, lim: Limit, v: Window)
    reads w, w.slots
  {
    w.Valid() && w.limit == lim.max && w.slots.Length == SlotCount(lim.duration) && w.Now() == v
  }

  /** Ten slots for every second begun. */
  lemma SlotsAre(duration: nat)
    ensures SlotCount(duration) == (duration + 1_000_000_000 - 1) / 1_000_000_000 * 10
    ensures duration > 0 ==> SlotCount(duration) > 0
  {
  }

  lemma FitsParts(w: RollingWindow, lim: Limit, v: Window)
    ensures Fits(w, lim, v) <==>
      w.Valid() && w.limit == lim.max && w.slots.Length == SlotCount(lim.duration) && w.Now() == v
  {
  }

  lemma Overwritten(m: map<string, Window>, k: string, x: Window)
    ensures m[k := x] - {k} == m - {k}
  {
  }

  lemma Overwrite(m: map<string, Window>, k: string, x: Window, y: Window)
    ensures m[k := x][k := y] == m[k := y]
  {
  }
}
