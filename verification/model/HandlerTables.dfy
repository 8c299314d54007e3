/** Handler tables: reuse of unchanged handlers, and which old ones to close (pkg/runtime/handlerTable.go). */
module HandlerTables {
  import opened Values

  /** Handlers are named by number; None is a handler that could not be built. */
  datatype Entry = Entry(handler: Option<nat>, sha: nat, closeOnCleanup: bool)

  type Table = map<string, Entry>

  /** The hash of every handler's configuration. */
  type Config = map<string, nat>

  /** What building each handler gives. */
  type Builds = map<string, Option<nat>>

  predicate Persists(old': Table, config: Config, name: string) {
    name in old' && name in config && old'[name].sha == config[name]
  }

  /** The old table, with the entries that are removed or replaced marked. */
  ghost predicate MarkedAs(old': Table, config: Config, m: Table) {
    && m.Keys == old'.Keys
    && forall n :: n in m ==> m[n] == if Persists(old', config, n) then old'[n] else old'[n].(closeOnCleanup := true)
  }

  function HandlerFor(old': Table, config: Config, builds: Builds, name: string): Option<nat>
    requires name in config && config.Keys <= builds.Keys
  {
    if Persists(old', config, name) && old'[name].handler.Some? then old'[name].handler else builds[name]
  }

  /** The new table: unchanged handlers are carried over, the others are built. */
  ghost predicate InitializedAs(old': Table, config: Config, builds: Builds, t: Table)
    requires config.Keys <= builds.Keys
  {
    && t.Keys == config.Keys
    && forall n :: n in t ==> t[n] == Entry(HandlerFor(old', config, builds, n), config[n], false)
  }

  // ----- the handlers of a table -----

  predicate Owns(t: Table, n: string, h: nat) {
    n in t && t[n].handler == Some(h)
  }

  ghost predicate Contains(t: Table, h: nat) {
    exists n :: Owns(t, n, h)
  }

  /** The handler belongs to an entry that cleanup closes. */
  ghost predicate HasMarked(t: Table, h: nat) {
    exists n :: Owns(t, n, h) && t[n].closeOnCleanup
  }

  ghost predicate Injective(t: Table) {
    forall m, n, h :: Owns(t, m, h) && Owns(t, n, h) ==> m == n
  }

  /** A build gives handlers that were never there before, each for one name. */
  ghost predicate FreshBuilds(builds: Builds, built: set<nat>) {
    && (forall n :: n in builds && builds[n].Some? ==> builds[n].value !in built)
    && (forall m, n :: m in builds && n in builds && m != n && builds[m].Some? ==> builds[m] != builds[n])
  }

  ghost predicate Unmarked(t: Table) {
    forall n :: n in t ==> !t[n].closeOnCleanup
  }

  /** What initialization gives: nothing marked is in use in the new table, and nothing else is lost. */
  lemma InitializeSplits(t: Table, config: Config, builds: Builds, built: set<nat>, m: Table, t': Table)
    requires config.Keys <= builds.Keys && Injective(t) && Unmarked(t) && FreshBuilds(builds, built)
    requires forall h :: Contains(t, h) ==> h in built
    requires MarkedAs(t, config, m) && InitializedAs(t, config, builds, t')
    ensures Injective(t') && Unmarked(t') && Injective(m)
    ensures forall h :: Contains(m, h) <==> Contains(t, h)
    ensures forall h :: HasMarked(m, h) ==> !Contains(t', h)
    ensures forall h :: Contains(m, h) ==> HasMarked(m, h) || Contains(t', h)
    ensures forall h :: Contains(t', h) ==> Contains(t, h) || h !in built
  {
    forall n, h ensures Owns(m, n, h) <==> Owns(t, n, h) { }
    forall n, h | Owns(t', n, h)
      ensures (Owns(t, n, h) && Persists(t, config, n) && h in built)
        || (h !in built && n in builds && builds[n] == Some(h))
    {
      if Persists(t, config, n) && t[n].handler.Some? { assert Owns(t, n, h) && Contains(t, h); }
    }
    forall h | Contains(t', h) ensures Contains(t, h) || h !in built {
      var n :| Owns(t', n, h);
    }
    forall h ensures Contains(m, h) <==> Contains(t, h) {
      if Contains(t, h) { var n :| Owns(t, n, h); assert Owns(m, n, h); }
    }
    forall h | HasMarked(m, h) ensures !Contains(t', h) {
      var n :| Owns(m, n, h) && m[n].closeOnCleanup;
      assert Contains(t, h);
    }
    forall h | Contains(m, h) ensures HasMarked(m, h) || Contains(t', h) {
      var n :| Owns(m, n, h);
      if Persists(t, config, n) { assert Owns(t', n, h); }
    }
  }

  /** A handler is carried over, and not marked, exactly if its name is still there with the same hash. */
  lemma CarriedOver(t: Table, config: Config, builds: Builds, m: Table, t': Table, n: string, h: nat)
    requires config.Keys <= builds.Keys && Owns(t, n, h) && Unmarked(t)
    requires MarkedAs(t, config, m) && InitializedAs(t, config, builds, t')
    ensures n in m && (m[n].closeOnCleanup <==> !(n in config && config[n] == t[n].sha))
    ensures n in config && config[n] == t[n].sha ==> Owns(t', n, h)
  {
    assert n in m;
    if Persists(t, config, n) { assert n in t'; }
  }

  /** A name that is new, or whose hash is, gets the handler that was built for it, under the new hash. */
  lemma BuiltAnew(t: Table, config: Config, builds: Builds, t': Table, n: string)
    requires config.Keys <= builds.Keys && InitializedAs(t, config, builds, t') && n in config
    ensures n in t' && t'[n].sha == config[n] && !t'[n].closeOnCleanup
    ensures !(n in t && t[n].sha == config[n]) ==> t'[n].handler == builds[n]
    ensures n in t && t[n].sha == config[n] ==> t'[n].handler == if t[n].handler.Some? then t[n].handler else builds[n]
  {
    assert n in t';
  }

  // ----- the table of entries that is filled in place -----

  class HandlerEntry {
    const name: string
    const sha: nat
    var handler: Option<nat>
    var closeOnCleanup: bool

    constructor (name: string, sha: nat)
      ensures this.name == name && this.sha == sha && handler == None && !closeOnCleanup
    {
      this.name, this.sha := name, sha;
      handler, closeOnCleanup := None, false;
    }

    ghost function Value(): Entry
      reads this
    {
      Entry(handler, sha, closeOnCleanup)
    }
  }

  /** The entries of a table as values. */
  ghost predicate Mirrors(entries: map<string, HandlerEntry>, t: Table)
    reads entries.Values
  {
    entries.Keys == t.Keys && forall n :: n in entries ==> entries[n].Value() == t[n]
  }

  ghost predicate Separate(entries: map<string, HandlerEntry>) {
    forall m, n :: m in entries && n in entries && m != n ==> entries[m] != entries[n]
  }

  ghost predicate HashesAre(table: map<string, HandlerEntry>, config: Config) {
    table.Keys == config.Keys && forall n :: n in table ==> table[n].sha == config[n]
  }

  predicate SameHash(table: map<string, HandlerEntry>, oldTable: map<string, HandlerEntry>, n: string) {
    n in table && n in oldTable && table[n].sha == oldTable[n].sha
  }

  /** Marks and carries over, entry by entry, then builds what is still missing. */
  method Initialize(table: map<string, HandlerEntry>, oldTable: map<string, HandlerEntry>, builds: Builds,
          ghost t: Table, ghost config: Config)
    requires Separate(table) && Separate(oldTable) && table.Keys <= builds.Keys
    requires forall m, n :: m in table && n in oldTable ==> table[m] != oldTable[n]
    requires forall n :: n in table ==> table[n].handler == None && !table[n].closeOnCleanup
    requires Mirrors(oldTable, t) && HashesAre(table, config)
    modifies table.Values, oldTable.Values
    ensures forall m :: Mirrors(oldTable, m) ==> MarkedAs(t, config, m)
    ensures forall t' :: Mirrors(table, t') ==> InitializedAs(t, config, builds, t')
    ensures forall n :: n in oldTable ==>
      && oldTable[n].handler == old(oldTable[n].handler)
      && oldTable[n].closeOnCleanup ==
           (old(oldTable[n].closeOnCleanup) || !(n in table && table[n].sha == oldTable[n].sha))
    ensures forall n :: n in table ==>
      if n in oldTable && table[n].sha == oldTable[n].sha && old(oldTable[n].handler).Some?
      then table[n].handler == old(oldTable[n].handler)
      else table[n].handler == builds[n]
  {
    CarryOver(table, oldTable);
    BuildMissing(table, builds);
  }

  method CarryOver(table: map<string, HandlerEntry>, oldTable: map<string, HandlerEntry>)
    requires Separate(table) && Separate(oldTable)
    requires forall m, n :: m in table && n in oldTable ==> table[m] != oldTable[n]
    requires forall n :: n in table ==> table[n].handler == None && !table[n].closeOnCleanup
    modifies table.Values, oldTable.Values
    ensures forall n :: n in oldTable ==>
      oldTable[n].handler == old(oldTable[n].handler) && oldTable[n].closeOnCleanup ==
          (old(oldTable[n].closeOnCleanup) || !SameHash(table, oldTable, n))
    ensures forall n :: n in table ==>
      && !table[n].closeOnCleanup
      && table[n].handler == if SameHash(table, oldTable, n) then old(oldTable[n].handler) else None
  {
    var todo := oldTable.Keys;
    while todo != {}
      invariant todo <= oldTable.Keys
      invariant forall n :: n in oldTable ==> oldTable[n].handler == old(oldTable[n].handler)
      invariant forall n :: n in oldTable ==>
        oldTable[n].closeOnCleanup == (old(oldTable[n].closeOnCleanup) || (n !in todo && !SameHash(table, oldTable, n)))
      invariant forall n :: n in table ==>
        && !table[n].closeOnCleanup
        && table[n].handler == if SameHash(table, oldTable, n) && n !in todo then old(oldTable[n].handler) else None
      decreases |todo|
    {
      var n :| n in todo;
      if n !in table {
        oldTable[n].closeOnCleanup := true;
      } else if table[n].sha != oldTable[n].sha {
        oldTable[n].closeOnCleanup := true;
      } else {
        table[n].handler := oldTable[n].handler;
      }
      todo := todo - {n};
    }
  }

  method BuildMissing(table: map<string, HandlerEntry>, builds: Builds)
    requires Separate(table) && table.Keys <= builds.Keys
    modifies table.Values
    ensures forall n :: n in table ==>
      && table[n].closeOnCleanup == old(table[n].closeOnCleanup)
      && table[n].handler == if old(table[n].handler).Some? then old(table[n].handler) else builds[n]
  {
    var todo := table.Keys;
    while todo != {}
      invariant todo <= table.Keys
      invariant forall n :: n in table ==> table[n].closeOnCleanup == old(table[n].closeOnCleanup)
      invariant forall n :: n in table ==>
        table[n].handler == if old(table[n].handler).Some? || n in todo then old(table[n].handler) else builds[n]
      decreases |todo|
    {
      var n :| n in todo;
      if table[n].handler.None? {
        table[n].handler := builds[n];
      }
      todo := todo - {n};
    }
  }

  /** Closes the handlers of the marked entries, each once. */
  method CloseMarked(table: map<string, HandlerEntry>, ghost t: Table) returns (closes: multiset<nat>)
    requires Mirrors(table, t) && Injective(t)
    ensures forall h :: closes[h] == if HasMarked(t, h) then 1 else 0
  {
    hide HasMarked;
    closes := multiset{};
    var todo := table.Keys;
    while todo != {}
      invariant todo <= table.Keys
      invariant forall h :: closes[h] == if MarkedOutside(t, todo, h) then 1 else 0
      decreases |todo|
    {
      var n :| n in todo;
      var e := table[n];
      MarkedStep(t, todo, n);
      if e.closeOnCleanup && e.handler.Some? {
        closes := closes + multiset{e.handler.value};
      }
      todo := todo - {n};
    }
    forall h ensures MarkedOutside(t, {}, h) <==> HasMarked(t, h) { MarkedAll(t, h); }
  }

  ghost predicate MarkedOutside(t: Table, todo: set<string>, h: nat) {
    exists n :: n !in todo && Owns(t, n, h) && t[n].closeOnCleanup
  }

  lemma MarkedAll(t: Table, h: nat)
    ensures MarkedOutside(t, {}, h) <==> HasMarked(t, h)
  {
    if HasMarked(t, h) {
      var n :| Owns(t, n, h) && t[n].closeOnCleanup;
      assert n !in {} && Owns(t, n, h) && t[n].closeOnCleanup;
    }
    if MarkedOutside(t, {}, h) {
      var n :| n !in {} && Owns(t, n, h) && t[n].closeOnCleanup;
    }
  }

  lemma MarkedStep(t: Table, todo: set<string>, n: string)
    requires n in todo && n in t && Injective(t) && forall k :: k in todo ==> k in t
    ensures forall h :: MarkedOutside(t, todo - {n}, h) <==>
      MarkedOutside(t, todo, h) || (Owns(t, n, h) && t[n].closeOnCleanup)
    ensures forall h :: Owns(t, n, h) ==> !MarkedOutside(t, todo, h)
  {
    forall h
      ensures MarkedOutside(t, todo - {n}, h) <==>
        MarkedOutside(t, todo, h) || (Owns(t, n, h) && t[n].closeOnCleanup)
    {
      if MarkedOutside(t, todo, h) {
        var k :| k !in todo && Owns(t, k, h) && t[k].closeOnCleanup;
        assert k !in todo - {n} && Owns(t, k, h);
      }
      if Owns(t, n, h) && t[n].closeOnCleanup { assert n !in todo - {n} && Owns(t, n, h); }
    }
  }
}
