/** The interning string table (pkg/il/strings.go). */
module StringTables {
  import opened Values

  const NULL_STRING := "<<DEADBEEF>>"
  const ALLOC_SIZE := 512

  /** The table seen as the strings in id order. */
  ghost predicate Distinct(tab: seq<string>) {
    forall i, j :: 0 <= i < j < |tab| ==> tab[i] != tab[j]
  }

  function IndexOf(tab: seq<string>, s: string): (i: nat)
    ensures i <= |tab|
    ensures s in tab <==> i < |tab|
    ensures i < |tab| ==> tab[i] == s
    ensures forall j :: 0 <= j < i ==> tab[j] != s
  {
    if tab == [] then 0
    else if tab[0] == s then 0
    else 1 + IndexOf(tab[1..], s)
  }

  function Intern(tab: seq<string>, s: string): (t: seq<string>)
    ensures tab <= t && s in t
    ensures Distinct(tab) ==> Distinct(t)
  {
    if s in tab then tab else tab + [s]
  }

  function InternAll(tab: seq<string>, ss: seq<string>): (t: seq<string>)
    ensures tab <= t
    ensures Distinct(tab) ==> Distinct(t)
    ensures forall s :: s in ss ==> s in t
    decreases |ss|
  {
    if ss == [] then tab
    else
      var t := InternAll(tab, ss[..|ss| - 1]);
      assert ss == ss[..|ss| - 1] + [ss[|ss| - 1]];
      Intern(t, ss[|ss| - 1])
  }

  lemma {:induction false} InternAllConcat(tab: seq<string>, a: seq<string>, b: seq<string>)
    ensures InternAll(tab, a + b) == InternAll(InternAll(tab, a), b)
    decreases |b|
  {
    if b == [] {
      assert a + b == a;
    } else {
      var b' := b[..|b| - 1];
      assert (a + b)[..|a + b| - 1] == a + b';
      InternAllConcat(tab, a, b');
    }
  }

  /** An id never changes as the table grows. */
  lemma IdStable(tab: seq<string>, tab': seq<string>, s: string)
    requires tab <= tab' && s in tab
    ensures IndexOf(tab', s) == IndexOf(tab, s)
  {
    var i, j := IndexOf(tab, s), IndexOf(tab', s);
    assert tab'[i] == s && tab'[j] == s;
    assert j < |tab| ==> tab[j] == tab'[j];
  }

  /** In a table without duplicates, comparing ids decides equality of strings. */
  lemma IdsDecideEquality(tab: seq<string>, i: nat, j: nat)
    requires Distinct(tab) && i < |tab| && j < |tab|
    ensures i == j <==> tab[i] == tab[j]
    ensures IndexOf(tab, tab[i]) == i
  {
    var k := IndexOf(tab, tab[i]);
    assert tab[k] == tab[i];
  }

  /** The length of the backing slice when `n` ids are in use. */
  function Capacity(n: nat): (c: nat)
    ensures n <= c && ALLOC_SIZE <= c
  {
    if n <= ALLOC_SIZE then ALLOC_SIZE else ALLOC_SIZE + Capacity(n - ALLOC_SIZE)
  }

  /** The slice grows by one allocation exactly when it is full. */
  lemma {:induction false} CapacityStep(n: nat)
    ensures Capacity(n + 1) == if Capacity(n) <= n then Capacity(n) + ALLOC_SIZE else Capacity(n)
  {
    if n > ALLOC_SIZE { CapacityStep(n - ALLOC_SIZE); }
  }

  /** GetString: slots allocated but not in use hold the empty string; past the slice Go panics. */
  function GetString(tab: seq<string>, id: nat): Option<string> {
    if id < |tab| then Some(tab[id])
    else if id < Capacity(|tab|) then Some("")
    else None
  }

  class StringTable {
    var stringToID: map<string, nat>
    var idToString: seq<string>
    var nextID: nat

    ghost predicate Valid()
      reads this
    {
      && |idToString| == Capacity(nextID)
      && nextID > 0 && idToString[0] == NULL_STRING
      && (forall s :: s in stringToID ==> stringToID[s] < nextID && idToString[stringToID[s]] == s)
      && (forall i :: 0 <= i < nextID ==> idToString[i] in stringToID && stringToID[idToString[i]] == i)
      && (forall i :: nextID <= i < |idToString| ==> idToString[i] == "")
    }

    ghost function Contents(): (tab: seq<string>)
      requires Valid()
      reads this
      ensures Distinct(tab)
    {
      idToString[..nextID]
    }

    constructor ()
      ensures Valid()
      ensures Contents() == [NULL_STRING]
    {
      stringToID := map[NULL_STRING := 0];
      idToString := [NULL_STRING] + seq(ALLOC_SIZE - 1, _ => "");
      nextID := 1;
    }

    /** The two maps are mutually inverse, so the dictionary holds exactly the contents. */
    lemma MapsAgree(s: string)
      requires Valid()
      ensures s in stringToID <==> s in Contents()
      ensures s in stringToID ==> stringToID[s] == IndexOf(Contents(), s)
    {
      if s in stringToID {
        assert Contents()[stringToID[s]] == s;
        IdsDecideEquality(Contents(), stringToID[s], IndexOf(Contents(), s));
      }
      if s in Contents() {
        var i := IndexOf(Contents(), s);
        assert idToString[i] == s;
      }
    }

    method GetID(s: string) returns (id: nat)
      requires Valid()
      modifies this
      ensures Valid()
      ensures Contents() == Intern(old(Contents()), s)
      ensures id == IndexOf(Contents(), s) && id < |Contents()|
    {
      hide Capacity, IndexOf;
      MapsAgree(s);
      if s in stringToID {
        id := stringToID[s];
        return;
      }
      ghost var before := Contents();
      CapacityStep(nextID);
      id := nextID;
      nextID := nextID + 1;
      if |idToString| <= id {
        idToString := idToString + seq(ALLOC_SIZE, _ => "");
      }
      stringToID := stringToID[s := id];
      idToString := idToString[id := s];
      forall i | 0 <= i < nextID ensures idToString[i] in stringToID && stringToID[idToString[i]] == i {
        if i < id { assert idToString[i] == before[i]; }
      }
      assert idToString[..nextID] == before + [s];
      IdsDecideEquality(before + [s], id, id);
    }

    method TryGetID(s: string) returns (id: nat)
      requires Valid()
      ensures id == if s in Contents() then IndexOf(Contents(), s) else 0
    {
      MapsAgree(s);
      id := if s in stringToID then stringToID[s] else 0;
    }
  }
}
