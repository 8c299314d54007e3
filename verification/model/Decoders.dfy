/** Reading compressed attributes back, all at once (pkg/attribute/mutableBag.go). */
module Decoders {
  import opened Values
  import opened Dictionaries
  import opened Codec

  /** The two word lists that give indices their meaning. */
  datatype Lists = Lists(global: seq<string>, message: seq<string>)

  function Word(ls: Lists, i: int): Option<string> {
    WordAt(ls.global, ls.message, i)
  }

  // ----- what a message says -----

  predicate Defined(ls: Lists, i: int) {
    Word(ls, i).Some?
  }

  ghost predicate EntriesDefined(ls: Lists, e: map<int, int>) {
    forall j :: j in e ==> Defined(ls, j) && Defined(ls, e[j])
  }

  ghost predicate RawDefined(ls: Lists, r: Raw) {
    match r
    case RawText(j) => Defined(ls, j)
    case RawEntries(e) => EntriesDefined(ls, e)
    case RawPlain(_) => true
  }

  ghost predicate EntryGives(ls: Lists, e: map<int, int>, k: string, v: string) {
    exists j :: j in e && Word(ls, j) == Some(k) && Word(ls, e[j]) == Some(v)
  }

  /** A string map read from its entries; where two entries have one key, either may win. */
  ghost predicate EntriesDecode(ls: Lists, e: map<int, int>, m: map<string, string>) {
    && EntriesDefined(ls, e)
    && (forall j :: j in e ==> Word(ls, j).value in m)
    && (forall k :: k in m ==> EntryGives(ls, e, k, m[k]))
  }

  ghost predicate RawDecodes(ls: Lists, r: Raw, v: Attr) {
    match r
    case RawText(j) => v.Text? && Word(ls, j) == Some(v.s)
    case RawEntries(e) => v.Entries? && EntriesDecode(ls, e, v.m)
    case RawPlain(p) => v == Scalar(p)
  }

  /** An entry, of those in `es`, gives the attribute `n` the value `v`. */
  ghost predicate Says(ls: Lists, es: set<(int, Raw)>, n: string, v: Attr) {
    exists i, r :: (i, r) in es && Word(ls, i) == Some(n) && RawDecodes(ls, r, v)
  }

  ghost predicate Mentions(ls: Lists, es: set<(int, Raw)>, n: string) {
    exists i, r :: (i, r) in es && Word(ls, i) == Some(n)
  }

  /** The attributes mentioned have values that the message gives them; the others are as before. */
  ghost predicate Reflects(ls: Lists, es: set<(int, Raw)>, before: Attributes, after: Attributes) {
    && (forall n :: n in after <==> n in before || Mentions(ls, es, n))
    && (forall n :: n in after ==>
          Says(ls, es, n, after[n]) || (n in before && after[n] == before[n] && !Mentions(ls, es, n)))
  }

  lemma ReflectsNothing(ls: Lists, before: Attributes)
    ensures Reflects(ls, {}, before, before)
  {
  }

  lemma ReflectsMore(ls: Lists, es: set<(int, Raw)>, before: Attributes, after: Attributes, i: int, r: Raw,
          n: string, v: Attr)
    requires Reflects(ls, es, before, after) && Word(ls, i) == Some(n) && RawDecodes(ls, r, v)
    ensures Reflects(ls, es + {(i, r)}, before, after[n := v])
  {
    hide RawDecodes, Word;
    var es', after' := es + {(i, r)}, after[n := v];
    assert (i, r) in es';
    forall x ensures Mentions(ls, es', x) <==> Mentions(ls, es, x) || x == n {
      if Mentions(ls, es, x) {
        var i', r' :| (i', r') in es && Word(ls, i') == Some(x);
        assert (i', r') in es';
      }
    }
    forall x | x in after' ensures Says(ls, es', x, after'[x])
        || (x in before && after'[x] == before[x] && !Mentions(ls, es', x)) {
      if x != n && Says(ls, es, x, after[x]) {
        var i', r' :| (i', r') in es && Word(ls, i') == Some(x) && RawDecodes(ls, r', after[x]);
        assert (i', r') in es';
      }
    }
  }

  // ----- the decoder -----

  class MutableBag {
    var values: Attributes

    constructor ()
      ensures values == map[]
    {
      values := map[];
    }

    /** Looks a word up; an index that is not defined reads as the empty word. */
    method Read(ls: Lists, i: int) returns (name: string, ok: bool)
      ensures ok == Defined(ls, i) && name == if ok then Word(ls, i).value else ""
    {
      var w := Word(ls, i);
      ok := w.Some?;
      name := if ok then w.value else "";
    }

    method SetStrings(ls: Lists, entries: map<int, int>, err: bool, ghost before: Attributes, ghost es: set<(int, Raw)>)
      returns (err': bool, ghost es': set<(int, Raw)>)
      requires !err ==> Reflects(ls, es, before, values)
      modifies this
      ensures !err' <==> !err && forall i :: i in entries ==> Defined(ls, i) && Defined(ls, entries[i])
      ensures !err' ==> Reflects(ls, es', before, values)
      ensures forall i, r :: (i, r) in es' <==> (i, r) in es || (i in entries && r == RawText(entries[i]))
    {
      hide Reflects, Defined, RawDecodes;
      err', es' := err, es;
      var todo := entries.Keys;
      while todo != {}
        invariant todo <= entries.Keys
        invariant !err' <==> !err && forall i :: i in entries && i !in todo ==>
          Defined(ls, i) && Defined(ls, entries[i])
        invariant !err' ==> Reflects(ls, es', before, values)
        invariant forall i, r :: (i, r) in es' <==>
          (i, r) in es || (i in entries && i !in todo && r == RawText(entries[i]))
        decreases |todo|
      {
        NonEmpty(todo);
        var i :| i in todo;
        var name, ok := Read(ls, i);
        var value, ok2 := Read(ls, entries[i]);
        TextDecodes(ls, i, entries[i]);
        if !err' && ok && ok2 { ReflectsMore(ls, es', before, values, i, RawText(entries[i]), name, Text(value)); }
        values := values[name := Text(value)];
        err', es', todo := err' || !ok || !ok2, es' + {(i, RawText(entries[i]))}, todo - {i};
      }
    }

    /** One of the six maps of values sent as they are. */
    method SetPlain<T>(ls: Lists, entries: map<int, T>, wrap: T -> Plain, err: bool, ghost before: Attributes,
            ghost es: set<(int, Raw)>)
      returns (err': bool, ghost es': set<(int, Raw)>)
      requires !err ==> Reflects(ls, es, before, values)
      modifies this
      ensures !err' <==> !err && forall i :: i in entries ==> Defined(ls, i)
      ensures !err' ==> Reflects(ls, es', before, values)
      ensures forall i, r :: (i, r) in es' <==> (i, r) in es || (i in entries && r == RawPlain(wrap(entries[i])))
    {
      hide Reflects, Defined, RawDecodes;
      err', es' := err, es;
      var todo := entries.Keys;
      while todo != {}
        invariant todo <= entries.Keys
        invariant !err' <==> !err && forall i :: i in entries && i !in todo ==> Defined(ls, i)
        invariant !err' ==> Reflects(ls, es', before, values)
        invariant forall i, r :: (i, r) in es' <==>
          (i, r) in es || (i in entries && i !in todo && r == RawPlain(wrap(entries[i])))
        decreases |todo|
      {
        NonEmpty(todo);
        var i :| i in todo;
        var name, ok := Read(ls, i);
        var v := wrap(entries[i]);
        PlainDecodes(ls, i, v);
        if !err' && ok { ReflectsMore(ls, es', before, values, i, RawPlain(v), name, Scalar(v)); }
        values := values[name := Scalar(v)];
        err', es', todo := err' || !ok, es' + {(i, RawPlain(v))}, todo - {i};
      }
    }

    method ReadEntries(ls: Lists, e: map<int, int>) returns (m: map<string, string>, ok: bool)
      ensures ok <==> EntriesDefined(ls, e)
      ensures ok ==> EntriesDecode(ls, e, m)
    {
      hide EntryGives;
      m, ok := map[], true;
      var todo := e.Keys;
      while todo != {}
        invariant todo <= e.Keys
        invariant ok <==> forall j :: j in e && j !in todo ==> Defined(ls, j) && Defined(ls, e[j])
        invariant ok ==> forall j :: j in e && j !in todo ==> Word(ls, j).Some? && Word(ls, j).value in m
        invariant ok ==> forall k :: k in m ==> EntryGives(ls, e, k, m[k])
        decreases |todo|
      {
        NonEmpty(todo);
        var j :| j in todo;
        var name, ok1 := Read(ls, j);
        var value, ok2 := Read(ls, e[j]);
        if ok1 && ok2 { GivesEntry(ls, e, j); }
        m, ok, todo := m[name := value], ok && ok1 && ok2, todo - {j};
      }
    }

    method SetMaps(ls: Lists, entries: map<int, map<int, int>>, err: bool, ghost before: Attributes,
            ghost es: set<(int, Raw)>)
      returns (err': bool, ghost es': set<(int, Raw)>)
      requires !err ==> Reflects(ls, es, before, values)
      modifies this
      ensures !err' <==> !err && forall i :: i in entries ==> Defined(ls, i) && EntriesDefined(ls, entries[i])
      ensures !err' ==> Reflects(ls, es', before, values)
      ensures forall i, r :: (i, r) in es' <==> (i, r) in es || (i in entries && r == RawEntries(entries[i]))
    {
      hide Reflects, Defined, EntriesDefined, EntriesDecode;
      err', es' := err, es;
      var todo := entries.Keys;
      while todo != {}
        invariant todo <= entries.Keys
        invariant !err' <==> !err && forall i :: i in entries && i !in todo ==>
          Defined(ls, i) && EntriesDefined(ls, entries[i])
        invariant !err' ==> Reflects(ls, es', before, values)
        invariant forall i, r :: (i, r) in es' <==>
          (i, r) in es || (i in entries && i !in todo && r == RawEntries(entries[i]))
        decreases |todo|
      {
        NonEmpty(todo);
        var i :| i in todo;
        var name, ok := Read(ls, i);
        var m, ok2 := ReadEntries(ls, entries[i]);
        PlainDecodes(ls, i, Int64(0));
        if !err' && ok && ok2 { ReflectsMore(ls, es', before, values, i, RawEntries(entries[i]), name, Entries(m)); }
        values := values[name := Entries(m)];
        err', es', todo := err' || !ok || !ok2, es' + {(i, RawEntries(entries[i]))}, todo - {i};
      }
    }

    method SetAllPlain(ls: Lists, p: Proto, err: bool, ghost before: Attributes, ghost es: set<(int, Raw)>)
      returns (err': bool, ghost es': set<(int, Raw)>)
      requires !err ==> Reflects(ls, es, before, values)
      modifies this
      ensures !err' <==> !err && PlainDefined(ls, p)
      ensures !err' ==> Reflects(ls, es', before, values)
      ensures forall i, r :: (i, r) in es' <==> (i, r) in es || (r.RawPlain? && HasPlain(p, i, r.v))
    {
      hide Reflects, Defined, HasPlain;
      ghost var e1, e2, e3, e4, e5;
      err', e1 := SetPlain(ls, p.int64s, x => Int64(x), err, before, es);
      err', e2 := SetPlain(ls, p.doubles, x => Double(x), err', before, e1);
      err', e3 := SetPlain(ls, p.bools, x => Bool(x), err', before, e2);
      err', e4 := SetPlain(ls, p.timestamps, x => Time(x), err', before, e3);
      err', e5 := SetPlain(ls, p.durations, x => Duration(x), err', before, e4);
      err', es' := SetPlain(ls, p.bytes, x => Bytes(x), err', before, e5);
      forall i, r ensures (i, r) in es' <==>
          (i, r) in es || (r.RawPlain? && HasPlain(p, i, r.v)) { PlainByParts(p, i, r); }
    }

    /** The eager decoder: it reports an error exactly if an index is not defined. */
    method UpdateBagFromProto(p: Proto, global: seq<string>) returns (err: bool, ghost es: set<(int, Raw)>)
      modifies this
      ensures var ls := Lists(global, p.words);
        && (!err <==> WellDefined(ls, p)) && AllOf(p, es)
        && (!err ==> Reflects(ls, es, old(values), values))
    {
      hide Reflects, Defined, EntriesDefined, Has, AllOf, WellDefined, PlainDefined, HasPlain;
      var ls := Lists(global, p.words);
      ghost var before := values;
      ReflectsNothing(ls, before);
      ghost var e1, e2;
      err, e1 := SetStrings(ls, p.strings, false, before, {});
      err, e2 := SetAllPlain(ls, p, err, before, e1);
      err, es := SetMaps(ls, p.stringMaps, err, before, e2);
      DefinedByParts(ls, p);
      forall i, r ensures (i, r) in es <==> Has(p, i, r) { HasByParts(p, i, r); }
      AllOfThem(p, es);
    }
  }

  lemma NonEmpty(s: set<int>)
    requires s != {}
    ensures exists i :: i in s
  {
    if !exists i :: i in s { assert false; }
  }

  lemma TextDecodes(ls: Lists, i: int, j: int)
    ensures Defined(ls, i) ==> Word(ls, i).Some?
    ensures Defined(ls, j) ==> RawDecodes(ls, RawText(j), Text(Word(ls, j).value))
  {
  }

  lemma PlainDecodes(ls: Lists, i: int, v: Plain)
    ensures Defined(ls, i) ==> Word(ls, i).Some?
    ensures RawDecodes(ls, RawPlain(v), Scalar(v))
  {
  }

  lemma GivesEntry(ls: Lists, e: map<int, int>, j: int)
    requires j in e && Defined(ls, j) && Defined(ls, e[j])
    ensures EntryGives(ls, e, Word(ls, j).value, Word(ls, e[j]).value)
  {
  }

  // ----- the whole message -----

  ghost predicate AllOf(p: Proto, es: set<(int, Raw)>) {
    forall i, r :: (i, r) in es <==> Has(p, i, r)
  }

  /** Every index that the message uses is defined. */
  ghost predicate WellDefined(ls: Lists, p: Proto) {
    forall i, r :: Has(p, i, r) ==> Defined(ls, i) && RawDefined(ls, r)
  }

  lemma AllOfThem(p: Proto, es: set<(int, Raw)>)
    requires forall i, r :: (i, r) in es <==> Has(p, i, r)
    ensures AllOf(p, es)
  {
    hide Has;
  }

  lemma HasByParts(p: Proto, i: int, r: Raw)
    ensures Has(p, i, r) <==>
      || (i in p.strings && r == RawText(p.strings[i]))
      || (r.RawPlain? && HasPlain(p, i, r.v))
      || (i in p.stringMaps && r == RawEntries(p.stringMaps[i]))
  {
    hide HasPlain;
  }

  lemma PlainByParts(p: Proto, i: int, r: Raw)
    ensures r.RawPlain? && HasPlain(p, i, r.v) <==>
      || (i in p.int64s && r == RawPlain(Int64(p.int64s[i])))
      || (i in p.doubles && r == RawPlain(Double(p.doubles[i])))
      || (i in p.bools && r == RawPlain(Bool(p.bools[i])))
      || (i in p.timestamps && r == RawPlain(Time(p.timestamps[i])))
      || (i in p.durations && r == RawPlain(Duration(p.durations[i])))
      || (i in p.bytes && r == RawPlain(Bytes(p.bytes[i])))
  {
  }

  ghost predicate PlainDefined(ls: Lists, p: Proto) {
    && (forall i :: i in p.int64s ==> Defined(ls, i))
    && (forall i :: i in p.doubles ==> Defined(ls, i))
    && (forall i :: i in p.bools ==> Defined(ls, i))
    && (forall i :: i in p.timestamps ==> Defined(ls, i))
    && (forall i :: i in p.durations ==> Defined(ls, i))
    && (forall i :: i in p.bytes ==> Defined(ls, i))
  }

  lemma PlainDefinedParts(ls: Lists, p: Proto)
    ensures PlainDefined(ls, p) <==> forall i, v :: HasPlain(p, i, v) ==> Defined(ls, i)
  {
    hide Defined;
    if forall i, v :: HasPlain(p, i, v) ==> Defined(ls, i) {
      forall i | i in p.int64s ensures Defined(ls, i) { assert HasPlain(p, i, Int64(p.int64s[i])); }
      forall i | i in p.doubles ensures Defined(ls, i) { assert HasPlain(p, i, Double(p.doubles[i])); }
      forall i | i in p.bools ensures Defined(ls, i) { assert HasPlain(p, i, Bool(p.bools[i])); }
      forall i | i in p.timestamps ensures Defined(ls, i) { assert HasPlain(p, i, Time(p.timestamps[i])); }
      forall i | i in p.durations ensures Defined(ls, i) { assert HasPlain(p, i, Duration(p.durations[i])); }
      forall i | i in p.bytes ensures Defined(ls, i) { assert HasPlain(p, i, Bytes(p.bytes[i])); }
    }
  }

  /** A message is well defined if each of its maps is. */
  lemma DefinedByParts(ls: Lists, p: Proto)
    ensures WellDefined(ls, p) <==>
      && (forall i :: i in p.strings ==> Defined(ls, i) && Defined(ls, p.strings[i]))
      && PlainDefined(ls, p)
      && (forall i :: i in p.stringMaps ==> Defined(ls, i) && EntriesDefined(ls, p.stringMaps[i]))
  {
    hide Defined, EntriesDefined, PlainDefined, HasPlain;
    PlainDefinedParts(ls, p);
    if WellDefined(ls, p) {
      forall i | i in p.strings
          ensures Defined(ls, i) && Defined(ls, p.strings[i]) { assert Has(p, i, RawText(p.strings[i])); }
      forall i, v | HasPlain(p, i, v) ensures Defined(ls, i) { assert Has(p, i, RawPlain(v)); }
      forall i | i in p.stringMaps ensures Defined(ls, i) && EntriesDefined(ls, p.stringMaps[i]) {
        assert Has(p, i, RawEntries(p.stringMaps[i]));
      }
    }
  }

  // ----- what the encoder wrote is what the decoder reads -----

  lemma EncodedWord(g: Globals, ls: Lists, w: string)
    requires Consistent(g.dict, ls.global) && Knows(g, ls.message, w)
    ensures Word(ls, Index(g, ls.message, w)) == Some(w)
  {
    LookupOfIndex(g, ls.global, ls.message, w);
  }

  lemma EntriesRoundTrip(g: Globals, ls: Lists, m: map<string, string>, e: map<int, int>, m': map<string, string>)
    requires Consistent(g.dict, ls.global) && EntriesEncode(g, ls.message, m, e)
    ensures EntriesDefined(ls, e) && (EntriesDecode(ls, e, m') <==> m' == m)
  {
    hide Index, Knows, Word;
    forall j | j in e
      ensures exists k ::
        k in m && j == Index(g, ls.message, k) && Word(ls, j) == Some(k) && Word(ls, e[j]) == Some(m[k])
    {
      var k :| k in m && Index(g, ls.message, k) == j;
      EncodedWord(g, ls, k);
      EncodedWord(g, ls, m[k]);
    }
    forall k | k in m ensures Index(g, ls.message, k) in e && EntryGives(ls, e, k, m[k]) {
      EncodedWord(g, ls, k);
      EncodedWord(g, ls, m[k]);
    }
    if EntriesDecode(ls, e, m') {
      forall k ensures k in m' <==> k in m { if k in m { EncodedWord(g, ls, k); } }
      assert m' == m;
    }
  }

  lemma RawRoundTrip(g: Globals, ls: Lists, v: Attr, r: Raw, v': Attr)
    requires Consistent(g.dict, ls.global) && RawEncodes(g, ls.message, v, r)
    ensures RawDefined(ls, r) && (RawDecodes(ls, r, v') <==> v' == v)
  {
    hide Index, Knows, Word, EntriesDecode, EntriesEncode, EntriesDefined;
    if v.Text? { EncodedWord(g, ls, v.s); }
    if v.Entries? { EntriesRoundTrip(g, ls, v.m, r.e, if v'.Entries? then v'.m else map[]); }
  }

  /** The message says of every name exactly what the bag does. */
  lemma MessageSays(g: Globals, ls: Lists, attrs: Attributes, p: Proto, es: set<(int, Raw)>, n: string, v: Attr)
    requires Consistent(g.dict, ls.global) && Encodes(g, ls.message, attrs, p) && AllOf(p, es)
    ensures WellDefined(ls, p)
    ensures Says(ls, es, n, v) <==> n in attrs && !attrs[n].Other? && v == attrs[n]
    ensures Mentions(ls, es, n) <==> n in attrs && !attrs[n].Other?
  {
    hide Index, Has, RawEncodes, RawDecodes, Word, Knows;
    forall i, r | Has(p, i, r)
      ensures Defined(ls, i) && RawDefined(ls, r)
      ensures exists k ::
        k in attrs && !attrs[k].Other? && Word(ls, i) == Some(k) && (RawDecodes(ls, r, v) <==> v == attrs[k])
    {
      assert Source(g, ls.message, attrs, i, r);
      var k :| k in attrs && EntryFor(g, ls.message, k, attrs[k], i, r);
      EncodedWord(g, ls, k);
      RawRoundTrip(g, ls, attrs[k], r, v);
      OtherIsNotSent(g, ls.message, attrs[k], r);
    }
    if n in attrs && !attrs[n].Other? {
      assert Sent(g, ls.message, p, n, attrs[n]);
      var i, r :| EntryFor(g, ls.message, n, attrs[n], i, r) && Has(p, i, r);
      EncodedWord(g, ls, n);
      RawRoundTrip(g, ls, attrs[n], r, v);
      assert (i, r) in es;
    }
  }

  lemma OtherIsNotSent(g: Globals, words: seq<string>, v: Attr, r: Raw)
    requires RawEncodes(g, words, v, r)
    ensures !v.Other?
  {
  }

  /** Codec round trip: decoding what was encoded gives back every value of a supported type, and nothing else. */
  lemma RoundTrip(g: Globals, ls: Lists, attrs: Attributes, p: Proto, es: set<(int, Raw)>, decoded: Attributes)
    requires Consistent(g.dict, ls.global) && Encodes(g, ls.message, attrs, p) && AllOf(p, es)
    requires Reflects(ls, es, map[], decoded)
    ensures WellDefined(ls, p)
    ensures forall n :: n in decoded <==> n in attrs && !attrs[n].Other?
    ensures forall n :: n in decoded ==> decoded[n] == attrs[n]
  {
    hide Encodes, AllOf, Says, Mentions, WellDefined;
    forall n
      ensures n in decoded <==> n in attrs && !attrs[n].Other?
      ensures n in decoded ==> decoded[n] == attrs[n]
    {
      MessageSays(g, ls, attrs, p, es, n, if n in decoded then decoded[n] else Other);
    }
    MessageSays(g, ls, attrs, p, es, "", Other);
  }

  /** A bag encoded and decoded again, for any global dictionary: no error, and exactly its supported values. */
  method EncodeAndDecode(attrs: Attributes, g: Globals, global: seq<string>) returns (err: bool, decoded: Attributes)
    requires Consistent(g.dict, global)
    ensures !err
    ensures forall n :: n in decoded <==> n in attrs && !attrs[n].Other?
    ensures forall n :: n in decoded ==> decoded[n] == attrs[n]
  {
    hide Encodes, AllOf, WellDefined, Reflects, Consistent;
    var p := ToProto(attrs, g, global);
    var bag := new MutableBag();
    ghost var es;
    err, es := bag.UpdateBagFromProto(p, global);
    decoded := bag.values;
    MessageSays(g, Lists(global, p.words), attrs, p, es, "", Other);
    RoundTrip(g, Lists(global, p.words), attrs, p, es, decoded);
  }
}
