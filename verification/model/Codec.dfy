/** The compressed form of an attribute bag (pkg/attribute/mutableBag.go). */
module Codec {
  import opened StringTables
  import opened Dictionaries

  /** Values that are sent as they are. */
  datatype Plain =
    | Int64(i: int)
    | Double(x: real)
    | Bool(b: bool)
    | Time(t: int)
    | Duration(u: int)
    | Bytes(bs: seq<nat>)

  /** A value of any other type is dropped by the encoder. */
  datatype Attr = Text(s: string) | Entries(m: map<string, string>) | Scalar(p: Plain) | Other

  type Attributes = map<string, Attr>

  datatype Proto = Proto(
    words: seq<string>, strings: map<int, int>, stringMaps: map<int, map<int, int>>,
    int64s: map<int, int>, doubles: map<int, real>, bools: map<int, bool>,
    timestamps: map<int, int>, durations: map<int, int>, bytes: map<int, seq<nat>>)

  const EMPTY_PROTO := Proto([], map[], map[], map[], map[], map[], map[], map[], map[])

  // ----- entries of a message -----

  /** The message carries `v` under an index, in the map for its type. */
  predicate HasPlain(p: Proto, i: int, v: Plain) {
    match v
    case Int64(x) => i in p.int64s && p.int64s[i] == x
    case Double(x) => i in p.doubles && p.doubles[i] == x
    case Bool(x) => i in p.bools && p.bools[i] == x
    case Time(x) => i in p.timestamps && p.timestamps[i] == x
    case Duration(x) => i in p.durations && p.durations[i] == x
    case Bytes(x) => i in p.bytes && p.bytes[i] == x
  }

  function PutPlain(p: Proto, i: int, v: Plain): Proto {
    match v
    case Int64(x) => p.(int64s := p.int64s[i := x])
    case Double(x) => p.(doubles := p.doubles[i := x])
    case Bool(x) => p.(bools := p.bools[i := x])
    case Time(x) => p.(timestamps := p.timestamps[i := x])
    case Duration(x) => p.(durations := p.durations[i := x])
    case Bytes(x) => p.(bytes := p.bytes[i := x])
  }

  predicate Carries(p: Proto, i: int) {
    || i in p.strings || i in p.stringMaps || i in p.int64s || i in p.doubles || i in p.bools
    || i in p.timestamps || i in p.durations || i in p.bytes
  }

  /** An entry of a message, whatever its type. */
  datatype Raw = RawText(j: int) | RawEntries(e: map<int, int>) | RawPlain(v: Plain)

  predicate Has(p: Proto, i: int, r: Raw) {
    match r
    case RawText(j) => i in p.strings && p.strings[i] == j
    case RawEntries(e) => i in p.stringMaps && p.stringMaps[i] == e
    case RawPlain(v) => HasPlain(p, i, v)
  }

  function Put(p: Proto, i: int, r: Raw): Proto {
    match r
    case RawText(j) => p.(strings := p.strings[i := j])
    case RawEntries(e) => p.(stringMaps := p.stringMaps[i := e])
    case RawPlain(v) => PutPlain(p, i, v)
  }

  lemma HasPut(p: Proto, i: int, r: Raw, i': int, r': Raw)
    requires !Carries(p, i)
    ensures Has(Put(p, i, r), i', r') <==> Has(p, i', r') || (i' == i && r' == r)
  {
    hide HasPlain, PutPlain, Carries;
    NotCarried(p, i, r');
    if r.RawPlain? {
      PlainKeeps(p, i, r.v);
      if r'.RawPlain? { HasPutPlain(p, i, r.v, i', r'.v); }
    } else if r'.RawPlain? {
      PlainOnly(p, Put(p, i, r), i', r'.v);
    }
  }

  lemma NotCarried(p: Proto, i: int, r: Raw)
    requires !Carries(p, i)
    ensures i !in p.strings && i !in p.stringMaps && !Has(p, i, r)
  {
  }

  lemma PlainKeeps(p: Proto, i: int, v: Plain)
    ensures PutPlain(p, i, v).strings == p.strings && PutPlain(p, i, v).stringMaps == p.stringMaps
  {
  }

  lemma PlainOnly(p: Proto, p': Proto, i: int, v: Plain)
    requires p'.int64s == p.int64s && p'.doubles == p.doubles && p'.bools == p.bools
    requires p'.timestamps == p.timestamps && p'.durations == p.durations && p'.bytes == p.bytes
    ensures HasPlain(p', i, v) <==> HasPlain(p, i, v)
  {
  }

  lemma HasPutPlain(p: Proto, i: int, v: Plain, i': int, v': Plain)
    requires !Carries(p, i)
    ensures HasPlain(PutPlain(p, i, v), i', v') <==> HasPlain(p, i', v') || (i' == i && v' == v)
  {
    if i' == i { NotCarried(p, i, RawPlain(v')); }
  }

  lemma CarriedHas(p: Proto, i: int) returns (r: Raw)
    requires Carries(p, i)
    ensures Has(p, i, r)
  {
    r := if i in p.strings then RawText(p.strings[i])
         else if i in p.stringMaps then RawEntries(p.stringMaps[i])
         else if i in p.int64s then RawPlain(Int64(p.int64s[i]))
         else if i in p.doubles then RawPlain(Double(p.doubles[i]))
         else if i in p.bools then RawPlain(Bool(p.bools[i]))
         else if i in p.timestamps then RawPlain(Time(p.timestamps[i]))
         else if i in p.durations then RawPlain(Duration(p.durations[i]))
         else RawPlain(Bytes(p.bytes[i]));
  }

  // ----- encoding as a relation -----

  /** The entries of a string map, with the indices of its words. */
  ghost predicate EntriesEncode(g: Globals, words: seq<string>, m: map<string, string>, e: map<int, int>) {
    && (forall k :: k in m ==>
          Knows(g, words, k) && Knows(g, words, m[k]) && Index(g, words, k) in e
              && e[Index(g, words, k)] == Index(g, words, m[k]))
    && forall j :: j in e ==> exists k :: k in m && Index(g, words, k) == j
  }

  ghost predicate RawEncodes(g: Globals, words: seq<string>, v: Attr, r: Raw) {
    match v
    case Text(s) => Knows(g, words, s) && r == RawText(Index(g, words, s))
    case Entries(m) => r.RawEntries? && EntriesEncode(g, words, m, r.e)
    case Scalar(p) => r == RawPlain(p)
    case Other => false
  }

  /** The entry for an attribute. */
  ghost predicate EntryFor(g: Globals, words: seq<string>, k: string, v: Attr, i: int, r: Raw) {
    Knows(g, words, k) && i == Index(g, words, k) && RawEncodes(g, words, v, r)
  }

  /** Every attribute of a supported type has its entry. */
  ghost predicate Sent(g: Globals, words: seq<string>, p: Proto, k: string, v: Attr) {
    v.Other? || exists i, r :: EntryFor(g, words, k, v, i, r) && Has(p, i, r)
  }

  ghost predicate Source(g: Globals, words: seq<string>, attrs: Attributes, i: int, r: Raw) {
    exists k :: k in attrs && EntryFor(g, words, k, attrs[k], i, r)
  }

  /** The message carries exactly the attributes. */
  ghost predicate Encodes(g: Globals, words: seq<string>, attrs: Attributes, p: Proto) {
    && (forall k :: k in attrs ==> Knows(g, words, k) && Sent(g, words, p, k, attrs[k]))
    && (forall i, r :: Has(p, i, r) ==> Source(g, words, attrs, i, r))
  }

  // ----- growing the words and the attributes -----

  lemma EntriesGrow(g: Globals, words: seq<string>, words': seq<string>, m: map<string, string>, e: map<int, int>)
    requires words <= words' && EntriesEncode(g, words, m, e)
    ensures EntriesEncode(g, words', m, e)
  {
    hide Index, Knows;
    forall k | k in m
      ensures Knows(g, words', k) && Knows(g, words', m[k])
      ensures Index(g, words', k) == Index(g, words, k) && Index(g, words', m[k]) == Index(g, words, m[k])
    {
      IndexKept(g, words, words', k);
      IndexKept(g, words, words', m[k]);
    }
    forall j | j in e ensures exists k :: k in m && Index(g, words', k) == j {
      var k :| k in m && Index(g, words, k) == j;
      assert k in m && Index(g, words', k) == j;
    }
  }

  lemma EntryGrows(g: Globals, words: seq<string>, words': seq<string>, k: string, v: Attr, i: int, r: Raw)
    requires words <= words' && EntryFor(g, words, k, v, i, r)
    ensures EntryFor(g, words', k, v, i, r)
  {
    hide Index, Knows, EntriesEncode;
    IndexKept(g, words, words', k);
    if v.Text? { IndexKept(g, words, words', v.s); }
    if v.Entries? { EntriesGrow(g, words, words', v.m, r.e); }
  }

  lemma EncodesGrows(g: Globals, words: seq<string>, words': seq<string>, attrs: Attributes, p: Proto)
    requires words <= words' && Encodes(g, words, attrs, p)
    ensures Encodes(g, words', attrs, p)
  {
    hide EntryFor, Has, Index, Knows;
    forall k | k in attrs ensures Knows(g, words', k) && Sent(g, words', p, k, attrs[k]) {
      IndexKept(g, words, words', k);
      if !attrs[k].Other? {
        var i, r :| EntryFor(g, words, k, attrs[k], i, r) && Has(p, i, r);
        EntryGrows(g, words, words', k, attrs[k], i, r);
      }
    }
    forall i, r | Has(p, i, r) ensures Source(g, words', attrs, i, r) {
      assert Source(g, words, attrs, i, r);
      var k :| k in attrs && EntryFor(g, words, k, attrs[k], i, r);
      EntryGrows(g, words, words', k, attrs[k], i, r);
    }
  }

  /** The index of a new name is not in use. */
  lemma IndexUnused(g: Globals, list: seq<string>, words: seq<string>, attrs: Attributes, p: Proto, k: string)
    requires Consistent(g.dict, list) && Encodes(g, words, attrs, p) && k !in attrs && Knows(g, words, k)
    ensures !Carries(p, Index(g, words, k))
  {
    hide Index, Has, RawEncodes;
    if Carries(p, Index(g, words, k)) {
      var r := CarriedHas(p, Index(g, words, k));
      assert Source(g, words, attrs, Index(g, words, k), r);
      var k' :| k' in attrs && EntryFor(g, words, k', attrs[k'], Index(g, words, k), r);
      IndexInjective(g, list, words, k, k');
    }
  }

  /** One attribute more. */
  lemma EncodesMore(g: Globals, words: seq<string>, attrs: Attributes, p: Proto, k: string, v: Attr, r: Raw)
    requires Encodes(g, words, attrs, p) && k !in attrs && !Carries(p, Index(g, words, k))
    requires EntryFor(g, words, k, v, Index(g, words, k), r)
    ensures Encodes(g, words, attrs[k := v], Put(p, Index(g, words, k), r))
  {
    hide Index, Has, RawEncodes, Carries, Put;
    var i0, p', attrs' := Index(g, words, k), Put(p, Index(g, words, k), r), attrs[k := v];
    forall i, x ensures Has(p', i, x) <==> Has(p, i, x) || (i == i0 && x == r) { HasPut(p, i0, r, i, x); }
    forall k' | k' in attrs' ensures Knows(g, words, k') && Sent(g, words, p', k', attrs'[k']) {
      if k' == k {
        assert EntryFor(g, words, k, v, i0, r) && Has(p', i0, r);
      } else if !attrs[k'].Other? {
        var i, x :| EntryFor(g, words, k', attrs[k'], i, x) && Has(p, i, x);
        assert Has(p', i, x);
      }
    }
    forall i, x | Has(p', i, x) ensures Source(g, words, attrs', i, x) {
      if Has(p, i, x) {
        assert Source(g, words, attrs, i, x);
        var k' :| k' in attrs && EntryFor(g, words, k', attrs[k'], i, x);
        assert k' in attrs' && attrs'[k'] == attrs[k'];
      } else {
        assert k in attrs' && attrs'[k] == v;
      }
    }
  }

  /** A value of a type that is not sent leaves the message as it is. */
  lemma EncodesDropped(g: Globals, words: seq<string>, attrs: Attributes, p: Proto, k: string)
    requires Encodes(g, words, attrs, p) && k !in attrs && Knows(g, words, k)
    ensures Encodes(g, words, attrs[k := Other], p)
  {
    hide Index, Has, Knows;
    var attrs' := attrs[k := Other];
    forall i, x | Has(p, i, x) ensures Source(g, words, attrs', i, x) {
      assert Source(g, words, attrs, i, x);
      var k' :| k' in attrs && EntryFor(g, words, k', attrs[k'], i, x);
      assert k' in attrs' && attrs'[k'] == attrs[k'];
    }
  }

  lemma EntriesMore(g: Globals, list: seq<string>, words: seq<string>, m: map<string, string>, e: map<int, int>,
          k: string, v: string)
    requires Consistent(g.dict, list) && EntriesEncode(g, words, m, e) && k !in m && Knows(g, words, k)
      && Knows(g, words, v)
    ensures EntriesEncode(g, words, m[k := v], e[Index(g, words, k) := Index(g, words, v)])
  {
    hide Index, Knows;
    var e', m' := e[Index(g, words, k) := Index(g, words, v)], m[k := v];
    forall x | x in m' ensures Index(g, words, x) in e' && e'[Index(g, words, x)] == Index(g, words, m'[x]) {
      if x != k && Index(g, words, x) == Index(g, words, k) { IndexInjective(g, list, words, x, k); }
    }
    forall j | j in e' ensures exists x :: x in m' && Index(g, words, x) == j {
      if j == Index(g, words, k) {
        assert k in m' && Index(g, words, k) == j;
      } else {
        var x :| x in m && Index(g, words, x) == j;
        assert x in m' && Index(g, words, x) == j;
      }
    }
  }

  method EncodeEntries(ds: DictState, m: map<string, string>, ghost list: seq<string>) returns (e: map<int, int>)
    requires ds.Valid() && Consistent(ds.globals.dict, list)
    modifies ds
    ensures ds.Valid() && old(ds.words) <= ds.words && EntriesEncode(ds.globals, ds.words, m, e)
  {
    hide EntriesEncode, Index, Knows, Intern;
    e := map[];
    ghost var done: map<string, string> := map[];
    var todo := m.Keys;
    NoEntries(ds.globals, ds.words);
    while todo != {}
      invariant ds.Valid() && old(ds.words) <= ds.words && todo <= m.Keys
      invariant done.Keys == m.Keys - todo && forall k :: k in done ==> done[k] == m[k]
      invariant EntriesEncode(ds.globals, ds.words, done, e)
      decreases |todo|
    {
      var k :| k in todo;
      e := AddEntry(ds, e, k, m[k], list, done);
      done, todo := done[k := m[k]], todo - {k};
    }
    assert done == m;
  }

  method AddEntry(ds: DictState, e: map<int, int>, k: string, v: string, ghost list: seq<string>,
          ghost done: map<string, string>)
    returns (e': map<int, int>)
    requires ds.Valid() && Consistent(ds.globals.dict, list) && EntriesEncode(ds.globals, ds.words, done, e)
      && k !in done
    modifies ds
    ensures ds.Valid() && old(ds.words) <= ds.words && EntriesEncode(ds.globals, ds.words, done[k := v], e')
  {
    hide EntriesEncode, Index, Knows, Intern;
    ghost var w0 := ds.words;
    var i := ds.AssignDictIndex(k);
    ghost var w1 := ds.words;
    var j := ds.AssignDictIndex(v);
    EntriesGrow(ds.globals, w0, ds.words, done, e);
    IndexKept(ds.globals, w1, ds.words, k);
    EntriesMore(ds.globals, list, ds.words, done, e, k, v);
    e' := e[i := j];
  }

  lemma NoEntries(g: Globals, words: seq<string>)
    ensures EntriesEncode(g, words, map[], map[]) && Encodes(g, words, map[], EMPTY_PROTO)
  {
    forall i, r ensures !Has(EMPTY_PROTO, i, r) { }
  }

  /** The encoder: its message carries exactly the values of the supported types. */
  method ToProto(values: Attributes, g: Globals, ghost list: seq<string>) returns (output: Proto)
    requires Consistent(g.dict, list)
    ensures Distinct(output.words) && NoGlobals(g, output.words) && Encodes(g, output.words, values, output)
  {
    hide Encodes, Index, Knows, Intern, IndexOf;
    var ds := new DictState(g);
    output := EMPTY_PROTO;
    ghost var done: Attributes := map[];
    var todo := values.Keys;
    NoEntries(g, []);
    while todo != {}
      invariant ds.Valid() && ds.globals == g && todo <= values.Keys
      invariant done.Keys == values.Keys - todo && forall k :: k in done ==> done[k] == values[k]
      invariant Encodes(g, ds.words, done, output)
      decreases |todo|
    {
      var k :| k in todo;
      output := Send(ds, output, k, values[k], list, done);
      done, todo := done[k := values[k]], todo - {k};
    }
    assert done == values;
    var words := ds.GetMessageWordList();
    WordsDoNotMatter(g, words, values, output);
    output := output.(words := words);
  }

  lemma WordsDoNotMatter(g: Globals, words: seq<string>, attrs: Attributes, p: Proto)
    requires Encodes(g, words, attrs, p)
    ensures Encodes(g, words, attrs, p.(words := words))
  {
    hide EntryFor;
    var p' := p.(words := words);
    forall i, r ensures Has(p', i, r) <==> Has(p, i, r) { }
    forall k | k in attrs ensures Sent(g, words, p', k, attrs[k]) {
      if !attrs[k].Other? {
        var i, r :| EntryFor(g, words, k, attrs[k], i, r) && Has(p, i, r);
        assert Has(p', i, r);
      }
    }
  }

  /** One attribute: its words are given indices, and its entry is put into the map for its type. */
  method Send(ds: DictState, p: Proto, k: string, v: Attr, ghost list: seq<string>, ghost done: Attributes)
    returns (p': Proto)
    requires ds.Valid() && Consistent(ds.globals.dict, list) && Encodes(ds.globals, ds.words, done, p) && k !in done
    modifies ds
    ensures ds.Valid() && Encodes(ds.globals, ds.words, done[k := v], p')
  {
    hide Encodes, Index, Knows, EntriesEncode, Put, PutPlain;
    ghost var g, w0 := ds.globals, ds.words;
    var index := ds.AssignDictIndex(k);
    ghost var w1 := ds.words;
    EncodesGrows(g, w0, w1, done, p);
    if v.Other? {
      EncodesDropped(g, w1, done, p, k);
      return p;
    }
    var r: Raw;
    match v {
      case Text(s) => var j := ds.AssignDictIndex(s); r := RawText(j);
      case Entries(m) => var e := EncodeEntries(ds, m, list); r := RawEntries(e);
      case Scalar(x) => r := RawPlain(x);
    }
    IndexKept(g, w1, ds.words, k);
    EncodesGrows(g, w1, ds.words, done, p);
    IndexUnused(g, list, ds.words, done, p, k);
    EncodesMore(g, ds.words, done, p, k, v, r);
    p' := Put(p, index, r);
  }
}
