/** Reading compressed attributes one at a time (pkg/attribute/protoBag.go). */
module ProtoBags {
  import opened Values
  import opened StringTables
  import opened Dictionaries
  import opened Codec
  import opened Decoders

  datatype Condition = EXACT | ABSENCE

  /** The dictionary index of a name: the message's own words come first. */
  function IndexFor(messageDict: map<string, int>, globalDict: map<string, int>, name: string): Option<int> {
    if name in messageDict then Some(messageDict[name])
    else if name in globalDict then Some(globalDict[name])
    else None
  }

  function PlainAt(p: Proto, i: int): Option<Attr> {
    if i in p.int64s then Some(Scalar(Int64(p.int64s[i])))
    else if i in p.doubles then Some(Scalar(Double(p.doubles[i])))
    else if i in p.bools then Some(Scalar(Bool(p.bools[i])))
    else if i in p.timestamps then Some(Scalar(Time(p.timestamps[i])))
    else if i in p.durations then Some(Scalar(Duration(p.durations[i])))
    else if i in p.bytes then Some(Scalar(Bytes(p.bytes[i])))
    else None
  }

  /** What the message holds under an index. A word that is not defined reads as absence. */
  ghost predicate ReadsAt(ls: Lists, p: Proto, i: int, v: Option<Attr>) {
    if i in p.strings then v == (if Defined(ls, p.strings[i]) then Some(Text(Word(ls, p.strings[i]).value)) else None)
    else if i in p.stringMaps then
      if EntriesDefined(ls, p.stringMaps[i])
      then v.Some? && v.value.Entries? && EntriesDecode(ls, p.stringMaps[i], v.value.m)
      else v == None
    else v == PlainAt(p, i)
  }

  ghost predicate ReadsAs(ls: Lists, p: Proto, index: Option<int>, v: Option<Attr>) {
    if index.None? then v == None else ReadsAt(ls, p, index.value, v)
  }

  /** Every word of the message is numbered by a slot that holds it. */
  ghost predicate Numbers(dict: map<string, int>, words: seq<string>) {
    && (forall i :: 0 <= i < |words| ==> words[i] in dict)
    && (forall w :: w in dict ==> dict[w] < 0 && IndexToSlot(dict[w]) < |words| && words[IndexToSlot(dict[w])] == w)
  }

  class ProtoBag {
    const proto: Proto
    const globalDict: map<string, int>
    const ls: Lists
    var messageDict: map<string, int>
    var convertedStringMaps: map<int, map<string, string>>
    var referencedAttrs: map<string, Condition>

    /** A cached string map is a conversion of the message's own. */
    ghost predicate Valid()
      reads this
    {
      && ls.message == proto.words && Numbers(messageDict, proto.words)
      && forall i :: i in convertedStringMaps ==>
           i !in proto.strings && i in proto.stringMaps
               && EntriesDecode(ls, proto.stringMaps[i], convertedStringMaps[i])
    }

    constructor (p: Proto, globalDict: map<string, int>, globalWordList: seq<string>)
      ensures Valid() && proto == p && this.globalDict == globalDict && ls.global == globalWordList
      ensures referencedAttrs == map[] && convertedStringMaps == map[]
    {
      proto, this.globalDict, ls := p, globalDict, Lists(globalWordList, p.words);
      convertedStringMaps, referencedAttrs := map[], map[];
      var d: map<string, int> := map[];
      for i := 0 to |p.words|
        invariant Numbers(d, p.words[..i])
      {
        NumbersMore(d, p.words, i);
        d := d[p.words[i] := SlotToIndex(i)];
      }
      assert p.words[..|p.words|] == p.words;
      messageDict := d;
    }

    /** One attribute; conversions of string maps are kept for later calls. */
    method Get(name: string) returns (v: Option<Attr>)
      requires Valid()
      modifies this`convertedStringMaps, this`referencedAttrs
      ensures Valid() && ReadsAs(ls, proto, IndexFor(messageDict, globalDict, name), v)
      ensures referencedAttrs == old(referencedAttrs)[name := if v.Some? then EXACT else ABSENCE]
    {
      hide ReadsAt, Numbers;
      var index := IndexFor(messageDict, globalDict, name);
      if index.None? {
        v := None;
      } else {
        v := InternalGet(index.value);
      }
      referencedAttrs := referencedAttrs[name := if v.Some? then EXACT else ABSENCE];
    }

    method InternalGet(index: int) returns (v: Option<Attr>)
      requires Valid()
      modifies this`convertedStringMaps
      ensures Valid() && ReadsAt(ls, proto, index, v)
    {
      hide Numbers, EntriesDecode, EntriesDefined;
      if index in proto.strings {
        var w := Word(ls, proto.strings[index]);
        return if w.Some? then Some(Text(w.value)) else None;
      }
      if index in convertedStringMaps {
        DecodedIsDefined(ls, proto.stringMaps[index], convertedStringMaps[index]);
        return Some(Entries(convertedStringMaps[index]));
      }
      if index in proto.stringMaps {
        var m := ConvertStringMap(proto.stringMaps[index]);
        if m.None? { return None; }
        convertedStringMaps := convertedStringMaps[index := m.value];
        DecodedIsDefined(ls, proto.stringMaps[index], m.value);
        return Some(Entries(m.value));
      }
      if index in proto.int64s { return Some(Scalar(Int64(proto.int64s[index]))); }
      if index in proto.doubles { return Some(Scalar(Double(proto.doubles[index]))); }
      if index in proto.bools { return Some(Scalar(Bool(proto.bools[index]))); }
      if index in proto.timestamps { return Some(Scalar(Time(proto.timestamps[index]))); }
      if index in proto.durations { return Some(Scalar(Duration(proto.durations[index]))); }
      v := if index in proto.bytes then Some(Scalar(Bytes(proto.bytes[index]))) else None;
    }

    method ConvertStringMap(e: map<int, int>) returns (m: Option<map<string, string>>)
      ensures m.Some? <==> EntriesDefined(ls, e)
      ensures m.Some? ==> EntriesDecode(ls, e, m.value)
    {
      hide EntryGives;
      var d: map<string, string> := map[];
      var todo := e.Keys;
      while todo != {}
        invariant todo <= e.Keys
        invariant forall j :: j in e && j !in todo ==> Defined(ls, j) && Defined(ls, e[j]) && Word(ls, j).value in d
        invariant forall k :: k in d ==> EntryGives(ls, e, k, d[k])
        decreases |todo|
      {
        NonEmpty(todo);
        var j :| j in todo;
        var key, value := Word(ls, j), Word(ls, e[j]);
        if key.None? || value.None? { return None; }
        GivesEntry(ls, e, j);
        d, todo := d[key.value := value.value], todo - {j};
      }
      m := Some(d);
    }
  }

  lemma DecodedIsDefined(ls: Lists, e: map<int, int>, m: map<string, string>)
    requires EntriesDecode(ls, e, m)
    ensures EntriesDefined(ls, e)
  {
  }

  lemma NumbersMore(d: map<string, int>, words: seq<string>, i: nat)
    requires i < |words| && Numbers(d, words[..i])
    ensures Numbers(d[words[i] := SlotToIndex(i)], words[..i + 1])
  {
    assert words[..i + 1] == words[..i] + [words[i]];
  }

  // ----- agreement with the encoder -----

  /** What the bag has to answer. */
  function Expected(attrs: Attributes, name: string): Option<Attr> {
    if name in attrs && !attrs[name].Other? then Some(attrs[name]) else None
  }

  /** The index at which the reader looks is the encoder's, or one that the message does not carry. */
  lemma ReaderIndex(g: Globals, ls: Lists, attrs: Attributes, p: Proto, dict: map<string, int>, name: string)
    requires Consistent(g.dict, ls.global) && Distinct(ls.message) && NoGlobals(g, ls.message)
    requires Encodes(g, ls.message, attrs, p) && Numbers(dict, ls.message)
    ensures var index := IndexFor(dict, g.dict, name);
      || (Knows(g, ls.message, name) && index == Some(Index(g, ls.message, name)))
      || (name !in attrs && (index.None? || !Carries(p, index.value)))
  {
    hide RawEncodes, Has;
    var index := IndexFor(dict, g.dict, name);
    if name in ls.message {
      assert !IsGlobal(g, name);
      var i := IndexOf(ls.message, name);
      assert ls.message[i] == name && name in dict;
      IdsDecideEquality(ls.message, i, IndexToSlot(dict[name]));
    } else if name in attrs {
      assert Knows(g, ls.message, name);
    } else if index.Some? && !IsGlobal(g, name) {
      NotBeyond(g, ls.message, attrs, p, index.value);
    }
  }

  /** No entry is under a global index past the allowed count. */
  lemma NotBeyond(g: Globals, words: seq<string>, attrs: Attributes, p: Proto, i: int)
    requires Encodes(g, words, attrs, p) && i >= 0 && i >= g.count
    ensures !Carries(p, i)
  {
    hide Index, Knows, RawEncodes, Has, Carries;
    if Carries(p, i) {
      var r := CarriedHas(p, i);
      assert Source(g, words, attrs, i, r);
      var k :| k in attrs && EntryFor(g, words, k, attrs[k], i, r);
      IndexRange(g, words, k);
    }
  }

  lemma IndexRange(g: Globals, words: seq<string>, w: string)
    ensures Index(g, words, w) < 0 || Index(g, words, w) < g.count
  {
  }

  /** All that the message carries under the index of a name is the value of that name. */
  lemma CarriedIsExpected(g: Globals, ls: Lists, attrs: Attributes, p: Proto, name: string, r: Raw)
    requires Consistent(g.dict, ls.global) && Encodes(g, ls.message, attrs, p) && Knows(g, ls.message, name)
    requires Has(p, Index(g, ls.message, name), r)
    ensures name in attrs && RawEncodes(g, ls.message, attrs[name], r)
  {
    hide RawEncodes, Has, Index, Knows;
    var i := Index(g, ls.message, name);
    assert Source(g, ls.message, attrs, i, r);
    var k :| k in attrs && EntryFor(g, ls.message, k, attrs[k], i, r);
    IndexInjective(g, ls.global, ls.message, k, name);
  }

  lemma ReadsExpected(g: Globals, ls: Lists, attrs: Attributes, p: Proto, name: string, v: Option<Attr>)
    requires Consistent(g.dict, ls.global) && Encodes(g, ls.message, attrs, p) && Knows(g, ls.message, name)
    requires ReadsAt(ls, p, Index(g, ls.message, name), v)
    ensures v == Expected(attrs, name)
  {
    hide Index, Knows, RawEncodes, EntriesDecode, EntriesDefined, Word, RawDecodes, RawDefined, Has, Carries;
    var i := Index(g, ls.message, name);
    if Carries(p, i) {
      var r := ReadRaw(ls, p, i, v);
      CarriedIsExpected(g, ls, attrs, p, name, r);
      RawRoundTrip(g, ls, attrs[name], r, if v.Some? then v.value else Other);
      OtherIsNotSent(g, ls.message, attrs[name], r);
    } else {
      NothingRead(p, i);
      if name in attrs && !attrs[name].Other? {
        assert Sent(g, ls.message, p, name, attrs[name]);
        var j, r :| EntryFor(g, ls.message, name, attrs[name], j, r) && Has(p, j, r);
        NotCarried(p, i, r);
      }
    }
  }

  lemma NothingRead(p: Proto, i: int)
    requires !Carries(p, i)
    ensures i !in p.strings && i !in p.stringMaps && PlainAt(p, i) == None
  {
  }

  /** The entry that a read comes from, and its value if that is defined. */
  lemma ReadRaw(ls: Lists, p: Proto, i: int, v: Option<Attr>) returns (r: Raw)
    requires Carries(p, i) && ReadsAt(ls, p, i, v)
    ensures Has(p, i, r) && (RawDefined(ls, r) ==> v.Some? && RawDecodes(ls, r, v.value))
  {
    hide EntriesDecode, EntriesDefined, Word;
    r := CarriedHas(p, i);
    if i in p.strings { r := RawText(p.strings[i]); }
    else if i in p.stringMaps { r := RawEntries(p.stringMaps[i]); }
    else { r := RawPlain(PlainAt(p, i).value.p); }
  }

  /**
   The lazy reader agrees with the codec: in every state of the reader, reading any name gives the
   bag's own value of it if its type is supported, and absence otherwise.
   */
  lemma LazyReaderAgrees(g: Globals, ls: Lists, attrs: Attributes, p: Proto, dict: map<string, int>, name: string,
          v: Option<Attr>)
    requires Consistent(g.dict, ls.global) && Distinct(ls.message) && NoGlobals(g, ls.message)
    requires Encodes(g, ls.message, attrs, p) && Numbers(dict, ls.message)
    requires ReadsAs(ls, p, IndexFor(dict, g.dict, name), v)
    ensures v == Expected(attrs, name)
  {
    hide Index, Knows, Encodes, Numbers, EntriesDecode, EntriesDefined;
    ReaderIndex(g, ls, attrs, p, dict, name);
    var index := IndexFor(dict, g.dict, name);
    if Knows(g, ls.message, name) && index == Some(Index(g, ls.message, name)) {
      ReadsExpected(g, ls, attrs, p, name, v);
    } else if index.Some? {
      NothingRead(p, index.value);
    }
  }

  /** A bag encoded and read name by name, in any order and any number of times. */
  method EncodeAndRead(attrs: Attributes, g: Globals, global: seq<string>, names: seq<string>)
    returns (vs: seq<Option<Attr>>)
    requires Consistent(g.dict, global)
    ensures |vs| == |names| && forall i :: 0 <= i < |names| ==> vs[i] == Expected(attrs, names[i])
  {
    hide Encodes, Consistent, Distinct, NoGlobals, Numbers, ReadsAs, Expected, IndexFor;
    var p := ToProto(attrs, g, global);
    var bag := new ProtoBag(p, g.dict, global);
    vs := [];
    for i := 0 to |names|
      invariant bag.Valid() && |vs| == i && forall j :: 0 <= j < i ==> vs[j] == Expected(attrs, names[j])
    {
      var v := bag.Get(names[i]);
      LazyReaderAgrees(g, bag.ls, attrs, p, bag.messageDict, names[i], v);
      vs := vs + [v];
    }
  }
}
