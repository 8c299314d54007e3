/** Dictionary indices of words: global ones, and those of one message (pkg/attribute/dictState.go). */
module Dictionaries {
  import opened Values
  import opened StringTables

  /** The global dictionary, and how many of its words may be used. */
  datatype Globals = Globals(dict: map<string, int>, count: int)

  function SlotToIndex(slot: nat): (index: int)
    ensures index < 0
  {
    -1 - slot
  }

  function IndexToSlot(index: int): (slot: int)
    ensures index < 0 ==> slot >= 0 && SlotToIndex(slot) == index
  {
    -index - 1
  }

  predicate IsGlobal(g: Globals, w: string) {
    w in g.dict && g.dict[w] < g.count
  }

  /** The word has an index: a global one, or a slot in the message's word list. */
  predicate Knows(g: Globals, words: seq<string>, w: string) {
    IsGlobal(g, w) || w in words
  }

  function Index(g: Globals, words: seq<string>, w: string): int {
    if IsGlobal(g, w) then g.dict[w] else SlotToIndex(IndexOf(words, w))
  }

  /** The words of a message once a word has been asked for. */
  function Learn(g: Globals, words: seq<string>, w: string): (r: seq<string>)
    ensures words <= r && Knows(g, r, w) && (Distinct(words) ==> Distinct(r))
  {
    if IsGlobal(g, w) then words else Intern(words, w)
  }

  /** A word whose global index is allowed is sent by it and costs no slot; any other word has a slot of the message. */
  lemma AllowedGlobals(g: Globals, words: seq<string>, w: string)
    ensures w in g.dict && g.dict[w] < g.count ==> Index(g, words, w) == g.dict[w] && Learn(g, words, w) == words
    ensures !(w in g.dict && g.dict[w] < g.count) ==>
      Index(g, words, w) < 0 && Learn(g, words, w) == if w in words then words else words + [w]
  {
  }

  /** The words of a message are numbered -1, -2 and so on. */
  lemma MessageIndices(g: Globals, list: seq<string>, words: seq<string>, k: nat)
    requires Distinct(words) && NoGlobals(g, words) && k < |words|
    ensures Index(g, words, words[k]) == -(k + 1) && WordAt(list, words, -(k + 1)) == Some(words[k])
  {
    IdsDecideEquality(words, k, k);
  }

  /** The word that an index stands for, or None if it is not defined. */
  function WordAt(list: seq<string>, words: seq<string>, index: int): Option<string> {
    if index < 0 then (if IndexToSlot(index) < |words| then Some(words[IndexToSlot(index)]) else None)
    else if index < |list| then Some(list[index])
    else None
  }

  /** The global dictionary is the inverse of the global word list. */
  ghost predicate Consistent(dict: map<string, int>, list: seq<string>) {
    forall w :: w in dict ==> 0 <= dict[w] < |list| && list[dict[w]] == w
  }

  /** An index leads back to its word. */
  lemma LookupOfIndex(g: Globals, list: seq<string>, words: seq<string>, w: string)
    requires Consistent(g.dict, list) && Knows(g, words, w)
    ensures WordAt(list, words, Index(g, words, w)) == Some(w)
  {
  }

  /** So no two words share one. */
  lemma IndexInjective(g: Globals, list: seq<string>, words: seq<string>, v: string, w: string)
    requires Consistent(g.dict, list) && Knows(g, words, v) && Knows(g, words, w)
    requires Index(g, words, v) == Index(g, words, w)
    ensures v == w
  {
    LookupOfIndex(g, list, words, v);
    LookupOfIndex(g, list, words, w);
  }

  /** An index stays as the message learns more words. */
  lemma IndexKept(g: Globals, words: seq<string>, words': seq<string>, w: string)
    requires words <= words' && Knows(g, words, w)
    ensures Knows(g, words', w) && Index(g, words', w) == Index(g, words, w)
  {
    if !IsGlobal(g, w) { IdStable(words, words', w); }
  }

  /** No word of the message has a global index. */
  ghost predicate NoGlobals(g: Globals, words: seq<string>) {
    forall w :: w in words ==> !IsGlobal(g, w)
  }

  /** The message dictionary numbers the words from slot 0 on, without gaps. */
  ghost predicate DictOf(g: Globals, words: seq<string>, dict: map<string, int>) {
    && Distinct(words) && |dict| == |words| && NoGlobals(g, words)
    && (forall w :: w in dict <==> w in words)
    && (forall w :: w in dict ==> dict[w] == SlotToIndex(IndexOf(words, w)))
  }

  lemma DictMore(g: Globals, words: seq<string>, dict: map<string, int>, w: string)
    requires DictOf(g, words, dict) && w !in dict && !IsGlobal(g, w)
    ensures DictOf(g, words + [w], dict[w := SlotToIndex(|dict|)]) && w !in words
    ensures IndexOf(words + [w], w) == |dict|
  {
    hide IndexOf, Distinct;
    Appended(words, w);
    assert |dict[w := SlotToIndex(|dict|)]| == |dict| + 1;
  }

  lemma DictHas(g: Globals, words: seq<string>, dict: map<string, int>, w: string)
    requires DictOf(g, words, dict)
    ensures w in dict <==> w in words
    ensures w in dict ==> dict[w] == SlotToIndex(IndexOf(words, w))
  {
  }

  class DictState {
    const globals: Globals
    var messageDict: map<string, int>
    ghost var words: seq<string>

    ghost predicate Valid()
      reads this
    {
      DictOf(globals, words, messageDict)
    }

    constructor (g: Globals)
      ensures Valid() && globals == g && words == []
    {
      globals := g;
      messageDict := map[];
      words := [];
    }

    method AssignDictIndex(word: string) returns (index: int)
      requires Valid()
      modifies this
      ensures Valid() && words == Learn(globals, old(words), word) && index == Index(globals, words, word)
    {
      hide IndexOf, Distinct, DictOf;
      if word in globals.dict && globals.dict[word] < globals.count {
        return globals.dict[word];
      }
      DictHas(globals, words, messageDict, word);
      if word in messageDict {
        return messageDict[word];
      }
      index := SlotToIndex(|messageDict|);
      DictMore(globals, words, messageDict, word);
      messageDict := messageDict[word := index];
      words := words + [word];
    }

    /** The words in the order of their slots. */
    method GetMessageWordList() returns (list: seq<string>)
      requires Valid()
      ensures list == words
    {
      hide IndexOf, NoGlobals;
      var slots := new string[|messageDict|](_ => "");
      var todo := messageDict.Keys;
      while todo != {}
        invariant todo <= messageDict.Keys
        invariant forall i :: 0 <= i < |words| && words[i] !in todo ==> slots[i] == words[i]
        decreases |todo|
      {
        var w :| w in todo;
        WordSlot(words, w);
        slots[IndexToSlot(messageDict[w])] := w;
        todo := todo - {w};
      }
      list := slots[..];
    }
  }

  lemma WordSlot(words: seq<string>, w: string)
    requires w in words && Distinct(words)
    ensures IndexOf(words, w) < |words| && forall i :: 0 <= i < |words| ==> (words[i] == w <==> i == IndexOf(words, w))
  {
  }

  lemma Appended(words: seq<string>, w: string)
    requires Distinct(words) && w !in words
    ensures Distinct(words + [w]) && IndexOf(words + [w], w) == |words|
    ensures forall v :: v in words ==> IndexOf(words + [w], v) == IndexOf(words, v)
  {
    IdsDecideEquality(words + [w], |words|, |words|);
    forall v | v in words ensures IndexOf(words + [w], v) == IndexOf(words, v) { IdStable(words, words + [w], v); }
  }
}
