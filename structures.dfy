/**
 * IgnoreCaseDict: the nested mapping every reader returns. Keys are matched
 * without regard to ASCII letter case, at the top level and in every nested
 * section. The dictionary stores each entry under the case-folded form of its
 * key, so two keys that differ only in case name one entry.
 */
module Structures {
  import opened Results

  // ---------------------------------------------------------------------------
  // Case folding, and the independent notion of "equal up to case" it realises
  // ---------------------------------------------------------------------------

  predicate IsUpper(c: char) {
    'A' <= c <= 'Z'
  }

  /** Two characters are the same up to ASCII letter case. */
  predicate SameIgnoringCase(c: char, d: char) {
    || c == d
    || (IsUpper(c) && d as int == c as int + 32)
    || (IsUpper(d) && c as int == d as int + 32)
  }

  /** Two strings are the same up to ASCII letter case, position by position. */
  predicate EqualIgnoringCase(a: string, b: string) {
    |a| == |b| && forall i :: 0 <= i < |a| ==> SameIgnoringCase(a[i], b[i])
  }

  function FoldChar(c: char): char {
    if IsUpper(c) then (c as int + 32) as char else c
  }

  /** The form under which a key is stored: every ASCII capital made lower case. */
  function Fold(s: string): (r: string)
    ensures EqualIgnoringCase(s, r)
    ensures forall i :: 0 <= i < |r| ==> !IsUpper(r[i])
  {
    seq(|s|, i requires 0 <= i < |s| => FoldChar(s[i]))
  }

  /** Folding a folded key changes nothing. */
  lemma FoldIdempotent(s: string)
    ensures Fold(Fold(s)) == Fold(s)
  {
  }

  /** Two keys are stored under the same folded form exactly when they are equal up to case. */
  lemma SameFoldIff(a: string, b: string)
    ensures Fold(a) == Fold(b) <==> EqualIgnoringCase(a, b)
  {
  }

  // ---------------------------------------------------------------------------
  // The dictionary
  // ---------------------------------------------------------------------------

  /** A value stored in the dictionary: a scalar string or a nested section. */
  datatype Value = Str(text: string) | Section(dict: IgnoreCaseDict)

  datatype IgnoreCaseDict = IgnoreCaseDict(entries: map<string, Value>) {

    /** Every key, at this level and in every nested section, is stored folded. */
    predicate Valid()
      decreases this, 1
    {
      forall k :: k in entries ==> Fold(k) == k && ValidValue(entries[k])
    }

    /** `get(key)`: the entry stored under the folded key, or None. */
    function Get(key: string): (r: Option<Value>)
      ensures r.Some? ==> exists k :: k in entries && EqualIgnoringCase(k, key) && entries[k] == r.value
    {
      if Fold(key) in entries then Some(entries[Fold(key)]) else None
    }

    /** `d[key] = v`: insert, or overwrite the entry whose key is equal to `key` up to case. */
    function Set(key: string, v: Value): (d: IgnoreCaseDict)
      ensures Valid() && ValidValue(v) ==> d.Valid()
      ensures |d.entries| == if Get(key).Some? then |entries| else |entries| + 1
    {
      FoldIdempotent(key);
      IgnoreCaseDict(entries[Fold(key) := v])
    }
  }

  predicate ValidValue(v: Value)
    decreases v, 0
  {
    match v
    case Str(_) => true
    case Section(d) => d.Valid()
  }

  /** A lookup does not depend on the case of the key it is given. */
  lemma GetIgnoresCase(d: IgnoreCaseDict, a: string, b: string)
    requires EqualIgnoringCase(a, b)
    ensures d.Get(a) == d.Get(b)
  {
    SameFoldIff(a, b);
  }

  /**
   * In a valid dictionary, a lookup finds an entry exactly when some stored
   * key equals the given one up to case, and then returns that entry.
   */
  lemma GetFindsAnyCase(d: IgnoreCaseDict, key: string)
    requires d.Valid()
    ensures d.Get(key).None? <==> forall k :: k in d.entries ==> !EqualIgnoringCase(k, key)
    ensures forall k :: k in d.entries && EqualIgnoringCase(k, key) ==> d.Get(key) == Some(d.entries[k])
  {
    forall k | k in d.entries && EqualIgnoringCase(k, key)
      ensures Fold(key) == k
    {
      SameFoldIff(k, key);
    }
  }

  /** After `d[key] = v`, every casing of `key` finds `v` and every other key is unaffected. */
  lemma GetAfterSet(d: IgnoreCaseDict, key: string, v: Value, other: string)
    ensures d.Set(key, v).Get(other) == if EqualIgnoringCase(key, other) then Some(v) else d.Get(other)
  {
    SameFoldIff(key, other);
  }

  // ---------------------------------------------------------------------------
  // Wrapping a parser's plain output
  // ---------------------------------------------------------------------------

  /**
   * What a format's parsing library hands back: a scalar string or an ordered
   * mapping whose keys are matched exactly (case matters).
   */
  datatype Plain = PStr(text: string) | PMap(items: seq<Item>)

  /** One `key: value` pair of a plain mapping. */
  datatype Item = Item(key: string, value: Plain)

  /** Case-insensitive lookup in a plain mapping: the last item whose key equals `key` up to case. */
  function PlainGet(items: seq<Item>, key: string): Option<Plain> {
    if items == [] then None
    else if EqualIgnoringCase(items[|items| - 1].key, key) then Some(items[|items| - 1].value)
    else PlainGet(items[..|items| - 1], key)
  }

  /** A plain lookup's answer as the wrapped dictionary gives it. */
  function WrapFound(found: Option<Plain>): Option<Value> {
    match found
    case None => None
    case Some(p) => Some(Wrap(p))
  }

  /** Rebuild a plain value, turning every mapping level into an IgnoreCaseDict. */
  function Wrap(p: Plain): (v: Value)
    ensures ValidValue(v)
    ensures p.PStr? <==> v.Str?
    ensures p.PStr? ==> v == Str(p.text)
    decreases p, 1
  {
    match p
    case PStr(s) => Str(s)
    case PMap(items) => Section(WrapItems(items))
  }

  /** Insert the items of a plain mapping, in order, into an empty IgnoreCaseDict. */
  function WrapItems(items: seq<Item>): (d: IgnoreCaseDict)
    ensures d.Valid()
    ensures |d.entries| <= |items|
    decreases items, 0
  {
    if items == [] then IgnoreCaseDict(map[])
    else
      var last := items[|items| - 1];
      assert last in items;
      WrapItems(items[..|items| - 1]).Set(last.key, Wrap(last.value))
  }

  /**
   * Wrapping keeps the content: a case-insensitive lookup in the wrapped
   * dictionary finds the wrapped form of what the plain mapping holds for that key.
   */
  lemma {:induction false} WrapItemsGet(items: seq<Item>, key: string)
    ensures WrapItems(items).Get(key) == WrapFound(PlainGet(items, key))
  {
    if items != [] {
      var init, last := items[..|items| - 1], items[|items| - 1];
      WrapItemsGet(init, key);
      GetAfterSet(WrapItems(init), last.key, Wrap(last.value), key);
    }
  }
}
