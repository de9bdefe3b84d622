/**
 * Word counting in two idioms (ch04-core-es6-features/code.js, lines 218-241):
 * the ES5 way counts into a prototype-less object under escaped keys, the ES6
 * way counts into a `Map`. Both tables are modelled as `map<string, int>`
 * fields that the `countWords` methods update in place.
 */
module WordCount {
  import opened Wrappers
  import opened JsString

  /** The key that needs escaping when words are stored as object properties. */
  const ProtoKey: string := "__proto__"

  /** `escapeKey(key)`: appends "%" to every key that starts with "__proto__". */
  function EscapeKey(key: string): (r: string)
    ensures StartsWith(key, ProtoKey) ==> r == key + "%"
    ensures !StartsWith(key, ProtoKey) ==> r == key
  {
    IndexOfZeroIffStartsWith(key, ProtoKey);
    if IndexOf(key, ProtoKey) == 0 then key + "%" else key
  }

  /** No word is ever stored under the key "__proto__" itself. */
  lemma EscapeKeyNeverProto(key: string)
    ensures EscapeKey(key) != ProtoKey
  {
  }

  /** Distinct words never collide in the dictionary. */
  lemma EscapeKeyInjective(a: string, b: string)
    requires EscapeKey(a) == EscapeKey(b)
    ensures a == b
  {
    if StartsWith(a, ProtoKey) && StartsWith(b, ProtoKey) {
      assert a == (a + "%")[..|a|] == (b + "%")[..|b|] == b;
    }
  }

  /** Escaping is not idempotent: an escaped key still starts with "__proto__" and gains a second "%". */
  lemma EscapeKeyTwice(key: string)
    requires StartsWith(key, ProtoKey)
    ensures EscapeKey(EscapeKey(key)) == key + "%%"
    ensures EscapeKey(EscapeKey(key)) != EscapeKey(key)
  {
  }

  type Counts = map<string, int>

  /** Every stored count is at least one. */
  ghost predicate Positive(t: Counts)
  {
    forall k :: k in t ==> t[k] >= 1
  }

  /** How many times `w` occurs in `ws`: the reference every table is checked against. */
  function Occurrences(ws: seq<string>, w: string): nat
  {
    if ws == [] then 0
    else Occurrences(ws[..|ws| - 1], w) + (if ws[|ws| - 1] == w then 1 else 0)
  }

  // ---------------------------------------------------------------------
  // ES5: a prototype-less dictionary with escaped keys (lines 218-226)
  // ---------------------------------------------------------------------

  /** The dictionary after one call of the ES5 `countWords(word)`. */
  function DictStep(dict: Counts, word: string): (r: Counts)
    ensures r.Keys == dict.Keys + {EscapeKey(word)}
    ensures r[EscapeKey(word)] == if EscapeKey(word) in dict then dict[EscapeKey(word)] + 1 else 1
    ensures forall k :: k in dict && k != EscapeKey(word) ==> r[k] == dict[k]
    ensures Positive(dict) ==> Positive(r)
  {
    var escapedWord := EscapeKey(word);
    if escapedWord in dict then dict[escapedWord := dict[escapedWord] + 1]
    else dict[escapedWord := 1]
  }

  /** The dictionary after counting `ws` in order, starting from `Object.create(null)`. */
  function DictAfter(ws: seq<string>): (r: Counts)
    ensures Positive(r)
  {
    if ws == [] then map[] else DictStep(DictAfter(ws[..|ws| - 1]), ws[|ws| - 1])
  }

  /** The dictionary holds each word's number of occurrences under its escaped key, and nothing else. */
  lemma {:induction false} DictAfterCounts(ws: seq<string>, w: string)
    ensures EscapeKey(w) in DictAfter(ws) <==> Occurrences(ws, w) > 0
    ensures EscapeKey(w) in DictAfter(ws) ==> DictAfter(ws)[EscapeKey(w)] == Occurrences(ws, w)
  {
    if ws != [] {
      var last := ws[|ws| - 1];
      DictAfterCounts(ws[..|ws| - 1], w);
      if last != w {
        if EscapeKey(last) == EscapeKey(w) {
          EscapeKeyInjective(last, w);
        }
      }
    }
  }

  /** Every key of the dictionary is the escaped form of a counted word. */
  lemma {:induction false} DictAfterKeys(ws: seq<string>, k: string)
    requires k in DictAfter(ws)
    ensures exists i :: 0 <= i < |ws| && EscapeKey(ws[i]) == k
  {
    var last := ws[|ws| - 1];
    if k != EscapeKey(last) {
      DictAfterKeys(ws[..|ws| - 1], k);
      var i :| 0 <= i < |ws| - 1 && EscapeKey(ws[..|ws| - 1][i]) == k;
      assert ws[i] == ws[..|ws| - 1][i];
    } else {
      assert EscapeKey(ws[|ws| - 1]) == k;
    }
  }


  /** The module-level `dict` of the ES5 version with its `countWords`. */
  class DictCounter {
    var dict: Counts
    /** The words counted so far, in order. */
    ghost var words: seq<string>

    ghost predicate Valid()
      reads this
    {
      dict == DictAfter(words)
    }

    /** `var dict = Object.create(null)`. */
    constructor ()
      ensures Valid() && words == [] && dict == map[]
    {
      dict := map[];
      words := [];
    }

    /** `countWords(word)`: increments the entry under the escaped word, or creates it with 1. */
    method CountWords(word: string)
      requires Valid()
      modifies this
      ensures Valid() && words == old(words) + [word]
      ensures dict == DictStep(old(dict), word)
    {
      var escapedWord := EscapeKey(word);
      if escapedWord in dict {
        dict := dict[escapedWord := dict[escapedWord] + 1];
      } else {
        dict := dict[escapedWord := 1];
      }
      words := words + [word];
      assert words[..|words| - 1] == old(words);
    }
  }

  // ---------------------------------------------------------------------
  // ES6: a Map keyed by the words themselves (lines 237-241)
  // ---------------------------------------------------------------------

  /** `map.get(word)`: the stored value, or `undefined` (None). */
  function MapGet(table: Counts, word: string): (r: Option<int>)
    ensures r.Some? <==> word in table
    ensures r.Some? ==> r.value == table[word]
  {
    if word in table then Some(table[word]) else None
  }

  /** JavaScript falsiness of a `map.get` result: `undefined` and 0 are falsy. */
  predicate Falsy(v: Option<int>)
  {
    v.None? || v.value == 0
  }

  /** `v || 0`: since a falsy count is 0 anyway, this is the count, or 0 for `undefined`. */
  function OrZero(v: Option<int>): (r: int)
    ensures r == if v.Some? then v.value else 0
  {
    if Falsy(v) then 0 else v.value
  }

  /** In a table of positive counts the `|| 0` fallback fires exactly for absent words. */
  lemma FallbackOnlyForAbsent(table: Counts, word: string)
    requires Positive(table)
    ensures Falsy(MapGet(table, word)) <==> word !in table
  {
  }

  /** The Map after one call of the ES6 `countWords(word)`. */
  function MapStep(table: Counts, word: string): (r: Counts)
    ensures r.Keys == table.Keys + {word}
    ensures r[word] == if word in table then table[word] + 1 else 1
    ensures forall k :: k in table && k != word ==> r[k] == table[k]
    ensures Positive(table) ==> Positive(r)
  {
    var count := OrZero(MapGet(table, word));
    table[word := count + 1]
  }

  /** The Map after counting `ws` in order, starting from `new Map()`. */
  function MapAfter(ws: seq<string>): (r: Counts)
    ensures Positive(r)
  {
    if ws == [] then map[] else MapStep(MapAfter(ws[..|ws| - 1]), ws[|ws| - 1])
  }

  /** The Map holds exactly the counted words, each with its number of occurrences. */
  lemma {:induction false} MapAfterCounts(ws: seq<string>, w: string)
    ensures w in MapAfter(ws) <==> Occurrences(ws, w) > 0
    ensures w in MapAfter(ws) ==> MapAfter(ws)[w] == Occurrences(ws, w)
  {
    if ws != [] {
      MapAfterCounts(ws[..|ws| - 1], w);
    }
  }

  /**
   * The two idioms agree on every word sequence: the Map has a word exactly
   * when the dictionary has its escaped key, with the same count.
   */
  lemma DictAndMapAgree(ws: seq<string>, w: string)
    ensures w in MapAfter(ws) <==> EscapeKey(w) in DictAfter(ws)
    ensures w in MapAfter(ws) ==> MapAfter(ws)[w] == DictAfter(ws)[EscapeKey(w)]
  {
    MapAfterCounts(ws, w);
    DictAfterCounts(ws, w);
  }

  /** The module-level `map` of the ES6 version with its `countWords`. */
  class MapCounter {
    var entries: Counts
    /** The words counted so far, in order. */
    ghost var words: seq<string>

    ghost predicate Valid()
      reads this
    {
      entries == MapAfter(words)
    }

    /** `const map = new Map()`. */
    constructor ()
      ensures Valid() && words == [] && entries == map[]
    {
      entries := map[];
      words := [];
    }

    /** `countWords(word)`: `map.set(word, (map.get(word) || 0) + 1)`. */
    method CountWords(word: string)
      requires Valid()
      modifies this
      ensures Valid() && words == old(words) + [word]
      ensures entries == MapStep(old(entries), word)
    {
      var count := OrZero(MapGet(entries, word));
      entries := entries[word := count + 1];
      words := words + [word];
      assert words[..|words| - 1] == old(words);
    }
  }
}
