/**
 * `fetch_available_translation_pairs` of language_utils.py: collect the
 * (source, target) language pairs the service's translation models report,
 * without duplicates, and return them sorted. Any exception, including a
 * failed request, yields the empty list.
 */
module LanguageUtils {
  import opened Wrappers
  import opened Json

  /** A (source language, target language) pair, as the Python tuple. */
  type Pair = (string, string)

  // ---------------------------------------------------------------------------
  // Python's ordering of strings and of pairs of strings
  // ---------------------------------------------------------------------------

  /** `a < b` on Python strings: lexicographic by code point, a proper prefix first. */
  predicate StrLess(a: string, b: string)
    decreases |a|
  {
    if a == [] then b != []
    else if b == [] then false
    else a[0] < b[0] || (a[0] == b[0] && StrLess(a[1..], b[1..]))
  }

  lemma {:induction false} StrLessIrreflexive(a: string)
    ensures !StrLess(a, a)
    decreases |a|
  {
    if a != [] {
      StrLessIrreflexive(a[1..]);
    }
  }

  lemma {:induction false} StrLessTransitive(a: string, b: string, c: string)
    requires StrLess(a, b) && StrLess(b, c)
    ensures StrLess(a, c)
    decreases |a|
  {
    if a != [] && a[0] == b[0] && b[0] == c[0] {
      StrLessTransitive(a[1..], b[1..], c[1..]);
    }
  }

  lemma {:induction false} StrLessTotal(a: string, b: string)
    requires a != b
    ensures StrLess(a, b) || StrLess(b, a)
    decreases |a|
  {
    if a != [] && b != [] && a[0] == b[0] {
      assert a == [a[0]] + a[1..] && b == [b[0]] + b[1..];
      StrLessTotal(a[1..], b[1..]);
    }
  }

  /** `p < q` on Python tuples of two strings. */
  predicate PairLess(p: Pair, q: Pair) {
    StrLess(p.0, q.0) || (p.0 == q.0 && StrLess(p.1, q.1))
  }

  lemma PairLessIrreflexive(p: Pair)
    ensures !PairLess(p, p)
  {
    StrLessIrreflexive(p.0);
    StrLessIrreflexive(p.1);
  }

  lemma PairLessTransitive(p: Pair, q: Pair, r: Pair)
    requires PairLess(p, q) && PairLess(q, r)
    ensures PairLess(p, r)
  {
    if StrLess(p.0, q.0) && StrLess(q.0, r.0) {
      StrLessTransitive(p.0, q.0, r.0);
    } else if p.0 == q.0 && q.0 == r.0 {
      StrLessTransitive(p.1, q.1, r.1);
    }
  }

  lemma PairLessTotal(p: Pair, q: Pair)
    requires p != q
    ensures PairLess(p, q) || PairLess(q, p)
  {
    if p.0 != q.0 {
      StrLessTotal(p.0, q.0);
    } else {
      StrLessTotal(p.1, q.1);
    }
  }

  lemma PairLessTransitiveAll()
    ensures forall p, q, r :: PairLess(p, q) && PairLess(q, r) ==> PairLess(p, r)
  {
    forall p, q, r | PairLess(p, q) && PairLess(q, r) ensures PairLess(p, r) {
      PairLessTransitive(p, q, r);
    }
  }

  /** Ascending, and so without repeats. */
  predicate StrictlySorted(s: seq<Pair>) {
    forall i, j :: 0 <= i < j < |s| ==> PairLess(s[i], s[j])
  }

  /** A strictly sorted list holds each pair at most once. */
  lemma StrictlySortedDistinct(s: seq<Pair>)
    requires StrictlySorted(s)
    ensures forall i, j :: 0 <= i < j < |s| ==> s[i] != s[j]
  {
    forall i, j | 0 <= i < j < |s| ensures s[i] != s[j] {
      PairLessIrreflexive(s[i]);
    }
  }

  /** A set has one strictly sorted listing: whatever sorts the pairs returns this one. */
  lemma {:induction false} StrictlySortedUnique(s: seq<Pair>, t: seq<Pair>)
    requires StrictlySorted(s) && StrictlySorted(t)
    requires forall p :: p in s <==> p in t
    ensures s == t
    decreases |s|
  {
    if s != [] {
      assert s[0] in t;
    }
    if t != [] {
      assert t[0] in s;
    }
    if s != [] && t != [] {
      if s[0] != t[0] {
        assert t[0] in s && s[0] in t;
        var i :| 0 <= i < |s| && s[i] == t[0];
        var j :| 0 <= j < |t| && t[j] == s[0];
        PairLessTransitive(s[0], t[0], s[0]);
        PairLessIrreflexive(s[0]);
      }
      StrictlySortedDistinct(s);
      StrictlySortedDistinct(t);
      forall p ensures p in s[1..] <==> p in t[1..] {
        if p in s[1..] {
          var i :| 1 <= i < |s| && s[i] == p;
          assert p in t;
          var j :| 0 <= j < |t| && t[j] == p;
          assert j != 0;
        }
        if p in t[1..] {
          var j :| 1 <= j < |t| && t[j] == p;
          assert p in s;
          var i :| 0 <= i < |s| && s[i] == p;
          assert i != 0;
        }
      }
      StrictlySortedUnique(s[1..], t[1..]);
      assert s == [s[0]] + s[1..] && t == [t[0]] + t[1..];
    }
  }

  /** `x` inserted into its place in `s`. */
  function InsertSorted(s: seq<Pair>, x: Pair): (r: seq<Pair>)
    requires StrictlySorted(s) && x !in s
    ensures StrictlySorted(r)
    ensures forall p :: p in r <==> p in s || p == x
    decreases |s|
  {
    if s == [] then [x]
    else if PairLess(x, s[0]) then
      PairLessTransitiveAll();
      [x] + s
    else
      PairLessTotal(x, s[0]);
      var rest := InsertSorted(s[1..], x);
      assert forall p :: p in rest ==> PairLess(s[0], p);
      [s[0]] + rest
  }

  /** `sorted(list(pairs))`: the pairs, each once, in ascending order. */
  method SortPairs(pairs: set<Pair>) returns (sorted: seq<Pair>)
    ensures StrictlySorted(sorted)
    ensures forall p :: p in sorted <==> p in pairs
  {
    sorted := [];
    var rest := pairs;
    while rest != {}
      invariant rest <= pairs
      invariant StrictlySorted(sorted)
      invariant forall p :: p in sorted <==> p in pairs && p !in rest
      decreases rest
    {
      var x :| x in rest;
      sorted := InsertSorted(sorted, x);
      rest := rest - {x};
    }
  }

  // ---------------------------------------------------------------------------
  // Reading the response
  // ---------------------------------------------------------------------------

  /** What `for item in data.get("pipelineResponse", [])` visits; `None` when it raises. */
  function ResponseItems(data: Value): Option<seq<Value>> {
    if data.Obj? then Iterable(GetOr(data, "pipelineResponse", Arr([]))) else None
  }

  /** `item.get("config", {}).get("language", {})`; `None` when either `.get` raises. */
  function LanguageInfo(item: Value): Option<Value> {
    if !item.Obj? then None
    else
      var config := GetOr(item, "config", Obj(map[]));
      if !config.Obj? then None
      else
        var language := GetOr(config, "language", Obj(map[]));
        if language.Obj? then Some(language) else None
  }

  /** The pair an item contributes: `(src, tgt)` when both are non-empty. */
  function ItemPair(item: Value): Option<Pair>
    requires LanguageInfo(item).Some?
  {
    var language := LanguageInfo(item).value;
    var src := GetOr(language, "sourceLanguage", Null);
    var tgt := GetOr(language, "targetLanguage", Null);
    if NonEmptyStr(src) && NonEmptyStr(tgt) then Some((src.s, tgt.s)) else None
  }

  /**
   * The loop body runs on `item` without raising: `config` and `language` are
   * objects (or absent), and when both languages are truthy the tuple
   * `(src, tgt)` can be added to the set.
   */
  predicate ItemReadable(item: Value) {
    && LanguageInfo(item).Some?
    && var language := LanguageInfo(item).value;
       var src := GetOr(language, "sourceLanguage", Null);
       var tgt := GetOr(language, "targetLanguage", Null);
       !(Truthy(src) && Truthy(tgt) && (Unhashable(src) || Unhashable(tgt)))
  }

  predicate ItemsShaped(items: seq<Value>) {
    forall i :: 0 <= i < |items| ==> ItemReadable(items[i])
  }

  /** The request succeeded and the loop runs through the reply without raising. */
  predicate PairsShaped(response: Option<Value>) {
    && response.Some?
    && ResponseItems(response.value).Some?
    && ItemsShaped(ResponseItems(response.value).value)
  }

  /** `available_languages` after the loop has visited `items`. */
  function Collected(items: seq<Value>): set<Pair>
    requires ItemsShaped(items)
  {
    if items == [] then {}
    else
      var last := items[|items| - 1];
      Collected(items[..|items| - 1]) + (if ItemPair(last).Some? then {ItemPair(last).value} else {})
  }

  /** The pairs the reply reports. */
  function AvailablePairs(response: Option<Value>): set<Pair>
    requires PairsShaped(response)
  {
    Collected(ResponseItems(response.value).value)
  }

  /** A pair is collected exactly when some item reports it with both languages non-empty. */
  lemma {:induction false} CollectedMembership(items: seq<Value>, p: Pair)
    requires ItemsShaped(items)
    ensures p in Collected(items) <==> exists i :: 0 <= i < |items| && ItemPair(items[i]) == Some(p)
  {
    if items != [] {
      var init := items[..|items| - 1];
      assert ItemsShaped(init) by {
        forall i | 0 <= i < |init| ensures init[i] == items[i] { }
      }
      CollectedMembership(init, p);
      if p in Collected(init) {
        var i :| 0 <= i < |init| && ItemPair(init[i]) == Some(p);
        assert items[i] == init[i];
      }
      if exists i :: 0 <= i < |items| && ItemPair(items[i]) == Some(p) {
        var i :| 0 <= i < |items| && ItemPair(items[i]) == Some(p);
        if i < |init| {
          assert init[i] == items[i];
        }
      }
    }
  }

  /** Collected pairs always have both languages non-empty. */
  lemma {:induction false} CollectedNonEmpty(items: seq<Value>, p: Pair)
    requires ItemsShaped(items) && p in Collected(items)
    ensures p.0 != "" && p.1 != ""
  {
    CollectedMembership(items, p);
  }

  /** An item whose `config.language` reports `source` and `target`. */
  function ReportedItem(source: Value, target: Value): Value {
    Obj(map["config" := Obj(map["language" := Obj(map["sourceLanguage" := source, "targetLanguage" := target])])])
  }

  /**
   * A truthy list or object among an item's languages makes `add` raise, and
   * `except Exception` then discards the whole reply, good pairs included.
   */
  lemma UnhashableLanguageDiscardsReply(good: Pair, bad: seq<Value>, target: string)
    requires good.0 != "" && good.1 != "" && bad != [] && target != ""
    ensures var reply := Obj(map["pipelineResponse" := Arr([
        ReportedItem(Str(good.0), Str(good.1)), ReportedItem(Arr(bad), Str(target))])]);
      !PairsShaped(Some(reply))
  {
    var items := [ReportedItem(Str(good.0), Str(good.1)), ReportedItem(Arr(bad), Str(target))];
    assert !ItemReadable(items[1]);
  }

  /** One more visited item. */
  lemma CollectedStep(items: seq<Value>, i: nat)
    requires i < |items| && ItemsShaped(items[..i + 1])
    ensures ItemsShaped(items[..i])
    ensures Collected(items[..i + 1]) ==
      Collected(items[..i]) + (if ItemPair(items[i]).Some? then {ItemPair(items[i]).value} else {})
  {
    assert items[..i + 1][..i] == items[..i];
  }

  /** `fetch_available_translation_pairs()`, with the HTTP exchange replaced by its outcome. */
  method FetchAvailableTranslationPairs(response: Option<Value>) returns (pairs: seq<Pair>)
    ensures !PairsShaped(response) ==> pairs == []
    ensures PairsShaped(response) ==> StrictlySorted(pairs)
    ensures PairsShaped(response) ==> forall p :: p in pairs <==> p in AvailablePairs(response)
  {
    if response.None? {
      return [];
    }
    var data := response.value;
    if !data.Obj? {
      return [];
    }
    var listed := Iterable(GetOr(data, "pipelineResponse", Arr([])));
    if listed.None? {
      return [];
    }
    var items := listed.value;
    var available: set<Pair> := {};
    var i := 0;
    while i < |items|
      invariant 0 <= i <= |items|
      invariant ItemsShaped(items[..i])
      invariant available == Collected(items[..i])
    {
      var item := items[i];
      var info := LanguageInfo(item);
      if info.None? {
        assert !ItemsShaped(items);
        return [];
      }
      var src := GetOr(info.value, "sourceLanguage", Null);
      var tgt := GetOr(info.value, "targetLanguage", Null);
      if Truthy(src) && Truthy(tgt) {
        if Unhashable(src) || Unhashable(tgt) {
          assert !ItemsShaped(items);
          return [];
        }
        if NonEmptyStr(src) && NonEmptyStr(tgt) {
          available := available + {(src.s, tgt.s)};
        }
      }
      assert ItemsShaped(items[..i + 1]) by {
        forall k | 0 <= k < i + 1 ensures items[..i + 1][k] == items[k] { }
      }
      CollectedStep(items, i);
      i := i + 1;
    }
    assert items[..i] == items;
    pairs := SortPairs(available);
  }
}
