/** The query-parameter hook: reading a parameter from the raw search string, and merging updates into it. */
module QueryParams {
  import opened CodePoints
  import opened Orders
  import opened PercentEncoding
  import opened QueryString
  import opened Wrappers

  const QUESTION: CodePoint := 0x3F

  /** The values to set; `None` is `null`. */
  type Updates = map<Text, Option<Text>>

  // ----- Reading and updating, on values -----

  /** What the updates make of the parameters: `null` and `""` remove. */
  function Updated(m: Params, u: Updates): Params {
    map k | k in m.Keys + u.Keys && (if k in u then u[k].Some? && u[k].value != [] else true) ::
      if k in u then u[k].value else m[k]
  }

  /** What `get` sees: every parameter, or an exception. */
  function View(raw: Text): Option<Params> { Parse(raw) }

  /** `set`: the raw string after it, or an exception, which leaves the string as it was. */
  function AfterSet(raw: Text, u: Updates, order: KeyOrder): Option<Text>
    requires Sorts(order)
  {
    var view := View(raw);
    if view.None? then None
    else
      var current, next := Build(view.value, order), Build(Updated(view.value, u), order);
      if current.None? || next.None? then None
      else if next == current then Some(raw) else next
  }

  // ----- The hook -----

  datatype Navigation = Navigation(url: Text, replace: bool)

  /** The path of a location, and what `newSearch` makes of it. */
  function Url(location: Text, search: Text): Text {
    var path := location[..IndexOf(location, QUESTION)];
    if search == [] then path else path + [QUESTION] + search
  }

  /** The new URL has the path of the old one, and the part after the question mark is the new search
      string; there is no question mark if that is empty. */
  lemma UrlReadsBack(path: Text, rest: Text, search: Text)
    requires QUESTION !in path && (rest == [] || rest[0] == QUESTION)
    ensures var url := Url(path + rest, search);
            && path <= url
            && (search == [] ==> url == path)
            && (search != [] ==>
                  |url| == |path| + 1 + |search| && url[|path|] == QUESTION && url[|path| + 1..] == search)
  {
    PathEnds(path, rest);
    assert (path + rest)[..|path|] == path;
  }

  lemma {:induction false} PathEnds(path: Text, rest: Text)
    requires QUESTION !in path && (rest == [] || rest[0] == QUESTION)
    ensures IndexOf(path + rest, QUESTION) == |path|
  {
    if path == [] {
      assert path + rest == rest;
    } else {
      PathEnds(path[1..], rest);
      assert (path + rest)[1..] == path[1..] + rest;
    }
  }

  /** An object of updates: each key once. */
  ghost predicate IsRecord(entries: seq<(Text, Option<Text>)>) {
    forall i, j | 0 <= i < j < |entries| :: entries[i].0 != entries[j].0
  }

  function AsUpdates(entries: seq<(Text, Option<Text>)>): Updates {
    if entries == [] then map[]
    else AsUpdates(entries[..|entries| - 1])[entries[|entries| - 1].0 := entries[|entries| - 1].1]
  }

  class QueryParamsHook {
    var rawSearch: Text               // rawSearchRef
    var navigations: seq<Navigation>
    const order: KeyOrder

    constructor (rawSearch: Text, order: KeyOrder)
      ensures this.rawSearch == rawSearch && navigations == [] && this.order == order
    {
      this.rawSearch, navigations, this.order := rawSearch, [], order;
    }

    method Get(key: Text) returns (value: Option<Option<Text>>)
      ensures value.None? <==> View(rawSearch).None?
      ensures value.Some? ==>
                value.value == if key in View(rawSearch).value then Some(View(rawSearch).value[key]) else None
    {
      var params := ParseQueryString(rawSearch);
      if params.None? {
        return None;
      }
      value := Some(if key in params.value then Some(params.value[key]) else None);
    }

    /** Does nothing if the parameters stay the same; otherwise writes them and navigates, once. */
    method Set(entries: seq<(Text, Option<Text>)>, location: Text, push: bool) returns (ok: bool)
      requires Sorts(order) && IsRecord(entries)
      modifies this
      ensures var u := AsUpdates(entries);
              var after := AfterSet(old(rawSearch), u, order);
              && ok == after.Some?
              && rawSearch == (if ok then after.value else old(rawSearch))
              && navigations == if ok && Updated(View(old(rawSearch)).value, u) != View(old(rawSearch)).value
                                then old(navigations) + [Navigation(Url(location, rawSearch), !push)]
                                else old(navigations)
    {
      ghost var view := View(rawSearch);
      ghost var u := AsUpdates(entries);
      var current := ParseQueryString(rawSearch);
      if current.None? {
        return false;
      }
      var currentSearch := BuildQueryString(current.value, order);
      if currentSearch.None? {
        return false;
      }
      var next := Merge(current.value, entries);
      var newSearch := BuildQueryString(next, order);
      if newSearch.None? {
        return false;
      }
      BuildDetermines(current.value, next, order);
      if newSearch == currentSearch {
        return true;
      }
      rawSearch := newSearch.value;
      navigations := navigations + [Navigation(Url(location, newSearch.value), !push)];
      ok := true;
    }

    /** The loop of `set` over the entries of the updates. */
    static method Merge(m: Params, entries: seq<(Text, Option<Text>)>) returns (next: Params)
      requires IsRecord(entries)
      ensures next == Updated(m, AsUpdates(entries))
    {
      next := m;
      assert Updated(m, map[]) == m;
      for i := 0 to |entries|
        invariant next == Updated(m, AsUpdates(entries[..i]))
      {
        var (key, value) := entries[i];
        assert entries[..i + 1][..i] == entries[..i];
        UpdatedByOne(m, AsUpdates(entries[..i]), key, value);
        if value.None? || value.value == [] {
          next := next - {key};
        } else {
          next := next[key := value.value];
        }
      }
      assert entries[..|entries|] == entries;
    }
  }

  lemma UpdatedByOne(m: Params, u: Updates, key: Text, value: Option<Text>)
    ensures Updated(m, u[key := value]) ==
            if value.None? || value.value == [] then Updated(m, u) - {key} else Updated(m, u)[key := value.value]
  {
  }

  // ----- The update law -----

  /** Neither an empty key nor an empty value. */
  ghost predicate IsProper(m: Params) { forall k | k in m :: k != [] && m[k] != [] }

  /** Raw search strings of a browser hold no lone surrogate. From one, `set` throws exactly when the raw
      string does not decode or the updated parameters hold a lone surrogate. */
  lemma SetThrows(raw: Text, u: Updates, order: KeyOrder)
    requires Sorts(order) && WellFormed(raw)
    ensures AfterSet(raw, u, order).None? <==> View(raw).None? || !Encodable(Updated(View(raw).value, u))
  {
    if View(raw).Some? {
      var view := View(raw).value;
      if raw != [] {
        SplitIsWellFormed(raw);
        ParsedIsEncodable(Split(raw));
      }
      BuildThrows(view, order);
      BuildThrows(Updated(view, u), order);
    }
  }

  /** What reading sees after a `set` that does not throw. */
  function Shown(m: Params, u: Updates): Params {
    if Updated(m, u) == m then m else Proper(Updated(m, u))
  }

  /** After a `set`, reading sees the updated parameters exactly when they were the same anyway or none
      has an empty key or value. The exception is an update of the empty key, and a parameter without `=`:
      it reads as `""` before, and is gone once the query string is written again. */
  lemma GetAfterSet(raw: Text, u: Updates, order: KeyOrder)
    requires Sorts(order) && AfterSet(raw, u, order).Some?
    ensures var view := View(raw).value;
            var updated := Updated(view, u);
            var after := View(AfterSet(raw, u, order).value);
            && after == Some(Shown(view, u))
            && (after == Some(updated) <==> updated == view || IsProper(updated))
  {
    var view := View(raw).value;
    var updated := Updated(view, u);
    BuildDetermines(view, updated, order);
    if updated != view {
      BuildThenParse(updated, order);
      RoundTrip(updated, order);
    }
  }

  /** The updates of two calls as one: the later value of a key wins. */
  function Merged(u: Updates, v: Updates): Updates { u + v }

  lemma UpdatedIsProper(m: Params, u: Updates)
    requires IsProper(m) && [] !in u
    ensures IsProper(Updated(m, u))
  {
  }

  /** Empty keys and values that the first of two updates leaves are gone in any case: only what an update
      sets is left of them. */
  lemma ProperTwice(m: Params, u: Updates, v: Updates)
    ensures Proper(Updated(Proper(Updated(m, u)), v)) == Proper(Updated(m, Merged(u, v)))
  {
    var once := Proper(Updated(m, u));
    var left, right := Proper(Updated(once, v)), Proper(Updated(m, Merged(u, v)));
    forall k
      ensures k in left <==> k in right
      ensures k in left ==> left[k] == right[k]
    {
      ProperUpdatedAt(m, u, k);
      ProperUpdatedAt(once, v, k);
      ProperUpdatedAt(m, Merged(u, v), k);
    }
  }

  lemma ProperUpdatedAt(m: Params, u: Updates, k: Text)
    ensures k in Proper(Updated(m, u)) <==>
            k != [] && if k in u then u[k].Some? && u[k].value != [] else k in m && m[k] != []
    ensures k in Proper(Updated(m, u)) ==> Proper(Updated(m, u))[k] == if k in u then u[k].value else m[k]
  {
  }

  lemma ProperIsItself(m: Params)
    requires IsProper(m)
    ensures Proper(m) == m
  {
  }

  /** What both updates can write, the merged one can. */
  lemma MergedIsEncodable(m: Params, u: Updates, v: Updates)
    requires Encodable(Updated(m, u)) && Encodable(Updated(Proper(Updated(m, u)), v))
    ensures Encodable(Updated(m, Merged(u, v)))
  {
    forall k | k in Updated(m, Merged(u, v))
      ensures WellFormed(k) && WellFormed(Updated(m, Merged(u, v))[k])
    {
      if k in v {
        assert k in Updated(Proper(Updated(m, u)), v);
      } else {
        assert k in Updated(m, u);
      }
    }
  }

  lemma SucceedsOnEncodable(raw: Text, u: Updates, order: KeyOrder)
    requires Sorts(order) && View(raw).Some? && Build(View(raw).value, order).Some?
    ensures AfterSet(raw, u, order).Some? <==> Encodable(Updated(View(raw).value, u))
  {
    BuildThrows(Updated(View(raw).value, u), order);
  }

  /** If both of two calls succeed, the one with the merged updates does. */
  lemma MergedSucceeds(raw: Text, u: Updates, v: Updates, order: KeyOrder)
    requires Sorts(order)
    requires AfterSet(raw, u, order).Some? && AfterSet(AfterSet(raw, u, order).value, v, order).Some?
    ensures AfterSet(raw, Merged(u, v), order).Some?
  {
    var m := View(raw).value;
    GetAfterSet(raw, u, order);
    SucceedsOnEncodable(raw, u, order);
    SucceedsOnEncodable(AfterSet(raw, u, order).value, v, order);
    if Updated(m, u) == m {
      UpdatedTwice(m, u, v);
    } else {
      MergedIsEncodable(m, u, v);
    }
    SucceedsOnEncodable(raw, Merged(u, v), order);
  }

  lemma UpdatedTwice(m: Params, u: Updates, v: Updates)
    ensures Updated(Updated(m, u), v) == Updated(m, Merged(u, v))
  {
  }

  lemma ShownIsProper(m: Params, u: Updates)
    ensures IsProper(m) ==> Shown(m, u) == Proper(Updated(m, u))
    ensures IsProper(Shown(m, u)) <==> IsProper(m) || Updated(m, u) != m
  {
    if IsProper(m) {
      ProperIsItself(m);
    }
  }

  /** Two updates with a look in between show what the merged one shows, unless the first drops an empty
      key or value that the merged one, which changes nothing, leaves. */
  lemma ShownTwice(m: Params, u: Updates, v: Updates)
    ensures Shown(Shown(m, u), v) == Shown(m, Merged(u, v)) <==>
            IsProper(m) || Updated(m, u) == m || Updated(m, Merged(u, v)) != m
  {
    var once := Shown(m, u);
    if Updated(m, u) == m {
      UpdatedTwice(m, u, v);
    } else {
      ShownIsProper(m, u);
      ShownIsProper(once, v);
      ProperTwice(m, u, v);
      ShownIsProper(m, Merged(u, v));
    }
  }

  /** Two calls before a re-render show what one call with the merged updates shows, whichever of the three
      the no-op guard stops, if and only if there were no empty keys or values, or the first call changes
      nothing, or the merged one changes something. */
  lemma TwoSetsAreOne(raw: Text, u: Updates, v: Updates, order: KeyOrder)
    requires Sorts(order)
    requires AfterSet(raw, u, order).Some? && AfterSet(AfterSet(raw, u, order).value, v, order).Some?
    ensures var m, once := View(raw).value, AfterSet(raw, Merged(u, v), order);
            && once.Some?
            && (View(once.value) == View(AfterSet(AfterSet(raw, u, order).value, v, order).value) <==>
                IsProper(m) || Updated(m, u) == m || Updated(m, Merged(u, v)) != m)
  {
    MergedSucceeds(raw, u, v, order);
    GetAfterSet(raw, u, order);
    GetAfterSet(AfterSet(raw, u, order).value, v, order);
    GetAfterSet(raw, Merged(u, v), order);
    ShownTwice(View(raw).value, u, v);
  }

  /** A raw string as `set` writes it. */
  ghost predicate Canonical(raw: Text, order: KeyOrder)
    requires Sorts(order)
  {
    View(raw).Some? && IsProper(View(raw).value) && Build(View(raw).value, order) == Some(raw)
  }

  /** A `set` without an empty key leaves a canonical string canonical. */
  lemma CanonicalStaysCanonical(raw: Text, u: Updates, order: KeyOrder)
    requires Sorts(order) && Canonical(raw, order) && [] !in u && AfterSet(raw, u, order).Some?
    ensures Canonical(AfterSet(raw, u, order).value, order)
  {
    UpdatedIsProper(View(raw).value, u);
    GetAfterSet(raw, u, order);
  }

  /** From a canonical string, even the strings that the two ways write are the same. */
  lemma TwoSetsWriteTheSame(raw: Text, u: Updates, v: Updates, order: KeyOrder)
    requires Sorts(order) && Canonical(raw, order) && [] !in u && [] !in v
    requires AfterSet(raw, u, order).Some? && AfterSet(AfterSet(raw, u, order).value, v, order).Some?
    ensures AfterSet(raw, Merged(u, v), order) == AfterSet(AfterSet(raw, u, order).value, v, order)
  {
    var raw1 := AfterSet(raw, u, order).value;
    TwoSetsAreOne(raw, u, v, order);
    CanonicalStaysCanonical(raw, u, order);
    CanonicalStaysCanonical(raw1, v, order);
    CanonicalStaysCanonical(raw, Merged(u, v), order);
  }

  /** The parameter of `?key`, without `=`, reads as `""`, although the hook is documented to treat the
      empty string as absent; setting any other parameter drops it. */
  lemma BareKeyIsLost(key: Text, other: Text, value: Text, order: KeyOrder)
    requires Sorts(order)
    requires WellFormed(key) && WellFormed(other) && WellFormed(value)
    requires key != [] && other != [] && value != [] && other != key
    ensures Encode(key).Some?
    ensures var raw, u: Updates := Encode(key).value, map[other := Some(value)];
            && View(raw) == Some(map[key := []])
            && AfterSet(raw, u, order).Some?
            && View(AfterSet(raw, u, order).value) == Some(map[other := value])
  {
    BareKeyReadsEmpty(key);
    var raw, u: Updates := Encode(key).value, map[other := Some(value)];
    var bare: Params := map[key := []];
    OtherIsAdded(key, other, value);
    BuildThrows(bare, order);
    BuildThrows(Updated(bare, u), order);
    assert other in Updated(bare, u) && other !in bare;
    GetAfterSet(raw, u, order);
  }

  /** So setting another parameter and taking it back is not the same as doing nothing, which is what the
      two updates merged amount to. */
  lemma SetAndTakenBack(key: Text, other: Text, value: Text, order: KeyOrder)
    requires Sorts(order)
    requires WellFormed(key) && WellFormed(other) && WellFormed(value)
    requires key != [] && other != [] && value != [] && other != key
    ensures Encode(key).Some?
    ensures var raw, u: Updates, v: Updates := Encode(key).value, map[other := Some(value)], map[other := None];
            && AfterSet(raw, u, order).Some?
            && AfterSet(AfterSet(raw, u, order).value, v, order) == Some([])
            && AfterSet(raw, Merged(u, v), order) == Some(raw)
  {
    EncodeRoundTrip(key);
    BareKeyIsLost(key, other, value, order);
    var raw, u: Updates := Encode(key).value, map[other := Some(value)];
    TakenBack(AfterSet(raw, u, order).value, other, value, order);
    BareKeyReadsEmpty(key);
    RemovedUnset(raw, key, other, u, order);
  }

  lemma TakenBack(raw: Text, other: Text, value: Text, order: KeyOrder)
    requires Sorts(order) && WellFormed(other) && WellFormed(value) && View(raw) == Some(map[other := value])
    ensures AfterSet(raw, map[other := None], order) == Some([])
  {
    var both, none: Params := map[other := value], map[];
    assert Updated(both, map[other := None]) == none;
    assert Build(none, order) == Some([]) by { ListsNothing(order(none.Keys), none.Keys); }
    BuildThrows(both, order);
    assert other in both;
    BuildDetermines(both, none, order);
  }

  lemma ListsNothing(keys: seq<Text>, s: set<Text>)
    requires Lists(keys, s)
    ensures s == {} ==> keys == []
  {
    if keys != [] {
      assert keys[0] in s;
    }
  }

  lemma RemovedUnset(raw: Text, key: Text, other: Text, u: Updates, order: KeyOrder)
    requires Sorts(order) && WellFormed(key) && other != key && View(raw) == Some(map[key := []])
    requires u.Keys == {other}
    ensures AfterSet(raw, Merged(u, map[other := None]), order) == Some(raw)
  {
    var bare: Params := map[key := []];
    assert Merged(u, map[other := None]) == map[other := None];
    assert Updated(bare, map[other := None]) == bare;
    BuildThrows(bare, order);
  }

  lemma OtherIsAdded(key: Text, other: Text, value: Text)
    requires other != [] && value != [] && other != key
    ensures var updated := Updated(map[key := []], map[other := Some(value)]);
            updated == map[key := [], other := value] && Proper(updated) == map[other := value]
  {
  }

  lemma BareKeyReadsEmpty(key: Text)
    requires key != [] && WellFormed(key)
    ensures Encode(key).Some? && View(Encode(key).value) == Some(map[key := []])
  {
    EncodeRoundTrip(key);
    var raw := Encode(key).value;
    NoDelimiter(key);
    IndexOfSeparator(raw, AMPERSAND, []);
    IndexOfSeparator(raw, EQUALS, []);
    DecodeOneOfEncodeOne(key[0], Encode(key[1..]).value);
    assert raw != [];
    var parts := Split(raw);
    assert parts == [raw] && parts[..0] == [];
    assert ParseParts(parts) == ParsePart(map[], raw);
  }
}
