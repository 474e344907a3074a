/** The query-string codec of the frontend. `None` is the `URIError` with which encoding or decoding
    throws. */
module QueryString {
  import opened CodePoints
  import opened Orders
  import opened PercentEncoding
  import opened Wrappers

  const AMPERSAND: CodePoint := 0x26
  const EQUALS: CodePoint := 0x3D

  type Params = map<Text, Text>

  /** Sorting by key. */
  type KeyOrder = Order<Text>

  // ----- Text -----

  /** The position of the first `c`, or the length. */
  function IndexOf(s: Text, c: CodePoint): (k: nat)
    ensures k <= |s| && (k < |s| ==> s[k] == c)
  {
    if s == [] || s[0] == c then 0 else 1 + IndexOf(s[1..], c)
  }

  function Split(s: Text): seq<Text>
    decreases |s|
  {
    var k := IndexOf(s, AMPERSAND);
    if k == |s| then [s] else [s[..k]] + Split(s[k + 1..])
  }

  function Join(parts: seq<Text>): Text {
    if parts == [] then []
    else if |parts| == 1 then parts[0]
    else parts[0] + [AMPERSAND] + Join(parts[1..])
  }

  lemma {:induction false} IndexOfSeparator(a: Text, c: CodePoint, b: Text)
    requires c !in a
    ensures IndexOf(a, c) == |a| && IndexOf(a + [c] + b, c) == |a|
  {
    if a != [] {
      IndexOfSeparator(a[1..], c, b);
      assert (a + [c] + b)[1..] == a[1..] + [c] + b;
    }
  }

  lemma SplitFirst(a: Text, rest: Text)
    requires AMPERSAND !in a
    ensures Split(a + [AMPERSAND] + rest) == [a] + Split(rest)
  {
    var s := a + [AMPERSAND] + rest;
    IndexOfSeparator(a, AMPERSAND, rest);
    assert s[..|a|] == a && s[|a| + 1..] == rest;
  }

  lemma {:induction false} SplitOfJoin(parts: seq<Text>)
    requires parts != [] && forall p | p in parts :: AMPERSAND !in p
    ensures Split(Join(parts)) == parts
  {
    if |parts| == 1 {
      IndexOfSeparator(parts[0], AMPERSAND, []);
    } else {
      assert parts[0] in parts;
      SplitFirst(parts[0], Join(parts[1..]));
      SplitOfJoin(parts[1..]);
      assert [parts[0]] + parts[1..] == parts;
    }
  }

  // ----- The codec -----

  function Part(key: Text, value: Text): Option<Text> {
    if Encode(key).None? || Encode(value).None? then None
    else Some(Encode(key).value + [EQUALS] + Encode(value).value)
  }

  /** The parts for the listed keys. */
  function BuildParts(m: Params, keys: seq<Text>): Option<seq<Text>>
    requires forall k | k in keys :: k in m
  {
    if keys == [] then Some([])
    else
      var last := keys[|keys| - 1];
      var earlier, part := BuildParts(m, keys[..|keys| - 1]), Part(last, m[last]);
      if earlier.None? || part.None? then None else Some(earlier.value + [part.value])
  }

  /** `buildQueryString` */
  function Build(m: Params, order: KeyOrder): Option<Text>
    requires Lists(order(m.Keys), m.Keys)
  {
    var parts := BuildParts(m, order(m.Keys));
    if parts.None? then None else Some(Join(parts.value))
  }

  function ParsePart(m: Params, part: Text): Option<Params> {
    var eq := IndexOf(part, EQUALS);
    if eq == |part| then
      var key := Decode(part);
      if key.None? then None else if key.value != [] then Some(m[key.value := []]) else Some(m)
    else
      var key, value := Decode(part[..eq]), Decode(part[eq + 1..]);
      if key.None? || value.None? then None
      else if key.value != [] && value.value != [] then Some(m[key.value := value.value])
      else Some(m)
  }

  function ParseParts(parts: seq<Text>): Option<Params> {
    if parts == [] then Some(map[])
    else
      var earlier := ParseParts(parts[..|parts| - 1]);
      if earlier.None? then None else ParsePart(earlier.value, parts[|parts| - 1])
  }

  /** `parseQueryString` */
  function Parse(raw: Text): Option<Params> {
    if raw == [] then Some(map[]) else ParseParts(Split(raw))
  }

  method BuildQueryString(entries: Params, order: KeyOrder) returns (built: Option<Text>)
    requires Lists(order(entries.Keys), entries.Keys)
    ensures built == Build(entries, order)
  {
    var parts: seq<Text> := [];
    var sorted := order(entries.Keys);
    for i := 0 to |sorted|
      invariant BuildParts(entries, sorted[..i]) == Some(parts)
    {
      var part := Part(sorted[i], entries[sorted[i]]);
      BuildOneMore(entries, sorted, i);
      if part.None? {
        FailsForGood(entries, sorted, i + 1);
        return None;
      }
      parts := parts + [part.value];
    }
    assert sorted[..|sorted|] == sorted;
    built := Some(Join(parts));
  }

  lemma BuildOneMore(m: Params, keys: seq<Text>, i: nat)
    requires i < |keys| && (forall k | k in keys :: k in m)
    ensures var earlier, part := BuildParts(m, keys[..i]), Part(keys[i], m[keys[i]]);
            BuildParts(m, keys[..i + 1]) ==
            if earlier.None? || part.None? then None else Some(earlier.value + [part.value])
  {
    assert keys[..i + 1][..i] == keys[..i];
  }

  lemma {:induction false} FailsForGood(m: Params, keys: seq<Text>, i: nat)
    requires i <= |keys| && forall k | k in keys :: k in m
    requires BuildParts(m, keys[..i]).None?
    ensures BuildParts(m, keys).None?
    decreases |keys| - i
  {
    if i == |keys| {
      assert keys[..i] == keys;
    } else {
      assert keys[..i + 1][..i] == keys[..i];
      FailsForGood(m, keys, i + 1);
    }
  }

  method ParseQueryString(raw: Text) returns (params: Option<Params>)
    ensures params == Parse(raw)
  {
    var m: Params := map[];
    if raw == [] {
      return Some(m);
    }
    var parts := Split(raw);
    for i := 0 to |parts|
      invariant ParseParts(parts[..i]) == Some(m)
    {
      var next := ReadPart(m, parts[i]);
      ParseNext(parts, i);
      if next.None? {
        ThrowsForGood(parts, i + 1);
        return None;
      }
      m := next.value;
    }
    assert parts[..|parts|] == parts;
    params := Some(m);
  }

  /** The body of the loop. */
  method ReadPart(m: Params, part: Text) returns (next: Option<Params>)
    ensures next == ParsePart(m, part)
  {
    var eq := IndexOf(part, EQUALS);
    if eq == |part| {
      var key := Decode(part);
      if key.None? {
        return None;
      }
      return Some(if key.value != [] then m[key.value := []] else m);
    }
    var key, value := Decode(part[..eq]), Decode(part[eq + 1..]);
    if key.None? || value.None? {
      return None;
    }
    next := Some(if key.value != [] && value.value != [] then m[key.value := value.value] else m);
  }

  lemma ParseNext(parts: seq<Text>, i: nat)
    requires i < |parts| && ParseParts(parts[..i]).Some?
    ensures ParseParts(parts[..i + 1]) == ParsePart(ParseParts(parts[..i]).value, parts[i])
  {
    assert parts[..i + 1][..i] == parts[..i];
  }

  lemma {:induction false} ThrowsForGood(parts: seq<Text>, i: nat)
    requires i <= |parts| && ParseParts(parts[..i]).None?
    ensures ParseParts(parts).None?
    decreases |parts| - i
  {
    if i == |parts| {
      assert parts[..i] == parts;
    } else {
      assert parts[..i + 1][..i] == parts[..i];
      ThrowsForGood(parts, i + 1);
    }
  }

  // ----- Parsing reads what building wrote -----

  /** The entries a query string can carry: those whose key and value are not empty. */
  function Proper(m: Params): Params {
    map k | k in m && k != [] && m[k] != [] :: m[k]
  }

  lemma NoDelimiter(s: Text)
    requires Encode(s).Some?
    ensures AMPERSAND !in Encode(s).value && EQUALS !in Encode(s).value
  {
    EncodedIsPlain(s);
  }

  lemma PartReads(m: Params, key: Text, value: Text)
    requires Part(key, value).Some?
    ensures AMPERSAND !in Part(key, value).value && Part(key, value).value != []
    ensures ParsePart(m, Part(key, value).value) == Some(if key != [] && value != [] then m[key := value] else m)
  {
    var k, v := Encode(key).value, Encode(value).value;
    NoDelimiter(key);
    NoDelimiter(value);
    IndexOfSeparator(k, EQUALS, v);
    EncodeRoundTrip(key);
    EncodeRoundTrip(value);
    assert (k + [EQUALS] + v)[..|k|] == k && (k + [EQUALS] + v)[|k| + 1..] == v;
  }

  function ProperOn(m: Params, keys: seq<Text>): Params
    requires forall k | k in keys :: k in m
  {
    map k | k in keys && k != [] && m[k] != [] :: m[k]
  }

  lemma {:induction false} PartsArePlain(m: Params, keys: seq<Text>)
    requires (forall k | k in keys :: k in m) && BuildParts(m, keys).Some?
    ensures |BuildParts(m, keys).value| == |keys|
    ensures forall p | p in BuildParts(m, keys).value :: AMPERSAND !in p && p != []
  {
    if keys != [] {
      var last := keys[|keys| - 1];
      PartsArePlain(m, keys[..|keys| - 1]);
      PartReads(map[], last, m[last]);
    }
  }

  lemma {:induction false} PartsRead(m: Params, keys: seq<Text>)
    requires (forall k | k in keys :: k in m) && BuildParts(m, keys).Some?
    ensures ParseParts(BuildParts(m, keys).value) == Some(ProperOn(m, keys))
  {
    if keys != [] {
      var init, last := keys[..|keys| - 1], keys[|keys| - 1];
      assert keys == init + [last];
      PartsRead(m, init);
      OnePartMore(BuildParts(m, init).value, m, init, last);
    }
  }

  lemma OnePartMore(parts: seq<Text>, m: Params, keys: seq<Text>, last: Text)
    requires (forall k | k in keys :: k in m) && last in m && Part(last, m[last]).Some?
    requires ParseParts(parts) == Some(ProperOn(m, keys))
    ensures ParseParts(parts + [Part(last, m[last]).value]) == Some(ProperOn(m, keys + [last]))
  {
    ParseOneMore(parts, Part(last, m[last]).value);
    PartReads(ProperOn(m, keys), last, m[last]);
    OneMore(m, keys, last);
  }

  lemma ParseOneMore(parts: seq<Text>, part: Text)
    requires ParseParts(parts).Some?
    ensures ParseParts(parts + [part]) == ParsePart(ParseParts(parts).value, part)
  {
    assert (parts + [part])[..|parts|] == parts;
  }

  lemma OneMore(m: Params, keys: seq<Text>, last: Text)
    requires (forall k | k in keys :: k in m) && last in m
    ensures ProperOn(m, keys + [last]) ==
            if last != [] && m[last] != [] then ProperOn(m, keys)[last := m[last]] else ProperOn(m, keys)
  {
    assert forall k :: k in keys + [last] <==> k in keys || k == last;
  }

  lemma JoinIsEmpty(parts: seq<Text>)
    requires forall p | p in parts :: p != []
    ensures Join(parts) == [] <==> parts == []
  {
    assert parts != [] ==> parts[0] in parts;
  }

  /** Building then parsing keeps exactly the entries whose key and value are not empty. */
  lemma BuildThenParse(m: Params, order: KeyOrder)
    requires Lists(order(m.Keys), m.Keys) && Build(m, order).Some?
    ensures Parse(Build(m, order).value) == Some(Proper(m))
  {
    var keys := order(m.Keys);
    var parts := BuildParts(m, keys).value;
    PartsRead(m, keys);
    PartsArePlain(m, keys);
    JoinIsEmpty(parts);
    if parts != [] {
      SplitOfJoin(parts);
    }
    assert Proper(m) == ProperOn(m, keys);
  }

  lemma {:induction false} PartIsAt(m: Params, keys: seq<Text>, k: nat)
    requires (forall x | x in keys :: x in m) && BuildParts(m, keys).Some? && k < |keys|
    ensures |BuildParts(m, keys).value| == |keys|
    ensures Some(BuildParts(m, keys).value[k]) == Part(keys[k], m[keys[k]])
  {
    var n := |keys| - 1;
    PartsArePlain(m, keys);
    PartsArePlain(m, keys[..n]);
    if k < n {
      PartIsAt(m, keys[..n], k);
    }
  }

  /** The parts between the ampersands are the entries, encoded, in the order of the sorted keys. */
  lemma PartsInOrder(m: Params, order: KeyOrder, k: nat)
    requires Lists(order(m.Keys), m.Keys) && Build(m, order).Some? && k < |order(m.Keys)|
    ensures var key, parts := order(m.Keys)[k], Split(Build(m, order).value);
            && |parts| == |order(m.Keys)|
            && Encode(key).Some? && Encode(m[key]).Some?
            && parts[k] == Encode(key).value + [EQUALS] + Encode(m[key]).value
  {
    var keys := order(m.Keys);
    PartsArePlain(m, keys);
    SplitOfJoin(BuildParts(m, keys).value);
    PartIsAt(m, keys, k);
  }

  /** So the round trip is the identity exactly on the maps without an empty key or value. */
  lemma RoundTrip(m: Params, order: KeyOrder)
    requires Lists(order(m.Keys), m.Keys) && Build(m, order).Some?
    ensures Parse(Build(m, order).value) == Some(m) <==> forall k | k in m :: k != [] && m[k] != []
  {
    BuildThenParse(m, order);
    if forall k | k in m :: k != [] && m[k] != [] {
      assert Proper(m) == m;
    } else {
      var k :| k in m && (k == [] || m[k] == []);
      assert k !in Proper(m);
    }
  }

  /** Building throws exactly on a lone surrogate. */
  ghost predicate Encodable(m: Params) {
    forall k | k in m :: WellFormed(k) && WellFormed(m[k])
  }

  lemma {:induction false} BuildPartsThrows(m: Params, keys: seq<Text>)
    requires forall k | k in keys :: k in m
    ensures BuildParts(m, keys).Some? <==> forall k | k in keys :: WellFormed(k) && WellFormed(m[k])
  {
    if keys != [] {
      var init, last := keys[..|keys| - 1], keys[|keys| - 1];
      BuildPartsThrows(m, init);
      EncodeRoundTrip(last);
      EncodeRoundTrip(m[last]);
      assert keys == init + [last];
    }
  }

  lemma BuildThrows(m: Params, order: KeyOrder)
    requires Lists(order(m.Keys), m.Keys)
    ensures Build(m, order).Some? <==> Encodable(m)
  {
    BuildPartsThrows(m, order(m.Keys));
  }

  /** What parses from a well-formed raw string can be built again. */
  lemma {:induction false} ParsedIsEncodable(parts: seq<Text>)
    requires (forall p | p in parts :: WellFormed(p)) && ParseParts(parts).Some?
    ensures Encodable(ParseParts(parts).value)
  {
    if parts != [] {
      var init, last := parts[..|parts| - 1], parts[|parts| - 1];
      ParsedIsEncodable(init);
      var eq := IndexOf(last, EQUALS);
      if eq == |last| {
        DecodedIsWellFormed(last);
      } else {
        DecodedIsWellFormed(last[..eq]);
        DecodedIsWellFormed(last[eq + 1..]);
      }
    }
  }

  lemma {:induction false} SplitIsWellFormed(s: Text)
    requires WellFormed(s)
    ensures forall p | p in Split(s) :: WellFormed(p)
    decreases |s|
  {
    var k := IndexOf(s, AMPERSAND);
    if k < |s| {
      SplitIsWellFormed(s[k + 1..]);
    }
  }

  lemma {:induction false} SplitAppend(raw: Text, part: Text)
    requires AMPERSAND !in part
    ensures Split(raw + [AMPERSAND] + part) == Split(raw) + [part]
    decreases |raw|
  {
    var k := IndexOf(raw, AMPERSAND);
    NotBefore(raw, AMPERSAND);
    if k == |raw| {
      SplitFirst(raw, part);
      IndexOfSeparator(part, AMPERSAND, []);
    } else {
      var first, rest := raw[..k], raw[k + 1..];
      SplitAppend(rest, part);
      assert Split(raw + [AMPERSAND] + part) == [first] + Split(rest + [AMPERSAND] + part) by {
        AppendBehind(raw, k, part);
        SplitFirst(first, rest + [AMPERSAND] + part);
      }
    }
  }

  lemma AppendBehind(raw: Text, k: nat, part: Text)
    requires k < |raw| && raw[k] == AMPERSAND
    ensures raw + [AMPERSAND] + part == raw[..k] + [AMPERSAND] + (raw[k + 1..] + [AMPERSAND] + part)
  {
    assert raw == raw[..k] + [AMPERSAND] + raw[k + 1..];
  }

  lemma {:induction false} NotBefore(s: Text, c: CodePoint)
    ensures c !in s[..IndexOf(s, c)]
  {
    if s != [] && s[0] != c {
      NotBefore(s[1..], c);
      assert s[..IndexOf(s, c)] == [s[0]] + s[1..][..IndexOf(s[1..], c)];
    }
  }

  /** Of two parts with the same key the later one counts. */
  lemma LaterPartWins(raw: Text, key: Text, value: Text)
    requires raw != [] && Parse(raw).Some? && key != [] && value != [] && Part(key, value).Some?
    ensures Parse(raw + [AMPERSAND] + Part(key, value).value) == Some(Parse(raw).value[key := value])
  {
    PartReads(Parse(raw).value, key, value);
    SplitAppend(raw, Part(key, value).value);
    ParseOneMore(Split(raw), Part(key, value).value);
  }

  // ----- The query string determines the map -----

  lemma SamePart(k1: Text, v1: Text, k2: Text, v2: Text)
    requires Part(k1, v1).Some? && Part(k1, v1) == Part(k2, v2)
    ensures k1 == k2 && v1 == v2
  {
    var a1, b1, a2, b2 := Encode(k1).value, Encode(v1).value, Encode(k2).value, Encode(v2).value;
    NoDelimiter(k1);
    NoDelimiter(k2);
    IndexOfSeparator(a1, EQUALS, b1);
    IndexOfSeparator(a2, EQUALS, b2);
    assert a1 == (a1 + [EQUALS] + b1)[..|a1|] == a2;
    assert b1 == (a1 + [EQUALS] + b1)[|a1| + 1..] == b2;
    EncodeRoundTrip(k1);
    EncodeRoundTrip(v1);
    EncodeRoundTrip(k2);
    EncodeRoundTrip(v2);
  }

  lemma {:induction false} SameParts(m1: Params, keys1: seq<Text>, m2: Params, keys2: seq<Text>)
    requires (forall k | k in keys1 :: k in m1) && (forall k | k in keys2 :: k in m2)
    requires BuildParts(m1, keys1).Some? && BuildParts(m1, keys1) == BuildParts(m2, keys2)
    ensures keys1 == keys2 && forall k | k in keys1 :: m1[k] == m2[k]
  {
    PartsArePlain(m1, keys1);
    PartsArePlain(m2, keys2);
    if keys1 != [] {
      var init1, last1 := keys1[..|keys1| - 1], keys1[|keys1| - 1];
      var init2, last2 := keys2[..|keys2| - 1], keys2[|keys2| - 1];
      var parts1, parts2 := BuildParts(m1, init1).value, BuildParts(m2, init2).value;
      LastOf(parts1, Part(last1, m1[last1]).value, parts2, Part(last2, m2[last2]).value);
      SameParts(m1, init1, m2, init2);
      SamePart(last1, m1[last1], last2, m2[last2]);
      SnocEqual(m1, keys1, m2, keys2);
    }
  }

  lemma SnocEqual(m1: Params, keys1: seq<Text>, m2: Params, keys2: seq<Text>)
    requires keys1 != [] && keys2 != [] && (forall k | k in keys1 :: k in m1) && (forall k | k in keys2 :: k in m2)
    requires keys1[..|keys1| - 1] == keys2[..|keys2| - 1] && keys1[|keys1| - 1] == keys2[|keys2| - 1]
    requires forall k | k in keys1[..|keys1| - 1] :: m1[k] == m2[k]
    requires m1[keys1[|keys1| - 1]] == m2[keys2[|keys2| - 1]]
    ensures keys1 == keys2 && forall k | k in keys1 :: m1[k] == m2[k]
  {
    assert keys1 == keys1[..|keys1| - 1] + [keys1[|keys1| - 1]];
    assert keys2 == keys2[..|keys2| - 1] + [keys2[|keys2| - 1]];
  }

  lemma LastOf<T>(s: seq<T>, x: T, t: seq<T>, y: T)
    requires s + [x] == t + [y]
    ensures s == t && x == y
  {
    assert |s + [x]| == |t + [y]|;
    assert s == (s + [x])[..|s|] && t == (t + [y])[..|t|];
    assert x == (s + [x])[|s|] && y == (t + [y])[|t|];
  }

  /** Two maps have the same query string exactly when they are equal, empty keys and values included. */
  lemma BuildDetermines(m1: Params, m2: Params, order: KeyOrder)
    requires Lists(order(m1.Keys), m1.Keys) && Lists(order(m2.Keys), m2.Keys)
    requires Build(m1, order).Some? && Build(m2, order).Some?
    ensures Build(m1, order) == Build(m2, order) <==> m1 == m2
  {
    if Build(m1, order) == Build(m2, order) {
      var keys1, keys2 := order(m1.Keys), order(m2.Keys);
      var p1, p2 := BuildParts(m1, keys1).value, BuildParts(m2, keys2).value;
      PartsArePlain(m1, keys1);
      PartsArePlain(m2, keys2);
      JoinIsEmpty(p1);
      JoinIsEmpty(p2);
      if p1 != [] {
        SplitOfJoin(p1);
        SplitOfJoin(p2);
      }
      SameParts(m1, keys1, m2, keys2);
      assert m1.Keys == m2.Keys;
    }
  }
}
