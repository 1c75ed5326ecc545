// The settings editor's text forms: string maps, identity links and model references.
module SettingsCodecs {
  import opened Wrappers
  import opened GoStrings
  import opened Sequences

  const COMMA := ','
  const EQUALS := '='
  const SEMICOLON := ';'
  const BAR := '|'
  const SLASH := '/'

  // ----- compact lists -----

  // A piece of text as the parsers keep it.
  predicate Clean(s: string) {
    s != "" && Trimmed(s)
  }

  // A clean piece without a separator.
  predicate Piece(s: string, sep: char) {
    Clean(s) && sep !in s
  }

  function Compact(items: seq<string>): seq<string> {
    if items == [] then []
    else (if Trim(items[0]) == "" then [] else [Trim(items[0])]) + Compact(items[1..])
  }

  lemma CompactFrom(values: seq<string>, i: nat, items: seq<string>)
    requires i < |values|
    ensures items + Compact(values[i..])
            == (if Trim(values[i]) == "" then items else items + [Trim(values[i])]) + Compact(values[i + 1..])
  {
    var kept := if Trim(values[i]) == "" then [] else [Trim(values[i])];
    DropOneMore(values, i);
    assert Compact(values[i..]) == kept + Compact(values[i + 1..]);
    EmptyBack(items, []);
    Regroup(items, kept, Compact(values[i + 1..]));
  }

  // compactStrings, and splitAndCompact on what it split.
  method CompactStrings(values: seq<string>) returns (items: seq<string>)
    ensures items == Compact(values)
  {
    items := [];
    for i := 0 to |values|
      invariant items + Compact(values[i..]) == Compact(values)
    {
      CompactFrom(values, i, items);
      var value := Trim(values[i]);
      if value != "" { items := items + [value]; }
    }
    EmptyBack(items, Compact([]));
  }

  predicate Free(items: seq<string>, c: char) {
    forall s :: s in items ==> c !in s
  }

  // What a list is compacted to is clean, and its characters come from the list.
  lemma {:induction false} CompactIsClean(items: seq<string>, c: char)
    ensures forall p :: p in Compact(items) ==> Clean(p)
    ensures Free(items, c) ==> Free(Compact(items), c)
  {
    if items != [] {
      CompactIsClean(items[1..], c);
      var i, j := TrimIsSlice(items[0]);
      if Free(items, c) {
        assert items[0] in items && c !in Trim(items[0]);
        assert forall s :: s in items[1..] ==> s in items;
      }
    }
  }

  lemma {:induction false} CompactCleanIsFixed(items: seq<string>)
    requires forall p :: p in items ==> Clean(p)
    ensures Compact(items) == items
  {
    if items != [] {
      assert items[0] in items;
      TrimmedIsFixed(items[0]);
      CompactCleanIsFixed(items[1..]);
    }
  }

  // The pieces of a text between separators.
  function Pieces(s: string, sep: char): seq<string> {
    Compact(Split(s, sep))
  }

  lemma PiecesAreClean(s: string, sep: char, c: char)
    ensures forall p :: p in Pieces(s, sep) ==> Piece(p, sep)
    ensures c !in s ==> Free(Pieces(s, sep), c)
  {
    PartsHaveNoSeparator(s, sep);
    CompactIsClean(Split(s, sep), sep);
    CompactIsClean(Split(s, sep), c);
  }

  lemma JoinedPieces(items: seq<string>, sep: char)
    requires items != [] && forall p :: p in items ==> Piece(p, sep)
    ensures Pieces(Join(items, sep), sep) == items
  {
    SplitOfJoin(items, sep);
    CompactCleanIsFixed(items);
  }

  // ----- pairs: two pieces with a separator between -----

  function Pair(first: string, sep: char, second: string): string {
    first + [sep] + second
  }

  lemma PairIsClean(first: string, sep: char, second: string)
    requires Clean(first) && Clean(second)
    ensures Clean(Pair(first, sep, second))
  {
    var s := Pair(first, sep, second);
    assert s[0] == first[0] && s[|s| - 1] == second[|second| - 1];
  }

  // What separates into two texts that are not blank.
  predicate Splits(item: string, sep: char) {
    sep in item && Trim(Before(item, sep)) != "" && Trim(After(item, sep)) != ""
  }

  function Left(item: string, sep: char): string {
    Trim(Before(item, sep))
  }

  function Right(item: string, sep: char): string
    requires sep in item
  {
    Trim(After(item, sep))
  }

  lemma PairSplits(first: string, sep: char, second: string)
    requires Piece(first, sep) && Clean(second)
    ensures Splits(Pair(first, sep, second), sep)
    ensures Left(Pair(first, sep, second), sep) == first && Right(Pair(first, sep, second), sep) == second
  {
    BeforeSeparator(first, sep, second);
    TrimmedIsFixed(first);
    TrimmedIsFixed(second);
  }

  lemma HalvesAreClean(item: string, sep: char, other: char)
    requires Splits(item, sep)
    ensures Piece(Left(item, sep), sep) && Clean(Right(item, sep))
    ensures other !in item ==> other !in Left(item, sep) && other !in Right(item, sep)
  {
    CutsInTwo(item, sep);
    var i, j := TrimIsSlice(Before(item, sep));
    var k, l := TrimIsSlice(After(item, sep));
  }

  // ----- string maps -----

  type StringMap = map<string, string>

  ghost predicate AllSplit(items: seq<string>, sep: char) {
    forall i :: 0 <= i < |items| ==> Splits(items[i], sep)
  }

  // Later pairs win.
  ghost function MapOf(items: seq<string>): StringMap
    requires AllSplit(items, EQUALS)
  {
    if items == [] then map[]
    else
      var last := |items| - 1;
      MapOf(items[..last])[Left(items[last], EQUALS) := Right(items[last], EQUALS)]
  }

  ghost function ParsedMap(value: string): Option<StringMap> {
    var items := Pieces(value, COMMA);
    if AllSplit(items, EQUALS) then Some(MapOf(items)) else None
  }

  lemma MapOfStep(items: seq<string>, i: nat)
    requires i < |items| && AllSplit(items[..i], EQUALS) && Splits(items[i], EQUALS)
    ensures AllSplit(items[..i + 1], EQUALS)
    ensures MapOf(items[..i + 1]) == MapOf(items[..i])[Left(items[i], EQUALS) := Right(items[i], EQUALS)]
  {
    TakeOneMore(items, i);
  }

  method ParseStringMap(value: string) returns (r: Option<StringMap>)
    ensures r == ParsedMap(value)
  {
    var items := CompactStrings(Split(value, COMMA));
    var result: StringMap := map[];
    for i := 0 to |items|
      invariant AllSplit(items[..i], EQUALS) && result == MapOf(items[..i])
    {
      if !Splits(items[i], EQUALS) { return None; }
      MapOfStep(items, i);
      result := result[Left(items[i], EQUALS) := Right(items[i], EQUALS)];
    }
    assert items[..|items|] == items;
    r := Some(result);
  }

  // sort.Strings order: by code units, a prefix first.
  predicate LessEq(a: string, b: string) {
    a == [] || (b != [] && (a[0] < b[0] || (a[0] == b[0] && LessEq(a[1..], b[1..]))))
  }

  predicate Less(a: string, b: string) {
    LessEq(a, b) && a != b
  }

  lemma {:induction false} OrderIsTotal(a: string, b: string, c: string)
    ensures LessEq(a, b) || LessEq(b, a)
    ensures LessEq(a, b) && LessEq(b, a) ==> a == b
    ensures LessEq(a, b) && LessEq(b, c) ==> LessEq(a, c)
    decreases |a| + |b| + |c|
  {
    if a != [] && b != [] {
      OrderIsTotal(a[1..], b[1..], if c == [] then [] else c[1..]);
      FirstAndRest(a);
      FirstAndRest(b);
    }
  }

  ghost predicate Sorted(keys: seq<string>) {
    forall i, j :: 0 <= i < j < |keys| ==> Less(keys[i], keys[j])
  }

  // The keys of a map, each once, in order.
  ghost predicate KeysOf(keys: seq<string>, m: StringMap) {
    Sorted(keys) && forall k :: k in keys <==> k in m
  }

  // There is one such list, so what is written does not depend on the order the map is gone through.
  lemma {:induction false} KeysAreUnique(a: seq<string>, b: seq<string>)
    requires Sorted(a) && Sorted(b) && forall k :: k in a <==> k in b
    ensures a == b
  {
    assert |b| > 0 ==> b[0] in b && b[0] in a;
    if a != [] {
      assert a[0] in b && b != [] && b[0] in a;
      var i :| 0 <= i < |b| && b[i] == a[0];
      var j :| 0 <= j < |a| && a[j] == b[0];
      OrderIsTotal(a[0], b[0], b[0]);
      assert a[0] == b[0];
      forall k ensures k in a[1..] <==> k in b[1..] {
        RestHas(a, k);
        RestHas(b, k);
      }
      KeysAreUnique(a[1..], b[1..]);
      FirstAndRest(a);
      FirstAndRest(b);
    }
  }

  lemma RestHas(keys: seq<string>, k: string)
    requires Sorted(keys) && keys != []
    ensures k in keys[1..] <==> k in keys && k != keys[0]
  {
    if k in keys && k != keys[0] {
      var i :| 0 <= i < |keys| && keys[i] == k;
      assert keys[1..][i - 1] == k;
    }
    if k in keys[1..] {
      var i :| 0 <= i < |keys| - 1 && keys[1..][i] == k;
      assert keys[i + 1] == k && Less(keys[0], keys[i + 1]);
    }
  }

  // sort.Strings.
  function Insert(k: string, keys: seq<string>): seq<string> {
    if keys == [] || LessEq(k, keys[0]) then [k] + keys else [keys[0]] + Insert(k, keys[1..])
  }

  function Sort(keys: seq<string>): seq<string> {
    if keys == [] then [] else Insert(keys[0], Sort(keys[1..]))
  }

  lemma {:induction false} InsertSorts(k: string, keys: seq<string>)
    requires Sorted(keys) && k !in keys
    ensures Sorted(Insert(k, keys)) && forall x :: x in Insert(k, keys) <==> x == k || x in keys
  {
    if keys != [] {
      OrderIsTotal(k, keys[0], keys[0]);
      if LessEq(k, keys[0]) {
        forall i | 0 < i < |keys| ensures Less(k, keys[i]) {
          OrderIsTotal(k, keys[0], keys[i]);
          OrderIsTotal(keys[0], keys[i], keys[i]);
        }
      } else {
        InsertSorts(k, keys[1..]);
        var rest := Insert(k, keys[1..]);
        forall i | 0 <= i < |rest| ensures Less(keys[0], rest[i]) {
          assert rest[i] in rest;
        }
        FrontSorts(keys[0], rest);
      }
    }
  }

  lemma FrontSorts(k: string, keys: seq<string>)
    requires Sorted(keys) && forall i :: 0 <= i < |keys| ==> Less(k, keys[i])
    ensures Sorted([k] + keys)
  {
  }

  ghost predicate Distinct(keys: seq<string>) {
    forall i, j :: 0 <= i < j < |keys| ==> keys[i] != keys[j]
  }

  lemma {:induction false} SortSorts(keys: seq<string>)
    requires Distinct(keys)
    ensures Sorted(Sort(keys)) && forall x :: x in Sort(keys) <==> x in keys
  {
    if keys != [] {
      SortSorts(keys[1..]);
      InsertSorts(keys[0], Sort(keys[1..]));
    }
  }

  function PairsOf(m: StringMap, keys: seq<string>): seq<string>
    requires forall k :: k in keys ==> k in m
  {
    if keys == [] then [] else [Pair(keys[0], EQUALS, m[keys[0]])] + PairsOf(m, keys[1..])
  }

  // What every parsed map is.
  ghost predicate CleanMap(m: StringMap) {
    forall k :: k in m ==> Piece(k, EQUALS) && COMMA !in k && Piece(m[k], COMMA)
  }

  lemma {:induction false} MapOfIsClean(items: seq<string>)
    requires AllSplit(items, EQUALS) && Free(items, COMMA)
    ensures CleanMap(MapOf(items))
  {
    if items != [] {
      var last := |items| - 1;
      assert items[last] in items;
      assert forall s :: s in items[..last] ==> s in items;
      MapOfIsClean(items[..last]);
      HalvesAreClean(items[last], EQUALS, COMMA);
    }
  }

  lemma ParsedIsClean(value: string)
    requires ParsedMap(value).Some?
    ensures CleanMap(ParsedMap(value).value)
  {
    PiecesAreClean(value, COMMA, COMMA);
    MapOfIsClean(Pieces(value, COMMA));
  }

  lemma {:induction false} PairsAre(m: StringMap, keys: seq<string>)
    requires CleanMap(m) && forall k :: k in keys ==> k in m
    ensures Paired(m, keys, PairsOf(m, keys))
  {
    if keys != [] {
      PairsAre(m, keys[1..]);
    }
  }

  lemma PairsAreClean(m: StringMap, keys: seq<string>)
    requires CleanMap(m) && forall k :: k in keys ==> k in m
    ensures forall p :: p in PairsOf(m, keys) ==> Piece(p, COMMA)
    ensures AllSplit(PairsOf(m, keys), EQUALS)
  {
    PairsAre(m, keys);
    var pairs := PairsOf(m, keys);
    forall i | 0 <= i < |pairs| ensures Piece(pairs[i], COMMA) && Splits(pairs[i], EQUALS) {
      var k := keys[i];
      assert k in keys;
      PairIsClean(k, EQUALS, m[k]);
      PairSplits(k, EQUALS, m[k]);
    }
  }

  // The map on the first keys.
  ghost function Picked(m: StringMap, keys: seq<string>, n: nat): (r: StringMap)
    requires n <= |keys| && forall k :: k in keys ==> k in m
    ensures forall k :: k in r <==> k in keys[..n]
    ensures forall k :: k in r ==> r[k] == m[k]
  {
    if n == 0 then map[] else Picked(m, keys, n - 1)[keys[n - 1] := m[keys[n - 1]]]
  }

  // One pair for every key, in order.
  ghost predicate Paired(m: StringMap, keys: seq<string>, pairs: seq<string>) {
    && (forall k :: k in keys ==> k in m) && |keys| == |pairs|
    && forall i :: 0 <= i < |keys| ==> pairs[i] == Pair(keys[i], EQUALS, m[keys[i]])
  }

  // Reading the pairs back.
  lemma {:induction false} MapOfPairs(m: StringMap, keys: seq<string>, pairs: seq<string>, n: nat)
    requires CleanMap(m) && Paired(m, keys, pairs) && n <= |keys| && AllSplit(pairs, EQUALS)
    ensures MapOf(pairs[..n]) == Picked(m, keys, n)
  {
    if n > 0 {
      var k := keys[n - 1];
      assert k in keys;
      CleanPairSplits(m, k);
      MapOfPairs(m, keys, pairs, n - 1);
      MapOfStep(pairs, n - 1);
    }
  }

  lemma CleanPairSplits(m: StringMap, k: string)
    requires CleanMap(m) && k in m
    ensures Left(Pair(k, EQUALS, m[k]), EQUALS) == k && Right(Pair(k, EQUALS, m[k]), EQUALS) == m[k]
  {
    PairSplits(k, EQUALS, m[k]);
  }

  lemma AllPicked(m: StringMap, keys: seq<string>)
    requires KeysOf(keys, m)
    ensures Picked(m, keys, |keys|) == m
  {
    assert keys[..|keys|] == keys;
  }

  lemma JoinedPairsParse(pairs: seq<string>, m: StringMap)
    requires forall p :: p in pairs ==> Piece(p, COMMA)
    requires AllSplit(pairs, EQUALS) && MapOf(pairs) == m
    ensures ParsedMap(Join(pairs, COMMA)) == Some(m)
  {
    if pairs == [] {
      NothingWritten(COMMA);
    } else {
      JoinedPieces(pairs, COMMA);
    }
  }

  lemma NothingWritten(sep: char)
    ensures Pieces(Join([], sep), sep) == []
  {
    var blank: string := [];
    assert Trim(blank) == "" && Join([], sep) == blank && Split(blank, sep) == [blank];
    assert Compact([blank]) == [] + Compact([blank][1..]);
  }

  lemma MapOfAllPairs(m: StringMap, keys: seq<string>, pairs: seq<string>)
    requires CleanMap(m) && KeysOf(keys, m) && Paired(m, keys, pairs) && AllSplit(pairs, EQUALS)
    ensures MapOf(pairs) == m
  {
    AllPicked(m, keys);
    MapOfPairs(m, keys, pairs, |keys|);
    TakeAll(pairs, |keys|);
  }

  lemma CleanMapRoundTrips(m: StringMap, keys: seq<string>)
    requires CleanMap(m) && KeysOf(keys, m)
    ensures ParsedMap(Join(PairsOf(m, keys), COMMA)) == Some(m)
  {
    PairsAre(m, keys);
    PairsAreClean(m, keys);
    MapOfAllPairs(m, keys, PairsOf(m, keys));
    JoinedPairsParse(PairsOf(m, keys), m);
  }

  // A map survives being written and read exactly when its keys and values are clean; what is parsed always is.
  lemma MapRoundTripsExactly(m: StringMap, keys: seq<string>)
    requires KeysOf(keys, m)
    ensures ParsedMap(Join(PairsOf(m, keys), COMMA)) == Some(m) <==> CleanMap(m)
  {
    if CleanMap(m) {
      CleanMapRoundTrips(m, keys);
    } else if ParsedMap(Join(PairsOf(m, keys), COMMA)).Some? {
      ParsedIsClean(Join(PairsOf(m, keys), COMMA));
    }
  }

  lemma ParsedMapRoundTrips(value: string, keys: seq<string>)
    requires ParsedMap(value).Some? && KeysOf(keys, ParsedMap(value).value)
    ensures ParsedMap(Join(PairsOf(ParsedMap(value).value, keys), COMMA)) == ParsedMap(value)
  {
    ParsedIsClean(value);
    CleanMapRoundTrips(ParsedMap(value).value, keys);
  }

  // The text of a map by its sorted keys.
  ghost predicate Writes(r: string, m: StringMap, keys: seq<string>) {
    KeysOf(keys, m) && r == Join(PairsOf(m, keys), COMMA)
  }

  // formatStringMap: one text, however the map is gone through, that reads back exactly if the map is clean.
  method FormatStringMap(values: StringMap) returns (r: string)
    ensures exists keys :: Writes(r, values, keys)
    ensures forall keys :: KeysOf(keys, values) ==> Writes(r, values, keys)
    ensures ParsedMap(r) == Some(values) <==> CleanMap(values)
  {
    var found: seq<string>, left := [], values.Keys;
    while left != {}
      invariant left <= values.Keys && Distinct(found)
      invariant forall k :: k in found <==> k in values && k !in left
      decreases left
    {
      var k :| k in left;
      found, left := found + [k], left - {k};
    }
    SortSorts(found);
    var sorted := Sort(found);
    r := Join(PairsOf(values, sorted), COMMA);
    assert Writes(r, values, sorted);
    forall keys | KeysOf(keys, values) ensures Writes(r, values, keys) {
      KeysAreUnique(keys, sorted);
    }
    MapRoundTripsExactly(values, sorted);
  }

  // ----- model references -----

  datatype ModelRef = ModelRef(provider: string, model: string)

  // Items that do not split are skipped.
  function RefsOf(items: seq<string>): seq<ModelRef> {
    if items == [] then []
    else (if Splits(items[0], SLASH) then [ModelRef(Left(items[0], SLASH), Right(items[0], SLASH))] else []) + RefsOf(items[1..])
  }

  function ParsedRefs(value: string): seq<ModelRef> {
    RefsOf(Pieces(value, COMMA))
  }

  method ParseModelRefs(value: string) returns (refs: seq<ModelRef>)
    ensures refs == ParsedRefs(value)
  {
    var raw := CompactStrings(Split(value, COMMA));
    refs := [];
    for i := 0 to |raw|
      invariant refs + RefsOf(raw[i..]) == RefsOf(raw)
    {
      DropOneMore(raw, i);
      if Splits(raw[i], SLASH) {
        var ref := ModelRef(Left(raw[i], SLASH), Right(raw[i], SLASH));
        Regroup(refs, [ref], RefsOf(raw[i + 1..]));
        refs := refs + [ref];
      }
    }
  }

  // Incomplete references are not written.
  predicate Complete(ref: ModelRef) {
    Trim(ref.provider) != "" && Trim(ref.model) != ""
  }

  function WrittenRefs(refs: seq<ModelRef>): seq<string> {
    if refs == [] then [] else WrittenRef(refs[0]) + WrittenRefs(refs[1..])
  }

  function WrittenRef(ref: ModelRef): seq<string> {
    if Complete(ref) then [Pair(Trim(ref.provider), SLASH, Trim(ref.model))] else []
  }

  lemma WrittenStep(refs: seq<ModelRef>, i: nat, parts: seq<string>)
    requires i < |refs|
    ensures parts + WrittenRefs(refs[i..])
            == (if Complete(refs[i]) then parts + WrittenRef(refs[i]) else parts) + WrittenRefs(refs[i + 1..])
  {
    EmptyBack(parts, []);
    DropOneMore(refs, i);
    assert WrittenRefs(refs[i..]) == WrittenRef(refs[i]) + WrittenRefs(refs[i + 1..]);
    Regroup(parts, WrittenRef(refs[i]), WrittenRefs(refs[i + 1..]));
  }

  method FormatModelRefs(refs: seq<ModelRef>) returns (r: string)
    ensures r == Join(WrittenRefs(refs), COMMA)
    ensures ParsedRefs(r) == refs <==> CleanRefs(refs)
  {
    var parts: seq<string> := [];
    for i := 0 to |refs|
      invariant parts + WrittenRefs(refs[i..]) == WrittenRefs(refs)
    {
      WrittenStep(refs, i, parts);
      if Complete(refs[i]) {
        parts := parts + [Pair(Trim(refs[i].provider), SLASH, Trim(refs[i].model))];
      }
    }
    assert refs[|refs|..] == [] && refs[0..] == refs;
    EmptyBack(parts, WrittenRefs([]));
    r := Join(parts, COMMA);
    RefsRoundTripExactly(refs);
  }

  predicate CleanRef(ref: ModelRef) {
    Piece(ref.provider, SLASH) && COMMA !in ref.provider && Piece(ref.model, COMMA)
  }

  ghost predicate CleanRefs(refs: seq<ModelRef>) {
    forall i :: 0 <= i < |refs| ==> CleanRef(refs[i])
  }

  lemma {:induction false} RefsAreClean(items: seq<string>)
    requires Free(items, COMMA)
    ensures CleanRefs(RefsOf(items))
  {
    if items != [] {
      assert items[0] in items;
      assert forall s :: s in items[1..] ==> s in items;
      RefsAreClean(items[1..]);
      if Splits(items[0], SLASH) {
        HalvesAreClean(items[0], SLASH, COMMA);
      }
    }
  }

  lemma {:induction false} WrittenRefsReadBack(refs: seq<ModelRef>)
    requires CleanRefs(refs)
    ensures RefsOf(WrittenRefs(refs)) == refs
    ensures forall p :: p in WrittenRefs(refs) ==> Piece(p, COMMA)
    ensures refs != [] ==> WrittenRefs(refs) != []
  {
    if refs != [] {
      var ref := refs[0];
      assert CleanRef(ref);
      WrittenRefsReadBack(refs[1..]);
      TrimmedIsFixed(ref.provider);
      TrimmedIsFixed(ref.model);
      PairIsClean(ref.provider, SLASH, ref.model);
      PairSplits(ref.provider, SLASH, ref.model);
      var pair := Pair(ref.provider, SLASH, ref.model);
      assert WrittenRefs(refs) == [pair] + WrittenRefs(refs[1..]);
      ConsFirst(pair, WrittenRefs(refs[1..]));
      assert refs == [ref] + refs[1..];
    }
  }

  // References survive exactly when they are clean; what is parsed always is.
  lemma RefsRoundTripExactly(refs: seq<ModelRef>)
    ensures ParsedRefs(Join(WrittenRefs(refs), COMMA)) == refs <==> CleanRefs(refs)
  {
    var text := Join(WrittenRefs(refs), COMMA);
    PiecesAreClean(text, COMMA, COMMA);
    RefsAreClean(Pieces(text, COMMA));
    if CleanRefs(refs) {
      WrittenRefsReadBack(refs);
      if refs == [] {
        NothingWritten(COMMA);
      } else {
        JoinedPieces(WrittenRefs(refs), COMMA);
      }
    }
  }

  lemma ParsedRefsRoundTrip(value: string)
    ensures ParsedRefs(Join(WrittenRefs(ParsedRefs(value)), COMMA)) == ParsedRefs(value)
  {
    PiecesAreClean(value, COMMA, COMMA);
    RefsAreClean(Pieces(value, COMMA));
    RefsRoundTripExactly(ParsedRefs(value));
  }

  // ----- identity links -----

  datatype Link = Link(canonical: string, peers: seq<string>)

  predicate GoodEntry(entry: string) {
    EQUALS in entry && Left(entry, EQUALS) != "" && Pieces(After(entry, EQUALS), BAR) != []
  }

  function LinkOf(entry: string): Link
    requires GoodEntry(entry)
  {
    Link(Left(entry, EQUALS), Pieces(After(entry, EQUALS), BAR))
  }

  ghost predicate AllGood(entries: seq<string>) {
    forall i :: 0 <= i < |entries| ==> GoodEntry(entries[i])
  }

  ghost function LinksOf(entries: seq<string>): (links: seq<Link>)
    requires AllGood(entries)
    ensures |links| == |entries| && forall i :: 0 <= i < |entries| ==> links[i] == LinkOf(entries[i])
  {
    seq(|entries|, i requires 0 <= i < |entries| => LinkOf(entries[i]))
  }

  ghost function ParsedLinks(value: string): Option<seq<Link>> {
    var entries := Pieces(Trim(value), SEMICOLON);
    if AllGood(entries) then Some(LinksOf(entries)) else None
  }

  method ParseIdentityLinks(value: string) returns (r: Option<seq<Link>>)
    ensures r == ParsedLinks(value)
  {
    var text := Trim(value);
    if text == "" {
      NothingWritten(SEMICOLON);
      return Some([]);
    }
    var entries := Split(text, SEMICOLON);
    var links: seq<Link> := [];
    for i := 0 to |entries|
      invariant ParsedUpTo(entries, i, links)
    {
      var entry := Trim(entries[i]);
      if entry == "" {
        BlankEntry(entries, i, links);
      } else if !GoodEntry(entry) {
        BadEntry(entries, i);
        return None;
      } else {
        NextEntry(entries, i, links);
        links := links + [LinkOf(entry)];
      }
    }
    assert entries[..|entries|] == entries;
    r := Some(links);
  }

  ghost predicate ParsedUpTo(entries: seq<string>, i: nat, links: seq<Link>)
    requires i <= |entries|
  {
    AllGood(Compact(entries[..i])) && links == LinksOf(Compact(entries[..i]))
  }

  lemma BlankEntry(entries: seq<string>, i: nat, links: seq<Link>)
    requires i < |entries| && ParsedUpTo(entries, i, links) && Trim(entries[i]) == ""
    ensures ParsedUpTo(entries, i + 1, links)
  {
    CompactStep(entries, i);
    EmptyBack(Compact(entries[..i]), []);
  }

  lemma NextEntry(entries: seq<string>, i: nat, links: seq<Link>)
    requires i < |entries| && ParsedUpTo(entries, i, links) && Trim(entries[i]) != "" && GoodEntry(Trim(entries[i]))
    ensures ParsedUpTo(entries, i + 1, links + [LinkOf(Trim(entries[i]))])
  {
    CompactStep(entries, i);
  }

  lemma BadEntry(entries: seq<string>, i: nat)
    requires i < |entries| && Trim(entries[i]) != "" && !GoodEntry(Trim(entries[i]))
    ensures !AllGood(Compact(entries))
  {
    CompactStep(entries, i);
    CompactGrows(entries, i + 1);
    assert Compact(entries)[|Compact(entries[..i])|] == Trim(entries[i]);
  }

  lemma {:induction false} CompactAppend(a: seq<string>, b: seq<string>)
    ensures Compact(a + b) == Compact(a) + Compact(b)
  {
    if a == [] {
      EmptyFront(a, b);
    } else {
      CompactAppend(a[1..], b);
      ConcatFirst(a, b);
      Regroup(if Trim(a[0]) == "" then [] else [Trim(a[0])], Compact(a[1..]), Compact(b));
    }
  }

  lemma CompactStep(items: seq<string>, i: nat)
    requires i < |items|
    ensures Compact(items[..i + 1]) == Compact(items[..i]) + if Trim(items[i]) == "" then [] else [Trim(items[i])]
  {
    TakeOneMore(items, i);
    CompactAppend(items[..i], [items[i]]);
  }

  lemma CompactGrows(items: seq<string>, i: nat)
    requires i <= |items|
    ensures Compact(items[..i]) <= Compact(items)
  {
    Halves(items, i);
    CompactAppend(items[..i], items[i..]);
  }

  function WrittenLink(link: Link): string {
    Pair(Trim(link.canonical), EQUALS, Join(Compact(link.peers), BAR))
  }

  // Links without a canonical identity are not written.
  function WrittenIfNamed(link: Link): seq<string> {
    if Trim(link.canonical) == "" then [] else [WrittenLink(link)]
  }

  function WrittenLinks(links: seq<Link>): seq<string> {
    if links == [] then [] else WrittenIfNamed(links[0]) + WrittenLinks(links[1..])
  }

  method FormatIdentityLinks(links: seq<Link>) returns (r: string)
    ensures r == Join(WrittenLinks(links), SEMICOLON)
    ensures ParsedLinks(r) == Some(links) <==> CleanLinks(links)
  {
    var parts: seq<string> := [];
    for i := 0 to |links|
      invariant parts + WrittenLinks(links[i..]) == WrittenLinks(links)
    {
      LinkStep(links, i, parts);
      var canonical := Trim(links[i].canonical);
      if canonical == "" { continue; }
      var peers := CompactStrings(links[i].peers);
      parts := parts + [Pair(canonical, EQUALS, Join(peers, BAR))];
    }
    assert links[|links|..] == [] && links[0..] == links;
    EmptyBack(parts, WrittenLinks([]));
    r := Join(parts, SEMICOLON);
    LinksRoundTripExactly(links);
  }

  lemma LinkStep(links: seq<Link>, i: nat, parts: seq<string>)
    requires i < |links|
    ensures parts + WrittenLinks(links[i..])
            == (if Trim(links[i].canonical) == "" then parts else parts + WrittenIfNamed(links[i])) + WrittenLinks(links[i + 1..])
  {
    EmptyBack(parts, []);
    DropOneMore(links, i);
    assert WrittenLinks(links[i..]) == WrittenIfNamed(links[i]) + WrittenLinks(links[i + 1..]);
    Regroup(parts, WrittenIfNamed(links[i]), WrittenLinks(links[i + 1..]));
  }

  predicate CleanLink(link: Link) {
    && Piece(link.canonical, EQUALS) && SEMICOLON !in link.canonical && link.peers != []
    && (forall p :: p in link.peers ==> Piece(p, BAR)) && Free(link.peers, SEMICOLON)
  }

  ghost predicate CleanLinks(links: seq<Link>) {
    forall i :: 0 <= i < |links| ==> CleanLink(links[i])
  }

  lemma GoodEntryIsClean(entry: string)
    requires GoodEntry(entry) && SEMICOLON !in entry
    ensures CleanLink(LinkOf(entry))
  {
    CutsInTwo(entry, EQUALS);
    var i, j := TrimIsSlice(Before(entry, EQUALS));
    PiecesAreClean(After(entry, EQUALS), BAR, SEMICOLON);
  }

  lemma ParsedLinksAreClean(value: string)
    requires ParsedLinks(value).Some?
    ensures CleanLinks(ParsedLinks(value).value)
  {
    var entries := Pieces(Trim(value), SEMICOLON);
    PiecesAreClean(Trim(value), SEMICOLON, SEMICOLON);
    forall i | 0 <= i < |entries| ensures CleanLink(LinkOf(entries[i])) {
      assert entries[i] in entries;
      GoodEntryIsClean(entries[i]);
    }
  }

  lemma {:induction false} JoinIsClean(items: seq<string>, sep: char)
    requires items != [] && forall p :: p in items ==> Clean(p)
    ensures Clean(Join(items, sep))
    ensures forall c: char :: Free(items, c) && c != sep ==> c !in Join(items, sep)
  {
    assert items[0] in items;
    if |items| > 1 {
      JoinIsClean(items[1..], sep);
      PairIsClean(items[0], sep, Join(items[1..], sep));
      forall c: char | Free(items, c) && c != sep ensures c !in Join(items, sep) {
        assert forall s :: s in items[1..] ==> s in items;
        assert Free(items[1..], c);
      }
    }
  }

  lemma CleanLinkReadsBack(link: Link)
    requires CleanLink(link)
    ensures Piece(WrittenLink(link), SEMICOLON) && GoodEntry(WrittenLink(link)) && LinkOf(WrittenLink(link)) == link
  {
    var text := Join(link.peers, BAR);
    TrimmedIsFixed(link.canonical);
    CompactCleanIsFixed(link.peers);
    JoinIsClean(link.peers, BAR);
    PairIsClean(link.canonical, EQUALS, text);
    BeforeSeparator(link.canonical, EQUALS, text);
    JoinedPieces(link.peers, BAR);
  }

  lemma {:induction false} WrittenLinksAre(links: seq<Link>)
    requires CleanLinks(links)
    ensures |WrittenLinks(links)| == |links|
    ensures forall i :: 0 <= i < |links| ==> WrittenLinks(links)[i] == WrittenLink(links[i])
  {
    if links != [] {
      assert CleanLink(links[0]);
      TrimmedIsFixed(links[0].canonical);
      WrittenLinksAre(links[1..]);
    }
  }

  lemma CleanLinksRoundTrip(links: seq<Link>)
    requires CleanLinks(links)
    ensures ParsedLinks(Join(WrittenLinks(links), SEMICOLON)) == Some(links)
  {
    var written := WrittenLinks(links);
    WrittenLinksAre(links);
    forall i | 0 <= i < |links|
      ensures Piece(written[i], SEMICOLON) && GoodEntry(written[i]) && LinkOf(written[i]) == links[i]
    {
      CleanLinkReadsBack(links[i]);
    }
    if links == [] {
      NothingWritten(SEMICOLON);
    } else {
      JoinIsClean(written, SEMICOLON);
      TrimmedIsFixed(Join(written, SEMICOLON));
      JoinedPieces(written, SEMICOLON);
      assert LinksOf(written) == links;
    }
  }

  // Links survive exactly when they are clean; what is parsed always is.
  lemma LinksRoundTripExactly(links: seq<Link>)
    ensures ParsedLinks(Join(WrittenLinks(links), SEMICOLON)) == Some(links) <==> CleanLinks(links)
  {
    if CleanLinks(links) {
      CleanLinksRoundTrip(links);
    } else if ParsedLinks(Join(WrittenLinks(links), SEMICOLON)).Some? {
      ParsedLinksAreClean(Join(WrittenLinks(links), SEMICOLON));
    }
  }

  lemma ParsedLinksRoundTrip(value: string)
    requires ParsedLinks(value).Some?
    ensures ParsedLinks(Join(WrittenLinks(ParsedLinks(value).value), SEMICOLON)) == ParsedLinks(value)
  {
    ParsedLinksAreClean(value);
    CleanLinksRoundTrip(ParsedLinks(value).value);
  }
}
