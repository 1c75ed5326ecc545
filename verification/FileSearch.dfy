// The bounded search of a file tree by name.
module FileSearch {
  import opened GoStrings
  import opened Sequences

  const MAX_VISITED := 5000

  // A directory entry. Of a directory, whether it can be listed; of any entry, whether its info can be had.
  datatype Node = Node(name: string, directory: bool, info: bool, listed: bool, children: seq<Node>)

  // A node at its path below the root.
  datatype Entry = Entry(path: string, node: Node)
  datatype Item = Item(name: string, path: string, directory: bool)

  // filepath.Join, for a name with no separator in it.
  function PathOf(dir: string, name: string): string {
    if dir == "." then name else dir + "/" + name
  }

  // isIgnoredSearchDir.
  predicate Ignored(name: string) {
    || name == ".git" || name == ".hg" || name == ".svn" || name == "node_modules" || name == ".nuxt"
    || name == ".output" || name == "dist" || name == "build" || name == "coverage" || name == ".cache"
    || name == "vendor"
  }

  predicate Descends(n: Node) {
    n.directory && !Ignored(n.name)
  }

  // ----- queries -----

  function Word(s: string): (w: string)
    ensures w <= s && (s != [] && !IsSpace(s[0]) ==> w != [])
  {
    if s == [] || IsSpace(s[0]) then [] else [s[0]] + Word(s[1..])
  }

  // strings.Fields.
  function Fields(s: string): seq<string>
    decreases |s|
  {
    if s == [] then []
    else if IsSpace(s[0]) then Fields(s[1..])
    else [Word(s)] + Fields(s[|Word(s)|..])
  }

  // strings.Contains.
  predicate Occurs(token: string, text: string) {
    token <= text || (text != [] && Occurs(token, text[1..]))
  }

  predicate MatchesAll(tokens: seq<string>, name: string, path: string) {
    forall i :: 0 <= i < |tokens| ==> Occurs(tokens[i], name) || Occurs(tokens[i], path)
  }

  // fileSearchMatches, on its loop over the tokens.
  method Matching(query: string, name: string, path: string) returns (r: bool)
    ensures r <==> Matches(query, name, path)
  {
    if query == "" { return true; }
    var tokens := Fields(query);
    for i := 0 to |tokens|
      invariant forall k :: 0 <= k < i ==> Occurs(tokens[k], LowerAll(name)) || Occurs(tokens[k], LowerAll(path))
    {
      if !Occurs(tokens[i], LowerAll(name)) && !Occurs(tokens[i], LowerAll(path)) { return false; }
    }
    r := true;
  }

  predicate Matches(query: string, name: string, path: string) {
    MatchesAll(Fields(query), LowerAll(name), LowerAll(path))
  }

  lemma {:induction false} OccursBehind(token: string, a: string, b: string)
    requires Occurs(token, b)
    ensures Occurs(token, a + b)
  {
    if a == [] {
      EmptyFront(a, b);
    } else {
      OccursBehind(token, a[1..], b);
      ConcatFirst(a, b);
    }
  }

  predicate AllOccur(tokens: seq<string>, text: string) {
    forall i :: 0 <= i < |tokens| ==> Occurs(tokens[i], text)
  }

  // An entry matches exactly when every token occurs in its path; its name adds nothing.
  lemma PathDecides(query: string, dir: string, name: string)
    ensures Matches(query, name, PathOf(dir, name)) <==> AllOccur(Fields(query), LowerAll(PathOf(dir, name)))
  {
    var tokens, n, p := Fields(query), LowerAll(name), LowerAll(PathOf(dir, name));
    forall i | 0 <= i < |tokens| ensures Occurs(tokens[i], n) || Occurs(tokens[i], p) <==> Occurs(tokens[i], p) {
      if dir != "." && Occurs(tokens[i], n) {
        LowerAppend(dir + "/", name);
        OccursBehind(tokens[i], LowerAll(dir + "/"), n);
      }
    }
    assert Matches(query, name, PathOf(dir, name)) <==> MatchesAll(tokens, n, p);
    assert MatchesAll(tokens, n, p) <==> AllOccur(tokens, p);
  }

  // ----- the plain form: the tree level by level -----

  function Entries(dir: string, nodes: seq<Node>): seq<Entry> {
    if nodes == [] then [] else [Entry(PathOf(dir, nodes[0].name), nodes[0])] + Entries(dir, nodes[1..])
  }

  // What a directory lists; nothing if it cannot be opened or read.
  function Listing(e: Entry): seq<Entry> {
    if e.node.listed then Entries(e.path, e.node.children) else []
  }

  function Listings(dirs: seq<Entry>): seq<Entry> {
    if dirs == [] then [] else Listing(dirs[0]) + Listings(dirs[1..])
  }

  // The directories to go down into.
  function Down(entries: seq<Entry>): seq<Entry> {
    if entries == [] then []
    else (if Descends(entries[0].node) then [entries[0]] else []) + Down(entries[1..])
  }

  function Weight(n: Node): (w: nat)
    ensures w > 0
  {
    1 + Weights(n.children)
  }

  function Weights(ns: seq<Node>): nat {
    if ns == [] then 0 else Weight(ns[0]) + Weights(ns[1..])
  }

  function EntryWeights(es: seq<Entry>): nat {
    if es == [] then 0 else Weight(es[0].node) + EntryWeights(es[1..])
  }

  lemma {:induction false} EntriesWeigh(dir: string, nodes: seq<Node>)
    ensures EntryWeights(Entries(dir, nodes)) == Weights(nodes)
  {
    if nodes != [] {
      EntriesWeigh(dir, nodes[1..]);
      ConsFirst(Entry(PathOf(dir, nodes[0].name), nodes[0]), Entries(dir, nodes[1..]));
    }
  }

  lemma {:induction false} WeightsAppend(a: seq<Entry>, b: seq<Entry>)
    ensures EntryWeights(a + b) == EntryWeights(a) + EntryWeights(b)
  {
    if a == [] {
      EmptyFront(a, b);
    } else {
      WeightsAppend(a[1..], b);
      ConcatFirst(a, b);
    }
  }

  lemma {:induction false} DownWeighsLess(es: seq<Entry>)
    ensures EntryWeights(Down(es)) <= EntryWeights(es)
  {
    if es != [] {
      DownWeighsLess(es[1..]);
      WeightsAppend(if Descends(es[0].node) then [es[0]] else [], Down(es[1..]));
    }
  }

  lemma ListingWeighsLess(e: Entry)
    ensures EntryWeights(Listing(e)) < Weight(e.node)
  {
    EntriesWeigh(e.path, e.node.children);
  }

  lemma {:induction false} ListingsWeighLess(dirs: seq<Entry>)
    ensures EntryWeights(Listings(dirs)) <= EntryWeights(dirs)
    ensures dirs != [] ==> EntryWeights(Listings(dirs)) < EntryWeights(dirs)
  {
    if dirs != [] {
      ListingWeighsLess(dirs[0]);
      ListingsWeighLess(dirs[1..]);
      WeightsAppend(Listing(dirs[0]), Listings(dirs[1..]));
    }
  }

  // All entries below some directories: first what they list, then the next level.
  function Levels(dirs: seq<Entry>): seq<Entry>
    decreases EntryWeights(dirs)
  {
    if dirs == [] then []
    else
      ListingsWeighLess(dirs);
      DownWeighsLess(Listings(dirs));
      Listings(dirs) + Levels(Down(Listings(dirs)))
  }

  // ----- the queue -----

  lemma QueueShrinks(queue: seq<Entry>)
    requires queue != []
    ensures EntryWeights(queue[1..] + Down(Listing(queue[0]))) < EntryWeights(queue)
  {
    ListingWeighsLess(queue[0]);
    DownWeighsLess(Listing(queue[0]));
    WeightsAppend(queue[1..], Down(Listing(queue[0])));
  }

  // The entries in the order in which a queue of directories gives them.
  function Queued(queue: seq<Entry>): seq<Entry>
    decreases EntryWeights(queue)
  {
    if queue == [] then []
    else
      QueueShrinks(queue);
      Listing(queue[0]) + Queued(queue[1..] + Down(Listing(queue[0])))
  }

  lemma {:induction false} DownAppend(a: seq<Entry>, b: seq<Entry>)
    ensures Down(a + b) == Down(a) + Down(b)
  {
    if a == [] {
      EmptyFront(a, b);
    } else {
      DownAppend(a[1..], b);
      ConcatFirst(a, b);
      Regroup(if Descends(a[0].node) then [a[0]] else [], Down(a[1..]), Down(b));
    }
  }

  lemma QueuedCons(e: Entry, queue: seq<Entry>)
    ensures Queued([e] + queue) == Listing(e) + Queued(queue + Down(Listing(e)))
  {
    ConsFirst(e, queue);
  }

  // The queue finishes the level in front of it before it starts on what was put behind.
  lemma {:induction false} QueueFinishesLevel(level: seq<Entry>, next: seq<Entry>)
    ensures Queued(level + next) == Listings(level) + Queued(next + Down(Listings(level)))
    decreases |level|
  {
    if level == [] {
      assert level + next == next && next + Down(Listings(level)) == next;
    } else {
      var first, rest := Listing(level[0]), level[1..];
      FirstAndRest(level);
      Regroup([level[0]], rest, next);
      QueuedCons(level[0], rest + next);
      Regroup(rest, next, Down(first));
      QueueFinishesLevel(rest, next + Down(first));
      LevelDown(first, Listings(rest), next);
    }
  }

  lemma LevelDown(first: seq<Entry>, others: seq<Entry>, next: seq<Entry>)
    ensures (next + Down(first)) + Down(others) == next + Down(first + others)
  {
    DownAppend(first, others);
    Regroup(next, Down(first), Down(others));
  }

  // Breadth first is level by level.
  lemma {:induction false} QueueIsLevels(dirs: seq<Entry>)
    ensures Queued(dirs) == Levels(dirs)
    decreases EntryWeights(dirs)
  {
    if dirs != [] {
      QueueFinishesLevel(dirs, []);
      assert dirs + [] == dirs && [] + Down(Listings(dirs)) == Down(Listings(dirs));
      ListingsWeighLess(dirs);
      DownWeighsLess(Listings(dirs));
      QueueIsLevels(Down(Listings(dirs)));
    }
  }

  // ----- the search -----

  predicate Hit(query: string, e: Entry) {
    e.node.info && Matches(query, e.node.name, e.path)
  }

  function ItemOf(e: Entry): Item {
    Item(e.node.name, e.path, e.node.directory)
  }

  function Hits(query: string, entries: seq<Entry>): seq<Item> {
    if entries == [] then []
    else (if Hit(query, entries[0]) then [ItemOf(entries[0])] else []) + Hits(query, entries[1..])
  }

  function First<T>(s: seq<T>, n: nat): seq<T> {
    if |s| <= n then s else s[..n]
  }

  // The plain form of the search.
  function Found(root: Node, query: string, limit: nat): seq<Item> {
    First(Hits(query, First(Levels([Entry(".", root)]), MAX_VISITED)), limit)
  }

  lemma {:induction false} HitsAppend(query: string, a: seq<Entry>, b: seq<Entry>)
    ensures Hits(query, a + b) == Hits(query, a) + Hits(query, b)
  {
    if a == [] {
      EmptyFront(a, b);
    } else {
      HitsAppend(query, a[1..], b);
      ConcatFirst(a, b);
      Regroup(if Hit(query, a[0]) then [ItemOf(a[0])] else [], Hits(query, a[1..]), Hits(query, b));
    }
  }

  lemma HitsStep(query: string, entries: seq<Entry>, i: nat)
    requires i < |entries|
    ensures Hits(query, entries[..i + 1]) == Hits(query, entries[..i]) + if Hit(query, entries[i]) then [ItemOf(entries[i])] else []
    ensures Down(entries[..i + 1]) == Down(entries[..i]) + if Descends(entries[i].node) then [entries[i]] else []
  {
    TakeOneMore(entries, i);
    HitsAppend(query, entries[..i], [entries[i]]);
    DownAppend(entries[..i], [entries[i]]);
  }

  // The loop over one directory's entries; `seen` is how many of them were visited.
  method Scan(entries: seq<Entry>, query: string, limit: nat, budget: nat, found: seq<Item>)
    returns (items: seq<Item>, down: seq<Entry>, seen: nat)
    requires |found| < limit && 0 < budget
    ensures seen <= |entries| && seen <= budget && |items| <= limit
    ensures items == found + Hits(query, entries[..seen])
    ensures |items| < limit && seen < budget ==> seen == |entries|
    ensures |items| < limit ==> down == Down(entries[..seen])
    ensures EntryWeights(down) <= EntryWeights(entries)
  {
    items, down, seen := found, [], 0;
    while seen < |entries|
      invariant seen <= |entries| && seen <= budget && |items| <= limit
      invariant items == found + Hits(query, entries[..seen])
      invariant down == Down(entries[..seen])
      decreases |entries| - seen
    {
      if |items| >= limit || seen >= budget { break; }
      var e := entries[seen];
      HitsStep(query, entries, seen);
      Regroup(found, Hits(query, entries[..seen]), [ItemOf(e)]);
      seen := seen + 1;
      var matches := true;
      if query != "" { matches := Matching(query, e.node.name, e.path); } else { EmptyQueryMatches(e); }
      if matches && e.node.info {
        items := items + [ItemOf(e)];
        if |items| >= limit {
          DownOfPart(entries, seen - 1);
          return;
        }
      }
      if Descends(e.node) { down := down + [e]; }
    }
    assert entries[..|entries|] == entries;
    DownOfPart(entries, seen);
  }

  lemma EmptyQueryMatches(e: Entry)
    ensures Matches("", e.node.name, e.path)
  {
  }

  lemma DownOfPart(entries: seq<Entry>, n: nat)
    requires n <= |entries|
    ensures EntryWeights(Down(entries[..n])) <= EntryWeights(entries)
  {
    DownWeighsLess(entries[..n]);
    Halves(entries, n);
    WeightsAppend(entries[..n], entries[n..]);
  }

  lemma SkipStep(queue: seq<Entry>)
    requires queue != [] && !queue[0].node.listed
    ensures Queued(queue) == Queued(queue[1..])
    ensures EntryWeights(queue[1..]) < EntryWeights(queue)
  {
    QueuedCons(queue[0], queue[1..]);
    FirstAndRest(queue);
    assert queue[1..] + [] == queue[1..];
  }

  lemma PartIsPrefix(part: seq<Entry>, after: seq<Entry>, all: seq<Entry>)
    requires all == part + after
    ensures part <= all
  {
  }

  lemma Advance(all: seq<Entry>, done: seq<Entry>, rest: seq<Entry>, part: seq<Entry>, after: seq<Entry>)
    requires all == done + rest && part <= rest
    ensures done + part <= all && (rest == part + after ==> all == (done + part) + after)
  {
  }

  lemma ScanShrinks(queue: seq<Entry>, entries: seq<Entry>, down: seq<Entry>)
    requires queue != [] && entries == Listing(queue[0]) && EntryWeights(down) <= EntryWeights(entries)
    ensures EntryWeights(queue[1..] + down) < EntryWeights(queue)
  {
    ListingWeighsLess(queue[0]);
    WeightsAppend(queue[1..], down);
  }

  lemma ScanStep(queue: seq<Entry>, entries: seq<Entry>, down: seq<Entry>, seen: nat)
    requires queue != [] && entries == Listing(queue[0]) && seen <= |entries|
    ensures entries[..seen] <= Queued(queue)
    ensures seen == |entries| && down == Down(entries) ==> Queued(queue) == entries[..seen] + Queued(queue[1..] + down)
  {
    var rest := Queued(queue[1..] + Down(entries));
    var all := entries + rest;
    assert Queued(queue) == all;
    PartIsPrefix(entries[..seen], all[seen..], all);
  }

  // Stopping early is right: nothing more could be among the results.
  lemma SearchEnds(all: seq<Entry>, done: seq<Entry>, query: string, limit: nat)
    requires done <= all && |done| <= MAX_VISITED && |Hits(query, done)| <= limit
    requires done == all || |done| == MAX_VISITED || |Hits(query, done)| == limit
    ensures Hits(query, done) == First(Hits(query, First(all, MAX_VISITED)), limit)
  {
    var visible := First(all, MAX_VISITED);
    assert done <= visible;
    PrefixAndRest(done, visible);
    HitsAppend(query, done, visible[|done|..]);
  }

  // Which entries were visited, and that the queue holds the rest, unless the search is over anyway.
  ghost predicate Underway(start: seq<Entry>, done: seq<Entry>, queue: seq<Entry>, over: bool) {
    done <= Queued(start) && |done| <= MAX_VISITED && (!over ==> Queued(start) == done + Queued(queue))
  }

  lemma UnderwayStep(start: seq<Entry>, done: seq<Entry>, queue: seq<Entry>, part: seq<Entry>, left: seq<Entry>, over: bool)
    requires Underway(start, done, queue, false) && part <= Queued(queue) && |done| + |part| <= MAX_VISITED
    requires !over ==> Queued(queue) == part + Queued(left)
    ensures Underway(start, done + part, left, over)
  {
    var all, rest, after := Queued(start), Queued(queue), Queued(left);
    Advance(all, done, rest, part, after);
  }

  // serviceFileSearchItemsContext, not cancelled.
  method Search(root: Node, query: string, limit: int) returns (items: seq<Item>)
    ensures items == if limit <= 0 then [] else Found(root, query, limit)
  {
    items := [];
    if limit <= 0 { return; }
    var start := [Entry(".", root)];
    var queue, visited := start, 0;
    ghost var done: seq<Entry> := [];
    while queue != [] && |items| < limit && visited < MAX_VISITED
      invariant Underway(start, done, queue, |items| == limit || visited == MAX_VISITED)
      invariant visited == |done| && |items| <= limit && items == Hits(query, done)
      decreases EntryWeights(queue)
    {
      var dir := queue[0];
      if !dir.node.listed {
        SkipStep(queue);
        queue := queue[1..];
        continue;
      }
      var entries := Entries(dir.path, dir.node.children);
      var found, down, seen := Scan(entries, query, limit, MAX_VISITED - visited, items);
      HitsAppend(query, done, entries[..seen]);
      ScanShrinks(queue, entries, down);
      ScanStep(queue, entries, down, seen);
      ghost var over := |found| == limit || visited + seen == MAX_VISITED;
      if !over {
        assert entries[..seen] == entries;
      }
      UnderwayStep(start, done, queue, entries[..seen], queue[1..] + down, over);
      items, queue, visited := found, queue[1..] + down, visited + seen;
      done := done + entries[..seen];
    }
    if queue == [] && |items| < limit && visited < MAX_VISITED {
      assert done == Queued(start);
    }
    SearchEnds(Queued(start), done, query, limit);
    QueueIsLevels(start);
  }
}
