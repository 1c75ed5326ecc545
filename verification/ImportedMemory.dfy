// The imported memory notes of the OpenClaw migration: one transaction replaces the notes that carry an
// import tag, and a vector index beside the notes follows.
module ImportedMemory {
  import opened Wrappers
  import opened GoStrings
  import FileWrites

  // ----- tags and SQL patterns -----

  predicate SameLetter(a: char, b: char) {
    Lower(a) == Lower(b)
  }

  // SQLite's LIKE with ESCAPE '\'.
  predicate Like(pattern: string, s: string)
    decreases |pattern|, |s|
  {
    if pattern == [] then s == []
    else if pattern[0] == '\\' then
      |pattern| > 1 && s != [] && SameLetter(pattern[1], s[0]) && Like(pattern[2..], s[1..])
    else if pattern[0] == '%' then Like(pattern[1..], s) || (s != [] && Like(pattern, s[1..]))
    else s != [] && (pattern[0] == '_' || SameLetter(pattern[0], s[0])) && Like(pattern[1..], s[1..])
  }

  // strings.NewReplacer over the three special characters.
  function Escape(tag: string): string {
    if tag == [] then []
    else (if tag[0] in "\\%_" then ['\\', tag[0]] else [tag[0]]) + Escape(tag[1..])
  }

  lemma {:induction false} PercentMatchesAll(s: string)
    ensures Like("%", s)
  {
    if s != [] {
      PercentMatchesAll(s[1..]);
    } else {
      assert "%"[1..] == [];
    }
  }

  // The escaped tag with ",%" behind it matches exactly what starts with the tag and a comma, up to case.
  lemma {:induction false} LikeIsPrefix(tag: string, s: string)
    ensures Like(Escape(tag) + ",%", s) <==> |s| > |tag| && EqualFold(tag + ",", s[..|tag| + 1])
  {
    var pattern := Escape(tag) + ",%";
    if tag == [] {
      assert pattern == ",%" && pattern[1..] == "%";
      if s != [] {
        PercentMatchesAll(s[1..]);
        assert [] + "," == ",";
        assert SameLetter(',', s[0]) == EqualFold(",", s[..1]);
      }
    } else {
      var rest := Escape(tag[1..]) + ",%";
      assert pattern[if tag[0] in "\\%_" then 2 else 1..] == rest;
      if s != [] {
        LikeIsPrefix(tag[1..], s[1..]);
        FoldStep(tag, s);
      }
    }
  }

  lemma FoldStep(tag: string, s: string)
    requires tag != [] && s != []
    ensures (|s| > |tag| && EqualFold(tag + ",", s[..|tag| + 1]))
            <==> (SameLetter(tag[0], s[0]) && |s[1..]| > |tag[1..]| && EqualFold(tag[1..] + ",", s[1..][..|tag[1..]| + 1]))
  {
    if |s| > |tag| {
      assert tag + "," == [tag[0]] + (tag[1..] + ",");
      assert s[..|tag| + 1] == [s[0]] + s[1..][..|tag[1..]| + 1];
      FoldCons(tag[0], tag[1..] + ",", s[0], s[1..][..|tag[1..]| + 1]);
    }
  }

  lemma FoldCons(c: char, a: string, d: char, b: string)
    ensures EqualFold([c] + a, [d] + b) <==> Lower(c) == Lower(d) && EqualFold(a, b)
  {
    var a', b' := [c] + a, [d] + b;
    if EqualFold(a', b') {
      assert Lower(a'[0]) == Lower(b'[0]);
      forall i | 0 <= i < |a| ensures Lower(a[i]) == Lower(b[i]) {
        assert Lower(a'[i + 1]) == Lower(b'[i + 1]);
      }
    }
  }

  // The notes listImportedOpenClawNoteIDs selects by tag.
  predicate Carries(tags: string, tag: string) {
    tags == tag || Like(Escape(tag) + ",%", tags)
  }

  lemma PreparedTagsCarry(tag: string, source: string)
    ensures Carries(tag + ",source:" + source, tag)
  {
    var tags := tag + ",source:" + source;
    LikeIsPrefix(tag, tags);
    assert tags[..|tag| + 1] == tag + ",";
  }

  // ----- notes -----

  datatype Prepared = Prepared(text: string, tags: string, kind: string, embedding: seq<int>, fingerprint: string)
  datatype Note = Note(scope: string, body: Prepared)
  datatype VecRow = VecRow(scope: string, embedding: seq<int>, text: string)

  type Notes = map<int, Note>
  type Index = Option<map<int, VecRow>>  // None when there is no such table

  predicate Embedded(p: Prepared) {
    |p.embedding| >= 4 && |p.embedding| % 4 == 0
  }

  function Stored(p: Prepared, scope: string): Note {
    Note(scope, if Trim(p.kind) == "" then p.(kind := "episode") else p.(kind := Trim(p.kind)))
  }

  predicate Selected(n: Note, scope: string, tag: string) {
    n.scope == scope && Carries(n.body.tags, tag)
  }

  function Kept(notes: Notes, scope: string, tag: string): Notes {
    map id | id in notes && !Selected(notes[id], scope, tag) :: notes[id]
  }

  // The new notes under consecutive identifiers.
  function Added(scope: string, prepared: seq<Prepared>, first: int): (r: Notes)
    ensures forall id :: id in r <==> first <= id < first + |prepared|
    ensures forall i :: 0 <= i < |prepared| ==> r[first + i] == Stored(prepared[i], scope)
    decreases |prepared|
  {
    if prepared == [] then map[]
    else
      var n := |prepared| - 1;
      Added(scope, prepared[..n], first)[first + n := Stored(prepared[n], scope)]
  }

  lemma AddedStep(notes: Notes, scope: string, prepared: seq<Prepared>, first: int, i: nat)
    requires i < |prepared|
    ensures notes + Added(scope, prepared[..i + 1], first)
            == (notes + Added(scope, prepared[..i], first))[first + i := Stored(prepared[i], scope)]
  {
    assert prepared[..i + 1][..i] == prepared[..i];
  }

  // What an import makes of the notes.
  function Replaced(notes: Notes, scope: string, tag: string, prepared: seq<Prepared>, first: int): Notes {
    Kept(notes, scope, tag) + Added(scope, prepared, first)
  }

  ghost predicate Below(notes: Notes, first: int) {
    forall id :: id in notes ==> 0 <= id < first
  }

  lemma CommitReplaces(notes: Notes, ids: seq<int>, tx: Notes, scope: string, tag: string, prepared: seq<Prepared>, first: int)
    requires Below(notes, first) && forall id :: id in ids <==> id in notes && Selected(notes[id], scope, tag)
    requires var all := notes + Added(scope, prepared, first);
             (forall id :: id in tx <==> id in all && id !in ids) && forall id :: id in tx ==> tx[id] == all[id]
    ensures tx == Replaced(notes, scope, tag, prepared, first)
  {
  }

  // After an import the notes of the scope that carry the tag are exactly the new ones, and every other
  // note is as it was.
  lemma ImportIsExact(notes: Notes, scope: string, tag: string, prepared: seq<Prepared>, first: int)
    requires Below(notes, first) && forall p :: p in prepared ==> Carries(p.tags, tag)
    ensures var after := Replaced(notes, scope, tag, prepared, first);
            && (forall id :: id in after && Selected(after[id], scope, tag) <==> first <= id < first + |prepared|)
            && (forall id :: id in notes && !Selected(notes[id], scope, tag) ==> id in after && after[id] == notes[id])
  {
    var after := Replaced(notes, scope, tag, prepared, first);
    forall id | first <= id < first + |prepared| ensures id in after && Selected(after[id], scope, tag) {
      assert prepared[id - first] in prepared;
    }
  }

  // Importing again replaces the first import as if it had not taken place.
  lemma ImportIsRepeatable(notes: Notes, scope: string, tag: string, prepared: seq<Prepared>, again: seq<Prepared>, first: int, second: int)
    requires Below(notes, first) && first + |prepared| <= second
    requires forall p :: p in prepared ==> Carries(p.tags, tag)
    ensures Replaced(Replaced(notes, scope, tag, prepared, first), scope, tag, again, second)
            == Replaced(notes, scope, tag, again, second)
  {
    ImportIsExact(notes, scope, tag, prepared, first);
    var once := Replaced(notes, scope, tag, prepared, first);
    forall id ensures id in Kept(once, scope, tag) <==> id in Kept(notes, scope, tag) {
    }
    assert Kept(once, scope, tag) == Kept(notes, scope, tag);
  }

  // ----- the store -----

  datatype Result = Failed | Imported | ImportedWithoutVectors

  // The rows the index ends up with: none for the replaced notes, one for each new note that has a
  // well-formed embedding, and the others as they were.
  function Synced(table: map<int, VecRow>, gone: set<int>, scope: string, prepared: seq<Prepared>, first: int): (r: map<int, VecRow>)
    ensures forall id :: id in r && !(first <= id < first + |prepared|) <==>
                         id in table && id !in gone && !(first <= id < first + |prepared|)
    ensures forall id :: id in r && !(first <= id < first + |prepared|) ==> r[id] == table[id]
    ensures forall i :: 0 <= i < |prepared| && Embedded(prepared[i]) ==>
                          first + i in r && r[first + i] == VecRow(scope, prepared[i].embedding, prepared[i].text)
    ensures forall i :: 0 <= i < |prepared| && !Embedded(prepared[i]) && first + i !in table ==> first + i !in r
    decreases |prepared|
  {
    if prepared == [] then table - gone
    else
      var n := |prepared| - 1;
      var rows := Synced(table, gone, scope, prepared[..n], first);
      if Embedded(prepared[n]) then rows[first + n := VecRow(scope, prepared[n].embedding, prepared[n].text)] else rows
  }

  function Members(ids: seq<int>): set<int> {
    set id | id in ids
  }

  // No replaced note has a row, and a new note has one, holding its embedding, exactly if it is well formed.
  ghost predicate IndexFollows(rows: map<int, VecRow>, notes: Notes, scope: string, tag: string, prepared: seq<Prepared>, first: int) {
    && (forall id :: id in notes && Selected(notes[id], scope, tag) ==> id !in rows)
    && (forall i :: 0 <= i < |prepared| ==> (first + i in rows <==> Embedded(prepared[i])))
    && (forall i :: 0 <= i < |prepared| && Embedded(prepared[i]) ==>
          rows[first + i] == VecRow(scope, prepared[i].embedding, prepared[i].text))
  }

  lemma SyncedFollows(table: map<int, VecRow>, ids: seq<int>, notes: Notes, scope: string, tag: string, prepared: seq<Prepared>, first: int)
    requires Below(notes, first) && forall id :: id in table ==> id < first
    requires forall id :: id in ids <==> id in notes && Selected(notes[id], scope, tag)
    ensures IndexFollows(Synced(table, Members(ids), scope, prepared, first), notes, scope, tag, prepared, first)
  {
  }

  class Store {
    var notes: Notes
    var nextId: nat                   // identifiers are never used twice
    var index: Index
    const hasVectors: bool            // a vector database is open
    const works: nat -> bool          // whether the n-th statement succeeds
    var clock: nat

    ghost predicate Valid()
      reads this
    {
      Below(notes, nextId) && (index.Some? ==> forall id :: id in index.value ==> id < nextId)
    }

    method Statement() returns (ok: bool)
      modifies this`clock
    {
      ok := works(clock);
      clock := clock + 1;
    }

    // ensureOpenClawEmbeddingProfile: the first embedded note may set the index up anew, over notes there are.
    method EnsureProfile(prepared: seq<Prepared>, rebuilt: Index) returns (ok: bool)
      requires Valid() && (rebuilt.Some? ==> rebuilt.value.Keys <= notes.Keys)
      modifies this`index, this`clock
      ensures Valid() && (index == old(index) || index == rebuilt)
    {
      for i := 0 to |prepared|
        invariant Valid() && index == old(index)
      {
        if Embedded(prepared[i]) {
          ok := Statement();
          if ok && hasVectors { index := rebuilt; }
          return;
        }
      }
      ok := true;
    }

    // listImportedOpenClawNoteIDs; the rows come by identifier.
    method ListImported(scope: string, tag: string) returns (ok: bool, ids: seq<int>)
      requires Valid()
      modifies this`clock
      ensures ok ==> forall id :: id in ids <==> id in notes && Selected(notes[id], scope, tag)
    {
      ids := [];
      ok := Statement();
      if !ok { return; }
      for id := 0 to nextId
        invariant forall k :: k in ids <==> k in notes && k < id && Selected(notes[k], scope, tag)
      {
        if id in notes && Selected(notes[id], scope, tag) { ids := ids + [id]; }
      }
    }

    // The inserts of the transaction.
    method InsertNotes(notes: Notes, first: int, scope: string, prepared: seq<Prepared>) returns (ok: bool, tx: Notes)
      modifies this`clock
      ensures ok ==> tx == notes + Added(scope, prepared, first)
    {
      tx := notes;
      for i := 0 to |prepared|
        invariant tx == notes + Added(scope, prepared[..i], first)
      {
        ok := Statement();
        if !ok { return; }
        AddedStep(notes, scope, prepared, first, i);
        tx := tx[first + i := Stored(prepared[i], scope)];
      }
      assert prepared[..|prepared|] == prepared;
      ok := true;
    }

    // Its deletes.
    method DeleteNotes(notes: Notes, ids: seq<int>) returns (ok: bool, tx: Notes)
      modifies this`clock
      ensures ok ==> forall id :: id in tx <==> id in notes && id !in ids
      ensures ok ==> forall id :: id in tx ==> tx[id] == notes[id]
    {
      tx := notes;
      for i := 0 to |ids|
        invariant forall id :: id in tx <==> id in notes && id !in ids[..i]
        invariant forall id :: id in tx ==> tx[id] == notes[id]
      {
        ok := Statement();
        if !ok { return; }
        tx := tx - {ids[i]};
      }
      ok := true;
    }

    // The transaction; nothing shows before it commits.
    method Transact(ids: seq<int>, scope: string, tag: string, prepared: seq<Prepared>) returns (ok: bool)
      requires Valid() && forall id :: id in ids <==> id in notes && Selected(notes[id], scope, tag)
      modifies this`notes, this`nextId, this`clock
      ensures ok ==> notes == Replaced(old(notes), scope, tag, prepared, old(nextId)) && nextId == old(nextId) + |prepared|
      ensures !ok ==> notes == old(notes) && nextId == old(nextId)
    {
      var tx;
      ok, tx := InsertNotes(notes, nextId, scope, prepared);
      if !ok { return; }
      ok, tx := DeleteNotes(tx, ids);
      if !ok { return; }
      ok := Statement();
      if ok {
        CommitReplaces(notes, ids, tx, scope, tag, prepared, nextId);
        notes, nextId := tx, nextId + |prepared|;
      }
    }

    method DeleteRows(ids: seq<int>) returns (ok: bool)
      modifies this`index, this`clock
      ensures index.Some? <==> old(index).Some?
      ensures index.Some? ==> index.value.Keys <= old(index).value.Keys
      ensures ok && index.Some? ==> index.value == old(index).value - Members(ids)
    {
      for i := 0 to |ids|
        invariant index.Some? <==> old(index).Some?
        invariant index.Some? ==> index.value == old(index).value - Members(ids[..i])
      {
        ok := Statement();
        if !ok { return; }
        assert ids[..i + 1] == ids[..i] + [ids[i]];
        if index.Some? { index := Some(index.value - {ids[i]}); }
      }
      assert ids[..|ids|] == ids;
      ok := true;
    }

    method InsertRows(ghost gone: set<int>, scope: string, prepared: seq<Prepared>, first: int, ghost table: map<int, VecRow>) returns (ok: bool)
      requires index.Some? ==> index.value == table - gone
      modifies this`index, this`clock
      ensures index.Some? <==> old(index).Some?
      ensures index.Some? ==> forall id :: id in index.value ==> id in table || first <= id < first + |prepared|
      ensures ok && index.Some? ==> index.value == Synced(table, gone, scope, prepared, first)
    {
      for i := 0 to |prepared|
        invariant index.Some? <==> old(index).Some?
        invariant index.Some? ==> index.value == Synced(table, gone, scope, prepared[..i], first)
      {
        assert prepared[..i + 1][..i] == prepared[..i];
        if Embedded(prepared[i]) {
          ok := Statement();
          if !ok { return; }
          if index.Some? {
            index := Some(index.value[first + i := VecRow(scope, prepared[i].embedding, prepared[i].text)]);
          }
        }
      }
      assert prepared[..|prepared|] == prepared;
      ok := true;
    }

    // syncOpenClawMemoryVectors: a missing table is not an error.
    method SyncVectors(ids: seq<int>, scope: string, prepared: seq<Prepared>, first: int) returns (ok: bool)
      modifies this`index, this`clock
      ensures index.Some? <==> old(index).Some?
      ensures index.Some? ==> forall id :: id in index.value ==> id in old(index).value || first <= id < first + |prepared|
      ensures !hasVectors ==> ok && index == old(index)
      ensures ok && hasVectors && index.Some? ==>
                index.value == Synced(old(index).value, Members(ids), scope, prepared, first)
    {
      if !hasVectors { return true; }
      ghost var table := if index.Some? then index.value else map[];
      ok := DeleteRows(ids);
      if ok {
        ok := InsertRows(Members(ids), scope, prepared, first, table);
      }
    }

    // replaceOpenClawImportedMemory.
    method Replace(scope: string, tag: string, prepared: seq<Prepared>, rebuilt: Index) returns (r: Result)
      requires Valid() && (rebuilt.Some? ==> rebuilt.value.Keys <= notes.Keys)
      modifies this
      ensures Valid()
      ensures r == Failed ==> notes == old(notes) && nextId == old(nextId)
      ensures r != Failed ==> notes == Replaced(old(notes), scope, tag, prepared, old(nextId)) && nextId == old(nextId) + |prepared|
      ensures r == Imported && hasVectors && index.Some? ==>
                IndexFollows(index.value, old(notes), scope, tag, prepared, old(nextId))
    {
      var ok := EnsureProfile(prepared, rebuilt);
      if !ok { return Failed; }
      var ids;
      ok, ids := ListImported(scope, tag);
      if !ok { return Failed; }
      var first := nextId;
      ok := Statement();
      if !ok { return Failed; }
      ok := Transact(ids, scope, tag, prepared);
      if !ok { return Failed; }
      ghost var table := if index.Some? then index.value else map[];
      ok := SyncVectors(ids, scope, prepared, first);
      r := if ok then Imported else ImportedWithoutVectors;
      if ok && hasVectors && index.Some? {
        SyncedFollows(table, ids, old(notes), scope, tag, prepared, first);
      }
    }
  }

  // The end of a migration: files first, then notes; if the notes fail the files are put back.
  method Commit(disk: FileWrites.Disk, plans: seq<FileWrites.Plan>, store: Store, scope: string, tag: string, prepared: seq<Prepared>, rebuilt: Index)
    returns (ok: bool, ghost clean: bool, ghost torn: Option<FileWrites.Path>)
    requires store.Valid() && (rebuilt.Some? ==> rebuilt.value.Keys <= store.notes.Keys)
    modifies disk, store
    ensures store.Valid()
    ensures !ok ==> store.notes == old(store.notes) && (clean ==> FileWrites.LeftAt(old(disk.files), disk.files, torn))
    ensures ok ==> FileWrites.WritesDone(plans, |plans|, old(disk.files), disk.files)
    ensures ok ==> store.notes == Replaced(old(store.notes), scope, tag, prepared, old(store.nextId))
  {
    var copied, backedUp, log, written;
    copied, backedUp, log, written, clean, torn := disk.Apply(plans);
    if !written { return false, clean, torn; }
    var r := store.Replace(scope, tag, prepared, rebuilt);
    ok, torn := r != Failed, None;
    if !ok {
      clean := disk.Restore(log);
    }
  }
}
