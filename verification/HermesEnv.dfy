// The edit of the Hermes environment file: a few assignments are managed, every other line is the user's.
module HermesEnv {
  import opened Wrappers
  import opened GoStrings
  import opened Sequences

  const HASH := '#'
  const EQUALS := '='

  // The managed keys in the order in which missing ones are appended; the credential comes last.
  const SETTINGS: seq<string> := ["API_SERVER_ENABLED", "API_SERVER_HOST", "API_SERVER_PORT", "API_SERVER_CORS_ORIGINS"]
  const KEY := "API_SERVER_KEY"
  const KEYS: seq<string> := SETTINGS + [KEY]

  type Values = map<string, string>

  predicate Quote(c: char) {
    c == '"' || c == '\''
  }

  // strings.Trim(s, "\"'").
  function Unquoted(s: string): string {
    if s != [] && Quote(s[0]) then Unquoted(s[1..])
    else if s != [] && Quote(s[|s| - 1]) then Unquoted(s[..|s| - 1])
    else s
  }

  // mergeHermesCorsOrigins: what was allowed before does not matter.
  function CorsOrigins(required: string): Option<string> {
    var origin := Unquoted(Trim(required));
    if origin == "" then None else Some(origin)
  }

  // What is assigned; without a token the credential is not managed.
  function Managed(origin: string, token: string, port: nat): Values {
    var values := map["API_SERVER_ENABLED" := "true", "API_SERVER_HOST" := "127.0.0.1",
                      "API_SERVER_PORT" := Dec(port), "API_SERVER_CORS_ORIGINS" := origin];
    if token == "" then values else values[KEY := token]
  }

  // ----- lines -----

  // The key a line assigns to, if it is an assignment: neither blank nor a comment, with an equals sign.
  function KeyOf(line: string): Option<string> {
    var s := Trim(line);
    if s == "" || s[0] == HASH || EQUALS !in s then None else Some(Trim(Before(s, EQUALS)))
  }

  predicate Manages(values: Values, line: string) {
    KeyOf(line).Some? && KeyOf(line).value in values
  }

  function Assignment(key: string, value: string): string {
    key + [EQUALS] + value
  }

  function EditedLine(line: string, values: Values): string {
    if Manages(values, line) then Assignment(KeyOf(line).value, values[KeyOf(line).value]) else line
  }

  function EditedLines(lines: seq<string>, values: Values): (r: seq<string>)
    ensures |r| == |lines| && forall i :: 0 <= i < |r| ==> r[i] == EditedLine(lines[i], values)
  {
    if lines == [] then [] else [EditedLine(lines[0], values)] + EditedLines(lines[1..], values)
  }

  predicate Assigned(lines: seq<string>, key: string) {
    exists i :: 0 <= i < |lines| && KeyOf(lines[i]) == Some(key)
  }

  // The assignments to append: the managed keys no line assigns to.
  function Missing(keys: seq<string>, lines: seq<string>, values: Values): seq<string> {
    if keys == [] then []
    else
      (if keys[0] in values && !Assigned(lines, keys[0]) then [Assignment(keys[0], values[keys[0]])] else [])
      + Missing(keys[1..], lines, values)
  }

  function Edited(lines: seq<string>, values: Values): seq<string> {
    EditedLines(lines, values) + Missing(KEYS, lines, values)
  }

  // The first loop of mergeHermesEnvAtPort.
  method EditInPlace(lines: seq<string>, values: Values) returns (edited: seq<string>, seen: set<string>)
    ensures edited == EditedLines(lines, values)
    ensures forall key :: key in seen <==> key in values && Assigned(lines, key)
  {
    edited, seen := lines, {};
    for index := 0 to |lines|
      invariant edited == EditedLines(lines[..index], values) + lines[index..]
      invariant forall key :: key in seen <==> key in values && Assigned(lines[..index], key)
    {
      EditStep(lines, values, index, edited);
      AssignedMore(lines, index);
      var key := KeyOf(edited[index]);
      if key.Some? && key.value in values {
        edited := edited[index := Assignment(key.value, values[key.value])];
        seen := seen + {key.value};
      }
    }
    assert lines[..|lines|] == lines;
  }

  // Its second loop.
  method AppendMissing(ghost lines: seq<string>, edited: seq<string>, values: Values, seen: set<string>) returns (r: seq<string>)
    requires forall key :: key in seen <==> key in values && Assigned(lines, key)
    ensures r == edited + Missing(KEYS, lines, values)
  {
    r := edited;
    for k := 0 to |KEYS|
      invariant r + Missing(KEYS[k..], lines, values) == edited + Missing(KEYS, lines, values)
    {
      MissingStep(k, lines, values);
      if KEYS[k] in values && KEYS[k] !in seen { r := r + [Assignment(KEYS[k], values[KEYS[k]])]; }
    }
  }

  // mergeHermesEnvAtPort on the lines of the file.
  method MergeLines(lines: seq<string>, origin: string, token: string, port: nat) returns (r: Option<seq<string>>)
    ensures r.None? <==> CorsOrigins(origin).None?
    ensures r.Some? ==> r.value == Edited(lines, Managed(CorsOrigins(origin).value, token, port))
  {
    var cors := CorsOrigins(origin);
    if cors.None? { return None; }
    var values := Managed(cors.value, token, port);
    var edited, seen := EditInPlace(lines, values);
    var merged := AppendMissing(lines, edited, values, seen);
    r := Some(merged);
  }

  lemma EditStep(lines: seq<string>, values: Values, index: nat, edited: seq<string>)
    requires index < |lines| && edited == EditedLines(lines[..index], values) + lines[index..]
    ensures edited[index] == lines[index]
    ensures edited[index := EditedLine(lines[index], values)] == EditedLines(lines[..index + 1], values) + lines[index + 1..]
  {
  }

  lemma AssignedMore(lines: seq<string>, index: nat)
    requires index < |lines|
    ensures forall key :: Assigned(lines[..index + 1], key) <==> Assigned(lines[..index], key) || KeyOf(lines[index]) == Some(key)
  {
    var all := lines[..index + 1];
    assert all[index] == lines[index];
    forall key ensures Assigned(all, key) <==> Assigned(lines[..index], key) || KeyOf(lines[index]) == Some(key) {
      if Assigned(lines[..index], key) {
        var i :| 0 <= i < index && KeyOf(lines[..index][i]) == Some(key);
        assert all[i] == lines[i];
      }
    }
  }

  lemma MissingStep(k: nat, lines: seq<string>, values: Values)
    requires k < |KEYS|
    ensures Missing(KEYS[k..], lines, values)
            == (if KEYS[k] in values && !Assigned(lines, KEYS[k]) then [Assignment(KEYS[k], values[KEYS[k]])] else [])
               + Missing(KEYS[k + 1..], lines, values)
  {
    DropOneMore(KEYS, k);
  }

  // ----- what an edit keeps and sets -----

  predicate WellNamed(key: string) {
    key != "" && key[0] != HASH && EQUALS !in key && '\n' !in key && Trimmed(key)
  }

  lemma KeysAreWellNamed(key: string)
    requires key in KEYS
    ensures WellNamed(key)
  {
  }

  // An assignment the edit writes is read back as an assignment to its key.
  lemma AssignmentAssigns(key: string, value: string)
    requires WellNamed(key)
    ensures KeyOf(Assignment(key, value)) == Some(key)
  {
    var s := Assignment(key, value);
    assert s[0] == key[0];
    assert TrimLeft(s) == s;
    var j := TrimRightIsPrefix(s);
    assert s[|key|] == EQUALS && j > |key|;
    assert s[..j] == key + [EQUALS] + s[|key| + 1..j];
    BeforeSeparator(key, EQUALS, s[|key| + 1..j]);
    TrimmedIsFixed(key);
  }

  ghost predicate Names(values: Values) {
    forall key :: key in values ==> key in KEYS
  }

  lemma EditedLineAssigns(line: string, values: Values)
    requires Names(values)
    ensures KeyOf(EditedLine(line, values)) == KeyOf(line)
  {
    if Manages(values, line) {
      var key := KeyOf(line).value;
      KeysAreWellNamed(key);
      AssignmentAssigns(key, values[key]);
    }
  }

  lemma EditedLinesAssign(lines: seq<string>, values: Values, key: string)
    requires Names(values)
    ensures Assigned(EditedLines(lines, values), key) <==> Assigned(lines, key)
  {
    var edited := EditedLines(lines, values);
    forall i | 0 <= i < |lines| ensures KeyOf(edited[i]) == KeyOf(lines[i]) {
      EditedLineAssigns(lines[i], values);
    }
  }

  lemma AssignedAppend(a: seq<string>, b: seq<string>, key: string)
    ensures Assigned(a + b, key) <==> Assigned(a, key) || Assigned(b, key)
  {
    var all := a + b;
    assert forall i :: 0 <= i < |a| ==> all[i] == a[i];
    assert forall i :: 0 <= i < |b| ==> all[|a| + i] == b[i];
    if Assigned(all, key) {
      var i :| 0 <= i < |all| && KeyOf(all[i]) == Some(key);
      assert if i < |a| then KeyOf(a[i]) == Some(key) else KeyOf(b[i - |a|]) == Some(key);
    }
    if Assigned(b, key) {
      var i :| 0 <= i < |b| && KeyOf(b[i]) == Some(key);
      assert all[|a| + i] == b[i];
    }
  }

  lemma {:induction false} MissingAssigns(keys: seq<string>, lines: seq<string>, values: Values, key: string)
    requires Names(values)
    ensures Assigned(Missing(keys, lines, values), key) <==> key in keys && key in values && !Assigned(lines, key)
  {
    if keys != [] {
      MissingAssigns(keys[1..], lines, values, key);
      if keys[0] in values && !Assigned(lines, keys[0]) {
        KeysAreWellNamed(keys[0]);
        AssignmentAssigns(keys[0], values[keys[0]]);
        var head := [Assignment(keys[0], values[keys[0]])];
        assert Assigned(head, key) <==> key == keys[0] by { assert head[0] == Assignment(keys[0], values[keys[0]]); }
        AssignedAppend(head, Missing(keys[1..], lines, values), key);
      } else {
        assert [] + Missing(keys[1..], lines, values) == Missing(keys[1..], lines, values);
      }
    }
  }

  // After an edit every managed key is assigned, and other keys are assigned as before.
  lemma EditedAssigns(lines: seq<string>, values: Values, key: string)
    requires Names(values)
    ensures Assigned(Edited(lines, values), key) <==> key in values || Assigned(lines, key)
  {
    EditedLinesAssign(lines, values, key);
    MissingAssigns(KEYS, lines, values, key);
    AssignedAppend(EditedLines(lines, values), Missing(KEYS, lines, values), key);
  }

  lemma {:induction false} MissingAreManaged(keys: seq<string>, lines: seq<string>, values: Values)
    requires Names(values)
    ensures forall line :: line in Missing(keys, lines, values) ==> Manages(values, line) && line == EditedLine(line, values)
  {
    if keys != [] {
      MissingAreManaged(keys[1..], lines, values);
      if keys[0] in values && !Assigned(lines, keys[0]) {
        KeysAreWellNamed(keys[0]);
        AssignmentAssigns(keys[0], values[keys[0]]);
      }
    }
  }

  // Every assignment to a managed key, wherever it stands, has the managed value.
  lemma EveryAssignmentIsManaged(lines: seq<string>, values: Values)
    requires Names(values)
    ensures forall line :: line in Edited(lines, values) && Manages(values, line) ==>
                             line == Assignment(KeyOf(line).value, values[KeyOf(line).value])
    ensures forall key :: key in values ==> Assigned(Edited(lines, values), key)
  {
    MissingAreManaged(KEYS, lines, values);
    var edited := EditedLines(lines, values);
    forall i | 0 <= i < |lines| && Manages(values, edited[i])
      ensures edited[i] == Assignment(KeyOf(edited[i]).value, values[KeyOf(edited[i]).value])
    {
      EditedLineAssigns(lines[i], values);
    }
    forall key | key in values ensures Assigned(Edited(lines, values), key) {
      EditedAssigns(lines, values, key);
    }
  }

  function Unmanaged(lines: seq<string>, values: Values): seq<string> {
    if lines == [] then []
    else (if Manages(values, lines[0]) then [] else [lines[0]]) + Unmanaged(lines[1..], values)
  }

  lemma {:induction false} UnmanagedAppend(a: seq<string>, b: seq<string>, values: Values)
    ensures Unmanaged(a + b, values) == Unmanaged(a, values) + Unmanaged(b, values)
  {
    if a == [] {
      EmptyFront(a, b);
    } else {
      UnmanagedAppend(a[1..], b, values);
      ConcatFirst(a, b);
      Regroup(if Manages(values, a[0]) then [] else [a[0]], Unmanaged(a[1..], values), Unmanaged(b, values));
    }
  }

  lemma {:induction false} NoneUnmanaged(lines: seq<string>, values: Values)
    requires forall line :: line in lines ==> Manages(values, line)
    ensures Unmanaged(lines, values) == []
  {
    if lines != [] {
      assert lines[0] in lines;
      NoneUnmanaged(lines[1..], values);
    }
  }

  lemma {:induction false} EditedLinesKeepUnmanaged(lines: seq<string>, values: Values)
    requires Names(values)
    ensures Unmanaged(EditedLines(lines, values), values) == Unmanaged(lines, values)
  {
    if lines != [] {
      EditedLineAssigns(lines[0], values);
      EditedLinesKeepUnmanaged(lines[1..], values);
      ConsFirst(EditedLine(lines[0], values), EditedLines(lines[1..], values));
    }
  }

  // The other lines stay, all of them, in order and where they were; what is appended is managed.
  lemma UnmanagedLinesStay(lines: seq<string>, values: Values)
    requires Names(values)
    ensures Unmanaged(Edited(lines, values), values) == Unmanaged(lines, values)
    ensures |lines| <= |Edited(lines, values)|
    ensures forall i :: 0 <= i < |lines| && !Manages(values, lines[i]) ==> Edited(lines, values)[i] == lines[i]
  {
    var missing := Missing(KEYS, lines, values);
    EditedLinesKeepUnmanaged(lines, values);
    MissingAreManaged(KEYS, lines, values);
    NoneUnmanaged(missing, values);
    UnmanagedAppend(EditedLines(lines, values), missing, values);
  }

  // ----- one edit after another -----

  // The second edit manages what the first did, and perhaps the credential too.
  ghost predicate Follows(first: Values, second: Values) {
    && Names(first) && Names(second)
    && (forall key :: key in SETTINGS ==> key in first && key in second)
    && (KEY in first ==> KEY in second)
  }

  lemma EditedLinesAgain(lines: seq<string>, first: Values, second: Values)
    requires Follows(first, second)
    ensures EditedLines(EditedLines(lines, first), second) == EditedLines(lines, second)
  {
    var once := EditedLines(lines, first);
    forall i | 0 <= i < |lines| ensures EditedLine(once[i], second) == EditedLine(lines[i], second) {
      EditedLineAssigns(lines[i], first);
    }
  }

  lemma {:induction false} MissingAgain(keys: seq<string>, lines: seq<string>, first: Values, second: Values)
    requires Follows(first, second) && forall key :: key in keys ==> key in first && key in second
    ensures EditedLines(Missing(keys, lines, first), second) == Missing(keys, lines, second)
  {
    if keys != [] {
      assert keys[0] in keys;
      MissingAgain(keys[1..], lines, first, second);
      KeysAreWellNamed(keys[0]);
      AssignmentAssigns(keys[0], first[keys[0]]);
    }
  }

  lemma {:induction false} NothingMissing(keys: seq<string>, lines: seq<string>, values: Values)
    requires forall key :: key in keys && key in values ==> Assigned(lines, key)
    ensures Missing(keys, lines, values) == []
  {
    if keys != [] {
      assert keys[0] in keys;
      NothingMissing(keys[1..], lines, values);
    }
  }

  lemma {:induction false} MissingAppend(a: seq<string>, b: seq<string>, lines: seq<string>, values: Values)
    ensures Missing(a + b, lines, values) == Missing(a, lines, values) + Missing(b, lines, values)
  {
    if a == [] {
      EmptyFront(a, b);
    } else {
      MissingAppend(a[1..], b, lines, values);
      var head := if a[0] in values && !Assigned(lines, a[0]) then [Assignment(a[0], values[a[0]])] else [];
      ConcatFirst(a, b);
      Regroup(head, Missing(a[1..], lines, values), Missing(b, lines, values));
    }
  }

  lemma EditedLinesAppend(a: seq<string>, b: seq<string>, values: Values)
    ensures EditedLines(a + b, values) == EditedLines(a, values) + EditedLines(b, values)
  {
  }

  // The credential line after both edits.
  lemma CredentialAgain(lines: seq<string>, once: seq<string>, first: Values, second: Values)
    requires Follows(first, second)
    requires Assigned(once, KEY) <==> KEY in first || Assigned(lines, KEY)
    ensures EditedLines(Missing([KEY], lines, first), second) + Missing([KEY], once, second) == Missing([KEY], lines, second)
  {
    if KEY in first {
      MissingAgain([KEY], lines, first, second);
      NothingMissing([KEY], once, second);
    } else {
      assert Missing([KEY], lines, first) == [];
      assert [KEY][1..] == [];
    }
  }

  lemma SettingsAgain(lines: seq<string>, first: Values, second: Values)
    requires Follows(first, second)
    ensures EditedLines(Missing(KEYS, lines, first), second)
            == Missing(SETTINGS, lines, second) + EditedLines(Missing([KEY], lines, first), second)
  {
    MissingAppend(SETTINGS, [KEY], lines, first);
    EditedLinesAppend(Missing(SETTINGS, lines, first), Missing([KEY], lines, first), second);
    MissingAgain(SETTINGS, lines, first, second);
  }

  lemma OnlyTheCredentialIsMissing(lines: seq<string>, first: Values, second: Values)
    requires Follows(first, second)
    ensures Missing(KEYS, Edited(lines, first), second) == Missing([KEY], Edited(lines, first), second)
  {
    var once := Edited(lines, first);
    forall key | key in SETTINGS ensures Assigned(once, key) {
      EditedAssigns(lines, first, key);
    }
    NothingMissing(SETTINGS, once, second);
    MissingAppend(SETTINGS, [KEY], once, second);
  }

  // Nothing is appended twice.
  lemma MissingOnce(lines: seq<string>, first: Values, second: Values)
    requires Follows(first, second)
    ensures EditedLines(Missing(KEYS, lines, first), second) + Missing(KEYS, Edited(lines, first), second)
            == Missing(KEYS, lines, second)
  {
    var once := Edited(lines, first);
    var credential, more := EditedLines(Missing([KEY], lines, first), second), Missing([KEY], once, second);
    SettingsAgain(lines, first, second);
    OnlyTheCredentialIsMissing(lines, first, second);
    EditedAssigns(lines, first, KEY);
    CredentialAgain(lines, once, first, second);
    MissingAppend(SETTINGS, [KEY], lines, second);
    Regroup(Missing(SETTINGS, lines, second), credential, more);
  }

  // An edit undoes what an earlier edit did: only the later one shows.
  lemma LaterEditWins(lines: seq<string>, first: Values, second: Values)
    requires Follows(first, second)
    ensures Edited(Edited(lines, first), second) == Edited(lines, second)
  {
    var edited, missing := EditedLines(lines, first), Missing(KEYS, lines, first);
    var again := Missing(KEYS, edited + missing, second);
    MissingOnce(lines, first, second);
    EditedLinesAgain(lines, first, second);
    EditedLinesAppend(edited, missing, second);
    Regroup(EditedLines(lines, second), EditedLines(missing, second), again);
  }

  // So editing again changes nothing, and editing before there is a token, then with it, is editing with it.
  lemma TokenMayComeLater(lines: seq<string>, origin: string, token: string, port: nat)
    ensures Edited(Edited(lines, Managed(origin, token, port)), Managed(origin, token, port)) == Edited(lines, Managed(origin, token, port))
    ensures Edited(Edited(lines, Managed(origin, "", port)), Managed(origin, token, port)) == Edited(lines, Managed(origin, token, port))
  {
    LaterEditWins(lines, Managed(origin, token, port), Managed(origin, token, port));
    LaterEditWins(lines, Managed(origin, "", port), Managed(origin, token, port));
  }

  // ----- the file as text, its line ends already normalized -----

  function EditedText(text: string, values: Values): string {
    Join(Edited(Split(text, '\n'), values), '\n')
  }

  lemma {:induction false} MissingHasNoNewline(keys: seq<string>, lines: seq<string>, values: Values)
    requires Names(values) && forall key :: key in values ==> '\n' !in values[key]
    ensures forall line :: line in Missing(keys, lines, values) ==> '\n' !in line
  {
    if keys != [] {
      MissingHasNoNewline(keys[1..], lines, values);
      if keys[0] in values {
        KeysAreWellNamed(keys[0]);
      }
    }
  }

  lemma LaterTextEditWins(text: string, first: Values, second: Values)
    requires Follows(first, second) && forall key :: key in first ==> '\n' !in first[key]
    ensures EditedText(EditedText(text, first), second) == EditedText(text, second)
  {
    var lines := Split(text, '\n');
    var once := Edited(lines, first);
    PartsHaveNoSeparator(text, '\n');
    MissingHasNoNewline(KEYS, lines, first);
    var edited := EditedLines(lines, first);
    forall i | 0 <= i < |lines| ensures '\n' !in edited[i] {
      assert lines[i] in lines;
      if Manages(first, lines[i]) {
        KeysAreWellNamed(KeyOf(lines[i]).value);
      }
    }
    SplitOfJoin(once, '\n');
    LaterEditWins(lines, first, second);
  }
}
