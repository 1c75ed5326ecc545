// Server-sent events: the service's printers, and the reader that looks for evidence of a finished run.
module LiveRunEvents {
  import opened Wrappers
  import opened GoStrings
  import opened Sequences

  // ----- payloads -----

  // A decoded JSON value as fmt.Sprint shows it.
  datatype Value = Text(text: string) | Other(printed: string)
  type Payload = map<string, Value>

  function Sprint(v: Value): string {
    match v
    case Text(text) => text
    case Other(printed) => printed
  }

  function Printed(p: Payload, key: string): string {
    if key in p then Sprint(p[key]) else "<nil>"
  }

  const RUN_KEYS := ["run_id", "runId", "turn_id", "turnId"]
  const CONTENT_KEYS := ["delta", "text", "output", "content"]
  const TERMINAL_EVENTS := ["run.completed", "turn.completed", "run.failed", "turn.failed", "run.cancelled", "run.canceled", "turn.cancelled", "turn.canceled"]
  const TERMINAL_STATUSES := ["completed", "complete", "succeeded", "success", "failed", "error", "cancelled", "canceled"]

  // liveEventMatchesRun.
  predicate Matches(p: Payload, runId: string) {
    forall key :: key in RUN_KEYS && key in p ==> Trim(Sprint(p[key])) == runId
  }

  // liveRunEventEvidence.
  predicate HasContent(p: Payload) {
    exists key :: key in CONTENT_KEYS && key in p && p[key].Text? && Trim(p[key].text) != ""
  }

  predicate Terminal(p: Payload) {
    LowerAll(Trim(Printed(p, "event"))) in TERMINAL_EVENTS || LowerAll(Trim(Printed(p, "status"))) in TERMINAL_STATUSES
  }

  predicate Ends(p: Payload, runId: string) {
    Matches(p, runId) && Terminal(p)
  }

  predicate Shows(p: Payload, runId: string) {
    Matches(p, runId) && HasContent(p)
  }

  datatype Verdict = Verified | NoContent | Ended

  // The verdict over the payloads in order, once content was seen or not.
  function Judge(payloads: seq<Payload>, runId: string, content: bool): Verdict {
    if payloads == [] then Ended
    else
      var seen := content || Shows(payloads[0], runId);
      if Ends(payloads[0], runId) then (if seen then Verified else NoContent)
      else Judge(payloads[1..], runId, seen)
  }

  ghost predicate FirstEnd(payloads: seq<Payload>, runId: string, i: nat) {
    i < |payloads| && Ends(payloads[i], runId) && forall j :: 0 <= j < i ==> !Ends(payloads[j], runId)
  }

  ghost predicate ShownBy(payloads: seq<Payload>, runId: string, i: nat) {
    exists j :: 0 <= j <= i && j < |payloads| && Shows(payloads[j], runId)
  }

  // The i-th payload is the first to end the run, and content came with it or before it.
  ghost predicate EndsWell(payloads: seq<Payload>, runId: string, content: bool, i: nat) {
    FirstEnd(payloads, runId, i) && (content || ShownBy(payloads, runId, i))
  }

  ghost predicate EndsSomewhere(payloads: seq<Payload>, runId: string, content: bool) {
    exists i: nat :: EndsWell(payloads, runId, content, i)
  }

  // A stream is verified exactly when there is such a payload.
  lemma {:induction false} JudgeMeans(payloads: seq<Payload>, runId: string, content: bool)
    ensures Judge(payloads, runId, content) == Verified <==> EndsSomewhere(payloads, runId, content)
  {
    if payloads != [] {
      if Ends(payloads[0], runId) {
        EndsAtOnce(payloads, runId, content);
      } else {
        var rest, seen := payloads[1..], content || Shows(payloads[0], runId);
        JudgeMeans(rest, runId, seen);
        if EndsSomewhere(payloads, runId, content) { EndedLater(payloads, runId, content); }
        if EndsSomewhere(rest, runId, seen) { EndsLater(payloads, runId, content); }
      }
    }
  }

  // It is undecided exactly when no payload ends the run.
  lemma {:induction false} JudgeUndecided(payloads: seq<Payload>, runId: string, content: bool)
    ensures Judge(payloads, runId, content) == Ended <==> forall p :: p in payloads ==> !Ends(p, runId)
  {
    if payloads != [] {
      FirstAndRest(payloads);
      JudgeUndecided(payloads[1..], runId, content || Shows(payloads[0], runId));
    }
  }

  lemma EndsAtOnce(payloads: seq<Payload>, runId: string, content: bool)
    requires payloads != [] && Ends(payloads[0], runId)
    ensures EndsSomewhere(payloads, runId, content) <==> content || Shows(payloads[0], runId)
  {
    assert ShownBy(payloads, runId, 0) <==> Shows(payloads[0], runId);
    assert EndsWell(payloads, runId, content, 0) <==> content || Shows(payloads[0], runId);
    assert forall i: nat :: EndsWell(payloads, runId, content, i) ==> i == 0;
  }

  lemma EndsLater(payloads: seq<Payload>, runId: string, content: bool)
    requires payloads != [] && !Ends(payloads[0], runId)
    requires EndsSomewhere(payloads[1..], runId, content || Shows(payloads[0], runId))
    ensures EndsSomewhere(payloads, runId, content)
  {
    var rest, seen := payloads[1..], content || Shows(payloads[0], runId);
    var i: nat :| EndsWell(rest, runId, seen, i);
    EndShifts(payloads, runId, content, i);
    assert EndsWell(payloads, runId, content, i + 1);
  }

  lemma EndedLater(payloads: seq<Payload>, runId: string, content: bool)
    requires payloads != [] && !Ends(payloads[0], runId)
    requires EndsSomewhere(payloads, runId, content)
    ensures EndsSomewhere(payloads[1..], runId, content || Shows(payloads[0], runId))
  {
    var i: nat :| EndsWell(payloads, runId, content, i);
    assert i > 0;
    EndShifts(payloads, runId, content, i - 1);
  }

  lemma EndShifts(payloads: seq<Payload>, runId: string, content: bool, i: nat)
    requires i + 1 < |payloads| && !Ends(payloads[0], runId)
    ensures EndsWell(payloads, runId, content, i + 1) <==> EndsWell(payloads[1..], runId, content || Shows(payloads[0], runId), i)
  {
    ShiftOne(payloads, runId, i);
  }

  lemma ShiftOne(payloads: seq<Payload>, runId: string, i: nat)
    requires i + 1 < |payloads| && !Ends(payloads[0], runId)
    ensures FirstEnd(payloads[1..], runId, i) <==> FirstEnd(payloads, runId, i + 1)
    ensures ShownBy(payloads, runId, i + 1) <==> Shows(payloads[0], runId) || ShownBy(payloads[1..], runId, i)
  {
    var rest := payloads[1..];
    assert forall j :: 0 < j < |payloads| ==> payloads[j] == rest[j - 1];
    assert forall j :: 0 <= j < |rest| ==> rest[j] == payloads[j + 1];
    ShowsLater(payloads, runId, i);
  }

  lemma ShowsLater(payloads: seq<Payload>, runId: string, i: nat)
    requires i + 1 < |payloads|
    ensures ShownBy(payloads, runId, i + 1) <==> Shows(payloads[0], runId) || ShownBy(payloads[1..], runId, i)
  {
    var rest := payloads[1..];
    if ShownBy(rest, runId, i) {
      var j :| 0 <= j <= i && j < |rest| && Shows(rest[j], runId);
      assert Shows(payloads[j + 1], runId);
    }
    if ShownBy(payloads, runId, i + 1) {
      var j :| 0 <= j <= i + 1 && j < |payloads| && Shows(payloads[j], runId);
      assert j > 0 ==> Shows(rest[j - 1], runId);
    }
  }

  // More payloads never take a verdict back.
  lemma {:induction false} JudgeIsMonotone(payloads: seq<Payload>, more: seq<Payload>, runId: string, content: bool)
    requires Judge(payloads, runId, content) != Ended
    ensures Judge(payloads + more, runId, content) == Judge(payloads, runId, content)
  {
    if !Ends(payloads[0], runId) {
      ConcatFirst(payloads, more);
      JudgeIsMonotone(payloads[1..], more, runId, content || Shows(payloads[0], runId));
    }
  }

  // ----- the reader -----

  const DATA := "data:"

  // The data a line carries.
  function DataOf(line: string): Option<string> {
    var s := Trim(line);
    if DATA <= s then Some(Trim(s[|DATA|..])) else None
  }

  function Gathered(data: seq<string>, line: string): seq<string> {
    if DataOf(line).Some? then data + [DataOf(line).value] else data
  }

  // The texts that are dispatched, in order: the gathered data at every blank line.
  function Dispatched(lines: seq<string>, data: seq<string>): seq<string> {
    if lines == [] then []
    else
      var all := Gathered(data, lines[0]);
      if Trim(lines[0]) == "" && all != [] then [Join(all, '\n')] + Dispatched(lines[1..], [])
      else Dispatched(lines[1..], all)
  }

  // The piece after the last newline is read like a line.
  function Recovered(stream: string): seq<string> {
    Dispatched(Split(stream, '\n'), [])
  }

  // What does not decode is skipped.
  function Decoded(texts: seq<string>, decode: string -> Option<Payload>): seq<Payload> {
    if texts == [] then []
    else (if decode(texts[0]).Some? then [decode(texts[0]).value] else []) + Decoded(texts[1..], decode)
  }

  // reader.ReadString('\n').
  method ReadLine(stream: string) returns (line: string, rest: string, more: bool)
    ensures more ==> '\n' !in line && stream == line + ['\n'] + rest
    ensures !more ==> line == stream && '\n' !in line
  {
    for i := 0 to |stream|
      invariant '\n' !in stream[..i]
    {
      if stream[i] == '\n' { return stream[..i], stream[i + 1..], true; }
    }
    assert stream[..|stream|] == stream;
    return stream, [], false;
  }

  // The verdict over what is still to be read.
  function Outcome(lines: seq<string>, data: seq<string>, decode: string -> Option<Payload>, runId: string, content: bool): Verdict {
    Judge(Decoded(Dispatched(lines, data), decode), runId, content)
  }

  // What one dispatched text does: whether content was seen by now, and whether it ends the run.
  method Observe(text: string, decode: string -> Option<Payload>, runId: string, content: bool) returns (seen: bool, ended: bool)
    ensures seen <==> content || (decode(text).Some? && Shows(decode(text).value, runId))
    ensures ended <==> decode(text).Some? && Ends(decode(text).value, runId)
  {
    seen, ended := content, false;
    var payload := decode(text);
    if payload.Some? && Matches(payload.value, runId) {
      seen := seen || HasContent(payload.value);
      ended := Terminal(payload.value);
    }
  }

  // readLiveRunEvidence; a stream that ends and one that breaks off give no evidence alike.
  method ReadEvidence(stream: string, decode: string -> Option<Payload>, runId: string) returns (verdict: Verdict)
    ensures verdict == Judge(Decoded(Recovered(stream), decode), runId, false)
  {
    var rest, data: seq<string>, content, more := stream, [], false, true;
    ghost var expected := Outcome(Split(stream, '\n'), [], decode, runId, false);
    while more
      invariant expected == if more then Outcome(Split(rest, '\n'), data, decode, runId, content) else Ended
      decreases more, |rest|
    {
      ghost var lines := Split(rest, '\n');
      var line, after;
      line, after, more := ReadLine(rest);
      LinesStep(rest, line, after, more);
      OutcomeStep(lines, data, decode, runId, content);
      data := Gathered(data, line);
      if Trim(line) == "" && data != [] {
        var seen, ended := Observe(Join(data, '\n'), decode, runId, content);
        if ended { return if seen then Verified else NoContent; }
        data, content := [], seen;
      }
      NothingLeft(data, decode, runId, content);
      rest := after;
    }
    verdict := Ended;
  }

  lemma OutcomeStep(lines: seq<string>, data: seq<string>, decode: string -> Option<Payload>, runId: string, content: bool)
    requires lines != []
    ensures var all := Gathered(data, lines[0]);
            Outcome(lines, data, decode, runId, content) ==
              if Trim(lines[0]) == "" && all != [] then
                var p := decode(Join(all, '\n'));
                var seen := content || (p.Some? && Shows(p.value, runId));
                if p.Some? && Ends(p.value, runId) then (if seen then Verified else NoContent)
                else Outcome(lines[1..], [], decode, runId, seen)
              else Outcome(lines[1..], all, decode, runId, content)
  {
    var all := Gathered(data, lines[0]);
    if Trim(lines[0]) == "" && all != [] {
      JudgeText(Join(all, '\n'), Dispatched(lines[1..], []), decode, runId, content);
    }
  }

  lemma JudgeText(text: string, texts: seq<string>, decode: string -> Option<Payload>, runId: string, content: bool)
    ensures var p := decode(text);
            var seen := content || (p.Some? && Shows(p.value, runId));
            Judge(Decoded([text] + texts, decode), runId, content) ==
              if p.Some? && Ends(p.value, runId) then (if seen then Verified else NoContent)
              else Judge(Decoded(texts, decode), runId, seen)
  {
    var p, rest := decode(text), Decoded(texts, decode);
    ConsFirst(text, texts);
    if p.Some? {
      assert Decoded([text] + texts, decode) == [p.value] + rest;
      ConsFirst(p.value, rest);
    } else {
      assert Decoded([text] + texts, decode) == [] + rest == rest;
    }
  }

  lemma NothingLeft(data: seq<string>, decode: string -> Option<Payload>, runId: string, content: bool)
    ensures Outcome([], data, decode, runId, content) == Ended
  {
  }

  lemma LinesStep(stream: string, line: string, rest: string, more: bool)
    requires '\n' !in line && stream == if more then line + ['\n'] + rest else line
    ensures var lines := Split(stream, '\n');
            lines[0] == line && lines[1..] == if more then Split(rest, '\n') else []
  {
    if more {
      SplitAtSeparator(line, rest, '\n');
    } else {
      SplitPart(line, '\n');
    }
  }

  // ----- the printers -----

  datatype Item = Event(eventType: string, payload: Payload) | Comment(text: string)

  function OneLine(s: string): string {
    if s == [] then [] else [if s[0] == '\n' then ' ' else s[0]] + OneLine(s[1..])
  }

  function CommentText(text: string): string {
    var s := OneLine(Trim(text));
    if s == "" then "heartbeat" else s
  }

  // The first line of an item, or lines if an event's name has more.
  function Head(item: Item): string {
    match item
    case Event(eventType, _) => "event: " + eventType
    case Comment(text) => ": " + CommentText(text)
  }

  // What stands behind it: the data of an event, and a blank line.
  function Tail(item: Item, encode: Payload -> string): string {
    if item.Event? then DATA + " " + encode(item.payload) + ['\n'] + ['\n'] else ['\n']
  }

  function Print(item: Item, encode: Payload -> string): string {
    Head(item) + ['\n'] + Tail(item, encode)
  }

  class Writer {
    var sent: string
    const capacity: nat        // how much the connection carries before it breaks

    ghost predicate Valid()
      reads this
    {
      |sent| <= capacity
    }

    // A write to the connection; what no longer fits is lost, and the write fails.
    method Send(text: string) returns (ok: bool)
      requires Valid()
      modifies this
      ensures Valid() && ok == (|old(sent)| + |text| <= capacity)
      ensures sent == if ok then old(sent) + text else (old(sent) + text)[..capacity]
    {
      ok := |sent| + |text| <= capacity;
      sent := if ok then sent + text else (sent + text)[..capacity];
    }

    // writeSSEEvent.
    method WriteEvent(eventType: string, payload: Payload, encode: Payload -> string) returns (ok: bool)
      requires Valid()
      modifies this
      ensures Valid() && ok == (|old(sent)| + |Print(Event(eventType, payload), encode)| <= capacity)
      ensures var all := old(sent) + Print(Event(eventType, payload), encode); sent == if ok then all else all[..capacity]
    {
      ok := Send("event: " + eventType + ['\n'] + (DATA + " " + encode(payload) + ['\n'] + ['\n']));
    }

    // writeSSEComment.
    method WriteComment(comment: string, ghost encode: Payload -> string) returns (ok: bool)
      requires Valid()
      modifies this
      ensures Valid() && ok == (|old(sent)| + |Print(Comment(comment), encode)| <= capacity)
      ensures var all := old(sent) + Print(Comment(comment), encode); sent == if ok then all else all[..capacity]
    {
      var s := OneLine(Trim(comment));
      if s == "" { s := "heartbeat"; }
      ok := Send(": " + s + ['\n'] + ['\n']);
    }
  }

  function PrintAll(items: seq<Item>, encode: Payload -> string): string {
    if items == [] then [] else Print(items[0], encode) + PrintAll(items[1..], encode)
  }

  // What the printed items carry.
  function Carried(items: seq<Item>): seq<Payload> {
    if items == [] then []
    else (if items[0].Event? then [items[0].payload] else []) + Carried(items[1..])
  }

  // A payload is encoded as one line with no space around it, which decodes to the payload.
  predicate CodesWell(p: Payload, encode: Payload -> string, decode: string -> Option<Payload>) {
    '\n' !in encode(p) && encode(p) != "" && Trimmed(encode(p)) && decode(encode(p)) == Some(p)
  }

  // Lines without data.
  predicate Quiet(lines: seq<string>) {
    forall i :: 0 <= i < |lines| ==> DataOf(lines[i]) == None
  }

  // The printer does not look at an event's name: if that runs over several lines none may carry data.
  predicate Printable(item: Item, encode: Payload -> string, decode: string -> Option<Payload>) {
    item.Event? ==> CodesWell(item.payload, encode, decode) && Quiet(Split(Head(item), '\n'))
  }

  predicate AllPrintable(items: seq<Item>, encode: Payload -> string, decode: string -> Option<Payload>) {
    forall i :: 0 <= i < |items| ==> Printable(items[i], encode, decode)
  }

  lemma {:induction false} OneLineIsOne(s: string)
    ensures '\n' !in OneLine(s)
  {
    if s != [] {
      OneLineIsOne(s[1..]);
    }
  }

  lemma FirstCharStays(s: string)
    requires s != [] && !IsSpace(s[0])
    ensures Trim(s) != [] && Trim(s)[0] == s[0]
  {
    var j := TrimRightIsPrefix(s);
    assert TrimLeft(s) == s && Trim(s) == s[..j] && j > 0;
  }

  // A comment is one line, and no data.
  lemma CommentIsQuiet(item: Item)
    requires item.Comment?
    ensures Quiet(Split(Head(item), '\n'))
  {
    OneLineIsOne(Trim(item.text));
    SplitPart(Head(item), '\n');
    FirstCharStays(Head(item));
  }

  lemma DataLineCarries(text: string)
    requires text != "" && Trimmed(text)
    ensures DataOf(DATA + " " + text) == Some(text) && Trim(DATA + " " + text) != ""
  {
    var s := DATA + " " + text;
    assert s[|s| - 1] == text[|text| - 1];
    TrimmedIsFixed(s);
    assert s[|DATA|..] == " " + text;
    assert (" " + text)[1..] == text && TrimLeft(" " + text) == TrimLeft(text);
    TrimmedIsFixed(text);
  }

  // ----- what the reader recovers from the printers -----

  function Texts(item: Item, encode: Payload -> string): seq<string> {
    if item.Event? then [encode(item.payload)] else []
  }

  function AllTexts(items: seq<Item>, encode: Payload -> string): seq<string> {
    if items == [] then [] else Texts(items[0], encode) + AllTexts(items[1..], encode)
  }

  lemma {:induction false} QuietDispatched(lines: seq<string>, more: seq<string>)
    requires Quiet(lines)
    ensures Dispatched(lines + more, []) == Dispatched(more, [])
  {
    if lines == [] {
      EmptyFront(lines, more);
    } else {
      ConcatFirst(lines, more);
      assert DataOf(lines[0]) == None;
      QuietDispatched(lines[1..], more);
    }
  }

  // Lines without data in front change nothing.
  lemma QuietRecovered(a: string, rest: string)
    requires Quiet(Split(a, '\n'))
    ensures Recovered(a + ['\n'] + rest) == Recovered(rest)
  {
    SplitConcat(a, '\n', rest);
    QuietDispatched(Split(a, '\n'), Split(rest, '\n'));
  }

  lemma BlankIsQuiet()
    ensures Quiet(Split([], '\n')) && DataOf([]) == None && Trim([]) == []
  {
    assert Split([], '\n') == [[]];
  }

  lemma BlankRecovered(rest: string)
    ensures Recovered(['\n'] + rest) == Recovered(rest)
  {
    BlankIsQuiet();
    QuietRecovered([], rest);
    assert [] + ['\n'] + rest == ['\n'] + rest;
  }

  lemma DataDispatched(line: string, text: string, more: seq<string>)
    requires DataOf(line) == Some(text) && Trim(line) != ""
    ensures Dispatched([line] + ([[]] + more), []) == [text] + Dispatched(more, [])
  {
    BlankIsQuiet();
    var lines := [[]] + more;
    ConsFirst(line, lines);
    ConsFirst([], more);
    assert Dispatched([line] + lines, []) == Dispatched(lines, [text]);
  }

  // A data line and a blank one.
  lemma DataRecovered(text: string, rest: string)
    requires text != "" && Trimmed(text) && '\n' !in text
    ensures Recovered(DATA + " " + text + ['\n'] + (['\n'] + rest)) == [text] + Recovered(rest)
  {
    var line := DATA + " " + text;
    SplitAtSeparator(line, ['\n'] + rest, '\n');
    SplitAtSeparator([], rest, '\n');
    assert [] + ['\n'] + rest == ['\n'] + rest;
    DataLineCarries(text);
    DataDispatched(line, text, Split(rest, '\n'));
  }

  lemma EventText(head: string, line: string, rest: string)
    ensures head + ['\n'] + (line + ['\n'] + ['\n']) + rest == head + ['\n'] + (line + ['\n'] + (['\n'] + rest))
  {
  }

  lemma CommentEnd(head: string, rest: string)
    ensures head + ['\n'] + ['\n'] + rest == head + ['\n'] + (['\n'] + rest)
  {
  }

  // An item printed in front of a stream puts its payload in front of what the stream carries.
  lemma ItemRecovered(item: Item, rest: string, encode: Payload -> string, decode: string -> Option<Payload>)
    requires Printable(item, encode, decode)
    ensures Recovered(Print(item, encode) + rest) == Texts(item, encode) + Recovered(rest)
  {
    var head := Head(item);
    if item.Event? {
      var line := DATA + " " + encode(item.payload);
      EventText(head, line, rest);
      QuietRecovered(head, line + ['\n'] + (['\n'] + rest));
      DataRecovered(encode(item.payload), rest);
    } else {
      CommentEnd(head, rest);
      CommentIsQuiet(item);
      QuietRecovered(head, ['\n'] + rest);
      BlankRecovered(rest);
    }
  }

  lemma {:induction false} AllRecovered(items: seq<Item>, encode: Payload -> string, decode: string -> Option<Payload>)
    requires AllPrintable(items, encode, decode)
    ensures Recovered(PrintAll(items, encode)) == AllTexts(items, encode)
  {
    if items != [] {
      ItemRecovered(items[0], PrintAll(items[1..], encode), encode, decode);
      AllRecovered(items[1..], encode, decode);
    }
  }

  lemma {:induction false} TextsDecode(items: seq<Item>, encode: Payload -> string, decode: string -> Option<Payload>)
    requires AllPrintable(items, encode, decode)
    ensures Decoded(AllTexts(items, encode), decode) == Carried(items)
  {
    if items != [] {
      TextsDecode(items[1..], encode, decode);
      DecodedAppend(Texts(items[0], encode), AllTexts(items[1..], encode), decode);
      if items[0].Event? {
        assert Printable(items[0], encode, decode);
        assert [encode(items[0].payload)][1..] == [];
      }
    }
  }

  // The reader recovers exactly the payloads that were printed, in order, heartbeats or not.
  lemma PayloadsRecovered(items: seq<Item>, encode: Payload -> string, decode: string -> Option<Payload>)
    requires AllPrintable(items, encode, decode)
    ensures Decoded(Recovered(PrintAll(items, encode)), decode) == Carried(items)
  {
    AllRecovered(items, encode, decode);
    TextsDecode(items, encode, decode);
  }

  // So a printed stream is verified exactly when a first payload ends the run and content came by then.
  lemma EvidenceIsFound(items: seq<Item>, runId: string, encode: Payload -> string, decode: string -> Option<Payload>)
    requires AllPrintable(items, encode, decode)
    ensures Judge(Decoded(Recovered(PrintAll(items, encode)), decode), runId, false) == Verified
            <==> EndsSomewhere(Carried(items), runId, false)
  {
    PayloadsRecovered(items, encode, decode);
    JudgeMeans(Carried(items), runId, false);
  }

  // ----- names of more than one line -----

  lemma JoinHasSeparator(parts: seq<string>, sep: char)
    requires |parts| >= 2
    ensures sep in Join(parts, sep)
  {
    assert Join(parts, sep)[|parts[0]|] == sep;
  }

  // The lines behind the head of an event: its data, a blank line, and what follows the last newline.
  function Closing(line: string): seq<string> {
    [line, [], []]
  }

  lemma ClosingDispatched(line: string, text: string, data: seq<string>)
    requires DataOf(line) == Some(text) && Trim(line) != ""
    ensures Dispatched(Closing(line), data) == [Join(data + [text], '\n')]
  {
    BlankIsQuiet();
    var rest := Closing(line)[1..];
    assert rest == [[], []] && rest[1..] == [[]];
    OnePieceDispatchesNothing([]);
    assert Dispatched(rest, data + [text]) == [Join(data + [text], '\n')] + Dispatched(rest[1..], []);
  }

  lemma {:induction false} ClosingDispatchesSomething(lines: seq<string>, data: seq<string>, line: string, text: string)
    requires DataOf(line) == Some(text) && Trim(line) != ""
    ensures Dispatched(lines + Closing(line), data) != []
  {
    if lines == [] {
      EmptyFront(lines, Closing(line));
      ClosingDispatched(line, text, data);
    } else {
      ConcatFirst(lines, Closing(line));
      ClosingDispatchesSomething(lines[1..], Gathered(data, lines[0]), line, text);
    }
  }

  // Data in front of an event's own spoils it: it is dispatched besides, or with it.
  lemma {:induction false} NoiseIsHeard(lines: seq<string>, data: seq<string>, line: string, text: string)
    requires DataOf(line) == Some(text) && Trim(line) != "" && '\n' !in text && (data != [] || !Quiet(lines))
    ensures Dispatched(lines + Closing(line), data) != [text]
  {
    if lines == [] {
      EmptyFront(lines, Closing(line));
      ClosingDispatched(line, text, data);
      JoinHasSeparator(data + [text], '\n');
    } else {
      var all, rest := Gathered(data, lines[0]), lines[1..] + Closing(line);
      ConcatFirst(lines, Closing(line));
      if Trim(lines[0]) == "" && all != [] {
        ClosingDispatchesSomething(lines[1..], [], line, text);
      } else {
        assert all == [] ==> data == [] && DataOf(lines[0]) == None;
        NoiseIsHeard(lines[1..], all, line, text);
      }
    }
  }

  lemma NoisyName(head: string, text: string)
    requires text != "" && Trimmed(text) && '\n' !in text && !Quiet(Split(head, '\n'))
    ensures Recovered(head + ['\n'] + (DATA + " " + text + ['\n'] + ['\n'])) != [text]
  {
    var line := DATA + " " + text;
    DataLineCarries(text);
    SplitConcat(head, '\n', line + ['\n'] + ['\n']);
    SplitAtSeparator(line, ['\n'], '\n');
    assert Split(['\n'], '\n') == [[], []];
    assert [line] + [[], []] == Closing(line);
    NoiseIsHeard(Split(head, '\n'), [], line, text);
  }

  // An event is read back as printed exactly when no line of its name carries data.
  lemma NameMustBeQuiet(item: Item, encode: Payload -> string, decode: string -> Option<Payload>)
    requires item.Event? && CodesWell(item.payload, encode, decode)
    ensures Recovered(Print(item, encode)) == [encode(item.payload)] <==> Printable(item, encode, decode)
  {
    if Printable(item, encode, decode) {
      ItemRecovered(item, [], encode, decode);
      assert Print(item, encode) + [] == Print(item, encode);
      OneLineDispatchesNothing([]);
    } else {
      NoisyName(Head(item), encode(item.payload));
    }
  }

  // ----- a stream that breaks off -----

  lemma OneLineDispatchesNothing(line: string)
    requires '\n' !in line
    ensures Recovered(line) == []
  {
    SplitPart(line, '\n');
  }

  lemma QuietPart(lines: seq<string>, k: nat)
    requires k <= |lines| && Quiet(lines)
    ensures Quiet(lines[..k])
  {
  }

  // Lines without data, cut anywhere, dispatch nothing.
  lemma CutQuiet(a: string, n: nat)
    requires n <= |a| && Quiet(Split(a, '\n'))
    ensures Recovered(a[..n]) == []
  {
    var k, last := SplitOfPrefix(a, n, '\n');
    QuietPart(Split(a, '\n'), k);
    QuietDispatched(Split(a, '\n')[..k], [last]);
    OnePieceDispatchesNothing(last);
  }

  lemma OnePieceDispatchesNothing(line: string)
    ensures Dispatched([line], []) == []
  {
    assert Trim(line) == "" ==> DataOf(line) == None;
  }

  lemma CutPieces(head: string, tail: string, n: nat)
    requires n <= |head| + 1 + |tail|
    ensures (head + ['\n'] + tail)[..n] == if n <= |head| then head[..n] else head + ['\n'] + tail[..n - |head| - 1]
  {
  }

  lemma CutData(line: string, text: string, k: nat, tail: string)
    requires text != "" && Trimmed(text) && '\n' !in text && line == DATA + " " + text
    requires k <= |line| + 1 && tail == (line + ['\n'])[..k]
    ensures Recovered(tail) <= [text]
  {
    if k <= |line| {
      assert tail == line[..k];
      OneLineDispatchesNothing(tail);
    } else {
      assert tail == line + ['\n'] + [];
      SplitAtSeparator(line, [], '\n');
      DataLineCarries(text);
      var blank: seq<string> := [[]];
      assert blank + [] == blank;
      DataDispatched(line, text, []);
    }
  }

  lemma PrefixBehind(a: seq<string>, b: seq<string>, c: seq<string>)
    requires b <= c
    ensures a + b <= a + c
  {
  }

  lemma CutTail(item: Item, k: nat, encode: Payload -> string, decode: string -> Option<Payload>)
    requires Printable(item, encode, decode) && k < |Tail(item, encode)|
    ensures Recovered(Tail(item, encode)[..k]) <= Texts(item, encode)
  {
    if item.Event? {
      var line := DATA + " " + encode(item.payload);
      assert Tail(item, encode)[..k] == (line + ['\n'])[..k];
      CutData(line, encode(item.payload), k, Tail(item, encode)[..k]);
    } else {
      OneLineDispatchesNothing([]);
    }
  }

  lemma CutItem(item: Item, n: nat, encode: Payload -> string, decode: string -> Option<Payload>)
    requires Printable(item, encode, decode) && n < |Print(item, encode)|
    ensures Recovered(Print(item, encode)[..n]) <= Texts(item, encode)
  {
    var head := Head(item);
    if item.Comment? { CommentIsQuiet(item); }
    CutPieces(head, Tail(item, encode), n);
    if n <= |head| {
      CutQuiet(head, n);
    } else {
      var k := n - |head| - 1;
      QuietRecovered(head, Tail(item, encode)[..k]);
      CutTail(item, k, encode, decode);
    }
  }

  lemma CutFront(a: string, b: string, n: nat)
    requires n <= |a| + |b|
    ensures (a + b)[..n] == if n < |a| then a[..n] else a + b[..n - |a|]
  {
  }

  // A stream cut anywhere yields the first of the payloads, whole, and nothing else.
  lemma {:induction false} CutYieldsPrefix(items: seq<Item>, n: nat, encode: Payload -> string, decode: string -> Option<Payload>)
    requires AllPrintable(items, encode, decode) && n <= |PrintAll(items, encode)|
    ensures Recovered(PrintAll(items, encode)[..n]) <= AllTexts(items, encode)
  {
    if items == [] {
      OneLineDispatchesNothing([]);
    } else {
      var item, first, rest := items[0], Print(items[0], encode), PrintAll(items[1..], encode);
      CutFront(first, rest, n);
      if n < |first| {
        CutItem(item, n, encode, decode);
      } else {
        var cut := rest[..n - |first|];
        ItemRecovered(item, cut, encode, decode);
        CutYieldsPrefix(items[1..], n - |first|, encode, decode);
        PrefixBehind(Texts(item, encode), Recovered(cut), AllTexts(items[1..], encode));
      }
    }
  }

  lemma {:induction false} DecodedAppend(a: seq<string>, b: seq<string>, decode: string -> Option<Payload>)
    ensures Decoded(a + b, decode) == Decoded(a, decode) + Decoded(b, decode)
  {
    if a == [] {
      EmptyFront(a, b);
    } else {
      DecodedAppend(a[1..], b, decode);
      ConcatFirst(a, b);
      Regroup(if decode(a[0]).Some? then [decode(a[0]).value] else [], Decoded(a[1..], decode), Decoded(b, decode));
    }
  }

  // So whatever a cut stream proves, the whole stream proves.
  lemma CutProvesNoMore(items: seq<Item>, n: nat, runId: string, encode: Payload -> string, decode: string -> Option<Payload>)
    requires AllPrintable(items, encode, decode) && n <= |PrintAll(items, encode)|
    ensures var cut := Judge(Decoded(Recovered(PrintAll(items, encode)[..n]), decode), runId, false);
            cut == Ended || cut == Judge(Carried(items), runId, false)
  {
    CutYieldsPrefix(items, n, encode, decode);
    TextsDecode(items, encode, decode);
    JudgeOfPrefix(Recovered(PrintAll(items, encode)[..n]), AllTexts(items, encode), runId, decode);
  }

  lemma JudgeOfPrefix(texts: seq<string>, all: seq<string>, runId: string, decode: string -> Option<Payload>)
    requires texts <= all
    ensures var cut := Judge(Decoded(texts, decode), runId, false);
            cut == Ended || cut == Judge(Decoded(all, decode), runId, false)
  {
    var rest := all[|texts|..];
    PrefixAndRest(texts, all);
    DecodedAppend(texts, rest, decode);
    if Judge(Decoded(texts, decode), runId, false) != Ended {
      JudgeIsMonotone(Decoded(texts, decode), Decoded(rest, decode), runId, false);
    }
  }

  // ----- the end of a stream -----

  // The data gathered since the last dispatch.
  function Pending(lines: seq<string>, data: seq<string>): seq<string> {
    if lines == [] then data
    else
      var all := Gathered(data, lines[0]);
      Pending(lines[1..], if Trim(lines[0]) == "" then [] else all)
  }

  // Section 9.2 of the WHATWG HTML Living Standard discards an event that no blank line ends. The reader
  // dispatches it, exactly when data is pending and what follows the last newline is blank.
  lemma {:induction false} EndDispatches(lines: seq<string>, data: seq<string>)
    requires lines != []
    ensures var last := |lines| - 1;
            var open := Pending(lines[..last], data);
            Dispatched(lines, data) == Dispatched(lines[..last], data)
                                       + if open != [] && Trim(lines[last]) == "" then [Join(open, '\n')] else []
  {
    var last := |lines| - 1;
    if last == 0 {
      assert lines[..last] == [];
      assert Trim(lines[0]) == "" ==> Gathered(data, lines[0]) == data;
    } else {
      var all := Gathered(data, lines[0]);
      assert lines[..last][1..] == lines[1..][..last - 1];
      assert lines[..last][0] == lines[0];
      EndDispatches(lines[1..], if Trim(lines[0]) == "" then [] else all);
    }
  }
}
