// Cutting an imported OpenClaw memory file into byte-limited chunks.
module Chunks {
  import opened Utf8
  import Strings = GoStrings
  import opened Sequences

  const LF: byte := 10
  const CR: byte := 13
  const DEFAULT_EMBED_MAX_BYTES := 6000

  // ----- what a list of bodies says -----

  function EraseAll(bodies: seq<Text>): Text {
    if bodies == [] then [] else Erase(bodies[0]) + EraseAll(bodies[1..])
  }

  lemma {:induction false} EraseAllConcat(a: seq<Text>, b: seq<Text>)
    ensures EraseAll(a + b) == EraseAll(a) + EraseAll(b)
  {
    if a == [] {
      EmptyFront(a, b);
    } else {
      EraseAllConcat(a[1..], b);
      ConcatFirst(a, b);
      Regroup(Erase(a[0]), EraseAll(a[1..]), EraseAll(b));
    }
  }

  lemma EraseAllSnoc(a: seq<Text>, t: Text)
    ensures EraseAll(a + [t]) == EraseAll(a) + Erase(t)
  {
    EraseAllConcat(a, [t]);
  }

  ghost predicate AllValid(bodies: seq<Text>) {
    forall b :: b in bodies ==> Valid(b)
  }

  // The bodies are well formed and say what the text says, up to whitespace, in order.
  ghost predicate Faithful(bodies: seq<Text>, text: Text) {
    AllValid(bodies) && EraseAll(bodies) == Erase(text)
  }

  ghost predicate Bounded(bodies: seq<Text>, limit: nat) {
    forall b :: b in bodies ==> b != [] && |b| <= limit
  }

  // The texts and limits for which no cut falls inside a rune.
  predicate Sound(text: Text, limit: nat) {
    Valid(text) && limit >= 4
  }

  // ----- bestChunkCut -----

  // The first i bytes are whole runes.
  predicate WholeTo(text: Text, i: nat)
    requires i <= |text|
  {
    Valid(text[..i])
  }

  // The rune that ends at i is whitespace.
  predicate BreakAt(text: Text, i: nat)
    requires i <= |text|
  {
    SpaceLast(text[..i])
  }

  // No whole rune that ends after lo and up to hi is whitespace.
  ghost predicate NoBreak(text: Text, lo: nat, hi: nat)
    requires hi <= |text|
  {
    forall i :: lo < i <= hi && WholeTo(text, i) ==> !BreakAt(text, i)
  }

  // A whole prefix of a valid text ends before its last rune.
  lemma WholePrefixBeforeLastRune(a: Text, b: Text)
    requires Valid(a) && Valid(a + b) && b != []
    ensures |a| <= |a + b| - LastSize(a + b)
  {
    ValidConcat(a, b);
    var k := SomeLastRune(b);
    EndsWithRuneConcat(a, b, k);
    LastSizeIs(a + b, k);
  }

  // Stepping back over the last rune, no whole prefix is passed over.
  lemma StepBack(text: Text, i: nat)
    requires 0 < i <= |text| && WholeTo(text, i)
    ensures WholeTo(text, i - LastSize(text[..i]))
    ensures forall j :: i - LastSize(text[..i]) < j < i ==> !WholeTo(text, j)
  {
    var s := text[..i];
    ValidLast(s);
    assert s[..i - LastSize(s)] == text[..i - LastSize(s)];
    forall j | 0 <= j < i && WholeTo(text, j) ensures j <= i - LastSize(s) {
      assert text[..j] + text[j..i] == s;
      WholePrefixBeforeLastRune(text[..j], text[j..i]);
    }
  }

  method LongestWholePrefix(text: Text, maxBytes: nat) returns (cut: nat)
    requires maxBytes <= |text|
    ensures cut <= maxBytes && WholeTo(text, cut)
    ensures forall i :: cut < i <= maxBytes ==> !WholeTo(text, i)
    ensures Sound(text, maxBytes) ==> cut >= 1
  {
    cut := maxBytes;
    while cut > 0 && !WholeTo(text, cut)
      invariant cut <= maxBytes && forall i :: cut < i <= maxBytes ==> !WholeTo(text, i)
    {
      cut := cut - 1;
    }
    if Sound(text, maxBytes) {
      var c := ValidCutNear(text, maxBytes);
      assert WholeTo(text, c);
    }
  }

  // The end of the last whitespace rune in the second half of a whole prefix, or else its own end.
  method LastBreak(text: Text, whole: nat) returns (best: nat)
    requires 0 < whole <= |text| && WholeTo(text, whole)
    ensures whole / 2 < best <= whole && WholeTo(text, best)
    ensures best == whole || BreakAt(text, best)
    ensures NoBreak(text, if BreakAt(text, best) then best else whole / 2, whole)
  {
    var i := whole;
    while i > whole / 2
      invariant 0 <= i <= whole && WholeTo(text, i) && NoBreak(text, i, whole)
    {
      if BreakAt(text, i) { return i; }
      var size := LastSize(text[..i]);
      NoBreakStep(text, i, whole, size);
      i := i - size;
    }
    NoBreakFound(text, i, whole);
    best := whole;
  }

  lemma NoBreakFound(text: Text, i: nat, whole: nat)
    requires i <= whole / 2 < whole <= |text| && WholeTo(text, whole) && NoBreak(text, i, whole)
    ensures !BreakAt(text, whole) && NoBreak(text, whole / 2, whole)
  {
  }

  lemma NoBreakStep(text: Text, i: nat, whole: nat, size: nat)
    requires 0 < i <= whole <= |text| && WholeTo(text, i) && !BreakAt(text, i) && NoBreak(text, i, whole)
    requires size == LastSize(text[..i])
    ensures 0 < size <= i && WholeTo(text, i - size) && NoBreak(text, i - size, whole)
  {
    StepBack(text, i);
  }

  // bestChunkCut: a text with no whole prefix within the limit is cut at the limit.
  method BestChunkCut(text: Text, maxBytes: nat) returns (cut: nat, ghost whole: nat)
    requires 0 < maxBytes <= |text|
    ensures 1 <= cut <= maxBytes
    ensures whole <= maxBytes && WholeTo(text, whole) && (Sound(text, maxBytes) ==> whole >= 1)
    ensures forall i :: whole < i <= maxBytes ==> !WholeTo(text, i)
    ensures whole == 0 ==> cut == maxBytes
    ensures whole > 0 ==> whole / 2 < cut <= whole && WholeTo(text, cut) && (cut == whole || BreakAt(text, cut))
    ensures whole > 0 ==> NoBreak(text, if BreakAt(text, cut) then cut else whole / 2, whole)
  {
    cut := LongestWholePrefix(text, maxBytes);
    whole := cut;
    if cut <= 0 { return maxBytes, 0; }
    cut := LastBreak(text, cut);
  }

  // ----- splitLongTextByBytes -----

  // A nonempty prefix of a text that does not start with a space does not trim away.
  lemma PrefixSurvivesTrim(text: Text, cut: nat)
    requires 1 <= cut <= |text| && !SpaceFirst(text)
    ensures Trim(text[..cut]) != [] && |Trim(text[..cut])| <= cut
  {
    assert text[..cut] + text[cut..] == text;
    if SpaceFirst(text[..cut]) {
      RunePrefix(text[..cut], text[cut..]);
    }
    TrimShape(text[..cut]);
  }

  // A body appended to a list takes its part of what is still to be said.
  lemma AppendBody(bodies: seq<Text>, t: Text, rest: Text, said: Text)
    requires AllValid(bodies) && Valid(t) && EraseAll(bodies) + (Erase(t) + rest) == said
    ensures AllValid(bodies + [t]) && EraseAll(bodies + [t]) + rest == said
  {
    EraseAllSnoc(bodies, t);
    Regroup(EraseAll(bodies), Erase(t), rest);
  }

  // The bodies so far and the text that is left say what is to be said.
  ghost predicate Left(out: seq<Text>, text: Text, said: Text) {
    Valid(text) && AllValid(out) && EraseAll(out) + Erase(text) == said
  }

  lemma CutIsFaithful(bodies: seq<Text>, text: Text, cut: nat, said: Text)
    requires cut <= |text| && WholeTo(text, cut) && Left(bodies, text, said)
    ensures Left(bodies + [Trim(text[..cut])], Trim(text[cut..]), said)
  {
    ValidSplit(text, cut);
    TrimValid(text[..cut]);
    TrimValid(text[cut..]);
    AppendBody(bodies, Trim(text[..cut]), Erase(Trim(text[cut..])), said);
  }

  lemma OneMoreBounded(bodies: seq<Text>, t: Text, limit: nat)
    requires Bounded(bodies, limit) && t != [] && |t| <= limit
    ensures Bounded(bodies + [t], limit)
  {
  }

  // One body cut off, and the rest trimmed.
  method CutOff(out: seq<Text>, text: Text, maxBytes: nat, ghost said: Text) returns (out': seq<Text>, rest: Text)
    requires 0 < maxBytes < |text| && Bounded(out, maxBytes) && !SpaceFirst(text)
    ensures Bounded(out', maxBytes) && !SpaceFirst(rest) && |rest| < |text|
    ensures maxBytes >= 4 && Left(out, text, said) ==> Left(out', rest, said)
  {
    ghost var prefix: nat;
    var cut: nat;
    cut, prefix := BestChunkCut(text, maxBytes);
    PrefixSurvivesTrim(text, cut);
    OneMoreBounded(out, Trim(text[..cut]), maxBytes);
    if maxBytes >= 4 && Left(out, text, said) { CutIsFaithful(out, text, cut, said); }
    TrimShape(text[cut..]);
    out', rest := out + [Trim(text[..cut])], Trim(text[cut..]);
  }

  lemma LastBody(out: seq<Text>, text: Text, limit: nat)
    requires Bounded(out, limit) && text != [] && |text| <= limit && !SpaceFirst(text)
    ensures Bounded(out + [Trim(text)], limit)
    ensures forall said :: Left(out, text, said) ==> AllValid(out + [Trim(text)]) && EraseAll(out + [Trim(text)]) == said
  {
    TrimShape(text);
    OneMoreBounded(out, Trim(text), limit);
    EraseAllSnoc(out, Trim(text));
    if Valid(text) { TrimValid(text); }
  }

  lemma NothingLeft(out: seq<Text>, said: Text)
    requires Left(out, [], said)
    ensures AllValid(out) && EraseAll(out) == said
  {
    EmptyBack(EraseAll(out), Erase([]));
  }

  method SplitLongTextByBytes(whole: Text, maxBytes: nat) returns (out: seq<Text>)
    requires maxBytes > 0
    ensures Bounded(out, maxBytes)
    ensures Sound(whole, maxBytes) ==> Faithful(out, whole)
  {
    var text := Trim(whole);
    TrimShape(whole);
    if Valid(whole) { TrimValid(whole); }
    EmptyFront(EraseAll([]), Erase(text));
    out := [];
    while |text| > maxBytes
      invariant Bounded(out, maxBytes) && !SpaceFirst(text)
      invariant Sound(whole, maxBytes) ==> Left(out, text, Erase(whole))
      decreases |text|
    {
      out, text := CutOff(out, text, maxBytes, Erase(whole));
    }
    if |text| > 0 {
      LastBody(out, text, maxBytes);
      out := out + [Trim(text)];
    } else if Sound(whole, maxBytes) {
      NothingLeft(out, Erase(whole));
    }
  }

  // ----- splitParagraphs -----

  // strings.ReplaceAll(text, "\r\n", "\n").
  function UnixLines(s: Text): Text {
    if |s| >= 2 && s[0] == CR && s[1] == LF then [LF] + UnixLines(s[2..])
    else if s == [] then []
    else [s[0]] + UnixLines(s[1..])
  }

  lemma {:induction false} UnixLinesKeepsOther(r: Text, s: Text)
    requires CR !in r
    ensures UnixLines(r + s) == r + UnixLines(s)
  {
    if r == [] {
      EmptyFront(r, s);
      EmptyFront(r, UnixLines(s));
    } else {
      UnixLinesKeepsOther(r[1..], s);
      ConcatFirst(r, s);
      FirstAndRest(r);
      Regroup([r[0]], r[1..], UnixLines(s));
    }
  }

  lemma {:induction false} UnixLinesValid(s: Text)
    requires Valid(s)
    ensures Valid(UnixLines(s)) && Erase(UnixLines(s)) == Erase(s)
  {
    if s == [] {
    } else if s[0] == CR {
      assert s == [CR] + s[1..];
      AsciiFirst(CR, s[1..]);
      UnixLinesValid(s[1..]);
      AsciiFirst(CR, UnixLines(s[1..]));
      if |s| >= 2 && s[1] == LF {
        assert s[1..] == [LF] + s[2..];
        assert s[1..][1..] == s[2..];
      }
    } else {
      var n := RuneSize(s);
      var r, rest := s[..n], s[n..];
      assert s == r + rest;
      RunePrefix(s, []);
      FirstRune(s);
      RuneHasNoCarriageReturn(r);
      UnixLinesKeepsOther(r, rest);
      UnixLinesValid(rest);
      ValidConcat(r, UnixLines(rest));
      ValidConcat(r, rest);
    }
  }

  lemma RuneHasNoCarriageReturn(r: Text)
    requires r != [] && RuneSize(r) == |r| && r[0] != CR
    ensures CR !in r
  {
  }

  // A newline is never part of a longer rune, so a valid text falls into valid lines.
  lemma {:induction false} ValidAroundNewline(a: Text, b: Text)
    requires Valid(a + [LF] + b)
    ensures Valid(a) && Valid(b)
  {
    var s := a + [LF] + b;
    if a == [] {
      assert s == [LF] + b;
      AsciiFirst(LF, b);
    } else {
      var n := RuneSize(s);
      assert s[|a|] == LF && s[0] == a[0];
      assert n <= |a|;
      assert s[n..] == a[n..] + [LF] + b;
      assert s[..n] == a[..n];
      ValidAroundNewline(a[n..], b);
      FirstRune(s);
      ValidConcat(a[..n], a[n..]);
      assert a[..n] + a[n..] == a;
    }
  }

  lemma {:induction false} ValidLines(lines: seq<Text>)
    requires lines != [] && Valid(Strings.Join(lines, LF))
    ensures AllValid(lines)
  {
    if |lines| > 1 {
      ValidAroundNewline(lines[0], Strings.Join(lines[1..], LF));
      ValidLines(lines[1..]);
      FirstAndRest(lines);
    }
  }

  lemma NewlineBetween(a: Text, b: Text)
    requires Valid(a) && Valid(b)
    ensures Valid(a + [LF] + b) && Erase(a + [LF] + b) == Erase(a) + Erase(b)
  {
    AsciiFirst(LF, b);
    assert [] + Erase(b) == Erase(b);
    ValidConcat(a, [LF] + b);
    Regroup(a, [LF], b);
  }

  lemma {:induction false} JoinValid(lines: seq<Text>)
    requires AllValid(lines)
    ensures Valid(Strings.Join(lines, LF)) && Erase(Strings.Join(lines, LF)) == EraseAll(lines)
  {
    if |lines| == 1 {
      assert EraseAll(lines[1..]) == [];
    } else if |lines| > 1 {
      JoinValid(lines[1..]);
      NewlineBetween(lines[0], Strings.Join(lines[1..], LF));
    }
  }

  // The paragraphs so far and the lines of the one under way say what the lines so far say.
  ghost predicate Gathered(out: seq<Text>, current: seq<Text>, done: seq<Text>) {
    AllValid(out) && AllValid(current) && EraseAll(out) + EraseAll(current) == EraseAll(done)
  }

  lemma GatherLine(out: seq<Text>, current: seq<Text>, done: seq<Text>, line: Text)
    requires Gathered(out, current, done) && Valid(line)
    ensures Gathered(out, current + [line], done + [line])
  {
    EraseAllSnoc(done, line);
    EraseAllSnoc(current, line);
    Regroup(EraseAll(out), EraseAll(current), Erase(line));
  }

  lemma SkipBlankLine(out: seq<Text>, current: seq<Text>, done: seq<Text>, line: Text)
    requires Gathered(out, current, done) && Valid(line) && Trim(line) == []
    ensures Gathered(out, current, done + [line])
  {
    EraseAllSnoc(done, line);
    TrimValid(line);
  }

  function Flushed(out: seq<Text>, current: seq<Text>): seq<Text> {
    if current == [] then out else out + [Strings.Join(current, LF)]
  }

  lemma FlushGathers(out: seq<Text>, current: seq<Text>, done: seq<Text>)
    requires Gathered(out, current, done)
    ensures Gathered(Flushed(out, current), [], done)
  {
    if current != [] {
      JoinValid(current);
      EraseAllSnoc(out, Strings.Join(current, LF));
    }
  }

  // splitParagraphs: maximal runs of lines that are not blank.
  method SplitParagraphs(text: Text) returns (out: seq<Text>)
    ensures Valid(text) ==> Faithful(out, text)
  {
    var lines := Strings.Split(UnixLines(text), LF);
    if Valid(text) { LinesAreFaithful(text); }
    out := [];
    var current: seq<Text> := [];
    for k := 0 to |lines|
      invariant Valid(text) ==> Gathered(out, current, lines[..k])
    {
      assert lines[..k + 1] == lines[..k] + [lines[k]];
      if Trim(lines[k]) == [] {
        if Valid(text) {
          SkipBlankLine(out, current, lines[..k], lines[k]);
          FlushGathers(out, current, lines[..k + 1]);
        }
        out, current := Flushed(out, current), [];
      } else {
        if Valid(text) { GatherLine(out, current, lines[..k], lines[k]); }
        current := current + [lines[k]];
      }
    }
    assert lines[..|lines|] == lines;
    if Valid(text) { FlushGathers(out, current, lines); }
    out := Flushed(out, current);
  }

  lemma LinesAreFaithful(text: Text)
    requires Valid(text)
    ensures Faithful(Strings.Split(UnixLines(text), LF), text)
  {
    UnixLinesValid(text);
    Strings.JoinOfSplit(UnixLines(text), LF);
    ValidLines(Strings.Split(UnixLines(text), LF));
    JoinValid(Strings.Split(UnixLines(text), LF));
  }

  // ----- splitTextByBytes -----

  // The bodies so far and the body under way say what has been read so far.
  ghost predicate Spoken(out: seq<Text>, current: Text, said: Text) {
    AllValid(out) && Valid(current) && EraseAll(out) + Erase(current) == said
  }

  function FlushBody(out: seq<Text>, current: Text): seq<Text> {
    if Trim(current) == [] then out else out + [Trim(current)]
  }

  lemma FlushSpeaks(out: seq<Text>, current: Text, said: Text)
    requires Spoken(out, current, said)
    ensures Spoken(FlushBody(out, current), [], said)
  {
    TrimValid(current);
    if Trim(current) != [] {
      EraseAllSnoc(out, Trim(current));
    }
    assert EraseAll(FlushBody(out, current)) + [] == EraseAll(FlushBody(out, current));
  }

  lemma FlushBounded(out: seq<Text>, current: Text, limit: nat)
    requires Bounded(out, limit) && |current| <= limit
    ensures Bounded(FlushBody(out, current), limit)
  {
    TrimShape(current);
  }

  const BLANK_LINE: Text := [LF, LF]

  function Extended(current: Text, paragraph: Text): Text {
    if |current| > 0 then current + BLANK_LINE + paragraph else paragraph
  }

  lemma ExtendedSays(current: Text, p: Text)
    requires Valid(current) && Valid(p)
    ensures Valid(Extended(current, p)) && Erase(Extended(current, p)) == Erase(current) + Erase(p)
  {
    if |current| > 0 {
      var broken := current + [LF] + [];
      assert current + BLANK_LINE + p == broken + [LF] + p;
      NewlineBetween(current, []);
      NewlineBetween(broken, p);
    }
  }

  lemma ExtendSpeaks(out: seq<Text>, current: Text, p: Text, said: Text)
    requires Spoken(out, current, said) && Valid(p)
    ensures Spoken(out, Extended(current, p), said + Erase(p))
  {
    ExtendedSays(current, p);
    Regroup(EraseAll(out), Erase(current), Erase(p));
  }

  lemma LongSpeaks(out: seq<Text>, bodies: seq<Text>, p: Text, said: Text)
    requires Spoken(out, [], said) && Faithful(bodies, p)
    ensures Spoken(out + bodies, [], said + Erase(p))
  {
    EraseAllConcat(out, bodies);
    assert EraseAll(out) + [] == EraseAll(out);
    assert EraseAll(out + bodies) + [] == EraseAll(out + bodies);
  }

  // One paragraph joins the body under way, starts a new one, or is cut up on its own.
  method AddParagraph(out: seq<Text>, current: Text, paragraph: Text, maxBytes: nat, ghost said: Text)
    returns (out': seq<Text>, current': Text)
    requires maxBytes > 0 && Bounded(out, maxBytes) && |current| <= maxBytes
    ensures Bounded(out', maxBytes) && |current'| <= maxBytes
    ensures Spoken(out, current, said) && Sound(paragraph, maxBytes) ==> Spoken(out', current', said + Erase(paragraph))
  {
    var p := Trim(paragraph);
    TrimShape(paragraph);
    if Valid(paragraph) { TrimValid(paragraph); }
    out', current' := out, current;
    FlushBounded(out, current, maxBytes);
    if Spoken(out, current, said) {
      FlushSpeaks(out, current, said);
      if Valid(p) {
        ExtendSpeaks(out, current, p, said);
        ExtendSpeaks(FlushBody(out, current), [], p, said);
      }
    }
    if p == [] {
      assert said + Erase(p) == said;
      return;
    }
    if |p| > maxBytes {
      var bodies := SplitLongTextByBytes(p, maxBytes);
      out', current' := FlushBody(out, current) + bodies, [];
      if Spoken(out, current, said) && Sound(p, maxBytes) {
        LongSpeaks(FlushBody(out, current), bodies, p, said);
      }
      return;
    }
    if |Extended(current, p)| <= maxBytes {
      current' := Extended(current, p);
    } else {
      out', current' := FlushBody(out, current), p;
    }
  }

  // The loop over the paragraphs, and its last flush.
  method Pack(paragraphs: seq<Text>, maxBytes: nat) returns (out: seq<Text>)
    requires maxBytes > 0
    ensures Bounded(out, maxBytes)
    ensures AllValid(paragraphs) && maxBytes >= 4 ==> AllValid(out) && EraseAll(out) == EraseAll(paragraphs)
  {
    out := [];
    var current: Text := [];
    ghost var sound := AllValid(paragraphs) && maxBytes >= 4;
    for k := 0 to |paragraphs|
      invariant Bounded(out, maxBytes) && |current| <= maxBytes
      invariant sound ==> Spoken(out, current, EraseAll(paragraphs[..k]))
    {
      assert paragraphs[..k + 1] == paragraphs[..k] + [paragraphs[k]];
      EraseAllSnoc(paragraphs[..k], paragraphs[k]);
      out, current := AddParagraph(out, current, paragraphs[k], maxBytes, EraseAll(paragraphs[..k]));
    }
    assert paragraphs[..|paragraphs|] == paragraphs;
    FlushBounded(out, current, maxBytes);
    if sound {
      FlushSpeaks(out, current, EraseAll(paragraphs));
    }
    out := FlushBody(out, current);
    assert EraseAll(out) + [] == EraseAll(out);
  }

  // splitTextByBytes: paragraphs are packed into bodies as long as they fit.
  method SplitTextByBytes(text: Text, maxBytes: nat) returns (out: seq<Text>)
    requires maxBytes > 0
    ensures Bounded(out, maxBytes)
    ensures Sound(text, maxBytes) ==> Faithful(out, text)
    ensures Trim(text) != [] && |text| <= maxBytes ==> out == [Trim(text)]
  {
    TrimShape(text);
    if Valid(text) { TrimValid(text); }
    if Trim(text) == [] { return []; }
    if |text| <= maxBytes {
      assert EraseAll([Trim(text)]) == Erase(Trim(text)) + [];
      return [Trim(text)];
    }
    var paragraphs := SplitParagraphs(text);
    out := Pack(paragraphs, maxBytes);
  }

  // ----- chunk headers -----

  function AsciiByte(c: char): byte {
    if c as int < 0x80 then c as int else 0x3F
  }

  // The bytes of an ASCII string.
  function Ascii(s: string): Text {
    seq(|s|, i requires 0 <= i < |s| => AsciiByte(s[i]))
  }

  function Title(part: nat, total: nat): Text {
    Ascii("OpenClaw memory import")
    + if total > 1 then Ascii("\nPart: ") + Ascii(Strings.Dec(part)) + Ascii("/") + Ascii(Strings.Dec(total)) else []
  }

  function HeaderWithSource(title: Text, source: Text): Text {
    if Trim(source) == [] then title + BLANK_LINE
    else title + Ascii("\nSource: ") + source + BLANK_LINE
  }

  const SLASH: byte := 47

  // filepath.Base.
  function Base(path: Text): Text {
    if path == [] then Ascii(".")
    else if path[|path| - 1] == SLASH then (if |path| == 1 then [SLASH] else Base(path[..|path| - 1]))
    else AfterLastSlash(path)
  }

  function AfterLastSlash(path: Text): Text {
    if path == [] || path[|path| - 1] == SLASH then []
    else AfterLastSlash(path[..|path| - 1]) + [path[|path| - 1]]
  }

  // openClawChunkHeader: the first of three sources that leaves room, or none.
  function Header(relPath: Text, part: nat, total: nat, maxBytes: nat): Text {
    var t := Title(part, total);
    if |HeaderWithSource(t, relPath)| < maxBytes then HeaderWithSource(t, relPath)
    else if |HeaderWithSource(t, Base(relPath))| < maxBytes then HeaderWithSource(t, Base(relPath))
    else t + BLANK_LINE
  }

  // The lengths a title can have: without a part line, and with one of two to six digits.
  const SHORTEST_TITLE := 22
  const LONGEST_TITLE := 36

  function TitleSize(part: nat, total: nat): nat {
    SHORTEST_TITLE + if total > 1 then 8 + Strings.Digits(part) + Strings.Digits(total) else 0
  }

  lemma TitleLength(part: nat, total: nat)
    requires part <= total <= 999
    ensures |Title(part, total)| == TitleSize(part, total)
  {
    Strings.DecLength(part);
    Strings.DecLength(total);
  }

  predicate IsTitleSize(size: nat) {
    size == SHORTEST_TITLE || 32 <= size <= LONGEST_TITLE
  }

  lemma TitleSizes(part: nat, total: nat)
    requires 1 <= part <= total <= 999
    ensures IsTitleSize(TitleSize(part, total))
  {
  }

  // Every size occurs.
  lemma TitleOfSize(size: nat) returns (part: nat, total: nat)
    requires IsTitleSize(size)
    ensures 1 <= part <= total <= 999 && TitleSize(part, total) == size
  {
    if size == SHORTEST_TITLE { part, total := 1, 1; }
    else if size == 32 { part, total := 1, 2; }
    else if size == 33 { part, total := 1, 10; }
    else if size == 34 { part, total := 10, 10; }
    else if size == 35 { part, total := 10, 100; }
    else { part, total := 999, 999; }
  }

  // What a source adds to a title.
  function SourceSize(source: Text): (n: nat)
    ensures n >= 2
  {
    if Trim(source) == [] then 2 else 11 + |source|
  }

  lemma HeaderWithSourceLength(title: Text, source: Text)
    ensures |HeaderWithSource(title, source)| == |title| + SourceSize(source)
  {
  }

  // The length of the header chosen under a title of a given length: it only depends on that length.
  function HeaderSize(relPath: Text, title: nat, maxBytes: nat): (n: nat)
    ensures n >= title + 2
  {
    if title + SourceSize(relPath) < maxBytes then title + SourceSize(relPath)
    else if title + SourceSize(Base(relPath)) < maxBytes then title + SourceSize(Base(relPath))
    else title + 2
  }

  lemma HeaderLengthIs(relPath: Text, part: nat, total: nat, maxBytes: nat)
    requires part <= total <= 999
    ensures |Header(relPath, part, total, maxBytes)| == HeaderSize(relPath, TitleSize(part, total), maxBytes)
  {
    TitleLength(part, total);
    HeaderWithSourceLength(Title(part, total), relPath);
    HeaderWithSourceLength(Title(part, total), Base(relPath));
  }

  // The longest header naming the full path leaves room.
  predicate PathFits(relPath: Text, maxBytes: nat) {
    LONGEST_TITLE + SourceSize(relPath) < maxBytes
  }

  // The room for bodies is measured under the longest title. It is enough under every title exactly if
  // there is any, and none of the five shorter titles leaves room for a source so much longer that its
  // header is longer than the measured one.
  predicate HeadersFit(relPath: Text, maxBytes: nat) {
    var measured := HeaderSize(relPath, LONGEST_TITLE, maxBytes);
    && measured < maxBytes
    && HeaderSize(relPath, 22, maxBytes) <= measured && HeaderSize(relPath, 32, maxBytes) <= measured
    && HeaderSize(relPath, 33, maxBytes) <= measured && HeaderSize(relPath, 34, maxBytes) <= measured
    && HeaderSize(relPath, 35, maxBytes) <= measured
  }

  // In particular if the full path fits: then every header of up to 999 parts names it.
  lemma HeaderLength(relPath: Text, part: nat, total: nat, maxBytes: nat)
    requires 1 <= part <= total <= 999 && PathFits(relPath, maxBytes)
    ensures Header(relPath, part, total, maxBytes) == HeaderWithSource(Title(part, total), relPath)
    ensures HeadersFit(relPath, maxBytes)
  {
    TitleSizes(part, total);
    TitleLength(part, total);
    HeaderWithSourceLength(Title(part, total), relPath);
  }

  // ----- buildOpenClawMemoryChunks -----

  function BodyLimit(relPath: Text, maxBytes: nat): (limit: nat)
    requires maxBytes > 0
    ensures limit > 0
  {
    var room := maxBytes - |Header(relPath, 999, 999, maxBytes)|;
    if room > 0 then room else if maxBytes / 2 > 0 then maxBytes / 2 else 1
  }

  function EffectiveMax(maxBytes: int): nat {
    if maxBytes <= 0 then DEFAULT_EMBED_MAX_BYTES else maxBytes
  }

  function Chunk(relPath: Text, body: Text, part: nat, total: nat, maxBytes: nat): Text {
    Trim(Header(relPath, part, total, maxBytes) + body)
  }

  // The same limit, by sizes alone.
  function BodyRoom(relPath: Text, maxBytes: nat): nat {
    var measured := HeaderSize(relPath, LONGEST_TITLE, maxBytes);
    if measured < maxBytes then maxBytes - measured else if maxBytes / 2 > 0 then maxBytes / 2 else 1
  }

  lemma BodyLimitIs(relPath: Text, maxBytes: nat)
    requires maxBytes > 0
    ensures BodyLimit(relPath, maxBytes) == BodyRoom(relPath, maxBytes)
  {
    HeaderLengthIs(relPath, 999, 999, maxBytes);
  }

  lemma HeaderFits(relPath: Text, part: nat, total: nat, maxBytes: nat)
    requires 1 <= part <= total <= 999 && HeadersFit(relPath, maxBytes)
    ensures HeaderSize(relPath, TitleSize(part, total), maxBytes) + BodyRoom(relPath, maxBytes) <= maxBytes
  {
    TitleSizes(part, total);
  }

  lemma ChunkFits(relPath: Text, body: Text, part: nat, total: nat, maxBytes: nat)
    requires 1 <= part <= total <= 999 && HeadersFit(relPath, maxBytes) && |body| <= BodyRoom(relPath, maxBytes)
    ensures |Chunk(relPath, body, part, total, maxBytes)| <= maxBytes
  {
    var header := Header(relPath, part, total, maxBytes);
    HeaderFits(relPath, part, total, maxBytes);
    HeaderLengthIs(relPath, part, total, maxBytes);
    TrimShape(header + body);
  }

  // Header and body as a function of the body and its part.
  function Parted(relPath: Text, total: nat, maxBytes: nat): (Text, nat) -> Text {
    (body, part) => Chunk(relPath, body, part, total, maxBytes)
  }

  // Every body under the header of its part.
  function ChunksOf(bodies: seq<Text>, chunk: (Text, nat) -> Text): (chunks: seq<Text>)
    ensures |chunks| == |bodies|
    decreases |bodies|
  {
    if bodies == [] then []
    else
      var last := |bodies| - 1;
      ChunksOf(bodies[..last], chunk) + [chunk(bodies[last], |bodies|)]
  }

  lemma {:induction false} ChunksWithin(bodies: seq<Text>, chunk: (Text, nat) -> Text, limit: nat)
    requires forall i :: 0 <= i < |bodies| ==> |chunk(bodies[i], i + 1)| <= limit
    ensures Within(ChunksOf(bodies, chunk), limit)
    decreases |bodies|
  {
    if bodies != [] {
      var front := bodies[..|bodies| - 1];
      assert forall i :: 0 <= i < |front| ==> front[i] == bodies[i];
      ChunksWithin(front, chunk, limit);
    }
  }

  lemma PartFits(relPath: Text, bodies: seq<Text>, i: nat, maxBytes: nat)
    requires i < |bodies| <= 999 && HeadersFit(relPath, maxBytes) && |bodies[i]| <= BodyRoom(relPath, maxBytes)
    ensures |Parted(relPath, |bodies|, maxBytes)(bodies[i], i + 1)| <= maxBytes
  {
    ChunkFits(relPath, bodies[i], i + 1, |bodies|, maxBytes);
  }

  lemma ChunksFit(relPath: Text, bodies: seq<Text>, maxBytes: nat)
    requires |bodies| <= 999 && HeadersFit(relPath, maxBytes) && Bounded(bodies, BodyRoom(relPath, maxBytes))
    ensures Within(ChunksOf(bodies, Parted(relPath, |bodies|, maxBytes)), maxBytes)
  {
    var chunk := Parted(relPath, |bodies|, maxBytes);
    forall i | 0 <= i < |bodies| ensures |chunk(bodies[i], i + 1)| <= maxBytes {
      assert |bodies[i]| <= BodyRoom(relPath, maxBytes) by { assert bodies[i] in bodies; }
      PartFits(relPath, bodies, i, maxBytes);
    }
    ChunksWithin(bodies, chunk, maxBytes);
  }

  // ----- when chunks overflow -----

  predicate Within(chunks: seq<Text>, limit: nat) {
    forall c :: c in chunks ==> |c| <= limit
  }

  // A body nothing is trimmed off.
  function Filled(n: nat): (body: Text)
    ensures |body| == n
  {
    seq(n, i => 0x78)
  }

  lemma NothingTrimmed(s: Text)
    requires s != [] && 0x20 < s[0] < 0x80 && s[|s| - 1] == 0x78
    ensures Trim(s) == s
  {
    assert Suffix(s, 1) == [0x78];
    LastSizeIs(s, 1);
  }

  lemma HeaderStarts(relPath: Text, part: nat, total: nat, maxBytes: nat)
    ensures Header(relPath, part, total, maxBytes) != [] && Header(relPath, part, total, maxBytes)[0] == 0x4F
  {
    assert Title(part, total)[0] == 0x4F;
  }

  lemma FilledChunk(relPath: Text, n: nat, part: nat, total: nat, maxBytes: nat)
    requires n > 0 && part <= total <= 999
    ensures |Chunk(relPath, Filled(n), part, total, maxBytes)| == HeaderSize(relPath, TitleSize(part, total), maxBytes) + n
  {
    HeaderStarts(relPath, part, total, maxBytes);
    HeaderLengthIs(relPath, part, total, maxBytes);
    NothingTrimmed(Header(relPath, part, total, maxBytes) + Filled(n));
  }

  lemma FilledPart(relPath: Text, n: nat, part: nat, total: nat, maxBytes: nat)
    requires n > 0 && part <= total <= 999
    ensures |Parted(relPath, total, maxBytes)(Filled(n), part)| == HeaderSize(relPath, TitleSize(part, total), maxBytes) + n
  {
    FilledChunk(relPath, n, part, total, maxBytes);
  }

  lemma {:induction false} ChunkAt(bodies: seq<Text>, chunk: (Text, nat) -> Text, i: nat)
    requires i < |bodies|
    ensures ChunksOf(bodies, chunk)[i] == chunk(bodies[i], i + 1)
    decreases |bodies|
  {
    var last := |bodies| - 1;
    if i < last {
      ChunkAt(bodies[..last], chunk, i);
    }
  }

  // A title under which a full body overflows.
  lemma OverflowingTitle(relPath: Text, maxBytes: nat) returns (title: nat)
    requires maxBytes > 0 && !HeadersFit(relPath, maxBytes)
    ensures IsTitleSize(title) && HeaderSize(relPath, title, maxBytes) + BodyRoom(relPath, maxBytes) > maxBytes
  {
    var measured := HeaderSize(relPath, LONGEST_TITLE, maxBytes);
    title :=
      if measured >= maxBytes || HeaderSize(relPath, 22, maxBytes) > measured then 22
      else if HeaderSize(relPath, 32, maxBytes) > measured then 32
      else if HeaderSize(relPath, 33, maxBytes) > measured then 33
      else if HeaderSize(relPath, 34, maxBytes) > measured then 34
      else 35;
  }

  function FullBodies(total: nat, room: nat): (bodies: seq<Text>)
    ensures |bodies| == total
  {
    seq(total, i => Filled(room))
  }

  lemma FullChunk(total: nat, room: nat, chunk: (Text, nat) -> Text, part: nat)
    requires 1 <= part <= total
    ensures ChunksOf(FullBodies(total, room), chunk)[part - 1] == chunk(Filled(room), part)
  {
    assert FullBodies(total, room)[part - 1] == Filled(room);
    ChunkAt(FullBodies(total, room), chunk, part - 1);
  }

  lemma FullBodiesOverflow(total: nat, room: nat, chunk: (Text, nat) -> Text, part: nat, limit: nat)
    requires 1 <= part <= total && |chunk(Filled(room), part)| > limit
    ensures !Within(ChunksOf(FullBodies(total, room), chunk), limit)
  {
    FullChunk(total, room, chunk, part);
    var chunks := ChunksOf(FullBodies(total, room), chunk);
    assert chunks[part - 1] in chunks;
  }

  lemma FullBodiesAreBounded(total: nat, room: nat)
    requires room > 0
    ensures Bounded(FullBodies(total, room), room)
  {
  }

  // Full bodies under it, one of which makes too long a chunk.
  lemma OverflowingBodies(relPath: Text, maxBytes: nat) returns (bodies: seq<Text>)
    requires maxBytes > 0 && !HeadersFit(relPath, maxBytes)
    ensures |bodies| <= 999 && Bounded(bodies, BodyRoom(relPath, maxBytes))
    ensures !Within(ChunksOf(bodies, Parted(relPath, |bodies|, maxBytes)), maxBytes)
  {
    var title := OverflowingTitle(relPath, maxBytes);
    var part, total := TitleOfSize(title);
    var room := BodyRoom(relPath, maxBytes);
    bodies := FullBodies(total, room);
    FullBodiesAreBounded(total, room);
    FilledPart(relPath, room, part, total, maxBytes);
    FullBodiesOverflow(total, room, Parted(relPath, total, maxBytes), part, maxBytes);
  }

  // Every list of at most 999 bodies within the body limit makes chunks within the byte limit.
  ghost predicate AlwaysWithin(relPath: Text, maxBytes: nat)
    requires maxBytes > 0
  {
    forall bodies: seq<Text> :: |bodies| <= 999 && Bounded(bodies, BodyLimit(relPath, maxBytes)) ==>
                                  Within(ChunksOf(bodies, Parted(relPath, |bodies|, maxBytes)), maxBytes)
  }

  lemma ChunksFitExactly(relPath: Text, maxBytes: nat)
    requires maxBytes > 0
    ensures HeadersFit(relPath, maxBytes) <==> AlwaysWithin(relPath, maxBytes)
  {
    BodyLimitIs(relPath, maxBytes);
    if HeadersFit(relPath, maxBytes) {
      forall bodies: seq<Text> | |bodies| <= 999 && Bounded(bodies, BodyLimit(relPath, maxBytes))
        ensures Within(ChunksOf(bodies, Parted(relPath, |bodies|, maxBytes)), maxBytes)
      {
        ChunksFit(relPath, bodies, maxBytes);
      }
    } else {
      var bodies := OverflowingBodies(relPath, maxBytes);
    }
  }

  lemma ChunksStep(bodies: seq<Text>, chunk: (Text, nat) -> Text, i: nat)
    requires i < |bodies|
    ensures ChunksOf(bodies[..i + 1], chunk) == ChunksOf(bodies[..i], chunk) + [chunk(bodies[i], i + 1)]
  {
    assert bodies[..i + 1][..i] == bodies[..i];
  }

  method AddHeaders(relPath: Text, bodies: seq<Text>, maxBytes: nat) returns (chunks: seq<Text>)
    ensures chunks == ChunksOf(bodies, Parted(relPath, |bodies|, maxBytes))
  {
    var chunk := Parted(relPath, |bodies|, maxBytes);
    chunks := [];
    for i := 0 to |bodies|
      invariant chunks == ChunksOf(bodies[..i], chunk)
    {
      ChunksStep(bodies, chunk, i);
      chunks := chunks + [chunk(bodies[i], i + 1)];
    }
    assert bodies[..|bodies|] == bodies;
  }

  // Chunks are made of bodies that say what the text says and fit the room the header leaves.
  ghost predicate MadeOf(relPath: Text, text: Text, max: nat, chunks: seq<Text>, bodies: seq<Text>)
    requires max > 0
  {
    && chunks == ChunksOf(bodies, Parted(relPath, |bodies|, max))
    && Bounded(bodies, BodyLimit(relPath, max))
    && (Sound(text, BodyLimit(relPath, max)) ==> Faithful(bodies, text))
  }

  // The one chunk of a text that fits in one body.
  predicate OneBody(relPath: Text, text: Text, max: nat, chunks: seq<Text>)
    requires max > 0
  {
    var body := Trim(UnixLines(text));
    body != [] && |body| <= BodyLimit(relPath, max) ==> chunks == ChunksOf([body], Parted(relPath, 1, max))
  }

  // The text as it is split, its whitespace aside.
  lemma NormalizedSays(text: Text)
    ensures Valid(text) ==> Valid(Trim(UnixLines(text))) && Erase(Trim(UnixLines(text))) == Erase(text)
    ensures Trim(UnixLines(text)) != [] ==> Trim(Trim(UnixLines(text))) == Trim(UnixLines(text))
  {
    TrimShape(UnixLines(text));
    if Valid(text) {
      UnixLinesValid(text);
      TrimValid(UnixLines(text));
    }
  }

  // The chunks of a file: faithful whenever the text is valid and the room for bodies holds a rune, and
  // within the limit whenever the headers fit and there are at most 999 of them.
  method Build(relPath: Text, text: Text, maxBytes: int) returns (chunks: seq<Text>)
    ensures exists bodies :: MadeOf(relPath, text, EffectiveMax(maxBytes), chunks, bodies)
    ensures HeadersFit(relPath, EffectiveMax(maxBytes)) && |chunks| <= 999 ==> Within(chunks, EffectiveMax(maxBytes))
    ensures OneBody(relPath, text, EffectiveMax(maxBytes), chunks)
  {
    var max := EffectiveMax(maxBytes);
    var trimmed := Trim(UnixLines(text));
    NormalizedSays(text);
    if trimmed == [] {
      chunks := [];
      assert MadeOf(relPath, text, max, chunks, []);
    } else {
      var bodies := SplitTextByBytes(trimmed, BodyLimit(relPath, max));
      chunks := AddHeaders(relPath, bodies, max);
      assert MadeOf(relPath, text, max, chunks, bodies);
      if HeadersFit(relPath, max) && |chunks| <= 999 {
        BodyLimitIs(relPath, max);
        ChunksFit(relPath, bodies, max);
      }
    }
  }

  lemma FilledIsOneBody(relPath: Text, n: nat, max: nat, chunks: seq<Text>)
    requires max > 0 && 0 < n <= BodyRoom(relPath, max) && OneBody(relPath, Filled(n), max, chunks)
    ensures chunks == ChunksOf([Filled(n)], Parted(relPath, 1, max))
  {
    UnixLinesKeepsOther(Filled(n), []);
    assert Filled(n) + [] == Filled(n);
    NothingTrimmed(Filled(n));
    BodyLimitIs(relPath, max);
  }

  lemma FilledChunkSize(relPath: Text, n: nat, max: nat)
    requires n > 0
    ensures |ChunksOf([Filled(n)], Parted(relPath, 1, max))[0]| == HeaderSize(relPath, SHORTEST_TITLE, max) + n
  {
    assert FullBodies(1, n) == [Filled(n)];
    FullChunk(1, n, Parted(relPath, 1, max), 1);
    FilledPart(relPath, n, 1, 1, max);
  }

  // A file of one full body.
  method BuildFilled(relPath: Text, n: nat, max: nat) returns (chunks: seq<Text>)
    requires 0 < n <= BodyRoom(relPath, max) && max > 0
    ensures |chunks| == 1 && |chunks[0]| == HeaderSize(relPath, SHORTEST_TITLE, max) + n
  {
    chunks := Build(relPath, Filled(n), max);
    FilledIsOneBody(relPath, n, max, chunks);
    FilledChunkSize(relPath, n, max);
  }

  lemma NestedSizes(path: Text)
    requires path == Filled(24) + [SLASH] + Filled(1)
    ensures SourceSize(path) == 37 && SourceSize(Base(path)) == 12
  {
    NothingTrimmed(path);
    var front := path[..|path| - 1];
    assert front[|front| - 1] == SLASH && AfterLastSlash(front) == [];
    assert Base(path) == AfterLastSlash(front) + [0x78] == [0x78];
    NothingTrimmed([0x78]);
  }

  // Two files whose one chunk is too long: under a limit that no header keeps, and under a path that fits
  // with the short title of a file of one part but not with the longest.
  method ChunksOverflow(relPath: Text) returns (tiny: seq<Text>, nested: seq<Text>)
    ensures |tiny| == 1 && |tiny[0]| == 34 > 20
    ensures |nested| == 1 && |nested[0]| == 71 > 60
  {
    tiny := BuildFilled(relPath, 10, 20);
    var path := Filled(24) + [SLASH] + Filled(1);
    NestedSizes(path);
    nested := BuildFilled(path, 12, 60);
  }
}
