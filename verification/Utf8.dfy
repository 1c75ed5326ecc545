// Go's view of a string as bytes that are mostly UTF-8 (section 4 of RFC 3629): decoding forwards and
// backwards, validity, trimming, and what is left of a text when its whitespace is erased.
module Utf8 {
  import opened Sequences

  type byte = b: int | 0 <= b < 256
  type Text = seq<byte>

  predicate Cont(b: byte) {
    0x80 <= b < 0xC0
  }

  // The length of the well-formed rune a text starts with; 0 where utf8.DecodeRune reports an error.
  function RuneSize(s: Text): (n: nat)
    ensures n <= 4 && n <= |s|
  {
    if s == [] then 0
    else if s[0] < 0x80 then 1
    else if 0xC2 <= s[0] < 0xE0 && |s| >= 2 && Cont(s[1]) then 2
    else if 0xE0 <= s[0] < 0xF0 && |s| >= 3 && Cont(s[1]) && Cont(s[2])
            && (s[0] == 0xE0 ==> 0xA0 <= s[1]) && (s[0] == 0xED ==> s[1] < 0xA0) then 3
    else if 0xF0 <= s[0] < 0xF5 && |s| >= 4 && Cont(s[1]) && Cont(s[2]) && Cont(s[3])
            && (s[0] == 0xF0 ==> 0x90 <= s[1]) && (s[0] == 0xF4 ==> s[1] < 0x90) then 4
    else 0
  }

  // A text that starts with a whitespace rune (unicode.IsSpace), told by its encoding.
  predicate SpaceFirst(s: Text) {
    match RuneSize(s)
    case 1 => 9 <= s[0] <= 13 || s[0] == 0x20
    case 2 => s[0] == 0xC2 && (s[1] == 0x85 || s[1] == 0xA0)
    case 3 => || (s[0] == 0xE1 && s[1] == 0x9A && s[2] == 0x80)
              || (s[0] == 0xE2 && s[1] == 0x80 && (s[2] <= 0x8A || s[2] == 0xA8 || s[2] == 0xA9 || s[2] == 0xAF))
              || (s[0] == 0xE2 && s[1] == 0x81 && s[2] == 0x9F)
              || (s[0] == 0xE3 && s[1] == 0x80 && s[2] == 0x80)
    case _ => false
  }

  function CodePoint(s: Text): int
    requires RuneSize(s) > 0
  {
    var b := seq(|s|, i requires 0 <= i < |s| => s[i] as int);
    match RuneSize(s)
    case 1 => b[0]
    case 2 => (b[0] - 0xC0) * 0x40 + (b[1] - 0x80)
    case 3 => (b[0] - 0xE0) * 0x1000 + (b[1] - 0x80) * 0x40 + (b[2] - 0x80)
    case _ => (b[0] - 0xF0) * 0x40000 + (b[1] - 0x80) * 0x1000 + (b[2] - 0x80) * 0x40 + (b[3] - 0x80)
  }

  // The code points of unicode.IsSpace.
  predicate IsSpace(r: int) {
    || 9 <= r <= 13 || r == 0x20 || r == 0x85 || r == 0xA0 || r == 0x1680 || 0x2000 <= r <= 0x200A
    || r == 0x2028 || r == 0x2029 || r == 0x202F || r == 0x205F || r == 0x3000
  }

  lemma SpaceFirstIsByCodePoint(s: Text)
    requires RuneSize(s) > 0
    ensures SpaceFirst(s) <==> IsSpace(CodePoint(s))
  {
  }

  // The bytes one decoding step consumes.
  function Step(s: Text): (n: nat)
    requires s != []
    ensures 1 <= n <= |s|
  {
    if RuneSize(s) == 0 then 1 else RuneSize(s)
  }

  // utf8.ValidString.
  predicate Valid(s: Text) {
    s == [] || (RuneSize(s) > 0 && Valid(s[RuneSize(s)..]))
  }

  // The text without its whitespace runes.
  function Erase(s: Text): Text {
    if s == [] then []
    else if SpaceFirst(s) then Erase(s[Step(s)..])
    else s[..Step(s)] + Erase(s[Step(s)..])
  }

  function Suffix(s: Text, k: nat): Text
    requires k <= |s|
  {
    s[|s| - k..]
  }

  // utf8.DecodeLastRune: the well-formed rune a text ends with, or one byte of error.
  function LastSize(s: Text): nat
    requires s != []
  {
    LastSizeFrom(s, 1)
  }

  function LastSizeFrom(s: Text, k: nat): (n: nat)
    requires s != [] && k >= 1
    ensures 1 <= n <= |s|
    decreases 5 - k
  {
    if k > 4 || k > |s| then 1
    else if RuneSize(Suffix(s, k)) == k then k
    else LastSizeFrom(s, k + 1)
  }

  predicate SpaceLast(s: Text) {
    s != [] && SpaceFirst(Suffix(s, LastSize(s)))
  }

  function TrimLeft(s: Text): Text {
    if SpaceFirst(s) then TrimLeft(s[Step(s)..]) else s
  }

  function TrimRight(s: Text): Text {
    if SpaceLast(s) then TrimRight(s[..|s| - LastSize(s)]) else s
  }

  // strings.TrimSpace.
  function Trim(s: Text): Text {
    TrimRight(TrimLeft(s))
  }

  // ----- decoding and concatenation -----

  lemma RunePrefix(s: Text, t: Text)
    requires RuneSize(s) > 0
    ensures RuneSize(s + t) == RuneSize(s)
    ensures RuneSize(s[..RuneSize(s)]) == RuneSize(s)
    ensures SpaceFirst(s + t) == SpaceFirst(s)
    ensures SpaceFirst(s[..RuneSize(s)]) == SpaceFirst(s)
  {
    var n := RuneSize(s);
    assert (s + t)[..n] == s[..n];
  }

  lemma RuneFirst(r: Text, s: Text)
    requires r != [] && RuneSize(r) == |r|
    ensures RuneSize(r + s) == |r| && Valid(r + s) == Valid(s)
    ensures Erase(r + s) == (if SpaceFirst(r) then [] else r) + Erase(s)
  {
    RunePrefix(r, s);
    ConcatEnds(r, s);
  }

  // A text that starts with a rune, taken apart.
  lemma RuneAndRest(s: Text) returns (r: Text, rest: Text)
    requires RuneSize(s) > 0
    ensures r == s[..RuneSize(s)] && rest == s[RuneSize(s)..] && s == r + rest && r != [] && RuneSize(r) == |r|
  {
    r, rest := s[..RuneSize(s)], s[RuneSize(s)..];
    RunePrefix(s, []);
    Halves(s, RuneSize(s));
  }

  lemma {:induction false} ValidConcat(a: Text, b: Text)
    requires Valid(a)
    ensures Valid(a + b) == Valid(b)
    ensures Erase(a + b) == Erase(a) + Erase(b)
    decreases |a|
  {
    if a == [] {
      EmptyFront(a, b);
      EmptyFront(Erase(a), Erase(b));
    } else {
      var r, rest := RuneAndRest(a);
      ValidConcat(rest, b);
      Regroup(r, rest, b);
      RuneFirst(r, rest);
      RuneFirst(r, rest + b);
      Regroup(if SpaceFirst(r) then [] else r, Erase(rest), Erase(b));
    }
  }

  lemma ValidSplit(s: Text, i: nat)
    requires i <= |s| && Valid(s) && Valid(s[..i])
    ensures Valid(s[i..]) && Erase(s) == Erase(s[..i]) + Erase(s[i..])
  {
    ValidConcat(s[..i], s[i..]);
    Halves(s, i);
  }

  lemma OneRune(s: Text)
    requires RuneSize(s) == |s| && s != []
    ensures Valid(s)
    ensures Erase(s) == if SpaceFirst(s) then [] else s
  {
    assert s[|s|..] == [];
    assert s[..|s|] == s;
  }

  lemma WholeSuffix(s: Text)
    ensures Suffix(s, |s|) == s
  {
  }

  // Inside a rune there are only continuation bytes, and no rune starts with one.
  lemma RuneBytes(r: Text, i: nat)
    requires RuneSize(r) == |r| && i < |r|
    ensures if i > 0 then Cont(r[i]) && RuneSize(r[i..]) == 0 else !Cont(r[i])
  {
  }

  // Hence a text ends with at most one rune.
  lemma LastRuneUnique(s: Text, k: nat, m: nat)
    requires 1 <= m < k <= |s| && RuneSize(Suffix(s, k)) == k
    ensures RuneSize(Suffix(s, m)) == 0
  {
    RuneBytes(Suffix(s, k), k - m);
    assert Suffix(s, k)[k - m..] == Suffix(s, m);
  }

  lemma {:induction false} LastSizeFromIs(s: Text, j: nat, k: nat)
    requires 1 <= j <= k <= |s| && RuneSize(Suffix(s, k)) == k
    ensures LastSizeFrom(s, j) == k
    decreases k - j
  {
    if j < k {
      LastRuneUnique(s, k, j);
      LastSizeFromIs(s, j + 1, k);
    }
  }

  lemma LastSizeIs(s: Text, k: nat)
    requires 1 <= k <= |s| && RuneSize(Suffix(s, k)) == k
    ensures LastSize(s) == k
  {
    LastSizeFromIs(s, 1, k);
  }

  ghost predicate EndsWithRune(s: Text, k: nat)
    requires k <= |s|
  {
    k > 0 && RuneSize(Suffix(s, k)) == k && Valid(s[..|s| - k])
  }

  lemma SuffixBehind(a: Text, b: Text, k: nat)
    requires k <= |b|
    ensures Suffix(a + b, k) == Suffix(b, k) && (a + b)[..|a + b| - k] == a + b[..|b| - k]
  {
  }

  lemma EndsWithRuneConcat(a: Text, b: Text, k: nat)
    requires Valid(a) && k <= |b| && EndsWithRune(b, k)
    ensures EndsWithRune(a + b, k)
  {
    SuffixBehind(a, b, k);
    ValidConcat(a, b[..|b| - k]);
  }

  lemma {:induction false} SomeLastRune(s: Text) returns (k: nat)
    requires Valid(s) && s != []
    ensures k <= |s| && EndsWithRune(s, k)
    decreases |s|
  {
    var r, rest := RuneAndRest(s);
    if rest == [] {
      WholeSuffix(s);
      k := |s|;
    } else {
      k := SomeLastRune(rest);
      OneRune(r);
      EndsWithRuneConcat(r, rest, k);
    }
  }

  // A valid text ends with a whole rune, and DecodeLastRune finds it.
  lemma ValidLast(s: Text)
    requires Valid(s) && s != []
    ensures EndsWithRune(s, LastSize(s))
  {
    var k := SomeLastRune(s);
    LastSizeIs(s, k);
  }

  lemma FirstRune(s: Text)
    requires RuneSize(s) > 0
    ensures Valid(s[..RuneSize(s)])
  {
    RunePrefix(s, []);
    OneRune(s[..RuneSize(s)]);
  }

  // ----- trimming -----

  lemma {:induction false} TrimLeftValid(s: Text)
    requires Valid(s)
    ensures Valid(TrimLeft(s)) && Erase(TrimLeft(s)) == Erase(s) && !SpaceFirst(TrimLeft(s))
    ensures |TrimLeft(s)| <= |s|
  {
    if SpaceFirst(s) {
      TrimLeftValid(s[Step(s)..]);
    }
  }

  lemma {:induction false} TrimRightValid(s: Text)
    requires Valid(s)
    ensures Valid(TrimRight(s)) && Erase(TrimRight(s)) == Erase(s)
  {
    if SpaceLast(s) {
      var m := |s| - LastSize(s);
      ValidLast(s);
      assert Suffix(s, LastSize(s)) == s[m..];
      TrimRightValid(s[..m]);
      ValidSplit(s, m);
      OneRune(s[m..]);
    }
  }

  // Trimming a valid text keeps it valid and takes away nothing but whitespace.
  lemma TrimValid(s: Text)
    requires Valid(s)
    ensures Valid(Trim(s)) && Erase(Trim(s)) == Erase(s)
  {
    TrimLeftValid(s);
    TrimRightValid(TrimLeft(s));
  }

  // Cutting the last rune off a text that does not start with a space leaves a text that does not.
  lemma CutKeepsFirst(s: Text, k: nat)
    requires 1 <= k <= |s| && !SpaceFirst(s) && SpaceFirst(Suffix(s, k))
    ensures k < |s| && !SpaceFirst(s[..|s| - k])
  {
    var front := s[..|s| - k];
    assert front + Suffix(s, k) == s;
    assert s[0..] == s;
    if SpaceFirst(front) {
      RunePrefix(front, Suffix(s, k));
    }
  }

  lemma {:induction false} TrimRightShape(s: Text)
    ensures |TrimRight(s)| <= |s| && !SpaceLast(TrimRight(s))
    ensures !SpaceFirst(s) ==> !SpaceFirst(TrimRight(s)) && (s != [] ==> TrimRight(s) != [])
  {
    if SpaceLast(s) {
      var k := LastSize(s);
      if !SpaceFirst(s) {
        CutKeepsFirst(s, k);
      }
      TrimRightShape(s[..|s| - k]);
    }
  }

  lemma {:induction false} TrimLeftShape(s: Text)
    ensures |TrimLeft(s)| <= |s| && !SpaceFirst(TrimLeft(s))
  {
    if SpaceFirst(s) {
      TrimLeftShape(s[Step(s)..]);
    }
  }

  // Of any text, well formed or not: trimming never grows it, and what is left does not start or end
  // with a space; if it does not start with a space something is left.
  lemma TrimShape(s: Text)
    ensures |Trim(s)| <= |s| && !SpaceFirst(Trim(s)) && !SpaceLast(Trim(s))
    ensures s != [] && !SpaceFirst(s) ==> Trim(s) != []
  {
    TrimLeftShape(s);
    TrimRightShape(TrimLeft(s));
  }

  // ----- ASCII bytes -----

  lemma AsciiFirst(b: byte, s: Text)
    requires b < 0x80
    ensures RuneSize([b] + s) == 1 && Valid([b] + s) == Valid(s)
    ensures Erase([b] + s) == (if SpaceFirst([b]) then [] else [b]) + Erase(s)
  {
    assert ([b] + s)[1..] == s;
    assert ([b] + s)[..1] == [b];
  }

  // Near every position of a valid text there is a place to cut it: at most three bytes to the left.
  lemma {:induction false} ValidCutNear(s: Text, n: nat) returns (c: nat)
    requires Valid(s) && n <= |s|
    ensures c <= n <= c + 3 && Valid(s[..c])
    decreases |s|
  {
    if n < 4 {
      c := 0;
    } else {
      var r, rest := RuneAndRest(s);
      c := ValidCutNear(rest, n - |r|);
      OneRune(r);
      ValidConcat(r, rest[..c]);
      ConcatBeyond(r, rest, c);
      c := |r| + c;
    }
  }
}
