// The pieces of Go's strings package the code uses, on sequences of characters.
module GoStrings {
  import opened Sequences
  // unicode.IsSpace.
  predicate IsSpace(c: char) {
    || '\t' <= c <= '\r' || c == ' ' || c == '\U{0085}' || c == '\U{00A0}' || c == '\U{1680}'
    || '\U{2000}' <= c <= '\U{200A}' || c == '\U{2028}' || c == '\U{2029}' || c == '\U{202F}'
    || c == '\U{205F}' || c == '\U{3000}'
  }

  function TrimLeft(s: string): string {
    if s != [] && IsSpace(s[0]) then TrimLeft(s[1..]) else s
  }

  function TrimRight(s: string): string {
    if s != [] && IsSpace(s[|s| - 1]) then TrimRight(s[..|s| - 1]) else s
  }

  // strings.TrimSpace.
  function Trim(s: string): string {
    TrimRight(TrimLeft(s))
  }

  predicate Trimmed(s: string) {
    s != [] ==> !IsSpace(s[0]) && !IsSpace(s[|s| - 1])
  }

  lemma TrimLeftIsSuffix(s: string) returns (i: nat)
    ensures i <= |s| && TrimLeft(s) == s[i..] && (i < |s| ==> !IsSpace(s[i]))
    ensures forall k :: 0 <= k < i ==> IsSpace(s[k])
  {
    if s != [] && IsSpace(s[0]) {
      i := TrimLeftIsSuffix(s[1..]);
      assert s[1..][i..] == s[i + 1..];
      assert forall k :: 0 < k < i + 1 ==> s[k] == s[1..][k - 1];
      i := i + 1;
    } else {
      i := 0;
    }
  }

  lemma TrimRightIsPrefix(s: string) returns (j: nat)
    ensures j <= |s| && TrimRight(s) == s[..j] && (0 < j ==> !IsSpace(s[j - 1]))
    ensures forall k :: j <= k < |s| ==> IsSpace(s[k])
  {
    if s != [] && IsSpace(s[|s| - 1]) {
      j := TrimRightIsPrefix(s[..|s| - 1]);
      assert s[..|s| - 1][..j] == s[..j];
    } else {
      j := |s|;
    }
  }

  // Trimming cuts out a piece with no space at either end, and only spaces are cut away.
  lemma TrimIsSlice(s: string) returns (i: nat, j: nat)
    ensures i <= j <= |s| && Trim(s) == s[i..j] && Trimmed(Trim(s))
    ensures forall k :: 0 <= k < i || j <= k < |s| ==> IsSpace(s[k])
  {
    i := TrimLeftIsSuffix(s);
    var n := TrimRightIsPrefix(s[i..]);
    j := i + n;
    assert s[i..][..n] == s[i..j];
    forall k | 0 <= k < i || j <= k < |s| ensures IsSpace(s[k]) {
      if j <= k {
        assert s[k] == s[i..][k - i];
      }
    }
  }

  lemma TrimmedIsFixed(s: string)
    requires Trimmed(s)
    ensures Trim(s) == s
  {
  }

  // strings.Split for a one-element separator.
  function Split<T(==)>(s: seq<T>, sep: T): (parts: seq<seq<T>>)
    ensures |parts| >= 1
  {
    if s == [] then [[]]
    else if s[0] == sep then [[]] + Split(s[1..], sep)
    else
      var rest := Split(s[1..], sep);
      [[s[0]] + rest[0]] + rest[1..]
  }

  // strings.Join for a one-element separator.
  function Join<T>(parts: seq<seq<T>>, sep: T): seq<T> {
    if parts == [] then []
    else if |parts| == 1 then parts[0]
    else parts[0] + [sep] + Join(parts[1..], sep)
  }

  lemma {:induction false} PartsHaveNoSeparator<T>(s: seq<T>, sep: T)
    ensures forall p :: p in Split(s, sep) ==> sep !in p
    ensures forall p, c :: p in Split(s, sep) && c in p ==> c in s
  {
    if s != [] {
      PartsHaveNoSeparator(s[1..], sep);
      var rest := Split(s[1..], sep);
      assert rest[0] in rest;
      forall p | p in Split(s, sep) ensures sep !in p && forall c :: c in p ==> c in s {
        if s[0] != sep && p == [s[0]] + rest[0] {
        } else if p != [] {
          assert p in rest;
        }
      }
    }
  }

  lemma {:induction false} SplitPart<T>(p: seq<T>, sep: T)
    requires sep !in p
    ensures Split(p, sep) == [p]
  {
    if p != [] {
      SplitPart(p[1..], sep);
      FirstAndRest(p);
    }
  }

  lemma SplitCons<T>(x: T, s: seq<T>, sep: T)
    ensures Split([x] + s, sep) == if x == sep then [[]] + Split(s, sep) else [[x] + Split(s, sep)[0]] + Split(s, sep)[1..]
  {
    ConsFirst(x, s);
  }

  lemma {:induction false} SplitConcat<T>(a: seq<T>, sep: T, b: seq<T>)
    ensures Split(a + [sep] + b, sep) == Split(a, sep) + Split(b, sep)
  {
    ConsAround(a, sep, b);
    if a == [] {
      SplitCons(sep, b, sep);
    } else {
      var first, others := Split(a[1..], sep), Split(b, sep);
      SplitConcat(a[1..], sep, b);
      SplitCons(a[0], a[1..] + [sep] + b, sep);
      ConcatFirst(first, others);
      Regroup(if a[0] == sep then [[]] else [[a[0]] + first[0]], if a[0] == sep then first else first[1..], others);
    }
  }

  lemma SplitAtSeparator<T>(p: seq<T>, rest: seq<T>, sep: T)
    requires sep !in p
    ensures Split(p + [sep] + rest, sep) == [p] + Split(rest, sep)
  {
    SplitConcat(p, sep, rest);
    SplitPart(p, sep);
  }

  // What is cut off behind leaves the parts before the last one it reaches.
  lemma {:induction false} SplitOfPrefix<T>(a: seq<T>, n: nat, sep: T) returns (k: nat, last: seq<T>)
    requires n <= |a|
    ensures k < |Split(a, sep)| && Split(a[..n], sep) == Split(a, sep)[..k] + [last]
  {
    if n == 0 {
      k, last := 0, [];
    } else {
      var rest := Split(a[1..], sep);
      assert a[..n][0] == a[0] && a[..n][1..] == a[1..][..n - 1];
      k, last := SplitOfPrefix(a[1..], n - 1, sep);
      if a[0] == sep {
        k := k + 1;
      } else if k == 0 {
        last := [a[0]] + last;
      }
    }
  }

  lemma {:induction false} SplitOfJoin<T>(parts: seq<seq<T>>, sep: T)
    requires parts != [] && forall p :: p in parts ==> sep !in p
    ensures Split(Join(parts, sep), sep) == parts
  {
    if |parts| == 1 {
      SplitPart(parts[0], sep);
    } else {
      SplitOfJoin(parts[1..], sep);
      SplitAtSeparator(parts[0], Join(parts[1..], sep), sep);
      FirstAndRest(parts);
    }
  }

  lemma JoinCons<T>(p: seq<T>, parts: seq<seq<T>>, sep: T)
    ensures Join([p] + parts, sep) == if parts == [] then p else p + [sep] + Join(parts, sep)
  {
    ConsFirst(p, parts);
  }

  lemma {:induction false} JoinOfSplit<T>(s: seq<T>, sep: T)
    ensures Join(Split(s, sep), sep) == s
  {
    if s != [] {
      var rest := Split(s[1..], sep);
      JoinOfSplit(s[1..], sep);
      FirstAndRest(s);
      FirstAndRest(rest);
      if s[0] == sep {
        JoinCons([], rest, sep);
      } else {
        JoinCons([s[0]] + rest[0], rest[1..], sep);
        JoinCons(rest[0], rest[1..], sep);
        Regroup([s[0]], rest[0], [sep]);
        Regroup([s[0]], rest[0] + [sep], Join(rest[1..], sep));
      }
    }
  }

  // strings.Cut and strings.SplitN(s, c, 2): what stands before the first c, and what behind it.
  function Before(s: string, c: char): string {
    if s == [] || s[0] == c then [] else [s[0]] + Before(s[1..], c)
  }

  function After(s: string, c: char): string
    requires c in s
  {
    if s[0] == c then s[1..] else After(s[1..], c)
  }

  lemma {:induction false} CutsInTwo(s: string, c: char)
    requires c in s
    ensures s == Before(s, c) + [c] + After(s, c) && c !in Before(s, c)
  {
    if s[0] != c {
      CutsInTwo(s[1..], c);
      FirstAndRest(s);
    }
  }

  lemma {:induction false} BeforeSeparator(a: string, c: char, b: string)
    requires c !in a
    ensures Before(a + [c] + b, c) == a && After(a + [c] + b, c) == b
  {
    var s := a + [c] + b;
    if a != [] {
      BeforeSeparator(a[1..], c, b);
      assert s[1..] == a[1..] + [c] + b;
      FirstAndRest(a);
    }
  }

  // Letter case, for ASCII letters.
  function Lower(c: char): char {
    if 'A' <= c <= 'Z' then c - 'A' + 'a' else c
  }

  // strings.ToLower.
  function LowerAll(s: string): string {
    if s == [] then [] else [Lower(s[0])] + LowerAll(s[1..])
  }

  lemma {:induction false} LowerAppend(a: string, b: string)
    ensures LowerAll(a + b) == LowerAll(a) + LowerAll(b)
  {
    if a == [] {
      EmptyFront(a, b);
    } else {
      LowerAppend(a[1..], b);
      ConcatFirst(a, b);
      Regroup([Lower(a[0])], LowerAll(a[1..]), LowerAll(b));
    }
  }

  // strings.EqualFold.
  predicate EqualFold(a: string, b: string) {
    |a| == |b| && forall i :: 0 <= i < |a| ==> Lower(a[i]) == Lower(b[i])
  }

  // Decimal digits.
  function Dec(n: nat): (r: string)
    ensures forall i :: 0 <= i < |r| ==> '0' <= r[i] <= '9'
  {
    (if n < 10 then [] else Dec(n / 10)) + [('0' as int + n % 10) as char]
  }

  lemma {:induction false} DecLength(n: nat)
    requires n <= 999
    ensures |Dec(n)| == Digits(n)
  {
    if n >= 10 {
      DecLength(n / 10);
    }
  }

  // How many decimal digits a number below a thousand has.
  function Digits(n: nat): nat {
    if n < 10 then 1 else if n < 100 then 2 else 3
  }
}
