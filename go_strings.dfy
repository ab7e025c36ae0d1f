/** The parts of Go's strings package that the CLI uses, for a one-character
    separator or cutset: ReplaceAll(s, c, ""), Split, Join, SplitN, Trim. */
module GoStrings {

  /** strings.ReplaceAll(s, string(c), ""): every c removed. */
  function RemoveChar(s: string, c: char): (r: string)
    ensures c !in r
    ensures |r| <= |s|
  {
    if s == [] then []
    else (if s[0] == c then [] else [s[0]]) + RemoveChar(s[1..], c)
  }

  /** Removing a character adds no other one. */
  lemma {:induction false} RemoveCharSubset(s: string, c: char, x: char)
    requires x in RemoveChar(s, c)
    ensures x in s
  {
    if s != [] && x != s[0] {
      RemoveCharSubset(s[1..], c, x);
    }
  }

  lemma {:induction false} RemoveCharAbsent(s: string, c: char)
    requires c !in s
    ensures RemoveChar(s, c) == s
  {
    if s != [] {
      RemoveCharAbsent(s[1..], c);
    }
  }

  lemma {:induction false} RemoveCharAppend(a: string, b: string, c: char)
    ensures RemoveChar(a + b, c) == RemoveChar(a, c) + RemoveChar(b, c)
  {
    if a == [] {
      assert a + b == b;
    } else {
      var h := if a[0] == c then [] else [a[0]];
      assert (a + b)[0] == a[0] && (a + b)[1..] == a[1..] + b;
      RemoveCharAppend(a[1..], b, c);
      calc {
        RemoveChar(a + b, c);
        h + RemoveChar(a[1..] + b, c);
        h + (RemoveChar(a[1..], c) + RemoveChar(b, c));
        (h + RemoveChar(a[1..], c)) + RemoveChar(b, c);
      }
    }
  }

  /** strings.Join(parts, sep). */
  function Join(parts: seq<string>, sep: string): string {
    if parts == [] then ""
    else if |parts| == 1 then parts[0]
    else parts[0] + sep + Join(parts[1..], sep)
  }

  /** A sequence is its part before i, its element at i and the rest. */
  lemma Rejoin<T>(s: seq<T>, i: int)
    requires 0 <= i < |s|
    ensures s[..i] + [s[i]] + s[i + 1..] == s
  {
  }

  /** The index of the first c in s, if any. */
  function IndexOf(s: string, c: char): (i: int)
    ensures c in s <==> 0 <= i < |s|
    ensures 0 <= i < |s| ==> s[i] == c && c !in s[..i]
    ensures c !in s ==> i == -1
  {
    if s == [] then -1
    else if s[0] == c then 0
    else
      var j := IndexOf(s[1..], c);
      if j < 0 then -1 else j + 1
  }

  /** strings.Split(s, string(sep)): the pieces between separators, an empty
      string counting as one piece. */
  function Split(s: string, sep: char): (r: seq<string>)
    ensures |r| >= 1
    decreases |s|
  {
    var i := IndexOf(s, sep);
    if i < 0 then [s] else [s[..i]] + Split(s[i + 1..], sep)
  }

  /** No piece of a split contains the separator. */
  lemma {:induction false} SplitPiecesAvoid(s: string, sep: char, k: int)
    requires 0 <= k < |Split(s, sep)|
    ensures sep !in Split(s, sep)[k]
    decreases |s|
  {
    var i := IndexOf(s, sep);
    if i >= 0 {
      var rest := Split(s[i + 1..], sep);
      assert Split(s, sep) == [s[..i]] + rest;
      if k > 0 {
        assert Split(s, sep)[k] == rest[k - 1];
        SplitPiecesAvoid(s[i + 1..], sep, k - 1);
      }
    }
  }

  /** Splitting and joining back with the same separator gives the input. */
  lemma {:induction false} JoinSplit(s: string, sep: char)
    ensures Join(Split(s, sep), [sep]) == s
    decreases |s|
  {
    var i := IndexOf(s, sep);
    if i >= 0 {
      var rest := Split(s[i + 1..], sep);
      JoinSplit(s[i + 1..], sep);
      JoinCons(s[..i], rest, [sep]);
      Rejoin(s, i);
    }
  }

  /** Join of a piece in front of at least one more. */
  lemma JoinCons(p: string, rest: seq<string>, sep: string)
    requires |rest| >= 1
    ensures Join([p] + rest, sep) == p + sep + Join(rest, sep)
  {
    assert ([p] + rest)[1..] == rest;
  }

  /** The first separator of a + [c] + b is the one after a. */
  lemma {:induction false} IndexOfAfter(a: string, c: char, b: string)
    requires c !in a
    ensures IndexOf(a + [c] + b, c) == |a|
  {
    if a != [] {
      assert (a + [c] + b)[1..] == a[1..] + [c] + b;
      IndexOfAfter(a[1..], c, b);
    }
  }

  /** Joining separator-free pieces and splitting again gives the pieces. */
  lemma {:induction false} SplitJoin(parts: seq<string>, sep: char)
    requires |parts| >= 1
    requires forall i :: 0 <= i < |parts| ==> sep !in parts[i]
    ensures Split(Join(parts, [sep]), sep) == parts
  {
    if |parts| > 1 {
      var rest := Join(parts[1..], [sep]);
      assert parts == [parts[0]] + parts[1..];
      JoinCons(parts[0], parts[1..], [sep]);
      SplitJoin(parts[1..], sep);
      SplitCons(parts[0], sep, rest);
    }
  }

  /** A separator-free piece before the first separator is the first piece. */
  lemma SplitCons(a: string, sep: char, rest: string)
    requires sep !in a
    ensures Split(a + [sep] + rest, sep) == [a] + Split(rest, sep)
  {
    var s := a + [sep] + rest;
    IndexOfAfter(a, sep, rest);
    assert s[..|a|] == a && s[|a| + 1..] == rest;
  }

  /** The same for two separator-free pieces. */
  lemma SplitConsTwo(a: string, b: string, rest: string, sep: char)
    requires sep !in a && sep !in b
    ensures Split(a + [sep] + (b + [sep] + rest), sep) == [a, b] + Split(rest, sep)
  {
    SplitCons(a, sep, b + [sep] + rest);
    SplitCons(b, sep, rest);
  }

  /** Splitting a line of three separator-free pieces gives those pieces. */
  lemma SplitThree(a: string, b: string, c: string, sep: char)
    requires sep !in a && sep !in b && sep !in c
    ensures Split(a + [sep] + b + [sep] + c, sep) == [a, b, c]
  {
    var parts := [a, b, c];
    assert parts[1..] == [b, c] && parts[1..][1..] == [c];
    assert Join([c], [sep]) == c;
    assert Join([b, c], [sep]) == b + [sep] + c;
    assert Join(parts, [sep]) == a + [sep] + (b + [sep] + c);
    assert a + [sep] + (b + [sep] + c) == a + [sep] + b + [sep] + c;
    SplitJoin(parts, sep);
  }

  /** strings.SplitN(s, string(sep), n) for n >= 1: at most n pieces, the last
      one keeping every further separator. */
  function SplitN(s: string, sep: char, n: nat): (r: seq<string>)
    requires n >= 1
    ensures 1 <= |r| <= n
    ensures forall i :: 0 <= i < |r| - 1 ==> sep !in r[i]
    decreases n
  {
    var i := IndexOf(s, sep);
    if n == 1 || i < 0 then [s] else [s[..i]] + SplitN(s[i + 1..], sep, n - 1)
  }

  lemma {:induction false} JoinSplitN(s: string, sep: char, n: nat)
    requires n >= 1
    ensures Join(SplitN(s, sep, n), [sep]) == s
    decreases n
  {
    var i := IndexOf(s, sep);
    if n > 1 && i >= 0 {
      JoinSplitN(s[i + 1..], sep, n - 1);
      JoinCons(s[..i], SplitN(s[i + 1..], sep, n - 1), [sep]);
      Rejoin(s, i);
    }
  }

  /** SplitN into three: exactly three pieces when and only when s has the
      shape a/b/c with no separator in a or b; c is then kept whole. */
  lemma SplitNThree(s: string, sep: char, a: string, b: string, c: string)
    ensures (sep !in a && sep !in b && s == a + [sep] + b + [sep] + c) <==> SplitN(s, sep, 3) == [a, b, c]
  {
    if sep !in a && sep !in b && s == a + [sep] + b + [sep] + c {
      assert s == a + [sep] + (b + [sep] + c);
      IndexOfAfter(a, sep, b + [sep] + c);
      assert s[..|a|] == a;
      var s1 := s[|a| + 1..];
      assert s1 == b + [sep] + c;
      IndexOfAfter(b, sep, c);
      assert s1[..|b|] == b;
      assert s1[|b| + 1..] == c;
    }
    if SplitN(s, sep, 3) == [a, b, c] {
      JoinSplitN(s, sep, 3);
      assert Join([a, b, c], [sep]) == a + [sep] + (b + [sep] + c);
    }
  }

  /** strings.TrimLeft(s, string(c)). */
  function TrimLeft(s: string, c: char): (r: string)
    ensures |r| <= |s| && r == s[|s| - |r|..]
    ensures r == [] || r[0] != c
  {
    if s != [] && s[0] == c then TrimLeft(s[1..], c) else s
  }

  /** What TrimLeft drops is all c. */
  lemma {:induction false} TrimLeftAway(s: string, c: char, k: int)
    requires 0 <= k < |s| - |TrimLeft(s, c)|
    ensures s[k] == c
  {
    if k > 0 {
      TrimLeftAway(s[1..], c, k - 1);
    }
  }

  /** strings.TrimRight(s, string(c)). */
  function TrimRight(s: string, c: char): (r: string)
    ensures |r| <= |s| && r == s[..|r|]
    ensures r == [] || r[|r| - 1] != c
  {
    if s != [] && s[|s| - 1] == c then TrimRight(s[..|s| - 1], c) else s
  }

  /** What TrimRight drops is all c. */
  lemma {:induction false} TrimRightAway(s: string, c: char, k: int)
    requires |TrimRight(s, c)| <= k < |s|
    ensures s[k] == c
  {
    if k < |s| - 1 {
      TrimRightAway(s[..|s| - 1], c, k);
    }
  }

  /** strings.Trim(s, string(c)): every leading and trailing c removed. */
  function Trim(s: string, c: char): (r: string)
    ensures |r| <= |s|
    ensures r == [] || (r[0] != c && r[|r| - 1] != c)
  {
    TrimRightKeepsFirst(TrimLeft(s, c), c);
    TrimRight(TrimLeft(s, c), c)
  }

  /** What Trim keeps is one infix of s, and only c lies outside it. */
  lemma TrimInfix(s: string, c: char) returns (i: int, j: int)
    ensures 0 <= i <= j <= |s| && Trim(s, c) == s[i..j] && TrimmedAway(s, c, i, j)
  {
    var l := TrimLeft(s, c);
    var r := TrimRight(l, c);
    i := |s| - |l|;
    j := i + |r|;
    assert r == l[..|r|] && l == s[i..];
    assert s[i..][..|r|] == s[i..j];
    TrimLeftPrefix(s, c);
    TrimRightSuffix(s, c, i);
  }

  /** Everything before TrimLeft's result is c. */
  lemma TrimLeftPrefix(s: string, c: char)
    ensures forall k :: 0 <= k < |s| - |TrimLeft(s, c)| ==> s[k] == c
  {
    forall k | 0 <= k < |s| - |TrimLeft(s, c)| ensures s[k] == c {
      TrimLeftAway(s, c, k);
    }
  }

  /** Everything after TrimRight of the suffix from i is c. */
  lemma TrimRightSuffix(s: string, c: char, i: int)
    requires 0 <= i <= |s|
    ensures forall k :: i + |TrimRight(s[i..], c)| <= k < |s| ==> s[k] == c
  {
    var l := s[i..];
    forall k | i + |TrimRight(l, c)| <= k < |s| ensures s[k] == c {
      TrimRightAway(l, c, k - i);
      assert s[k] == l[k - i];
    }
  }

  /** Everything of s outside s[i..j] is c. */
  ghost predicate TrimmedAway(s: string, c: char, i: int, j: int)
    requires 0 <= i <= j <= |s|
  {
    (forall k :: 0 <= k < i ==> s[k] == c) && (forall k :: j <= k < |s| ==> s[k] == c)
  }

  lemma TrimRightKeepsFirst(s: string, c: char)
    requires s == [] || s[0] != c
    ensures TrimRight(s, c) == [] || TrimRight(s, c)[0] != c
  {
  }

  /** Trimming twice is trimming once. */
  lemma TrimIdempotent(s: string, c: char)
    ensures Trim(Trim(s, c), c) == Trim(s, c)
  {
    var t := Trim(s, c);
    assert TrimLeft(t, c) == t;
    assert TrimRight(t, c) == t;
  }
}
