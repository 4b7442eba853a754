/**
 * The subset of Go's `strings` package that the mapper and the migration tool
 * use: prefixes, substring search, splitting on one separator, joining, and
 * ASCII case mapping.
 */
module Strs {

  /** `strings.HasPrefix`. */
  predicate HasPrefix(s: string, prefix: string) {
    |prefix| <= |s| && s[..|prefix|] == prefix
  }

  /** A prefix of a string is a prefix of any extension of it. */
  lemma PrefixAppend(prefix: string, s: string, t: string)
    requires HasPrefix(s, prefix)
    ensures HasPrefix(s + t, prefix)
  {
    assert (s + t)[..|prefix|] == s[..|prefix|];
  }

  /** `strings.TrimPrefix`: drops `prefix` when `s` starts with it. */
  function TrimPrefix(s: string, prefix: string): (r: string)
    ensures HasPrefix(s, prefix) ==> prefix + r == s
    ensures !HasPrefix(s, prefix) ==> r == s
  {
    if HasPrefix(s, prefix) then s[|prefix|..] else s
  }

  /** `strings.Contains`: `sub` occurs somewhere in `s` (the empty string occurs everywhere). */
  predicate Contains(s: string, sub: string)
    decreases |s|
  {
    HasPrefix(s, sub) || (|s| > 0 && Contains(s[1..], sub))
  }

  /** An occurrence at a known position makes `Contains` true. */
  lemma {:induction false} ContainsAt(s: string, sub: string, i: nat)
    requires i + |sub| <= |s| && s[i..i + |sub|] == sub
    ensures Contains(s, sub)
    decreases i
  {
    if i == 0 {
      assert s[..|sub|] == sub;
    } else {
      assert s[1..][i - 1..i - 1 + |sub|] == s[i..i + |sub|];
      ContainsAt(s[1..], sub, i - 1);
    }
  }

  /** `Contains` has a witness position. */
  lemma {:induction false} ContainsIndex(s: string, sub: string) returns (i: nat)
    requires Contains(s, sub)
    ensures i + |sub| <= |s| && s[i..i + |sub|] == sub
    decreases |s|
  {
    if HasPrefix(s, sub) {
      i := 0;
    } else {
      var j := ContainsIndex(s[1..], sub);
      assert s[1..][j..j + |sub|] == s[j + 1..j + 1 + |sub|];
      i := j + 1;
    }
  }

  /** A substring of a substring is a substring. */
  lemma ContainsTransitive(s: string, mid: string, sub: string)
    requires Contains(s, mid) && Contains(mid, sub)
    ensures Contains(s, sub)
  {
    var i := ContainsIndex(s, mid);
    var k := ContainsIndex(mid, sub);
    var a := s[i + k..i + k + |sub|];
    forall t | 0 <= t < |sub| ensures a[t] == sub[t] {
      assert sub[t] == mid[k + t];
      assert mid[k + t] == s[i..i + |mid|][k + t];
    }
    assert a == sub;
    ContainsAt(s, sub, i + k);
  }

  /** Extending a string on either side keeps every occurrence. */
  lemma ContainsExtend(a: string, s: string, b: string, sub: string)
    requires Contains(s, sub)
    ensures Contains(a + s + b, sub)
  {
    var i := ContainsIndex(s, sub);
    assert (a + s + b)[|a| + i..|a| + i + |sub|] == s[i..i + |sub|];
    ContainsAt(a + s + b, sub, |a| + i);
  }

  /** A string occurs in any text that has it in the middle. */
  lemma ContainsMiddle(a: string, sub: string, b: string)
    ensures Contains(a + sub + b, sub)
  {
    assert (a + sub + b)[|a|..|a| + |sub|] == sub;
    ContainsAt(a + sub + b, sub, |a|);
  }

  /** Appending on the right keeps every occurrence. */
  lemma ContainsAppendRight(s: string, b: string, sub: string)
    requires Contains(s, sub)
    ensures Contains(s + b, sub)
  {
    ContainsExtend("", s, b, sub);
    assert "" + s + b == s + b;
  }

  /** Prepending on the left keeps every occurrence. */
  lemma ContainsAppendLeft(a: string, s: string, sub: string)
    requires Contains(s, sub)
    ensures Contains(a + s, sub)
  {
    ContainsExtend(a, s, "", sub);
    assert a + s + "" == a + s;
  }

  /**
   * `strings.Join`: the items in order with `sep` between neighbours; the
   * empty list joins to "". Written left to right, the way the mapper's own
   * `stringJoin` accumulates its result.
   */
  function Join(items: seq<string>, sep: string): string
    decreases |items|
  {
    if |items| == 0 then ""
    else if |items| == 1 then items[0]
    else Join(items[..|items| - 1], sep) + sep + items[|items| - 1]
  }

  /** Start position of item `k` in `Join(items, sep)` when separators have length `sepLen`. */
  function Offset(items: seq<string>, sepLen: nat, k: nat): nat
    requires k <= |items|
  {
    if k == 0 then 0 else Offset(items, sepLen, k - 1) + |items[k - 1]| + sepLen
  }

  lemma {:induction false} OffsetPrefix(items: seq<string>, sepLen: nat, m: nat, k: nat)
    requires k <= m <= |items|
    ensures Offset(items[..m], sepLen, k) == Offset(items, sepLen, k)
    decreases k
  {
    if k > 0 {
      OffsetPrefix(items, sepLen, m, k - 1);
      assert items[..m][k - 1] == items[k - 1];
    }
  }

  /** The joined string is as long as all items plus one separator between each pair. */
  lemma {:induction false} JoinLength(items: seq<string>, sep: string)
    requires |items| > 0
    ensures |Join(items, sep)| == Offset(items, |sep|, |items| - 1) + |items[|items| - 1]|
    decreases |items|
  {
    var n := |items|;
    if n > 1 {
      JoinLength(items[..n - 1], sep);
      OffsetPrefix(items, |sep|, n - 1, n - 2);
      assert items[..n - 1][n - 2] == items[n - 2];
    }
  }

  /** Item `k` sits in the joined string exactly at its offset. */
  lemma {:induction false} JoinItemAt(items: seq<string>, sep: string, k: nat)
    requires k < |items|
    ensures Offset(items, |sep|, k) + |items[k]| <= |Join(items, sep)|
    ensures Join(items, sep)[Offset(items, |sep|, k)..Offset(items, |sep|, k) + |items[k]|] == items[k]
    decreases |items|
  {
    var n := |items|;
    if n > 1 {
      var pre := items[..n - 1];
      var jp := Join(pre, sep);
      var j := Join(items, sep);
      assert j == jp + sep + items[n - 1];
      var o := Offset(items, |sep|, k);
      if k == n - 1 {
        JoinLength(pre, sep);
        OffsetPrefix(items, |sep|, n - 1, n - 2);
        assert pre[n - 2] == items[n - 2];
        assert o == |jp| + |sep|;
        assert j[o..o + |items[k]|] == items[n - 1];
      } else {
        JoinItemAt(pre, sep, k);
        OffsetPrefix(items, |sep|, n - 1, k);
        assert pre[k] == items[k];
        assert j[o..o + |items[k]|] == jp[o..o + |items[k]|];
      }
    }
  }

  /** Between item `k` and item `k + 1` the joined string holds exactly one separator. */
  lemma {:induction false} JoinSepAt(items: seq<string>, sep: string, k: nat)
    requires k + 1 < |items|
    ensures Offset(items, |sep|, k + 1) <= |Join(items, sep)|
    ensures Join(items, sep)[Offset(items, |sep|, k) + |items[k]|..Offset(items, |sep|, k + 1)] == sep
    decreases |items|
  {
    var n := |items|;
    var pre := items[..n - 1];
    var jp := Join(pre, sep);
    var j := Join(items, sep);
    assert j == jp + sep + items[n - 1];
    var a := Offset(items, |sep|, k) + |items[k]|;
    var b := Offset(items, |sep|, k + 1);
    OffsetPrefix(items, |sep|, n - 1, k);
    assert pre[k] == items[k];
    if k + 1 == n - 1 {
      JoinLength(pre, sep);
      assert a == |jp|;
      assert j[a..b] == sep;
    } else {
      JoinSepAt(pre, sep, k);
      OffsetPrefix(items, |sep|, n - 1, k + 1);
      assert j[a..b] == jp[a..b];
    }
  }

  /** Item `k` of `items` stands in `j` at its offset. */
  ghost predicate ItemAt(j: string, items: seq<string>, sep: string, k: nat)
    requires k < |items|
  {
    Offset(items, |sep|, k) + |items[k]| <= |j| &&
    j[Offset(items, |sep|, k)..Offset(items, |sep|, k) + |items[k]|] == items[k]
  }

  /** Exactly `sep` stands in `j` between item `k` and item `k + 1`. */
  ghost predicate SepAt(j: string, items: seq<string>, sep: string, k: nat)
    requires k + 1 < |items|
  {
    Offset(items, |sep|, k + 1) <= |j| &&
    j[Offset(items, |sep|, k) + |items[k]|..Offset(items, |sep|, k + 1)] == sep
  }

  /** The items laid out at their offsets, with exactly one separator between neighbours and nothing else. */
  ghost predicate Tiles(j: string, items: seq<string>, sep: string)
    requires |items| > 0
  {
    && |j| == Offset(items, |sep|, |items| - 1) + |items[|items| - 1]|
    && (forall k :: 0 <= k < |items| ==> ItemAt(j, items, sep, k))
    && (forall k :: 0 <= k < |items| - 1 ==> SepAt(j, items, sep, k))
  }

  /** `Join` tiles its result: items in order, separators exactly between neighbours and nowhere else. */
  lemma JoinTiling(items: seq<string>, sep: string)
    requires |items| > 0
    ensures Tiles(Join(items, sep), items, sep)
  {
    JoinLength(items, sep);
    forall k | 0 <= k < |items|
      ensures ItemAt(Join(items, sep), items, sep, k)
    {
      JoinItemAt(items, sep, k);
    }
    forall k | 0 <= k < |items| - 1
      ensures SepAt(Join(items, sep), items, sep, k)
    {
      JoinSepAt(items, sep, k);
    }
  }

  /** Joining with a leading item: the right-to-left reading of `Join`. */
  lemma {:induction false} JoinCons(first: string, rest: seq<string>, sep: string)
    requires |rest| > 0
    ensures Join([first] + rest, sep) == first + sep + Join(rest, sep)
    decreases |rest|
  {
    var all := [first] + rest;
    var n := |rest|;
    if n == 1 {
      assert all[..1] == [first];
    } else {
      assert all[..|all| - 1] == [first] + rest[..n - 1];
      JoinCons(first, rest[..n - 1], sep);
    }
  }

  /** Every item of a join occurs in the joined string. */
  lemma {:induction false} JoinContainsItem(items: seq<string>, sep: string, k: nat)
    requires k < |items|
    ensures Contains(Join(items, sep), items[k])
    decreases |items|
  {
    var n := |items|;
    if n == 1 {
      ContainsAt(items[0], items[0], 0);
    } else if k == n - 1 {
      var a := Join(items[..n - 1], sep) + sep;
      ContainsAt(items[k], items[k], 0);
      ContainsExtend(a, items[k], "", items[k]);
      assert a + items[k] + "" == Join(items, sep);
    } else {
      assert items[..n - 1][k] == items[k];
      JoinContainsItem(items[..n - 1], sep, k);
      ContainsExtend("", Join(items[..n - 1], sep), sep + items[n - 1], items[k]);
      assert "" + Join(items[..n - 1], sep) + (sep + items[n - 1]) == Join(items, sep);
    }
  }

  /**
   * `strings.Split(s, string(sep))`: the maximal runs between occurrences of
   * `sep`; always at least one part, `Split("", sep) == [""]`.
   */
  function Split(s: string, sep: char): (parts: seq<string>)
    ensures |parts| >= 1
    decreases |s|
  {
    if |s| == 0 then [""]
    else if s[0] == sep then [""] + Split(s[1..], sep)
    else
      var rest := Split(s[1..], sep);
      [[s[0]] + rest[0]] + rest[1..]
  }

  /** Prefixing the first item prefixes the join. */
  lemma JoinPrependFirst(x: string, items: seq<string>, sep: string)
    requires |items| > 0
    ensures Join([x + items[0]] + items[1..], sep) == x + Join(items, sep)
  {
    if |items| == 1 {
      assert [x + items[0]] + items[1..] == [x + items[0]];
    } else {
      JoinCons(x + items[0], items[1..], sep);
      JoinCons(items[0], items[1..], sep);
      assert [items[0]] + items[1..] == items;
    }
  }

  /** Splitting and joining back with the same separator is the identity. */
  lemma {:induction false} SplitJoin(s: string, sep: char)
    ensures Join(Split(s, sep), [sep]) == s
    decreases |s|
  {
    if |s| > 0 {
      var rest := Split(s[1..], sep);
      SplitJoin(s[1..], sep);
      assert s == [s[0]] + s[1..];
      if s[0] == sep {
        JoinCons("", rest, [sep]);
      } else {
        JoinPrependFirst([s[0]], rest, [sep]);
      }
    }
  }

  /** No part of a split holds the separator. */
  lemma {:induction false} SplitPartsFree(s: string, sep: char)
    ensures forall k :: 0 <= k < |Split(s, sep)| ==> sep !in Split(s, sep)[k]
    decreases |s|
  {
    if |s| > 0 {
      var rest := Split(s[1..], sep);
      SplitPartsFree(s[1..], sep);
      var parts := Split(s, sep);
      forall k | 0 <= k < |parts| ensures sep !in parts[k] {
        if k > 0 {
          assert parts[k] == rest[k - (if s[0] == sep then 1 else 0)];
        }
      }
    }
  }

  /** Every part of a split occurs in the split string. */
  lemma SplitPartContained(s: string, sep: char, k: nat)
    requires k < |Split(s, sep)|
    ensures Contains(s, Split(s, sep)[k])
  {
    SplitJoin(s, sep);
    JoinContainsItem(Split(s, sep), [sep], k);
  }

  /** Number of occurrences of `c` in `s`. */
  function CountChar(s: string, c: char): nat
  {
    if |s| == 0 then 0 else CountChar(s[..|s| - 1], c) + (if s[|s| - 1] == c then 1 else 0)
  }

  lemma {:induction false} CountCharAppend(a: string, b: string, c: char)
    ensures CountChar(a + b, c) == CountChar(a, c) + CountChar(b, c)
    decreases |b|
  {
    if |b| == 0 {
      assert a + b == a;
    } else {
      assert (a + b)[..|a + b| - 1] == a + b[..|b| - 1];
      CountCharAppend(a, b[..|b| - 1], c);
    }
  }

  lemma {:induction false} CountCharAbsent(s: string, c: char)
    requires c !in s
    ensures CountChar(s, c) == 0
    decreases |s|
  {
    if |s| > 0 {
      CountCharAbsent(s[..|s| - 1], c);
    }
  }

  predicate IsAsciiUpper(c: char) { 'A' <= c <= 'Z' }
  predicate IsAsciiLower(c: char) { 'a' <= c <= 'z' }
  predicate IsAsciiLetter(c: char) { IsAsciiUpper(c) || IsAsciiLower(c) }

  function LowerChar(c: char): char {
    if IsAsciiUpper(c) then (c as int + 32) as char else c
  }

  function UpperChar(c: char): char {
    if IsAsciiLower(c) then (c as int - 32) as char else c
  }

  /** `strings.ToLower`, restricted to ASCII: upper-case ASCII letters become lower case, everything else stays. */
  function ToLower(s: string): (r: string)
    ensures |r| == |s|
    ensures forall i :: 0 <= i < |s| ==> r[i] == LowerChar(s[i])
  {
    if |s| == 0 then "" else [LowerChar(s[0])] + ToLower(s[1..])
  }

  /** `strings.ReplaceAll` for a one-character pattern and replacement. */
  function ReplaceChar(s: string, from: char, to: char): (r: string)
    ensures |r| == |s|
    ensures forall i :: 0 <= i < |s| ==> r[i] == if s[i] == from then to else s[i]
  {
    if |s| == 0 then "" else [if s[0] == from then to else s[0]] + ReplaceChar(s[1..], from, to)
  }

  /** `strings.ReplaceAll(s, string(c), "")`: every `c` removed. */
  function RemoveChar(s: string, c: char): (r: string)
    ensures c !in r
    ensures |r| <= |s|
    ensures forall d :: d in r ==> d in s
  {
    if |s| == 0 then "" else (if s[0] == c then "" else [s[0]]) + RemoveChar(s[1..], c)
  }

  predicate HasSuffix(s: string, suffix: string) {
    |suffix| <= |s| && s[|s| - |suffix|..] == suffix
  }

  /** Removing a character that does not occur changes nothing. */
  lemma {:induction false} RemoveCharAbsent(s: string, c: char)
    requires c !in s
    ensures RemoveChar(s, c) == s
    decreases |s|
  {
    if |s| > 0 {
      RemoveCharAbsent(s[1..], c);
      assert [s[0]] + s[1..] == s;
    }
  }

  /** `RemoveChar` works piecewise. */
  lemma {:induction false} RemoveCharAppend(a: string, b: string, c: char)
    ensures RemoveChar(a + b, c) == RemoveChar(a, c) + RemoveChar(b, c)
    decreases |a|
  {
    if |a| > 0 {
      assert (a + b)[1..] == a[1..] + b;
      RemoveCharAppend(a[1..], b, c);
    } else {
      assert a + b == b;
    }
  }

  /** A part free of the separator, then the separator, splits off as the first part. */
  lemma {:induction false} SplitFirstPart(a: string, b: string, sep: char)
    requires sep !in a
    ensures Split(a + [sep] + b, sep) == [a] + Split(b, sep)
    decreases |a|
  {
    var s := a + [sep] + b;
    if |a| == 0 {
      assert s[1..] == b;
    } else {
      assert s[1..] == a[1..] + [sep] + b;
      SplitFirstPart(a[1..], b, sep);
      assert [s[0]] + a[1..] == a;
    }
  }

  /** The strings `f` gives for `xs`, one after the other, as a `+=` loop accumulates them. */
  function ConcatMap<T>(xs: seq<T>, f: T -> string): string {
    if |xs| == 0 then "" else ConcatMap(xs[..|xs| - 1], f) + f(xs[|xs| - 1])
  }

  lemma {:induction false} ConcatMapAppend<T>(a: seq<T>, b: seq<T>, f: T -> string)
    ensures ConcatMap(a + b, f) == ConcatMap(a, f) + ConcatMap(b, f)
    decreases |b|
  {
    if |b| == 0 {
      assert a + b == a;
    } else {
      assert (a + b)[..|a + b| - 1] == a + b[..|b| - 1];
      ConcatMapAppend(a, b[..|b| - 1], f);
    }
  }
}
