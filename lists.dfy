/** List and string helpers with the semantics of the JavaScript and lodash
    operations the core relies on: `_.difference`, `_.intersection`,
    `Array.prototype.join`, `String.prototype.split` with a one-character
    separator, and `Number.prototype.toString` on a non-negative integer. */
module Lists {

  /** No element occurs twice. */
  predicate NoDuplicates<T(==)>(s: seq<T>) {
    forall i, j :: 0 <= i < j < |s| ==> s[i] != s[j]
  }

  /** `sub` can be obtained from `s` by deleting elements: order is kept. */
  predicate IsSubsequence<T(==)>(sub: seq<T>, s: seq<T>) {
    if sub == [] then true
    else if s == [] then false
    else if sub[0] == s[0] then IsSubsequence(sub[1..], s[1..])
    else IsSubsequence(sub, s[1..])
  }

  /** Index of the first occurrence of `x` in `s`. */
  function FirstIndex<T(==)>(s: seq<T>, x: T): (k: nat)
    requires x in s
    ensures k < |s| && s[k] == x
    ensures forall j :: 0 <= j < k ==> s[j] != x
  {
    if s[0] == x then 0 else 1 + FirstIndex(s[1..], x)
  }

  /** Concatenation regrouped, for proofs that append to a log step by step. */
  lemma Associate<T>(a: seq<T>, b: seq<T>, c: seq<T>)
    ensures a + b + c == a + (b + c)
  {
  }

  /** Position of the last occurrence of `x` in `s`. */
  function LastIndex<T(==)>(s: seq<T>, x: T): (k: nat)
    requires x in s
    ensures k < |s| && s[k] == x
    ensures forall j :: k < j < |s| ==> s[j] != x
  {
    if s[|s| - 1] == x then |s| - 1 else LastIndex(s[..|s| - 1], x)
  }

  lemma {:induction false} FirstIndexOfPrefix<T>(s: seq<T>, n: nat, x: T)
    requires n <= |s| && x in s[..n]
    ensures FirstIndex(s, x) == FirstIndex(s[..n], x)
  {
    if s[0] != x {
      assert s[1..][..n - 1] == s[..n][1..];
      FirstIndexOfPrefix(s[1..], n - 1, x);
    }
  }

  /** lodash `_.difference(a, b)`: the elements of `a` that are not in `b`,
      in the order of `a`, duplicates kept. */
  function Difference<T(==,!new)>(a: seq<T>, b: seq<T>): (r: seq<T>)
    ensures forall x :: x in r <==> x in a && x !in b
    ensures forall x :: multiset(r)[x] == if x in b then 0 else multiset(a)[x]
    ensures IsSubsequence(r, a)
    ensures r == [] <==> forall x :: x in a ==> x in b
  {
    if a == [] then []
    else
      var rest := Difference(a[1..], b);
      assert a == [a[0]] + a[1..];
      if a[0] in b then rest else [a[0]] + rest
  }

  /** lodash `_.intersection(a, b)`: the distinct elements of `a` that are also
      in `b`, in the order of their first occurrence in `a`. */
  function Intersection<T(==,!new)>(a: seq<T>, b: seq<T>): (r: seq<T>)
    ensures forall x :: x in r <==> x in a && x in b
    decreases |a|
  {
    if a == [] then []
    else
      var init := a[..|a| - 1];
      var x := a[|a| - 1];
      var r := Intersection(init, b);
      assert a == init + [x];
      if x in b && x !in r then r + [x] else r
  }

  /** Every element of `r` occurs in `a`, and `r` lists them in increasing
      order of their first occurrence in `a`. */
  ghost predicate OrderedBy<T>(a: seq<T>, r: seq<T>) {
    && (forall y :: y in r ==> y in a)
    && forall i, j :: 0 <= i < j < |r| ==> FirstIndex(a, r[i]) < FirstIndex(a, r[j])
  }

  /** The intersection holds each element once, ordered by its first
      occurrence in `a`. */
  lemma {:induction false} IntersectionOrdered<T(!new)>(a: seq<T>, b: seq<T>)
    ensures NoDuplicates(Intersection(a, b))
    ensures OrderedBy(a, Intersection(a, b))
    decreases |a|
  {
    if a != [] {
      var init := a[..|a| - 1];
      var x := a[|a| - 1];
      var r := Intersection(init, b);
      IntersectionOrdered(init, b);
      OrderedInPrefix(a, |a| - 1, r);
      if x in b && x !in r {
        assert a == init + [x];
        assert x !in init;
        assert FirstIndex(a, x) == |a| - 1;
        AppendLater(a, r, x);
      }
      OrderedNoDuplicates(a, Intersection(a, b));
    }
  }

  /** Order by first occurrence in a prefix of `a` is order in `a` itself. */
  lemma OrderedInPrefix<T>(a: seq<T>, n: nat, r: seq<T>)
    requires n <= |a| && OrderedBy(a[..n], r)
    ensures OrderedBy(a, r)
    ensures forall y :: y in r ==> FirstIndex(a, y) < n
  {
    forall y | y in r ensures y in a && FirstIndex(a, y) == FirstIndex(a[..n], y) < n {
      var k :| 0 <= k < n && a[..n][k] == y;
      assert a[k] == y;
      FirstIndexOfPrefix(a, n, y);
    }
    forall i, j | 0 <= i < j < |r| ensures FirstIndex(a, r[i]) < FirstIndex(a, r[j]) {
      assert r[i] in r && r[j] in r;
    }
  }

  lemma OrderedNoDuplicates<T>(a: seq<T>, r: seq<T>)
    requires OrderedBy(a, r)
    ensures NoDuplicates(r)
  {
  }

  /** Appending an element that first occurs after every element of `r`
      keeps `r` ordered by first occurrence in `a`. */
  lemma AppendLater<T>(a: seq<T>, r: seq<T>, x: T)
    requires x in a && OrderedBy(a, r)
    requires forall y :: y in r ==> FirstIndex(a, y) < FirstIndex(a, x)
    ensures OrderedBy(a, r + [x])
  {
    var r' := r + [x];
    forall i, j | 0 <= i < j < |r'| ensures FirstIndex(a, r'[i]) < FirstIndex(a, r'[j]) {
      assert r'[i] == r[i];
      if j < |r| {
        assert r'[j] == r[j];
      }
    }
  }

  /** `Array.prototype.join(sep)`. */
  function Join(parts: seq<string>, sep: string): string {
    if parts == [] then ""
    else if |parts| == 1 then parts[0]
    else parts[0] + sep + Join(parts[1..], sep)
  }

  /** `String.prototype.split(c)` with a one-character separator: the pieces
      between separators, an empty piece wherever two separators touch or the
      string starts or ends with one; "" splits into [""]. */
  function Split(s: string, c: char): (r: seq<string>)
    ensures |r| >= 1
    ensures forall k :: 0 <= k < |r| ==> c !in r[k]
  {
    if s == [] then [""]
    else
      var rest := Split(s[1..], c);
      if s[0] == c then [""] + rest
      else [[s[0]] + rest[0]] + rest[1..]
  }

  /** Joining the pieces with the separator gives back the string. */
  lemma {:induction false} JoinSplit(s: string, c: char)
    ensures Join(Split(s, c), [c]) == s
  {
    if s != [] {
      JoinSplit(s[1..], c);
      var rest := Split(s[1..], c);
      assert s == [s[0]] + s[1..];
      if s[0] == c {
        assert Split(s, c) == [""] + rest;
      } else {
        var r := [[s[0]] + rest[0]] + rest[1..];
        assert Split(s, c) == r;
        assert r[1..] == rest[1..];
        if |rest| > 1 {
          assert Join(rest, [c]) == rest[0] + [c] + Join(rest[1..], [c]);
        }
      }
    }
  }

  /** Splitting joined parts splits each part: the pieces of `a + c + b` are
      the pieces of `a` followed by those of `b`. */
  lemma {:induction false} SplitAround(a: string, b: string, c: char)
    ensures Split(a + [c] + b, c) == Split(a, c) + Split(b, c)
  {
    if a == [] {
      assert a + [c] + b == [c] + b;
      assert ([c] + b)[1..] == b;
    } else {
      var whole := a + [c] + b;
      assert whole[0] == a[0];
      assert whole[1..] == a[1..] + [c] + b;
      SplitAround(a[1..], b, c);
      var ra := Split(a[1..], c);
      var rb := Split(b, c);
      if a[0] == c {
        assert Split(whole, c) == [""] + (ra + rb);
        assert Split(a, c) == [""] + ra;
        Associate([""], ra, rb);
      } else {
        assert (ra + rb)[0] == ra[0];
        assert (ra + rb)[1..] == ra[1..] + rb;
        assert Split(whole, c) == [[a[0]] + ra[0]] + (ra[1..] + rb);
        assert Split(a, c) == [[a[0]] + ra[0]] + ra[1..];
        Associate([[a[0]] + ra[0]], ra[1..], rb);
      }
    }
  }

  /** The pieces of every element, one after the other. */
  function SplitEach(parts: seq<string>, c: char): seq<string> {
    if parts == [] then [] else Split(parts[0], c) + SplitEach(parts[1..], c)
  }

  /** Joining with a separator and splitting on it again yields every piece of
      every part, in order. */
  lemma {:induction false} SplitJoin(parts: seq<string>, c: char)
    requires parts != []
    ensures Split(Join(parts, [c]), c) == SplitEach(parts, c)
  {
    if |parts| > 1 {
      SplitAround(parts[0], Join(parts[1..], [c]), c);
      SplitJoin(parts[1..], c);
    }
  }

  /** A string without the separator is its own single piece. */
  lemma {:induction false} SplitWithoutSeparator(s: string, c: char)
    requires c !in s
    ensures Split(s, c) == [s]
  {
    if s != [] {
      SplitWithoutSeparator(s[1..], c);
      assert s == [s[0]] + s[1..];
    }
  }

  /** Parts that contain no separator survive a join and a split unchanged. */
  lemma {:induction false} SplitJoinRoundTrip(parts: seq<string>, c: char)
    requires parts != []
    requires forall k :: 0 <= k < |parts| ==> c !in parts[k]
    ensures Split(Join(parts, [c]), c) == parts
  {
    SplitJoin(parts, c);
    SplitEachWithoutSeparator(parts, c);
  }

  lemma {:induction false} SplitEachWithoutSeparator(parts: seq<string>, c: char)
    requires forall k :: 0 <= k < |parts| ==> c !in parts[k]
    ensures SplitEach(parts, c) == parts
  {
    if parts != [] {
      SplitWithoutSeparator(parts[0], c);
      SplitEachWithoutSeparator(parts[1..], c);
      assert parts == [parts[0]] + parts[1..];
    }
  }

  predicate IsDigit(c: char) {
    '0' <= c <= '9'
  }

  predicate AllDigits(s: string) {
    forall k :: 0 <= k < |s| ==> IsDigit(s[k])
  }

  /** The number a string of decimal digits denotes. */
  function DecimalValue(s: string): nat
    requires AllDigits(s)
  {
    if s == [] then 0
    else 10 * DecimalValue(s[..|s| - 1]) + (s[|s| - 1] as int - '0' as int)
  }

  /** `n.toString()` for a non-negative integer: its decimal digits, without
      leading zeros. */
  function NatToString(n: nat): (r: string)
    ensures r != [] && AllDigits(r)
    ensures |r| > 1 ==> r[0] != '0'
    ensures DecimalValue(r) == n
  {
    var last := ('0' as int + n % 10) as char;
    if n < 10 then [last]
    else
      var r := NatToString(n / 10) + [last];
      assert r[..|r| - 1] == NatToString(n / 10);
      r
  }
}
