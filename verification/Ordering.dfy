/** Byte-lexicographic order and sorting by a text key, as sort.Strings and sort.Slice use it. */
module Ordering {

  lemma Reassociate<T>(a: seq<T>, b: seq<T>, c: seq<T>)
    ensures (a + b) + c == a + (b + c)
  {
  }

  predicate Less(a: string, b: string) {
    if |b| == 0 then false
    else if |a| == 0 then true
    else a[0] < b[0] || (a[0] == b[0] && Less(a[1..], b[1..]))
  }

  predicate Le(a: string, b: string) {
    !Less(b, a)
  }

  /** a and b share their first k bytes, and then a ends or has the smaller byte. */
  ghost predicate DivergeAt(a: string, b: string, k: nat) {
    k <= |a| && k < |b| && a[..k] == b[..k] && (k == |a| || a[k] < b[k])
  }

  /** Lexicographic byte order: decided at the first place where the texts differ. */
  ghost predicate Precedes(a: string, b: string) {
    exists k: nat :: DivergeAt(a, b, k)
  }

  lemma DivergeLater(a: string, b: string, k: nat)
    requires |a| > 0 && |b| > 0 && a[0] == b[0]
    ensures DivergeAt(a[1..], b[1..], k) <==> DivergeAt(a, b, k + 1)
  {
    if k + 1 <= |a| && k + 1 <= |b| {
      assert a[..k + 1] == [a[0]] + a[1..][..k] && b[..k + 1] == [b[0]] + b[1..][..k];
      if a[..k + 1] == b[..k + 1] {
        assert a[1..][..k] == a[..k + 1][1..] && b[1..][..k] == b[..k + 1][1..];
      }
    }
  }

  lemma DivergeAtOnce(a: string, b: string)
    ensures DivergeAt(a, b, 0) <==> |b| > 0 && (|a| == 0 || a[0] < b[0])
    ensures forall k: nat :: DivergeAt(a, b, k) && k > 0 ==> a[0] == b[0]
  {
    forall k: nat | DivergeAt(a, b, k) && k > 0 ensures a[0] == b[0] {
      assert a[..k][0] == a[0] && b[..k][0] == b[0];
    }
  }

  /** The order used for sorting is lexicographic byte order. */
  lemma {:induction false} LessIsLexicographic(a: string, b: string)
    ensures Less(a, b) <==> Precedes(a, b)
  {
    DivergeAtOnce(a, b);
    if |a| > 0 && |b| > 0 && a[0] == b[0] {
      LessIsLexicographic(a[1..], b[1..]);
      if Less(a, b) {
        var k: nat :| DivergeAt(a[1..], b[1..], k);
        DivergeLater(a, b, k);
      }
      if Precedes(a, b) {
        var k: nat :| DivergeAt(a, b, k);
        DivergeLater(a, b, k - 1);
      }
    }
  }

  lemma {:induction false} LeAntisymmetric(a: string, b: string)
    requires Le(a, b) && Le(b, a)
    ensures a == b
  {
    if |a| > 0 && |b| > 0 {
      LeAntisymmetric(a[1..], b[1..]);
      assert a == [a[0]] + a[1..] && b == [b[0]] + b[1..];
    }
  }

  lemma {:induction false} LeTransitive(a: string, b: string, c: string)
    requires Le(a, b) && Le(b, c)
    ensures Le(a, c)
  {
    if |a| > 0 && |b| > 0 && |c| > 0 && a[0] == b[0] == c[0] {
      LeTransitive(a[1..], b[1..], c[1..]);
    }
  }

  lemma {:induction false} LessIsLe(a: string, b: string)
    requires Less(a, b)
    ensures Le(a, b)
  {
    if |a| > 0 && a[0] == b[0] {
      LessIsLe(a[1..], b[1..]);
    }
  }

  ghost predicate SortedBy<T>(s: seq<T>, key: T -> string) {
    forall i, j :: 0 <= i < j < |s| ==> Le(key(s[i]), key(s[j]))
  }

  /** Elements with the same key are the same element. */
  ghost predicate Faithful<T>(s: seq<T>, key: T -> string) {
    forall i, j :: 0 <= i < |s| && 0 <= j < |s| && key(s[i]) == key(s[j]) ==> s[i] == s[j]
  }

  function Insert<T>(s: seq<T>, x: T, key: T -> string): (r: seq<T>)
    ensures |r| == |s| + 1
  {
    if |s| == 0 || Le(key(s[|s| - 1]), key(x)) then s + [x]
    else Insert(s[..|s| - 1], x, key) + [s[|s| - 1]]
  }

  function Sort<T>(s: seq<T>, key: T -> string): (r: seq<T>)
    ensures |r| == |s|
  {
    if |s| == 0 then [] else Insert(Sort(s[..|s| - 1], key), s[|s| - 1], key)
  }

  lemma {:induction false} InsertPermutes<T>(s: seq<T>, x: T, key: T -> string)
    ensures multiset(Insert(s, x, key)) == multiset(s) + multiset{x}
  {
    if |s| > 0 && !Le(key(s[|s| - 1]), key(x)) {
      InsertPermutes(s[..|s| - 1], x, key);
      assert s == s[..|s| - 1] + [s[|s| - 1]];
    }
  }

  lemma {:induction false} SortPermutes<T>(s: seq<T>, key: T -> string)
    ensures multiset(Sort(s, key)) == multiset(s)
  {
    if |s| > 0 {
      SortPermutes(s[..|s| - 1], key);
      InsertPermutes(Sort(s[..|s| - 1], key), s[|s| - 1], key);
      assert s == s[..|s| - 1] + [s[|s| - 1]];
    }
  }

  lemma {:induction false} InsertSorted<T>(s: seq<T>, x: T, key: T -> string)
    requires SortedBy(s, key)
    ensures SortedBy(Insert(s, x, key), key)
  {
    var n := |s|;
    if n == 0 {
    } else if Le(key(s[n - 1]), key(x)) {
      forall i | 0 <= i < n ensures Le(key(s[i]), key(x)) {
        if i < n - 1 {
          LeTransitive(key(s[i]), key(s[n - 1]), key(x));
        }
      }
    } else {
      var last := s[n - 1];
      var front := Insert(s[..n - 1], x, key);
      InsertSorted(s[..n - 1], x, key);
      InsertPermutes(s[..n - 1], x, key);
      LessIsLe(key(x), key(last));
      forall i | 0 <= i < |front| ensures Le(key(front[i]), key(last)) {
        assert front[i] in multiset(front);
        assert front[i] == x || front[i] in s[..n - 1];
      }
    }
  }

  lemma {:induction false} SortSorted<T>(s: seq<T>, key: T -> string)
    ensures SortedBy(Sort(s, key), key)
  {
    if |s| > 0 {
      SortSorted(s[..|s| - 1], key);
      InsertSorted(Sort(s[..|s| - 1], key), s[|s| - 1], key);
    }
  }

  /** No element of the sorted sequence is followed by one whose key precedes its own. */
  lemma SortLexicographic<T>(s: seq<T>, key: T -> string)
    ensures var r := Sort(s, key);
            forall i, j :: 0 <= i < j < |r| ==> !Precedes(key(r[j]), key(r[i]))
  {
    SortSorted(s, key);
    var r := Sort(s, key);
    forall i, j | 0 <= i < j < |r| ensures !Precedes(key(r[j]), key(r[i])) {
      assert Le(key(r[i]), key(r[j]));
      LessIsLexicographic(key(r[j]), key(r[i]));
    }
  }

  lemma {:induction false} LeRefl(a: string)
    ensures Le(a, a)
  {
    if |a| > 0 {
      LeRefl(a[1..]);
    }
  }

  lemma SortedLast<T>(s: seq<T>, x: T, key: T -> string)
    requires SortedBy(s, key) && x in s
    ensures Le(key(x), key(s[|s| - 1]))
  {
    var i :| 0 <= i < |s| && s[i] == x;
    LeRefl(key(x));
  }

  lemma DropLast<T>(s: seq<T>)
    requires |s| > 0
    ensures multiset(s[..|s| - 1]) == multiset(s) - multiset{s[|s| - 1]}
  {
    assert s == s[..|s| - 1] + [s[|s| - 1]];
  }

  lemma SameLast<T>(a: seq<T>, b: seq<T>, key: T -> string)
    requires SortedBy(a, key) && SortedBy(b, key)
    requires multiset(a) == multiset(b) && |a| == |b| > 0
    requires Faithful(a, key)
    ensures a[|a| - 1] == b[|b| - 1]
  {
    var x, y := a[|a| - 1], b[|b| - 1];
    assert x in multiset(b) && y in multiset(a);
    SortedLast(a, y, key);
    SortedLast(b, x, key);
    LeAntisymmetric(key(x), key(y));
  }

  lemma FaithfulPrefix<T>(s: seq<T>, n: nat, key: T -> string)
    requires n <= |s| && Faithful(s, key)
    ensures Faithful(s[..n], key)
  {
    forall i, j | 0 <= i < n && 0 <= j < n && key(s[..n][i]) == key(s[..n][j]) ensures s[..n][i] == s[..n][j] {
      assert s[i] == s[..n][i] && s[j] == s[..n][j];
    }
  }

  lemma SortedPrefix<T>(s: seq<T>, n: nat, key: T -> string)
    requires n <= |s| && SortedBy(s, key)
    ensures SortedBy(s[..n], key)
  {
  }

  lemma SameLength<T>(a: seq<T>, b: seq<T>)
    requires multiset(a) == multiset(b)
    ensures |a| == |b|
  {
    assert |multiset(a)| == |multiset(b)|;
  }

  lemma SameFromParts<T>(a: seq<T>, b: seq<T>, n: nat)
    requires |a| == |b| == n + 1 && a[..n] == b[..n] && a[n] == b[n]
    ensures a == b
  {
    assert a == a[..n] + [a[n]] && b == b[..n] + [b[n]];
  }

  /** Sorted permutations of one another are equal: sorting leaves no freedom. */
  lemma {:induction false} SortedUnique<T>(a: seq<T>, b: seq<T>, key: T -> string)
    requires SortedBy(a, key) && SortedBy(b, key)
    requires multiset(a) == multiset(b)
    requires Faithful(a, key)
    ensures a == b
    decreases |a|
  {
    SameLength(a, b);
    if |a| > 0 {
      var n := |a| - 1;
      SameLast(a, b, key);
      DropLast(a);
      DropLast(b);
      FaithfulPrefix(a, n, key);
      SortedPrefix(a, n, key);
      SortedPrefix(b, n, key);
      SortedUnique(a[..n], b[..n], key);
      SameFromParts(a, b, n);
    }
  }

  /** Sorting forgets the order of its input, when equal keys mean equal elements. */
  lemma SortOrderFree<T>(a: seq<T>, b: seq<T>, key: T -> string)
    requires multiset(a) == multiset(b)
    requires Faithful(a, key)
    ensures Sort(a, key) == Sort(b, key)
  {
    SortSorted(a, key);
    SortSorted(b, key);
    SortPermutes(a, key);
    SortPermutes(b, key);
    var r := Sort(a, key);
    forall i, j | 0 <= i < |r| && 0 <= j < |r| && key(r[i]) == key(r[j]) ensures r[i] == r[j] {
      assert r[i] in multiset(a) && r[j] in multiset(a);
    }
    SortedUnique(r, Sort(b, key), key);
  }

  lemma SortMembers<T>(s: seq<T>, key: T -> string)
    ensures forall x :: x in Sort(s, key) <==> x in s
  {
    SortPermutes(s, key);
    assert forall x :: x in Sort(s, key) <==> x in multiset(Sort(s, key));
    assert forall x :: x in s <==> x in multiset(s);
  }

  /** In-place sort of a slice. */
  method SortInPlace<T>(a: array<T>, key: T -> string)
    modifies a
    ensures a[..] == Sort(old(a[..]), key)
  {
    ghost var s := a[..];
    for n := 0 to a.Length
      invariant a[..n] == Sort(s[..n], key)
      invariant a[n..] == s[n..]
    {
      assert a[n] == s[n];
      SiftDown(a, n, key);
      assert s[..n + 1][..n] == s[..n];
      assert a[n + 1..] == s[n + 1..];
    }
    assert a[..a.Length] == a[..] && s[..a.Length] == s;
  }

  lemma InsertPast<T>(front: seq<T>, j: nat, x: T, key: T -> string, tail: seq<T>)
    requires j < |front| && !Le(key(front[j]), key(x))
    ensures Insert(front[..j + 1], x, key) + tail == Insert(front[..j], x, key) + ([front[j]] + tail)
  {
    assert front[..j + 1][..j] == front[..j] && front[..j + 1][j] == front[j];
    assert Insert(front[..j + 1], x, key) == Insert(front[..j], x, key) + [front[j]];
  }

  /** Moves element n down into the sorted prefix before it. */
  method SiftDown<T>(a: array<T>, n: nat, key: T -> string)
    requires n < a.Length
    modifies a
    ensures a[..n + 1] == Insert(old(a[..n]), old(a[n]), key)
    ensures a[n + 1..] == old(a[n + 1..])
  {
    var j := n;
    ghost var front, x := a[..n], a[n];
    assert front[..n] == front;
    while j > 0 && !Le(key(a[j - 1]), key(a[j]))
      invariant 0 <= j <= n
      invariant a[..j] == front[..j]
      invariant a[j] == x
      invariant Insert(front[..j], x, key) + a[j + 1..n + 1] == Insert(front, x, key)
      invariant a[n + 1..] == old(a[n + 1..])
    {
      ghost var tail := a[j + 1..n + 1];
      assert a[j - 1] == front[..j][j - 1];
      InsertPast(front, j - 1, x, key, tail);
      a[j], a[j - 1] := a[j - 1], a[j];
      j := j - 1;
      assert a[j + 1..n + 1] == [front[j]] + tail;
    }
    assert Insert(front[..j], x, key) == front[..j] + [x];
    assert a[..n + 1] == a[..j] + [a[j]] + a[j + 1..n + 1];
  }
}
