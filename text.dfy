/**
 * String and sequence helpers shared by every stage of the SQL generator: the
 * lexicographic order that stands for JavaScript's default `sort()` and
 * `localeCompare`, the `Array.from(new Set(xs))` first-occurrence dedupe, the
 * sorted-set idiom `[...new Set(xs)].sort()`, a stable sort by key (the
 * comparator form of `Array.prototype.sort`), `split`/`join`, ASCII
 * lower-casing and decimal rendering of counters.
 */
module Text {

  datatype Option<T> = None | Some(value: T)

  // ---------------------------------------------------------------- characters

  predicate IsUpper(c: char) { 'A' <= c <= 'Z' }

  /** ASCII lower-casing of one character; every other character is kept. */
  function LowerChar(c: char): (r: char)
    ensures !IsUpper(r)
    ensures !IsUpper(c) ==> r == c
    ensures IsUpper(c) ==> 'a' <= r <= 'z'
  {
    if IsUpper(c) then (c as int + 32) as char else c
  }

  /** ASCII lower-casing of a string (stands for `toLowerCase`). */
  function Lower(s: string): (r: string)
    ensures |r| == |s|
    ensures forall i :: 0 <= i < |r| ==> !IsUpper(r[i])
  {
    seq(|s|, i requires 0 <= i < |s| => LowerChar(s[i]))
  }

  lemma LowerAppend(a: string, b: string)
    ensures Lower(a + b) == Lower(a) + Lower(b)
  {
  }

  predicate StartsWith(s: string, prefix: string)
  {
    |prefix| <= |s| && s[..|prefix|] == prefix
  }

  // ---------------------------------------------------------------- sequences

  /** A sequence without members is empty. */
  lemma NoMembers<T>(s: seq<T>)
    ensures (forall x :: x !in s) ==> s == []
  {
    if |s| > 0 {
      assert s[0] in s;
    }
  }

  /** The elements of `s` that satisfy `p`, in their order. */
  function Filter<T(!new)>(s: seq<T>, p: T -> bool): (r: seq<T>)
    ensures |r| <= |s|
    ensures forall x :: x in r <==> x in s && p(x)
  {
    if |s| == 0 then []
    else if p(s[0]) then [s[0]] + Filter(s[1..], p)
    else Filter(s[1..], p)
  }

  lemma {:induction false} FilterAppend<T(!new)>(a: seq<T>, b: seq<T>, p: T -> bool)
    ensures Filter(a + b, p) == Filter(a, p) + Filter(b, p)
  {
    if |a| > 0 {
      assert (a + b)[1..] == a[1..] + b;
      FilterAppend(a[1..], b, p);
    } else {
      assert a + b == b;
    }
  }

  predicate NoDup<T(==)>(s: seq<T>)
  {
    forall i, j :: 0 <= i < j < |s| ==> s[i] != s[j]
  }

  /** Index of the first occurrence of `x` in `s`. */
  function FirstIndex<T(==)>(s: seq<T>, x: T): (i: nat)
    requires x in s
    ensures i < |s| && s[i] == x
    ensures forall j :: 0 <= j < i ==> s[j] != x
  {
    if s[0] == x then 0 else 1 + FirstIndex(s[1..], x)
  }

  lemma {:induction false} FirstIndexAppend<T>(s: seq<T>, y: T, x: T)
    requires x in s
    ensures FirstIndex(s + [y], x) == FirstIndex(s, x)
  {
    if s[0] != x {
      assert (s + [y])[1..] == s[1..] + [y];
      FirstIndexAppend(s[1..], y, x);
    }
  }

  /**
   * `Array.from(new Set(xs))`: the elements of `xs` without repetition, in
   * the order of their first occurrence.
   */
  function Distinct<T(==,!new)>(xs: seq<T>): (r: seq<T>)
    ensures forall x :: x in r <==> x in xs
    ensures NoDup(r)
    ensures forall i, j :: 0 <= i < j < |r| ==> FirstIndex(xs, r[i]) < FirstIndex(xs, r[j])
  {
    if |xs| == 0 then []
    else
      var init := xs[..|xs| - 1];
      var last := xs[|xs| - 1];
      var d := Distinct(init);
      assert xs == init + [last];
      forall x | x in init ensures FirstIndex(xs, x) == FirstIndex(init, x) {
        FirstIndexAppend(init, last, x);
      }
      if last in d then d
      else
        assert FirstIndex(xs, last) == |init|;
        d + [last]
  }

  /** `s` back to front (`Array.prototype.reverse`). */
  function Reverse<T>(s: seq<T>): (r: seq<T>)
    ensures |r| == |s|
    ensures forall i :: 0 <= i < |s| ==> r[i] == s[|s| - 1 - i]
  {
    if |s| == 0 then [] else Reverse(s[1..]) + [s[0]]
  }

  lemma ReverseSnoc<T>(s: seq<T>, x: T)
    ensures Reverse(s + [x]) == [x] + Reverse(s)
  {
  }

  // ---------------------------------------------------------------- order

  /** Lexicographic strict order of sequences built on a strict order of their elements. */
  predicate LexLess<T(==)>(a: seq<T>, b: seq<T>, less: (T, T) -> bool)
  {
    if |a| == 0 then |b| > 0
    else |b| > 0 && (less(a[0], b[0]) || (a[0] == b[0] && LexLess(a[1..], b[1..], less)))
  }

  ghost predicate IsStrictTotalOrder<T(!new)>(less: (T, T) -> bool)
  {
    (forall x :: !less(x, x)) &&
    (forall x, y, z :: less(x, y) && less(y, z) ==> less(x, z)) &&
    (forall x, y :: x == y || less(x, y) || less(y, x))
  }

  lemma {:induction false} LexIrreflexive<T(!new)>(a: seq<T>, less: (T, T) -> bool)
    requires IsStrictTotalOrder(less)
    ensures !LexLess(a, a, less)
  {
    if |a| > 0 { LexIrreflexive(a[1..], less); }
  }

  lemma {:induction false} LexTransitive<T(!new)>(a: seq<T>, b: seq<T>, c: seq<T>, less: (T, T) -> bool)
    requires IsStrictTotalOrder(less)
    requires LexLess(a, b, less) && LexLess(b, c, less)
    ensures LexLess(a, c, less)
  {
    if |a| > 0 && a[0] == b[0] && b[0] == c[0] {
      LexTransitive(a[1..], b[1..], c[1..], less);
    }
  }

  lemma {:induction false} LexTotal<T(!new)>(a: seq<T>, b: seq<T>, less: (T, T) -> bool)
    requires IsStrictTotalOrder(less)
    ensures a == b || LexLess(a, b, less) || LexLess(b, a, less)
  {
    if |a| > 0 && |b| > 0 && a[0] == b[0] {
      LexTotal(a[1..], b[1..], less);
      if a[1..] == b[1..] {
        assert a == [a[0]] + a[1..] && b == [b[0]] + b[1..];
      }
    }
  }

  predicate CharLess(x: char, y: char) { x < y }

  /**
   * Code-point order of strings, standing for JavaScript's default `sort()`
   * and `localeCompare`; it agrees with the UTF-16 code-unit order of
   * `sort()` on characters up to U+FFFF only.
   */
  predicate StrLess(a: string, b: string)
  {
    LexLess(a, b, CharLess)
  }

  lemma StrOrder()
    ensures IsStrictTotalOrder(StrLess)
  {
    assert IsStrictTotalOrder(CharLess);
    forall a: string ensures !StrLess(a, a) { LexIrreflexive(a, CharLess); }
    forall a: string, b: string, c: string | StrLess(a, b) && StrLess(b, c) ensures StrLess(a, c) {
      LexTransitive(a, b, c, CharLess);
    }
    forall a: string, b: string ensures a == b || StrLess(a, b) || StrLess(b, a) {
      LexTotal(a, b, CharLess);
    }
  }

  /** Order of sort keys made of several strings, compared one after the other (`a || b || …` of comparators). */
  predicate KeyLess(a: seq<string>, b: seq<string>)
  {
    LexLess(a, b, StrLess)
  }

  lemma KeyOrder()
    ensures IsStrictTotalOrder(KeyLess)
  {
    StrOrder();
    forall a: seq<string> ensures !KeyLess(a, a) { LexIrreflexive(a, StrLess); }
    forall a: seq<string>, b: seq<string>, c: seq<string> | KeyLess(a, b) && KeyLess(b, c)
      ensures KeyLess(a, c)
    {
      LexTransitive(a, b, c, StrLess);
    }
    forall a: seq<string>, b: seq<string> ensures a == b || KeyLess(a, b) || KeyLess(b, a) {
      LexTotal(a, b, StrLess);
    }
  }

  // ---------------------------------------------------------------- sorted sets

  predicate StrictlySorted(s: seq<string>)
  {
    forall i, j :: 0 <= i < j < |s| ==> StrLess(s[i], s[j])
  }

  function InsertUnique(x: string, s: seq<string>): (r: seq<string>)
    requires StrictlySorted(s)
    ensures StrictlySorted(r)
    ensures forall y :: y in r <==> y == x || y in s
  {
    StrOrder();
    if |s| == 0 then [x]
    else if x == s[0] then s
    else if StrLess(x, s[0]) then [x] + s
    else
      var rest := InsertUnique(x, s[1..]);
      assert forall y :: y in rest ==> StrLess(s[0], y);
      [s[0]] + rest
  }

  /** `[...new Set(xs)].sort()`: the elements of `xs`, strictly ascending. */
  function SortedSet(xs: seq<string>): (r: seq<string>)
    ensures StrictlySorted(r)
    ensures forall x :: x in r <==> x in xs
  {
    if |xs| == 0 then []
    else InsertUnique(xs[|xs| - 1], SortedSet(xs[..|xs| - 1]))
  }

  lemma StrictlySortedNoDup(s: seq<string>)
    requires StrictlySorted(s)
    ensures NoDup(s)
  {
    StrOrder();
  }

  lemma {:induction false} NoDupCard<T>(s: seq<T>)
    requires NoDup(s)
    ensures |set x | x in s| == |s|
  {
    if |s| > 0 {
      NoDupCard(s[1..]);
      assert (set x | x in s) == {s[0]} + (set x | x in s[1..]);
      assert s[0] !in s[1..];
    }
  }

  lemma SortedHeadLeast(s: seq<string>)
    requires StrictlySorted(s) && |s| > 0
    ensures forall x :: x in s ==> x == s[0] || StrLess(s[0], x)
  {
  }

  /** A strictly sorted sequence is determined by its elements. */
  lemma {:induction false} StrictlySortedUnique(a: seq<string>, b: seq<string>)
    requires StrictlySorted(a) && StrictlySorted(b)
    requires forall x :: x in a <==> x in b
    ensures a == b
  {
    StrOrder();
    StrictlySortedNoDup(a);
    StrictlySortedNoDup(b);
    NoDupCard(a);
    NoDupCard(b);
    assert (set x | x in a) == (set x | x in b);
    if |a| > 0 {
      assert a[0] in b && b[0] in a;
      SortedHeadLeast(a);
      SortedHeadLeast(b);
      assert a[0] == b[0];
      forall x ensures x in a[1..] <==> x in b[1..] {
        if x in a[1..] {
          var i :| 1 <= i < |a| && a[i] == x;
          assert StrLess(a[0], a[i]);
          assert x in b;
          var j :| 0 <= j < |b| && b[j] == x;
          assert j != 0;
          assert b[1..][j - 1] == x;
        }
        if x in b[1..] {
          var j :| 1 <= j < |b| && b[j] == x;
          assert StrLess(b[0], b[j]);
          assert x in a;
          var i :| 0 <= i < |a| && a[i] == x;
          assert i != 0;
          assert a[1..][i - 1] == x;
        }
      }
      StrictlySortedUnique(a[1..], b[1..]);
      assert a == [a[0]] + a[1..] && b == [b[0]] + b[1..];
    }
  }

  /** The sorted set of a list depends only on which elements it holds. */
  lemma SortedSetCanonical(xs: seq<string>, ys: seq<string>)
    requires forall x :: x in xs <==> x in ys
    ensures SortedSet(xs) == SortedSet(ys)
  {
    StrictlySortedUnique(SortedSet(xs), SortedSet(ys));
  }

  // ---------------------------------------------------------------- stable sort

  predicate SortedBy<T>(s: seq<T>, key: T -> seq<string>)
  {
    forall i, j :: 0 <= i < j < |s| ==> !KeyLess(key(s[j]), key(s[i]))
  }

  /** The elements of `s` whose key is `k`, in their order. */
  function KeyRun<T(!new)>(s: seq<T>, key: T -> seq<string>, k: seq<string>): seq<T>
  {
    Filter(s, y => key(y) == k)
  }

  lemma KeyRunCons<T(!new)>(x: T, s: seq<T>, key: T -> seq<string>, k: seq<string>)
    ensures KeyRun([x] + s, key, k) == (if key(x) == k then [x] + KeyRun(s, key, k) else KeyRun(s, key, k))
  {
    assert ([x] + s)[1..] == s;
  }

  /** Inserts `x` in front of the first element whose key is not below `x`'s. */
  function InsertBy<T>(x: T, s: seq<T>, key: T -> seq<string>): (r: seq<T>)
    ensures |r| == |s| + 1
  {
    if |s| == 0 then [x]
    else if !KeyLess(key(s[0]), key(x)) then [x] + s
    else [s[0]] + InsertBy(x, s[1..], key)
  }

  /** Insertion into a sorted sequence keeps it sorted and adds exactly `x`. */
  lemma {:induction false} InsertBySorted<T(!new)>(x: T, s: seq<T>, key: T -> seq<string>)
    requires SortedBy(s, key)
    ensures SortedBy(InsertBy(x, s, key), key)
    ensures multiset(InsertBy(x, s, key)) == multiset(s) + multiset{x}
  {
    if |s| > 0 && KeyLess(key(s[0]), key(x)) {
      InsertBySorted(x, s[1..], key);
      assert s == [s[0]] + s[1..];
      ConsSorted(x, s, InsertBy(x, s[1..], key), key);
    } else if |s| > 0 {
      KeyOrder();
    }
  }

  lemma ConsSorted<T(!new)>(x: T, s: seq<T>, rest: seq<T>, key: T -> seq<string>)
    requires |s| > 0 && SortedBy(s, key) && KeyLess(key(s[0]), key(x))
    requires SortedBy(rest, key) && multiset(rest) == multiset(s[1..]) + multiset{x}
    ensures SortedBy([s[0]] + rest, key)
  {
    KeyOrder();
    var r := [s[0]] + rest;
    forall j | 1 <= j < |r| ensures !KeyLess(key(r[j]), key(s[0])) {
      var y := r[j];
      assert y == rest[j - 1];
      assert y in multiset(rest);
      if y != x {
        assert y in multiset(s[1..]);
        var m :| 0 <= m < |s[1..]| && s[1..][m] == y;
        assert s[m + 1] == y;
      }
    }
  }

  /** Inserting `x` puts it in front of every element with the same key. */
  lemma {:induction false} InsertByKeyRun<T(!new)>(x: T, s: seq<T>, key: T -> seq<string>, k: seq<string>)
    ensures KeyRun(InsertBy(x, s, key), key, k) == (if key(x) == k then [x] + KeyRun(s, key, k) else KeyRun(s, key, k))
  {
    if |s| == 0 {
      KeyRunCons(x, [], key, k);
    } else if !KeyLess(key(s[0]), key(x)) {
      KeyRunCons(x, s, key, k);
    } else {
      KeyOrder();
      InsertByKeyRun(x, s[1..], key, k);
      KeyRunCons(s[0], InsertBy(x, s[1..], key), key, k);
      KeyRunCons(s[0], s[1..], key, k);
      assert s == [s[0]] + s[1..];
    }
  }

  /**
   * `s.sort(cmp)` with a comparator that compares `key(a)` and `key(b)`;
   * `SortByFacts` states what it computes.
   */
  function SortBy<T>(s: seq<T>, key: T -> seq<string>): (r: seq<T>)
    ensures |r| == |s|
  {
    if |s| == 0 then [] else InsertBy(s[0], SortBy(s[1..], key), key)
  }

  /**
   * The sorted sequence is a permutation of `s`, ascending by key, and
   * stable: the elements sharing one key keep their relative order.
   */
  lemma {:induction false} SortByFacts<T(!new)>(s: seq<T>, key: T -> seq<string>)
    ensures multiset(SortBy(s, key)) == multiset(s)
    ensures SortedBy(SortBy(s, key), key)
    ensures forall k :: KeyRun(SortBy(s, key), key, k) == KeyRun(s, key, k)
  {
    if |s| > 0 {
      var rest := SortBy(s[1..], key);
      SortByFacts(s[1..], key);
      InsertBySorted(s[0], rest, key);
      assert s == [s[0]] + s[1..];
      forall k ensures KeyRun(InsertBy(s[0], rest, key), key, k) == KeyRun(s, key, k) {
        InsertByKeyRun(s[0], rest, key, k);
        KeyRunCons(s[0], s[1..], key, k);
      }
    }
  }

  lemma SortBySingle<T>(x: T, key: T -> seq<string>)
    ensures SortBy([x], key) == [x]
  {
    assert [x][1..] == [];
  }

  // ---------------------------------------------------------------- split and join

  /** `parts.join(sep)`. */
  function Join(parts: seq<string>, sep: string): (r: string)
  {
    if |parts| == 0 then ""
    else if |parts| == 1 then parts[0]
    else parts[0] + sep + Join(parts[1..], sep)
  }

  function IndexOf(s: string, c: char): (i: nat)
    requires c in s
    ensures i < |s| && s[i] == c && c !in s[..i]
  {
    if s[0] == c then 0 else 1 + IndexOf(s[1..], c)
  }

  /** `s.split(sep)` for a one-character separator: every piece, including empty ones. */
  function Split(s: string, sep: char): (r: seq<string>)
    ensures |r| >= 1
    ensures forall i :: 0 <= i < |r| ==> sep !in r[i]
    ensures Join(r, [sep]) == s
    decreases |s|
  {
    if sep in s then
      var i := IndexOf(s, sep);
      var rest := Split(s[i + 1..], sep);
      assert s == s[..i] + [sep] + s[i + 1..];
      [s[..i]] + rest
    else [s]
  }

  /** Splitting undoes joining, for pieces that do not contain the separator. */
  lemma {:induction false} SplitJoin(parts: seq<string>, sep: char)
    requires |parts| >= 1
    requires forall i :: 0 <= i < |parts| ==> sep !in parts[i]
    ensures Split(Join(parts, [sep]), sep) == parts
  {
    if |parts| > 1 {
      var head, tail := parts[0], Join(parts[1..], [sep]);
      var s := Join(parts, [sep]);
      assert s == head + [sep] + tail;
      IndexOfFirst(head, sep, tail);
      SplitAt(s, sep, head, tail);
      SplitJoin(parts[1..], sep);
      assert parts == [head] + parts[1..];
    }
  }

  /** The first `c` of `a + [c] + b` is the one after `a`, when `a` holds none. */
  lemma {:induction false} IndexOfFirst(a: string, c: char, b: string)
    requires c !in a
    ensures IndexOf(a + [c] + b, c) == |a|
    decreases |a|
  {
    if |a| > 0 {
      assert (a + [c] + b)[1..] == a[1..] + [c] + b;
      IndexOfFirst(a[1..], c, b);
    }
  }

  /** Splitting at the first separator. */
  lemma SplitAt(s: string, sep: char, head: string, tail: string)
    requires s == head + [sep] + tail && IndexOf(s, sep) == |head|
    ensures Split(s, sep) == [head] + Split(tail, sep)
  {
    assert s[..|head|] == head;
    assert s[|head| + 1..] == tail;
  }

  /** The table part of an id, `id.split('.', 2)[0]`. */
  function TablePart(id: string): (t: string)
    ensures '.' !in t && StartsWith(id, t)
    ensures t == id <==> '.' !in id
  {
    var parts := Split(id, '.');
    if '.' in id then
      var i := IndexOf(id, '.');
      assert id[..i] + [id[i]] + id[i + 1..] == id;
      parts[0]
    else parts[0]
  }

  /** The column part of an id, `id.split('.', 2)[1]`, absent when `id` has no dot. */
  function ColumnPart(id: string): (c: Option<string>)
    ensures c.None? <==> '.' !in id
    ensures c.Some? ==> '.' !in c.value && StartsWith(id, TablePart(id) + "." + c.value)
  {
    var parts := Split(id, '.');
    if '.' in id then
      var i := IndexOf(id, '.');
      var rest := Split(id[i + 1..], '.');
      assert id == id[..i] + "." + id[i + 1..];
      JoinHead(rest, '.');
      Some(parts[1])
    else None
  }

  lemma JoinHead(parts: seq<string>, sep: char)
    requires |parts| >= 1
    ensures StartsWith(Join(parts, [sep]), parts[0])
  {
  }

  /** Table and column parts of `t.c` when `t` has no dot. */
  lemma {:induction false} PartsOfQualified(t: string, c: string)
    requires '.' !in t
    ensures TablePart(t + "." + c) == t
    ensures ColumnPart(t + "." + c) == Some(Split(c, '.')[0])
  {
    var id := t + "." + c;
    assert id[|t|] == '.';
    assert id[..|t|] == t;
    assert IndexOf(id, '.') == |t|;
    assert id[|t| + 1..] == c;
  }

  // ---------------------------------------------------------------- decimal numbers

  predicate IsDigit(c: char) { '0' <= c <= '9' }

  function DigitChar(d: nat): (c: char)
    requires d < 10
    ensures IsDigit(c) && c as int - '0' as int == d
  {
    ('0' as int + d) as char
  }

  /** Decimal rendering of a counter, as a template literal renders a number. */
  function Decimal(n: nat): (r: string)
    ensures |r| >= 1
    ensures forall i :: 0 <= i < |r| ==> IsDigit(r[i])
  {
    if n < 10 then [DigitChar(n)] else Decimal(n / 10) + [DigitChar(n % 10)]
  }

  function DigitValue(c: char): nat
    requires IsDigit(c)
  {
    c as int - '0' as int
  }

  function ParseDecimal(s: string): nat
    requires forall i :: 0 <= i < |s| ==> IsDigit(s[i])
  {
    if |s| == 0 then 0
    else ParseDecimal(s[..|s| - 1]) * 10 + DigitValue(s[|s| - 1])
  }

  lemma {:induction false} DecimalRoundTrip(n: nat)
    ensures ParseDecimal(Decimal(n)) == n
  {
    if n >= 10 {
      var s := Decimal(n);
      assert s[..|s| - 1] == Decimal(n / 10);
      DecimalRoundTrip(n / 10);
    }
  }

  /** Different counters render differently. */
  lemma DecimalInjective(a: nat, b: nat)
    requires Decimal(a) == Decimal(b)
    ensures a == b
  {
    DecimalRoundTrip(a);
    DecimalRoundTrip(b);
  }
}
