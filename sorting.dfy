/** The `$sort` stage: documents ordered by one field under MongoDB's comparison
    order for values of different BSON types, ascending (`1`) or descending (`-1`). */
module Sorting {
  import opened Base

  /** The value a document has at the sort field. The constructors are listed in
      BSON comparison order: a missing field sorts first, then numbers, strings,
      ObjectIds, booleans and dates. */
  datatype SortKey = Missing | Num(n: int) | Text(s: string) | Oid(id: Id) | Flag(b: bool) | Date(t: int)

  datatype Direction = Ascending | Descending

  function Rank(k: SortKey): nat {
    match k
    case Missing => 0
    case Num(_) => 1
    case Text(_) => 2
    case Oid(_) => 3
    case Flag(_) => 4
    case Date(_) => 5
  }

  /** Binary (code-unit by code-unit) comparison of strings. */
  predicate TextLe(a: string, b: string) {
    if a == [] then true
    else if b == [] then false
    else if a[0] != b[0] then a[0] < b[0]
    else TextLe(a[1..], b[1..])
  }

  lemma {:induction false} TextLeTotal(a: string, b: string)
    ensures TextLe(a, b) || TextLe(b, a)
  {
    if a != [] && b != [] && a[0] == b[0] {
      TextLeTotal(a[1..], b[1..]);
    }
  }

  lemma {:induction false} TextLeTransitive(a: string, b: string, c: string)
    requires TextLe(a, b) && TextLe(b, c)
    ensures TextLe(a, c)
  {
    if a != [] && b != [] && c != [] && a[0] == b[0] && b[0] == c[0] {
      TextLeTransitive(a[1..], b[1..], c[1..]);
    }
  }

  /** MongoDB's ascending order on sort values (a total preorder). */
  predicate KeyLe(a: SortKey, b: SortKey) {
    if Rank(a) != Rank(b) then Rank(a) < Rank(b)
    else match (a, b)
      case (Num(x), Num(y)) => x <= y
      case (Text(x), Text(y)) => TextLe(x, y)
      case (Oid(x), Oid(y)) => x <= y
      case (Flag(x), Flag(y)) => !x || y
      case (Date(x), Date(y)) => x <= y
      case _ => true
  }

  lemma KeyLeTotal(a: SortKey, b: SortKey)
    ensures KeyLe(a, b) || KeyLe(b, a)
  {
    if a.Text? && b.Text? {
      TextLeTotal(a.s, b.s);
    }
  }

  lemma KeyLeTransitive(a: SortKey, b: SortKey, c: SortKey)
    requires KeyLe(a, b) && KeyLe(b, c)
    ensures KeyLe(a, c)
  {
    if a.Text? && b.Text? && c.Text? {
      TextLeTransitive(a.s, b.s, c.s);
    }
  }

  /** Whether a document with key `a` may come before one with key `b`. */
  predicate Before(a: SortKey, b: SortKey, dir: Direction) {
    if dir == Ascending then KeyLe(a, b) else KeyLe(b, a)
  }

  lemma BeforeTotal(a: SortKey, b: SortKey, dir: Direction)
    ensures Before(a, b, dir) || Before(b, a, dir)
  {
    KeyLeTotal(a, b);
  }

  lemma BeforeTransitive(a: SortKey, b: SortKey, c: SortKey, dir: Direction)
    requires Before(a, b, dir) && Before(b, c, dir)
    ensures Before(a, c, dir)
  {
    if dir == Ascending {
      KeyLeTransitive(a, b, c);
    } else {
      KeyLeTransitive(c, b, a);
    }
  }

  predicate SortedBy(s: seq<Id>, key: Id -> SortKey, dir: Direction) {
    forall i, j :: 0 <= i < j < |s| ==> Before(key(s[i]), key(s[j]), dir)
  }

  /** Putting in front of a sorted sequence a key that may precede all of its
      keys keeps it sorted. */
  lemma ConsSorted(y: Id, s: seq<Id>, key: Id -> SortKey, dir: Direction)
    requires SortedBy(s, key, dir)
    requires forall j :: 0 <= j < |s| ==> Before(key(y), key(s[j]), dir)
    ensures SortedBy([y] + s, key, dir)
  {
    var r := [y] + s;
    forall i, j | 0 <= i < j < |r|
      ensures Before(key(r[i]), key(r[j]), dir)
    {
      assert r[j] == s[j - 1];
      if i > 0 {
        assert r[i] == s[i - 1];
      }
    }
  }

  /** Inserts `x` after the documents that strictly precede it. */
  function Insert(x: Id, s: seq<Id>, key: Id -> SortKey, dir: Direction): (r: seq<Id>)
    requires SortedBy(s, key, dir)
    ensures multiset(r) == multiset(s) + multiset{x}
    ensures SortedBy(r, key, dir)
  {
    if s == [] then [x]
    else if Before(key(x), key(s[0]), dir) then
      forall j | 0 <= j < |s|
        ensures Before(key(x), key(s[j]), dir)
      {
        if j > 0 {
          BeforeTransitive(key(x), key(s[0]), key(s[j]), dir);
        }
      }
      ConsSorted(x, s, key, dir);
      [x] + s
    else
      BeforeTotal(key(x), key(s[0]), dir);
      assert SortedBy(s[1..], key, dir) by {
        forall i, j | 0 <= i < j < |s[1..]|
          ensures Before(key(s[1..][i]), key(s[1..][j]), dir)
        {
          assert s[1..][i] == s[i + 1] && s[1..][j] == s[j + 1];
        }
      }
      var rest := Insert(x, s[1..], key, dir);
      assert s == [s[0]] + s[1..];
      forall j | 0 <= j < |rest|
        ensures Before(key(s[0]), key(rest[j]), dir)
      {
        assert rest[j] in multiset(rest);
        if rest[j] != x {
          assert rest[j] in multiset(s[1..]);
          var k :| 0 <= k < |s[1..]| && s[1..][k] == rest[j];
          assert s[k + 1] == rest[j];
        }
      }
      ConsSorted(s[0], rest, key, dir);
      [s[0]] + rest
  }

  /** `$sort`: the input reordered so that it is sorted by `key`. MongoDB
      promises no order among documents with equal keys; this model keeps them
      in input order. */
  function Sort(s: seq<Id>, key: Id -> SortKey, dir: Direction): (r: seq<Id>)
    ensures multiset(r) == multiset(s)
    ensures SortedBy(r, key, dir)
  {
    if s == [] then []
    else
      assert s == [s[0]] + s[1..];
      Insert(s[0], Sort(s[1..], key, dir), key, dir)
  }

  /** Sorting keeps exactly the input's documents, and a duplicate-free input stays so. */
  lemma SortKeepsMembers(s: seq<Id>, key: Id -> SortKey, dir: Direction)
    ensures forall x :: x in Sort(s, key, dir) <==> x in s
    ensures NoDuplicates(s) ==> NoDuplicates(Sort(s, key, dir))
  {
    var r := Sort(s, key, dir);
    SameMultisetSameMembers(s, r);
    if NoDuplicates(s) {
      SameMultisetDistinct(s, r);
    }
  }

  lemma SameMultisetSameMembers(s: seq<Id>, r: seq<Id>)
    requires multiset(r) == multiset(s)
    ensures forall x :: x in r <==> x in s
  {
    forall x
      ensures x in r <==> x in s
    {
      assert x in r <==> x in multiset(r);
      assert x in s <==> x in multiset(s);
    }
  }

  lemma SameMultisetDistinct(s: seq<Id>, r: seq<Id>)
    requires multiset(r) == multiset(s) && NoDuplicates(s)
    ensures NoDuplicates(r)
  {
    MultisetNoDuplicates(s);
    forall i, j | 0 <= i < j < |r|
      ensures r[i] != r[j]
    {
      if r[i] == r[j] {
        MultiplicityAtLeastTwo(r, i, j);
      }
    }
  }

  lemma {:induction false} MultisetNoDuplicates(s: seq<Id>)
    requires NoDuplicates(s)
    ensures forall x :: multiset(s)[x] <= 1
  {
    if s != [] {
      assert s == [s[0]] + s[1..];
      MultisetNoDuplicates(s[1..]);
      assert s[0] !in multiset(s[1..]);
    }
  }

  lemma {:induction false} MultiplicityAtLeastTwo(s: seq<Id>, i: nat, j: nat)
    requires i < j < |s| && s[i] == s[j]
    ensures multiset(s)[s[i]] >= 2
  {
    if i > 0 {
      assert s == [s[0]] + s[1..];
      MultiplicityAtLeastTwo(s[1..], i - 1, j - 1);
    } else {
      assert s == [s[0]] + s[1..];
      assert s[j] == s[1..][j - 1];
      assert s[j] in multiset(s[1..]);
    }
  }
}
