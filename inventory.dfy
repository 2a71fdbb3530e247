/** Product inventory operations over a list of products held in an array:
    total stock value, the most expensive product, availability by name,
    and sorting in place by name, price or quantity. Prices are whole
    cents. */
module Inventory {
  import opened Wrappers

  datatype Product = Product(name: string, price: int, quantity: int)

  // ---------------------------------------------------------------------
  // Total value

  /** The stock value of the products: the sum of price times quantity. */
  function TotalValue(s: seq<Product>): int {
    if s == [] then 0 else TotalValue(s[..|s| - 1]) + s[|s| - 1].price * s[|s| - 1].quantity
  }

  lemma {:induction false} TotalValueAppend(s: seq<Product>, t: seq<Product>)
    ensures TotalValue(s + t) == TotalValue(s) + TotalValue(t)
    decreases |t|
  {
    if t == [] {
      assert s + t == s;
    } else {
      assert (s + t)[..|s + t| - 1] == s + t[..|t| - 1];
      TotalValueAppend(s, t[..|t| - 1]);
    }
  }

  /** `total_of_product`: 0 for no products, else the sum of all stock values. */
  method TotalOfProduct(a: array<Product>) returns (total: int)
    ensures total == TotalValue(a[..])
  {
    total := 0;
    for i := 0 to a.Length
      invariant total == TotalValue(a[..i])
    {
      assert a[..i + 1][..i] == a[..i];
      total := total + a[i].price * a[i].quantity;
    }
    assert a[..a.Length] == a[..];
  }

  // ---------------------------------------------------------------------
  // Most expensive product

  /** k is the first position holding the highest price in s. */
  predicate IsFirstMostExpensive(s: seq<Product>, k: int) {
    0 <= k < |s| &&
    (forall j :: 0 <= j < |s| ==> s[j].price <= s[k].price) &&
    (forall j :: 0 <= j < k ==> s[j].price < s[k].price)
  }

  lemma {:induction false} FirstMostExpensiveIsUnique(s: seq<Product>, k1: int, k2: int)
    requires IsFirstMostExpensive(s, k1) && IsFirstMostExpensive(s, k2)
    ensures k1 == k2
  {
    var p1, p2 := s[k1].price, s[k2].price;
    assert p1 <= p2 && p2 <= p1;
  }

  /** `find_most_expensive_product`: the name of the first product whose
      price no other product exceeds. The list must not be empty. */
  method FindMostExpensiveProduct(a: array<Product>) returns (name: string)
    requires a.Length > 0
    ensures exists k :: IsFirstMostExpensive(a[..], k) && name == a[k].name
  {
    var m := 0;
    for i := 0 to a.Length
      invariant 0 <= m < a.Length
      invariant forall j :: 0 <= j < i ==> a[j].price <= a[m].price
      invariant forall j :: 0 <= j < m ==> a[j].price < a[m].price
    {
      if a[i].price > a[m].price {
        m := i;
      }
    }
    assert IsFirstMostExpensive(a[..], m);
    name := a[m].name;
  }

  // ---------------------------------------------------------------------
  // Availability

  /** `check_product_availability`: whether some product has the given name. */
  method CheckProductAvailability(a: array<Product>, productName: string) returns (available: bool)
    ensures available <==> exists i :: 0 <= i < a.Length && a[i].name == productName
  {
    var i := 0;
    while i < a.Length
      invariant 0 <= i <= a.Length
      invariant forall j :: 0 <= j < i ==> a[j].name != productName
    {
      if a[i].name == productName {
        return true;
      }
      i := i + 1;
    }
    return false;
  }

  // ---------------------------------------------------------------------
  // Orders on products

  /** Lexicographic order on strings by code point, as Python compares str. */
  predicate StrLessEq(a: string, b: string) {
    |a| == 0 || (|b| > 0 && (a[0] < b[0] || (a[0] == b[0] && StrLessEq(a[1..], b[1..]))))
  }

  lemma {:induction false} StrLessEqTotal(a: string, b: string)
    ensures StrLessEq(a, b) || StrLessEq(b, a)
  {
    if |a| > 0 && |b| > 0 && a[0] == b[0] {
      StrLessEqTotal(a[1..], b[1..]);
    }
  }

  lemma {:induction false} StrLessEqTrans(a: string, b: string, c: string)
    requires StrLessEq(a, b) && StrLessEq(b, c)
    ensures StrLessEq(a, c)
  {
    if |a| > 0 && a[0] == b[0] && b[0] == c[0] {
      StrLessEqTrans(a[1..], b[1..], c[1..]);
    }
  }

  lemma {:induction false} StrLessEqAntisym(a: string, b: string)
    requires StrLessEq(a, b) && StrLessEq(b, a)
    ensures a == b
  {
    if |a| > 0 {
      StrLessEqAntisym(a[1..], b[1..]);
      assert a == [a[0]] + a[1..] && b == [b[0]] + b[1..];
    }
  }

  /** The three sort keys of `sort_product`. */
  datatype SortKey = ByName | ByPrice | ByQuantity

  /** Options 1, 2 and 3 select the name, price and quantity keys; any
      other option selects none. */
  function KeyForOption(option: int): (k: Option<SortKey>)
    ensures k.Some? <==> option in {1, 2, 3}
    ensures option == 1 ==> k == Some(ByName)
    ensures option == 2 ==> k == Some(ByPrice)
    ensures option == 3 ==> k == Some(ByQuantity)
  {
    if option == 1 then Some(ByName)
    else if option == 2 then Some(ByPrice)
    else if option == 3 then Some(ByQuantity)
    else None
  }

  /** x's key is at most y's key. */
  predicate KeyLessEq(k: SortKey, x: Product, y: Product) {
    match k
    case ByName => StrLessEq(x.name, y.name)
    case ByPrice => x.price <= y.price
    case ByQuantity => x.quantity <= y.quantity
  }

  lemma KeyLessEqTotal(k: SortKey, x: Product, y: Product)
    ensures KeyLessEq(k, x, y) || KeyLessEq(k, y, x)
  {
    if k == ByName {
      StrLessEqTotal(x.name, y.name);
    }
  }

  lemma KeyLessEqTrans(k: SortKey, x: Product, y: Product, z: Product)
    requires KeyLessEq(k, x, y) && KeyLessEq(k, y, z)
    ensures KeyLessEq(k, x, z)
  {
    if k == ByName {
      StrLessEqTrans(x.name, y.name, z.name);
    }
  }

  /** x and y have the same key. */
  predicate SameKey(k: SortKey, x: Product, y: Product) {
    KeyLessEq(k, x, y) && KeyLessEq(k, y, x)
  }

  /** Two products have the same key exactly when they agree on that field. */
  lemma SameKeyIsSameField(k: SortKey, x: Product, y: Product)
    ensures SameKey(k, x, y) <==> match k
                                  case ByName => x.name == y.name
                                  case ByPrice => x.price == y.price
                                  case ByQuantity => x.quantity == y.quantity
  {
    if k == ByName {
      if SameKey(k, x, y) {
        StrLessEqAntisym(x.name, y.name);
      } else if x.name == y.name {
        StrLessEqTotal(x.name, y.name);
      }
    }
  }

  predicate SortedBy(k: SortKey, s: seq<Product>) {
    forall i, j :: 0 <= i < j < |s| ==> KeyLessEq(k, s[i], s[j])
  }

  /** The products of s with the same key as p, in their order in s. */
  function KeyClass(k: SortKey, s: seq<Product>, p: Product): seq<Product> {
    if s == [] then [] else KeyClass(k, s[..|s| - 1], p) + IfSameKey(k, s[|s| - 1], p)
  }

  /** [y] if y has the same key as p, else nothing. */
  function IfSameKey(k: SortKey, y: Product, p: Product): seq<Product> {
    if SameKey(k, y, p) then [y] else []
  }

  /** t keeps the relative order of every group of products with equal keys in s. */
  ghost predicate StableReorder(k: SortKey, s: seq<Product>, t: seq<Product>) {
    forall p :: KeyClass(k, t, p) == KeyClass(k, s, p)
  }

  lemma {:induction false} KeyClassAppend(k: SortKey, s: seq<Product>, t: seq<Product>, p: Product)
    ensures KeyClass(k, s + t, p) == KeyClass(k, s, p) + KeyClass(k, t, p)
    decreases |t|
  {
    if t == [] {
      assert s + t == s;
    } else {
      assert (s + t)[..|s + t| - 1] == s + t[..|t| - 1];
      KeyClassAppend(k, s, t[..|t| - 1], p);
    }
  }

  // ---------------------------------------------------------------------
  // Stable insertion sort, as a function

  /** x inserted into t after the last element whose key is at most x's. */
  function Insert(k: SortKey, t: seq<Product>, x: Product): seq<Product> {
    if t == [] then [x]
    else if KeyLessEq(k, t[|t| - 1], x) then t + [x]
    else Insert(k, t[..|t| - 1], x) + [t[|t| - 1]]
  }

  /** s sorted by key k, keeping equal keys in their original order. */
  function SortBy(k: SortKey, s: seq<Product>): seq<Product> {
    if s == [] then [] else Insert(k, SortBy(k, s[..|s| - 1]), s[|s| - 1])
  }

  lemma {:induction false} InsertMultiset(k: SortKey, t: seq<Product>, x: Product)
    ensures multiset(Insert(k, t, x)) == multiset(t) + multiset{x}
  {
    if t != [] && !KeyLessEq(k, t[|t| - 1], x) {
      InsertMultiset(k, t[..|t| - 1], x);
      assert t == t[..|t| - 1] + [t[|t| - 1]];
    }
  }

  /** Appending an element no smaller than any of a sorted sequence keeps it sorted. */
  lemma {:induction false} SortedAppend(k: SortKey, u: seq<Product>, y: Product)
    requires SortedBy(k, u)
    requires forall i :: 0 <= i < |u| ==> KeyLessEq(k, u[i], y)
    ensures SortedBy(k, u + [y])
  {
  }

  /** Every element of a sequence is at most some bound, and so is x: then
      every element of x inserted into it is. */
  lemma {:induction false} InsertBounded(k: SortKey, front: seq<Product>, x: Product, y: Product)
    requires forall i :: 0 <= i < |front| ==> KeyLessEq(k, front[i], y)
    requires KeyLessEq(k, x, y)
    ensures forall i :: 0 <= i < |Insert(k, front, x)| ==> KeyLessEq(k, Insert(k, front, x)[i], y)
  {
    var u := Insert(k, front, x);
    InsertMultiset(k, front, x);
    forall i | 0 <= i < |u|
      ensures KeyLessEq(k, u[i], y)
    {
      assert u[i] in multiset(u);
      if u[i] != x {
        assert u[i] in multiset(front);
      }
    }
  }

  lemma {:induction false} InsertSorted(k: SortKey, t: seq<Product>, x: Product)
    requires SortedBy(k, t)
    ensures SortedBy(k, Insert(k, t, x))
  {
    if t == [] {
    } else if KeyLessEq(k, t[|t| - 1], x) {
      forall i | 0 <= i < |t| - 1
        ensures KeyLessEq(k, t[i], x)
      {
        KeyLessEqTrans(k, t[i], t[|t| - 1], x);
      }
      SortedAppend(k, t, x);
    } else {
      var front, last := t[..|t| - 1], t[|t| - 1];
      KeyLessEqTotal(k, last, x);
      InsertSorted(k, front, x);
      InsertBounded(k, front, x, last);
      SortedAppend(k, Insert(k, front, x), last);
    }
  }

  lemma {:induction false} InsertKeyClass(k: SortKey, t: seq<Product>, x: Product, p: Product)
    ensures KeyClass(k, Insert(k, t, x), p) == KeyClass(k, t, p) + IfSameKey(k, x, p)
  {
    if t == [] {
      assert [x][..0] == [];
    } else if KeyLessEq(k, t[|t| - 1], x) {
      KeyClassAppend(k, t, [x], p);
      assert [x][..0] == [];
    } else {
      var front, last := t[..|t| - 1], t[|t| - 1];
      var classes, ofX, ofLast := KeyClass(k, front, p), IfSameKey(k, x, p), IfSameKey(k, last, p);
      InsertKeyClass(k, front, x, p);
      KeyClassInsertPast(k, t, x, p);
      SameKeyNotPassed(k, last, x, p);
      assert KeyClass(k, t, p) == classes + ofLast;
      CommuteAroundEmpty(classes, ofX, ofLast);
    }
  }

  lemma {:induction false} CommuteAroundEmpty(c: seq<Product>, u: seq<Product>, v: seq<Product>)
    requires u == [] || v == []
    ensures c + u + v == c + v + u
  {
  }

  /** When x moves past the last element of t, that element's class
      contribution comes after the insertion into the rest. */
  lemma {:induction false} KeyClassInsertPast(k: SortKey, t: seq<Product>, x: Product, p: Product)
    requires t != [] && !KeyLessEq(k, t[|t| - 1], x)
    ensures KeyClass(k, Insert(k, t, x), p) == KeyClass(k, Insert(k, t[..|t| - 1], x), p) + IfSameKey(k, t[|t| - 1], p)
  {
    var u := Insert(k, t[..|t| - 1], x);
    assert Insert(k, t, x) == u + [t[|t| - 1]];
    KeyClassAppend(k, u, [t[|t| - 1]], p);
    assert [t[|t| - 1]][..0] == [];
  }

  /** x never moves past an element with the same key as x. */
  lemma SameKeyNotPassed(k: SortKey, y: Product, x: Product, p: Product)
    requires !KeyLessEq(k, y, x)
    ensures IfSameKey(k, x, p) == [] || IfSameKey(k, y, p) == []
  {
    if SameKey(k, x, p) && SameKey(k, y, p) {
      KeyLessEqTrans(k, y, p, x);
    }
  }

  lemma {:induction false} InsertTotalValue(k: SortKey, t: seq<Product>, x: Product)
    ensures TotalValue(Insert(k, t, x)) == TotalValue(t) + x.price * x.quantity
  {
    if t != [] && !KeyLessEq(k, t[|t| - 1], x) {
      var front, last := t[..|t| - 1], t[|t| - 1];
      var u := Insert(k, front, x);
      InsertTotalValue(k, front, x);
      assert (u + [last])[..|u|] == u;
    } else if t != [] {
      assert (t + [x])[..|t|] == t;
    }
  }

  lemma {:induction false} SortBySorted(k: SortKey, s: seq<Product>)
    ensures SortedBy(k, SortBy(k, s))
  {
    if s != [] {
      SortBySorted(k, s[..|s| - 1]);
      InsertSorted(k, SortBy(k, s[..|s| - 1]), s[|s| - 1]);
    }
  }

  lemma {:induction false} SortByPermutes(k: SortKey, s: seq<Product>)
    ensures multiset(SortBy(k, s)) == multiset(s)
  {
    if s != [] {
      var front, last := s[..|s| - 1], s[|s| - 1];
      calc {
        multiset(SortBy(k, s));
        multiset(Insert(k, SortBy(k, front), last));
        { InsertMultiset(k, SortBy(k, front), last); }
        multiset(SortBy(k, front)) + multiset{last};
        { SortByPermutes(k, front); }
        multiset(front) + multiset{last};
        { assert s == front + [last]; }
        multiset(s);
      }
    }
  }

  lemma {:induction false} SortByStable(k: SortKey, s: seq<Product>, p: Product)
    ensures KeyClass(k, SortBy(k, s), p) == KeyClass(k, s, p)
  {
    if s != [] {
      SortByStable(k, s[..|s| - 1], p);
      InsertKeyClass(k, SortBy(k, s[..|s| - 1]), s[|s| - 1], p);
    }
  }

  /** Sorting never changes the total stock value. */
  lemma {:induction false} SortByTotalValue(k: SortKey, s: seq<Product>)
    ensures TotalValue(SortBy(k, s)) == TotalValue(s)
  {
    if s != [] {
      SortByTotalValue(k, s[..|s| - 1]);
      InsertTotalValue(k, SortBy(k, s[..|s| - 1]), s[|s| - 1]);
    }
  }

  // ---------------------------------------------------------------------
  // Stable insertion sort, in place

  /** x goes past every element of t from position j on when all their
      keys exceed x's. */
  lemma {:induction false} InsertPastAll(k: SortKey, t: seq<Product>, j: int, x: Product)
    requires 0 <= j <= |t|
    requires forall m :: j <= m < |t| ==> !KeyLessEq(k, t[m], x)
    ensures Insert(k, t, x) == Insert(k, t[..j], x) + t[j..]
    decreases |t|
  {
    if j == |t| {
      assert t[..j] == t && t[j..] == [];
    } else {
      var front := t[..|t| - 1];
      InsertPastAll(k, front, j, x);
      assert front[..j] == t[..j];
      assert t[j..] == front[j..] + [t[|t| - 1]];
    }
  }

  /** The insertion stops in front of the first key at most x's, or at the start. */
  lemma {:induction false} InsertStop(k: SortKey, t: seq<Product>, j: int, x: Product)
    requires 0 <= j <= |t| && (j == 0 || KeyLessEq(k, t[j - 1], x))
    ensures Insert(k, t[..j], x) == t[..j] + [x]
  {
  }

  /** A sequence holding t[..j], then x, then t[j..], then rest is x
      inserted into t followed by rest, once the insertion has stopped at j. */
  lemma {:induction false} InsertPlaced(k: SortKey, t: seq<Product>, j: int, x: Product, rest: seq<Product>, s: seq<Product>)
    requires 0 <= j <= |t| && |s| == |t| + 1 + |rest|
    requires forall m :: 0 <= m < j ==> s[m] == t[m]
    requires s[j] == x
    requires forall m :: j < m <= |t| ==> s[m] == t[m - 1]
    requires forall m :: |t| < m < |s| ==> s[m] == rest[m - |t| - 1]
    requires Insert(k, t, x) == Insert(k, t[..j], x) + t[j..]
    requires j == 0 || KeyLessEq(k, t[j - 1], x)
    ensures s[..|t| + 1] == Insert(k, t, x) && s[|t| + 1..] == rest
  {
    InsertStop(k, t, j, x);
    assert s[..|t| + 1] == t[..j] + [x] + t[j..];
  }

  /** Shifts the elements of a[..i] whose keys exceed x's one place to
      the right, from the end, and returns the gap left behind: the place
      where x belongs. */
  method ShiftLarger(a: array<Product>, i: int, k: SortKey, x: Product) returns (j: int)
    requires 0 <= i < a.Length
    modifies a
    ensures 0 <= j <= i
    ensures forall m :: 0 <= m < j ==> a[m] == old(a[m])
    ensures forall m :: j < m <= i ==> a[m] == old(a[m - 1])
    ensures forall m :: i < m < a.Length ==> a[m] == old(a[m])
    ensures j == 0 || KeyLessEq(k, old(a[j - 1]), x)
    ensures forall m :: j <= m < i ==> !KeyLessEq(k, old(a[m]), x)
  {
    j := i;
    while j > 0 && !KeyLessEq(k, a[j - 1], x)
      invariant 0 <= j <= i
      invariant forall m :: 0 <= m < j ==> a[m] == old(a[m])
      invariant forall m :: j < m <= i ==> a[m] == old(a[m - 1])
      invariant forall m :: i < m < a.Length ==> a[m] == old(a[m])
      invariant forall m :: j <= m < i ==> !KeyLessEq(k, old(a[m]), x)
    {
      a[j] := a[j - 1];
      j := j - 1;
    }
  }

  /** Moves a[i] left past the larger keys of the sorted prefix a[..i]. */
  method InsertInPlace(a: array<Product>, i: int, k: SortKey)
    requires 0 <= i < a.Length
    modifies a
    ensures a[..i + 1] == Insert(k, old(a[..i]), old(a[i]))
    ensures a[i + 1..] == old(a[i + 1..])
  {
    ghost var t := a[..i];
    ghost var rest := a[i + 1..];
    var x := a[i];
    var j := ShiftLarger(a, i, k, x);
    InsertPastAll(k, t, j, x);
    a[j] := x;
    InsertPlaced(k, t, j, x, rest, a[..]);
  }

  /** Sorts a by key k in place. */
  method InsertionSort(a: array<Product>, k: SortKey)
    modifies a
    ensures a[..] == SortBy(k, old(a[..]))
  {
    ghost var s := a[..];
    for i := 0 to a.Length
      invariant a[..i] == SortBy(k, s[..i])
      invariant a[i..] == s[i..]
    {
      assert s[..i + 1][..i] == s[..i];
      assert SortBy(k, s[..i + 1]) == Insert(k, SortBy(k, s[..i]), s[i]);
      assert a[i] == s[i] && a[i + 1..] == s[i + 1..] by {
        assert a[i..][0] == a[i] && a[i..][1..] == a[i + 1..];
        assert s[i..][0] == s[i] && s[i..][1..] == s[i + 1..];
      }
      InsertInPlace(a, i, k);
    }
    assert a[..a.Length] == a[..];
    assert s[..a.Length] == s;
  }

  /** `sort_product`: with option 1, 2 or 3 the list is sorted in place by
      name, price or quantity, stably; with any other option it is left
      as it is. Either way the same list is returned. */
  method SortProduct(a: array<Product>, option: int) returns (r: array<Product>)
    modifies a
    ensures r == a
    ensures KeyForOption(option).None? ==> a[..] == old(a[..])
    ensures KeyForOption(option).Some? ==>
              var k := KeyForOption(option).value;
              a[..] == SortBy(k, old(a[..])) &&
              SortedBy(k, a[..]) &&
              multiset(a[..]) == multiset(old(a[..])) &&
              StableReorder(k, old(a[..]), a[..])
  {
    ghost var s := a[..];
    var key := KeyForOption(option);
    if key.Some? {
      InsertionSort(a, key.value);
      SortBySorted(key.value, s);
      SortByPermutes(key.value, s);
      forall p {
        SortByStable(key.value, s, p);
      }
    }
    r := a;
  }
}
