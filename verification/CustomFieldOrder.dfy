/**
 * When two lists of custom fields have one canonical form. The sort by key is stable,
 * so keyed lists compare key by key: the order of entries with different keys never
 * matters, the order of different entries with one key always does.
 */
module CustomFieldOrder {
  import opened Options
  import opened Json
  import opened ReviewMerge

  lemma {:induction false} AtMostTotal(a: string, b: string)
    ensures AtMost(a, b) || AtMost(b, a)
  {
    if a != "" && b != "" && a[0] == b[0] { AtMostTotal(a[1..], b[1..]); }
  }

  lemma {:induction false} AtMostAntisymmetric(a: string, b: string)
    requires AtMost(a, b) && AtMost(b, a)
    ensures a == b
  {
    if a != "" && b != "" {
      AtMostAntisymmetric(a[1..], b[1..]);
      assert a == [a[0]] + a[1..] && b == [b[0]] + b[1..];
    }
  }

  lemma {:induction false} AtMostTransitive(a: string, b: string, c: string)
    requires AtMost(a, b) && AtMost(b, c)
    ensures AtMost(a, c)
  {
    if a != "" && a[0] == b[0] == c[0] { AtMostTransitive(a[1..], b[1..], c[1..]); }
  }

  ghost predicate InOrder(xs: seq<Value>, show: Value -> string) {
    forall i, j :: 0 <= i < j < |xs| ==> AtMost(SortKey(xs[i], show), SortKey(xs[j], show))
  }

  /** The entries with one key, in their order. */
  function WithKey(xs: seq<Value>, key: string, show: Value -> string): seq<Value> {
    if xs == [] then []
    else (if SortKey(xs[0], show) == key then [xs[0]] else []) + WithKey(xs[1..], key, show)
  }

  ghost predicate SamePerKey(a: seq<Value>, b: seq<Value>, show: Value -> string) {
    forall key :: WithKey(a, key, show) == WithKey(b, key, show)
  }

  predicate Keyed(xs: seq<Value>) {
    forall i :: 0 <= i < |xs| ==> HasKey(xs[i])
  }

  /** What inserting and sorting do to the entries they are given. */
  predicate SameEntries(a: seq<Value>, b: seq<Value>) {
    (forall x :: x in a ==> x in b) && (forall x :: x in b ==> x in a)
  }

  // ------------------------------------------------------------- the sort

  lemma InsertOnTop(x: Value, xs: seq<Value>, show: Value -> string)
    requires InOrder(xs, show) && xs != [] && AtMost(SortKey(x, show), SortKey(xs[0], show))
    ensures InOrder([x] + xs, show)
  {
    forall j | 0 <= j < |xs| ensures AtMost(SortKey(x, show), SortKey(xs[j], show)) {
      if j > 0 { AtMostTransitive(SortKey(x, show), SortKey(xs[0], show), SortKey(xs[j], show)); }
    }
  }

  lemma PutInFront(first: Value, x: Value, xs: seq<Value>, rest: seq<Value>, show: Value -> string)
    requires InOrder([first] + xs, show) && InOrder(rest, show) && AtMost(SortKey(first, show), SortKey(x, show))
    requires SameEntries(rest, [x] + xs)
    ensures InOrder([first] + rest, show)
  {
    forall j | 0 <= j < |rest| ensures AtMost(SortKey(first, show), SortKey(rest[j], show)) {
      assert rest[j] in rest;
      if rest[j] != x {
        var k :| 0 <= k < |xs| && xs[k] == rest[j];
        assert ([first] + xs)[0] == first && ([first] + xs)[k + 1] == rest[j];
      }
    }
  }

  lemma {:induction false} InsertSorts(x: Value, xs: seq<Value>, show: Value -> string)
    requires InOrder(xs, show)
    ensures InOrder(Insert(x, xs, show), show) && SameEntries(Insert(x, xs, show), [x] + xs)
  {
    if xs == [] {
    } else if AtMost(SortKey(x, show), SortKey(xs[0], show)) {
      InsertOnTop(x, xs, show);
    } else {
      InsertSorts(x, xs[1..], show);
      AtMostTotal(SortKey(x, show), SortKey(xs[0], show));
      assert xs == [xs[0]] + xs[1..];
      PutInFront(xs[0], x, xs[1..], Insert(x, xs[1..], show), show);
    }
  }

  lemma {:induction false} SortSorts(xs: seq<Value>, show: Value -> string)
    ensures InOrder(SortByKey(xs, show), show) && SameEntries(SortByKey(xs, show), xs)
  {
    if xs != [] {
      SortSorts(xs[1..], show);
      InsertSorts(xs[0], SortByKey(xs[1..], show), show);
      assert xs == [xs[0]] + xs[1..];
    }
  }

  lemma FirstWithKey(x: Value, xs: seq<Value>, key: string, show: Value -> string)
    ensures WithKey([x] + xs, key, show) == (if SortKey(x, show) == key then [x] else []) + WithKey(xs, key, show)
  {
    assert ([x] + xs)[1..] == xs;
  }

  lemma {:induction false} AtMostReflexive(a: string)
    ensures AtMost(a, a)
  {
    if a != "" { AtMostReflexive(a[1..]); }
  }

  lemma {:induction false} InsertIsStable(x: Value, xs: seq<Value>, key: string, show: Value -> string)
    ensures WithKey(Insert(x, xs, show), key, show) == WithKey([x] + xs, key, show)
  {
    if xs != [] && !AtMost(SortKey(x, show), SortKey(xs[0], show)) {
      InsertIsStable(x, xs[1..], key, show);
      AtMostReflexive(key);
      FirstWithKey(x, xs, key, show);
      FirstWithKey(x, xs[1..], key, show);
      FirstWithKey(xs[0], Insert(x, xs[1..], show), key, show);
    }
  }

  lemma {:induction false} SortIsStable(xs: seq<Value>, key: string, show: Value -> string)
    ensures WithKey(SortByKey(xs, show), key, show) == WithKey(xs, key, show)
  {
    if xs != [] {
      SortIsStable(xs[1..], key, show);
      InsertIsStable(xs[0], SortByKey(xs[1..], show), key, show);
      FirstWithKey(xs[0], SortByKey(xs[1..], show), key, show);
    }
  }

  lemma {:induction false} KeyIsSomewhere(xs: seq<Value>, key: string, show: Value -> string)
    ensures WithKey(xs, key, show) != [] ==> exists i :: 0 <= i < |xs| && SortKey(xs[i], show) == key
  {
    if xs != [] && SortKey(xs[0], show) != key && WithKey(xs, key, show) != [] {
      KeyIsSomewhere(xs[1..], key, show);
      var i :| 0 <= i < |xs[1..]| && SortKey(xs[1..][i], show) == key;
      assert SortKey(xs[i + 1], show) == key;
    }
  }

  /** The first key of an ordered list is at most every key in it. */
  lemma FirstIsLeast(xs: seq<Value>, key: string, show: Value -> string)
    requires InOrder(xs, show) && WithKey(xs, key, show) != []
    ensures xs != [] && AtMost(SortKey(xs[0], show), key)
  {
    KeyIsSomewhere(xs, key, show);
    AtMostReflexive(key);
  }

  lemma SameFirst(a: seq<Value>, b: seq<Value>, show: Value -> string)
    requires InOrder(a, show) && InOrder(b, show) && SamePerKey(a, b, show) && a != [] && b != []
    ensures a[0] == b[0] && SamePerKey(a[1..], b[1..], show)
  {
    var x, y := SortKey(a[0], show), SortKey(b[0], show);
    assert WithKey(a, x, show) == WithKey(b, x, show) && WithKey(a, y, show) == WithKey(b, y, show);
    FirstIsLeast(b, x, show);
    FirstIsLeast(a, y, show);
    AtMostAntisymmetric(x, y);
    assert WithKey(a, x, show)[0] == a[0] && WithKey(b, y, show)[0] == b[0];
    forall key ensures WithKey(a[1..], key, show) == WithKey(b[1..], key, show) {
      assert WithKey(a, key, show) == WithKey(b, key, show);
      TailWithKey(a, key, show);
      TailWithKey(b, key, show);
    }
  }

  lemma TailWithKey(xs: seq<Value>, key: string, show: Value -> string)
    requires xs != []
    ensures var all := WithKey(xs, key, show);
      WithKey(xs[1..], key, show) == if SortKey(xs[0], show) == key then (if all != [] then all[1..] else []) else all
  {
  }

  lemma SomethingAgrees(a: seq<Value>, b: seq<Value>, show: Value -> string)
    requires SamePerKey(a, b, show) && a != []
    ensures b != []
  {
    var key := SortKey(a[0], show);
    assert WithKey(a, key, show) == WithKey(b, key, show);
  }

  lemma {:induction false} OrderedAndSame(a: seq<Value>, b: seq<Value>, show: Value -> string)
    requires InOrder(a, show) && InOrder(b, show) && SamePerKey(a, b, show)
    ensures a == b
  {
    if a != [] {
      SomethingAgrees(a, b, show);
      SameFirst(a, b, show);
      OrderedAndSame(a[1..], b[1..], show);
      assert a == [a[0]] + a[1..] && b == [b[0]] + b[1..];
    } else if b != [] {
      SomethingAgrees(b, a, show);
    }
  }

  // ------------------------------------------------------------ main results

  lemma SortsAgree(a: seq<Value>, b: seq<Value>, show: Value -> string)
    ensures SortByKey(a, show) == SortByKey(b, show) <==> SamePerKey(a, b, show)
  {
    var x, y := SortByKey(a, show), SortByKey(b, show);
    forall key
      ensures WithKey(x, key, show) == WithKey(a, key, show) && WithKey(y, key, show) == WithKey(b, key, show)
    {
      SortIsStable(a, key, show);
      SortIsStable(b, key, show);
    }
    SortSorts(a, show);
    SortSorts(b, show);
    if SamePerKey(a, b, show) {
      forall key ensures WithKey(x, key, show) == WithKey(y, key, show) {
        assert WithKey(a, key, show) == WithKey(b, key, show);
      }
      OrderedAndSame(x, y, show);
    }
  }

  lemma KeyedEntries(a: seq<Value>, b: seq<Value>)
    requires (forall x :: x in b ==> x in a) && Keyed(a)
    ensures Keyed(b)
  {
    forall i | 0 <= i < |b| ensures HasKey(b[i]) {
      assert b[i] in b;
    }
  }

  lemma SortedKeepsKeyed(a: seq<Value>, show: Value -> string)
    ensures Keyed(a) ==> Keyed(SortByKey(a, show))
  {
    SortSorts(a, show);
    if Keyed(a) { KeyedEntries(a, SortByKey(a, show)); }
  }

  /** Two lists look alike exactly when they agree key by key, or are equal if an entry has no key. */
  lemma CanonicalExactly(a: seq<Value>, b: seq<Value>, show: Value -> string)
    ensures Canonical(Arr(a), show) == Canonical(Arr(b), show)
      <==> if Keyed(a) && Keyed(b) then SamePerKey(a, b, show) else a == b
  {
    SortsAgree(a, b, show);
    SortedKeepsKeyed(a, show);
    SortedKeepsKeyed(b, show);
  }

  /** No two different entries share a key. */
  ghost predicate KeysIdentify(xs: seq<Value>, show: Value -> string) {
    forall x, y :: x in xs && y in xs && SortKey(x, show) == SortKey(y, show) ==> x == y
  }

  lemma {:induction false} CountWithKey(xs: seq<Value>, key: string, show: Value -> string, x: Value)
    ensures multiset(WithKey(xs, key, show))[x] == if SortKey(x, show) == key then multiset(xs)[x] else 0
  {
    if xs != [] {
      CountWithKey(xs[1..], key, show, x);
      assert xs == [xs[0]] + xs[1..];
    }
  }

  lemma SameElements(a: seq<Value>, b: seq<Value>)
    requires multiset(a) == multiset(b)
    ensures |a| == |b| && SameEntries(a, b)
  {
    assert |multiset(a)| == |a| && |multiset(b)| == |b|;
    forall x ensures x in a <==> x in b {
      assert x in a <==> x in multiset(a);
      assert x in b <==> x in multiset(b);
    }
  }

  lemma {:induction false} KeptEntries(xs: seq<Value>, key: string, show: Value -> string)
    ensures forall x :: x in WithKey(xs, key, show) ==> x in xs && SortKey(x, show) == key
  {
    if xs != [] { KeptEntries(xs[1..], key, show); }
  }

  lemma OneEntryPerKey(a: seq<Value>, b: seq<Value>, key: string, show: Value -> string)
    requires multiset(a) == multiset(b) && KeysIdentify(a, show)
    ensures WithKey(a, key, show) == WithKey(b, key, show)
  {
    var x, y := WithKey(a, key, show), WithKey(b, key, show);
    forall v ensures multiset(x)[v] == multiset(y)[v] {
      CountWithKey(a, key, show, v);
      CountWithKey(b, key, show, v);
    }
    assert multiset(x) == multiset(y);
    SameElements(x, y);
    KeptEntries(a, key, show);
    forall i | 0 <= i < |x| ensures x[i] == y[i] {
      assert x[i] in x && y[i] in x;
    }
  }

  /** Reordering keyed custom fields never looks like a change, if the key tells entries apart. */
  lemma CanonicalIgnoresOrder(a: seq<Value>, b: seq<Value>, show: Value -> string)
    requires multiset(a) == multiset(b) && KeysIdentify(a, show) && Keyed(a)
    ensures Canonical(Arr(a), show) == Canonical(Arr(b), show)
  {
    SameElements(a, b);
    KeyedEntries(a, b);
    forall key ensures WithKey(a, key, show) == WithKey(b, key, show) {
      OneEntryPerKey(a, b, key, show);
    }
    CanonicalExactly(a, b, show);
  }

  /** An entry names a field: by its `field`, or else by its `id`. */
  ghost predicate Names(item: Value, name: Value) {
    var field := Get(item, "field");
    if field.Some? then field.value == name else Get(item, "id") == Some(name)
  }

  lemma NameIsKey(item: Value, show: Value -> string)
    ensures forall name :: Names(item, name) ==> HasKey(item) && SortKey(item, show) == show(name)
    ensures HasKey(item) ==> exists name :: Names(item, name)
  {
    if HasKey(item) {
      var name := if Get(item, "field").Some? then Get(item, "field").value else Get(item, "id").value;
      assert Names(item, name);
    }
  }

  /** The values of differently named fields may come in any order. */
  lemma NamedFieldsInAnyOrder(a: seq<Value>, b: seq<Value>, show: Value -> string)
    requires multiset(a) == multiset(b) && forall x :: x in a ==> exists name :: Names(x, name)
    requires forall x, y, j, k :: x in a && y in a && Names(x, j) && Names(y, k) && show(j) == show(k) ==> x == y
    ensures Canonical(Arr(a), show) == Canonical(Arr(b), show)
  {
    forall x | x in a ensures HasKey(x) && exists name :: Names(x, name) && SortKey(x, show) == show(name) {
      NameIsKey(x, show);
      var name :| Names(x, name);
      assert Names(x, name);
    }
    CanonicalIgnoresOrder(a, b, show);
  }

  lemma TwoInFront(x: Value, y: Value, rest: seq<Value>, show: Value -> string)
    requires SortKey(x, show) == SortKey(y, show) && x != y
    ensures !SamePerKey([x] + ([y] + rest), [y] + ([x] + rest), show)
  {
    var key := SortKey(x, show);
    FirstWithKey(x, [y] + rest, key, show);
    FirstWithKey(y, [x] + rest, key, show);
    assert WithKey([x] + ([y] + rest), key, show)[0] == x && WithKey([y] + ([x] + rest), key, show)[0] == y;
  }

  lemma TakeOut(a: seq<Value>, x: Value) returns (rest: seq<Value>)
    requires x in a
    ensures multiset(a) == multiset([x] + rest) && forall v :: v in a && v != x ==> v in rest
  {
    var i :| 0 <= i < |a| && a[i] == x;
    rest := a[..i] + a[i + 1..];
    assert a == a[..i] + [x] + a[i + 1..];
  }

  lemma SomeOrderMatters(a: seq<Value>, show: Value -> string) returns (b: seq<Value>)
    requires Keyed(a) && !KeysIdentify(a, show)
    ensures multiset(b) == multiset(a) && Canonical(Arr(b), show) != Canonical(Arr(a), show)
  {
    var x, y :| x in a && y in a && SortKey(x, show) == SortKey(y, show) && x != y;
    var others := TakeOut(a, x);
    var rest := TakeOut(others, y);
    b := [x] + ([y] + rest);
    var c := [y] + ([x] + rest);
    assert multiset(b) == multiset(a) && multiset(c) == multiset(a);
    SameElements(a, b);
    SameElements(a, c);
    KeyedEntries(a, b);
    KeyedEntries(a, c);
    TwoInFront(x, y, rest, show);
    CanonicalExactly(b, c, show);
    if Canonical(Arr(b), show) == Canonical(Arr(a), show) { b := c; }
  }

  /** Nothing tells the entries apart. */
  predicate AllEqual(xs: seq<Value>) {
    forall i, j :: 0 <= i < j < |xs| ==> xs[i] == xs[j]
  }

  lemma OneOrder(a: seq<Value>, b: seq<Value>)
    requires multiset(a) == multiset(b) && AllEqual(a)
    ensures a == b
  {
    SameElements(a, b);
    forall i | 0 <= i < |a| ensures a[i] == b[i] {
      assert a[i] in a && b[i] in b;
    }
  }

  lemma NotKeyedEntries(a: seq<Value>, b: seq<Value>)
    requires multiset(a) == multiset(b) && !Keyed(a)
    ensures !Keyed(b)
  {
    SameElements(a, b);
    if Keyed(b) { KeyedEntries(b, a); }
  }

  /** Where an entry has no key the order counts, unless there is only one order. */
  lemma UnkeyedOrderMatters(a: seq<Value>, show: Value -> string) returns (b: seq<Value>)
    requires !Keyed(a) && !AllEqual(a)
    ensures multiset(b) == multiset(a) && Canonical(Arr(b), show) != Canonical(Arr(a), show)
  {
    var i, j :| 0 <= i < j < |a| && a[i] != a[j];
    b := a[i := a[j]][j := a[i]];
    assert b[i] != a[i];
    NotKeyedEntries(a, b);
  }

  /** No two different entries share a key, or all are equal where an entry has none. */
  predicate OneForm(a: seq<Value>, show: Value -> string) {
    if Keyed(a) then forall i, j :: 0 <= i < j < |a| && SortKey(a[i], show) == SortKey(a[j], show) ==> a[i] == a[j]
    else AllEqual(a)
  }

  lemma IdentifiesByIndex(a: seq<Value>, show: Value -> string)
    requires Keyed(a)
    ensures KeysIdentify(a, show) <==> OneForm(a, show)
  {
    if OneForm(a, show) {
      forall x, y | x in a && y in a && SortKey(x, show) == SortKey(y, show) ensures x == y {
        var i :| 0 <= i < |a| && a[i] == x;
        var j :| 0 <= j < |a| && a[j] == y;
        assert i < j || j < i || i == j;
      }
    }
  }

  lemma NeverMatters(a: seq<Value>, b: seq<Value>, show: Value -> string)
    requires multiset(b) == multiset(a) && OneForm(a, show)
    ensures Canonical(Arr(b), show) == Canonical(Arr(a), show)
  {
    if Keyed(a) {
      IdentifiesByIndex(a, show);
      CanonicalIgnoresOrder(a, b, show);
    } else {
      OneOrder(a, b);
    }
  }

  /**
   * The order of a list never matters exactly when no two different entries share a key,
   * or, where an entry has no key, when all entries are equal.
   */
  lemma OrderIsIgnoredExactly(a: seq<Value>, show: Value -> string)
    ensures OneForm(a, show)
      <==> forall b :: multiset(b) == multiset(a) ==> Canonical(Arr(b), show) == Canonical(Arr(a), show)
  {
    if OneForm(a, show) {
      forall b | multiset(b) == multiset(a) ensures Canonical(Arr(b), show) == Canonical(Arr(a), show) {
        NeverMatters(a, b, show);
      }
    } else if Keyed(a) {
      IdentifiesByIndex(a, show);
      var b := SomeOrderMatters(a, show);
    } else {
      var b := UnkeyedOrderMatters(a, show);
    }
  }
}
