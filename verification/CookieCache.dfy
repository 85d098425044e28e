/** The cookie difference cache (net/cookies/cookie_cache.cc). Sets are built under the order of
    (domain, path, name); their differences are taken by a merge under the finer order that also
    compares values. */
module CookieCache {
  import StringOrder

  /** `rest` is what the comparators do not look at: times, flags, priority. */
  datatype Cookie = Cookie(domain: string, path: string, name: string, value: string, rest: int)

  /** What the finer comparator sees of a cookie. */
  datatype View = View(domain: string, path: string, name: string, value: string)

  function ViewOf(c: Cookie): View {
    View(c.domain, c.path, c.name, c.value)
  }

  predicate SameKey(a: Cookie, b: Cookie) {
    a.domain == b.domain && a.path == b.path && a.name == b.name
  }

  predicate CookieComparator(a: Cookie, b: Cookie) {
    if a.domain != b.domain then StringOrder.Less(a.domain, b.domain)
    else if a.path != b.path then StringOrder.Less(a.path, b.path)
    else if a.name != b.name then StringOrder.Less(a.name, b.name)
    else false
  }

  predicate CookieAndValueComparator(a: Cookie, b: Cookie) {
    if a.domain != b.domain then StringOrder.Less(a.domain, b.domain)
    else if a.path != b.path then StringOrder.Less(a.path, b.path)
    else if a.name != b.name then StringOrder.Less(a.name, b.name)
    else if a.value != b.value then StringOrder.Less(a.value, b.value)
    else false
  }

  /** Both comparators are strict orders; equivalence is equality of keys, and of views. */
  lemma ComparatorTrichotomy(a: Cookie, b: Cookie)
    ensures SameKey(a, b) <==> !CookieComparator(a, b) && !CookieComparator(b, a)
    ensures ViewOf(a) == ViewOf(b) <==> !CookieAndValueComparator(a, b) && !CookieAndValueComparator(b, a)
    ensures !(CookieComparator(a, b) && CookieComparator(b, a))
    ensures !(CookieAndValueComparator(a, b) && CookieAndValueComparator(b, a))
    ensures CookieComparator(a, b) ==> CookieAndValueComparator(a, b)
  {
    TrichotomyOf(a.domain, b.domain);
    TrichotomyOf(a.path, b.path);
    TrichotomyOf(a.name, b.name);
    TrichotomyOf(a.value, b.value);
  }

  /** Domains decide first, then paths, then names, and for the finer order then values. */
  lemma ComparatorOrder(a: Cookie, b: Cookie)
    ensures StringOrder.Less(a.domain, b.domain) ==> CookieComparator(a, b)
    ensures a.domain == b.domain && StringOrder.Less(a.path, b.path) ==> CookieComparator(a, b)
    ensures a.domain == b.domain && a.path == b.path && StringOrder.Less(a.name, b.name) ==> CookieComparator(a, b)
    ensures CookieComparator(a, b) ==> CookieAndValueComparator(a, b)
    ensures SameKey(a, b) ==> (CookieAndValueComparator(a, b) <==> StringOrder.Less(a.value, b.value))
  {
    TrichotomyOf(a.domain, b.domain);
    TrichotomyOf(a.path, b.path);
    TrichotomyOf(a.name, b.name);
    TrichotomyOf(a.value, b.value);
  }

  lemma TrichotomyOf(a: string, b: string)
    ensures StringOrder.Less(a, b) || StringOrder.Less(b, a) || a == b
    ensures StringOrder.Less(a, b) ==> !StringOrder.Less(b, a) && a != b
  {
    StringOrder.Total(a, b);
    if StringOrder.Less(a, b) { StringOrder.Asymmetric(a, b); }
  }

  lemma LessTransitive(a: string, b: string, c: string)
    ensures StringOrder.Less(a, b) && StringOrder.Less(b, c) ==> StringOrder.Less(a, c)
    ensures StringOrder.Less(a, b) ==> a != b
  {
    if StringOrder.Less(a, b) && StringOrder.Less(b, c) { StringOrder.Transitive(a, b, c); }
    if StringOrder.Less(a, b) { StringOrder.Asymmetric(a, b); }
  }

  lemma ComparatorTransitive(a: Cookie, b: Cookie, c: Cookie)
    ensures CookieComparator(a, b) && CookieComparator(b, c) ==> CookieComparator(a, c)
    ensures CookieAndValueComparator(a, b) && CookieAndValueComparator(b, c) ==> CookieAndValueComparator(a, c)
  {
    LessTransitive(a.domain, b.domain, c.domain); LessTransitive(b.domain, c.domain, a.domain);
    LessTransitive(a.path, b.path, c.path); LessTransitive(b.path, c.path, a.path);
    LessTransitive(a.name, b.name, c.name); LessTransitive(b.name, c.name, a.name);
    LessTransitive(a.value, b.value, c.value); LessTransitive(b.value, c.value, a.value);
    TrichotomyOf(a.domain, c.domain);
    TrichotomyOf(a.path, c.path);
    TrichotomyOf(a.name, c.name);
    TrichotomyOf(a.value, c.value);
  }

  // ---------------------------------------------------------------------------------------
  // Sets
  // ---------------------------------------------------------------------------------------

  /** A std::set under CookieComparator, in iteration order. */
  predicate IsCookieSet(s: seq<Cookie>) {
    forall i, j | 0 <= i < j < |s| :: CookieComparator(s[i], s[j])
  }

  /** std::set::insert: an equivalent element that is already there stays. */
  function Insert(s: seq<Cookie>, c: Cookie): seq<Cookie> {
    if s == [] then [c]
    else if CookieComparator(c, s[0]) then [c] + s
    else if CookieComparator(s[0], c) then [s[0]] + Insert(s[1..], c)
    else s
  }

  /** The set made from a range of cookies. */
  function MakeSet(cookies: seq<Cookie>): seq<Cookie> {
    if cookies == [] then [] else Insert(MakeSet(cookies[..|cookies| - 1]), cookies[|cookies| - 1])
  }

  predicate HasKey(s: seq<Cookie>, c: Cookie) {
    exists y :: y in s && SameKey(y, c)
  }

  lemma {:induction false} InsertIsSet(s: seq<Cookie>, c: Cookie)
    requires IsCookieSet(s)
    ensures IsCookieSet(Insert(s, c))
    ensures forall x :: x in Insert(s, c) <==> x in s || (x == c && !HasKey(s, c))
  {
    forall y ensures SameKey(y, c) <==> !CookieComparator(y, c) && !CookieComparator(c, y) {
      ComparatorTrichotomy(y, c);
    }
    if s != [] {
      if CookieComparator(c, s[0]) {
        forall j | 0 <= j < |s| ensures CookieComparator(c, s[j]) { ComparatorTransitive(c, s[0], s[j]); }
      } else if CookieComparator(s[0], c) {
        assert s == [s[0]] + s[1..];
        InsertIsSet(s[1..], c);
        var r := Insert(s[1..], c);
        assert forall x :: x in r ==> x in s[1..] || x == c;
        forall j | 0 <= j < |r| ensures CookieComparator(s[0], r[j]) { assert r[j] in r; }
      } else {
        assert s[0] in s;
      }
    }
  }

  /** `x` is in `cookies`, and nothing before it has its key. */
  predicate FirstOfItsKey(cookies: seq<Cookie>, x: Cookie) {
    exists i :: 0 <= i < |cookies| && cookies[i] == x && !HasKey(cookies[..i], x)
  }

  lemma FirstOfItsKeySnoc(before: seq<Cookie>, c: Cookie, x: Cookie)
    ensures FirstOfItsKey(before + [c], x) <==> FirstOfItsKey(before, x) || (x == c && !HasKey(before, c))
  {
    var cookies := before + [c];
    assert forall i | 0 <= i <= |before| :: cookies[..i] == before[..i];
    assert before[..|before|] == before;
    if i :| 0 <= i < |before| && before[i] == x && !HasKey(before[..i], x) {
      assert cookies[i] == x && !HasKey(cookies[..i], x);
    }
    if x == c && !HasKey(before, c) {
      assert cookies[|before|] == x && !HasKey(cookies[..|before|], x);
    }
  }

  /** The set holds, in order, the first cookie of every key. */
  lemma {:induction false} MakeSetKeepsFirst(cookies: seq<Cookie>)
    ensures IsCookieSet(MakeSet(cookies))
    ensures forall x :: x in MakeSet(cookies) <==> FirstOfItsKey(cookies, x)
    ensures forall c :: HasKey(MakeSet(cookies), c) <==> HasKey(cookies, c)
  {
    if cookies != [] {
      var before, c := cookies[..|cookies| - 1], cookies[|cookies| - 1];
      assert cookies == before + [c];
      MakeSetKeepsFirst(before);
      InsertIsSet(MakeSet(before), c);
      forall x ensures x in MakeSet(cookies) <==> FirstOfItsKey(cookies, x) {
        FirstOfItsKeySnoc(before, c, x);
      }
      forall x ensures HasKey(MakeSet(cookies), x) <==> HasKey(cookies, x) {
        HasKeySnoc(before, c, MakeSet(before), MakeSet(cookies), x);
      }
    }
  }

  lemma HasKeySnoc(before: seq<Cookie>, c: Cookie, set0: seq<Cookie>, set1: seq<Cookie>, x: Cookie)
    requires forall y :: HasKey(set0, y) <==> HasKey(before, y)
    requires forall y :: y in set1 <==> y in set0 || (y == c && !HasKey(set0, c))
    ensures HasKey(set1, x) <==> HasKey(before + [c], x)
  {
    assert HasKey(before + [c], x) <==> HasKey(before, x) || SameKey(c, x);
    if SameKey(c, x) {
      if HasKey(set0, c) {
        var y :| y in set0 && SameKey(y, c);
        assert y in set1 && SameKey(y, x);
      } else {
        assert c in set1;
      }
    }
  }

  // ---------------------------------------------------------------------------------------
  // Differences
  // ---------------------------------------------------------------------------------------

  predicate Present(c: Cookie, s: seq<Cookie>) {
    exists d :: d in s && ViewOf(d) == ViewOf(c)
  }

  /** The cookies of `a` that are not in `b`, or not with the same value; in order. */
  function Missing(a: seq<Cookie>, b: seq<Cookie>): seq<Cookie> {
    if a == [] then []
    else Missing(a[..|a| - 1], b) + if Present(a[|a| - 1], b) then [] else [a[|a| - 1]]
  }

  lemma {:induction false} MissingElements(a: seq<Cookie>, b: seq<Cookie>)
    ensures forall c :: c in Missing(a, b) <==> c in a && !Present(c, b)
  {
    if a != [] {
      var before, c := a[..|a| - 1], a[|a| - 1];
      assert a == before + [c];
      MissingElements(before, b);
    }
  }

  lemma {:induction false} MissingIsSet(a: seq<Cookie>, b: seq<Cookie>)
    requires IsCookieSet(a)
    ensures IsCookieSet(Missing(a, b))
  {
    if a != [] {
      var before, c := a[..|a| - 1], a[|a| - 1];
      MissingIsSet(before, b);
      MissingElements(before, b);
      AllBelowLast(a, Missing(before, b));
    }
  }

  /** The last element is above everything taken from before it. */
  lemma AllBelowLast(a: seq<Cookie>, m: seq<Cookie>)
    requires IsCookieSet(a) && a != [] && forall c | c in m :: c in a[..|a| - 1]
    ensures forall i | 0 <= i < |m| :: CookieComparator(m[i], a[|a| - 1])
  {
    forall i | 0 <= i < |m| ensures CookieComparator(m[i], a[|a| - 1]) {
      assert m[i] in m;
      var k :| 0 <= k < |a| - 1 && a[k] == m[i];
    }
  }

  /** Unique keys make a set sorted under the finer order too. */
  lemma SortedByValueToo(s: seq<Cookie>, i: nat, j: nat)
    requires IsCookieSet(s) && i < j < |s|
    ensures CookieAndValueComparator(s[i], s[j])
  {
    ComparatorTrichotomy(s[i], s[j]);
  }

  /** Appending a greatest element under the coarser order is what inserting it does. */
  lemma {:induction false} InsertLast(s: seq<Cookie>, c: Cookie)
    requires forall i | 0 <= i < |s| :: CookieComparator(s[i], c)
    ensures Insert(s, c) == s + [c]
  {
    if s != [] {
      ComparatorTrichotomy(s[0], c);
      InsertLast(s[1..], c);
    }
  }

  /** std::set_difference under CookieAndValueComparator, inserted into a set under CookieComparator. */
  method SetDifference(a: seq<Cookie>, b: seq<Cookie>) returns (out: seq<Cookie>)
    requires IsCookieSet(a) && IsCookieSet(b)
    ensures out == Missing(a, b)
  {
    var i, j := 0, 0;
    out := [];
    while i < |a|
      invariant i <= |a| && j <= |b|
      invariant out == Missing(a[..i], b)
      invariant forall k | 0 <= k < j :: i < |a| ==> CookieAndValueComparator(b[k], a[i])
      decreases |a| - i + |b| - j
    {
      assert a[..i + 1][..i] == a[..i];
      if j == |b| || CookieAndValueComparator(a[i], b[j]) {
        NotPresent(a[i], b, j);
        AppendMissing(a, b, i, out);
        out := Insert(out, a[i]);
        StillBelow(a, b, i, j);
        i := i + 1;
      } else {
        if !CookieAndValueComparator(b[j], a[i]) {
          ComparatorTrichotomy(b[j], a[i]);
          assert Present(a[i], b);
          StillBelow(a, b, i, j);
          if i + 1 < |a| { SortedByValueToo(a, i, i + 1); }
          SameViewBelow(a, b, i, j);
          i := i + 1;
        }
        j := j + 1;
      }
    }
    assert a[..|a|] == a;
  }

  lemma NotPresent(c: Cookie, b: seq<Cookie>, j: nat)
    requires IsCookieSet(b) && j <= |b|
    requires forall k | 0 <= k < j :: CookieAndValueComparator(b[k], c)
    requires j < |b| ==> CookieAndValueComparator(c, b[j])
    ensures !Present(c, b)
  {
    forall k | 0 <= k < |b| ensures ViewOf(b[k]) != ViewOf(c) {
      ComparatorTrichotomy(b[k], c);
      if j < k { SortedByValueToo(b, j, k); ComparatorTransitive(c, b[j], b[k]); }
    }
  }

  lemma AppendMissing(a: seq<Cookie>, b: seq<Cookie>, i: nat, out: seq<Cookie>)
    requires IsCookieSet(a) && i < |a| && out == Missing(a[..i], b)
    ensures Insert(out, a[i]) == out + [a[i]]
  {
    MissingElements(a[..i], b);
    forall k | 0 <= k < |out| ensures CookieComparator(out[k], a[i]) {
      assert out[k] in a[..i];
    }
    InsertLast(out, a[i]);
  }

  lemma StillBelow(a: seq<Cookie>, b: seq<Cookie>, i: nat, j: nat)
    requires IsCookieSet(a) && i < |a| && j <= |b|
    requires forall k | 0 <= k < j :: CookieAndValueComparator(b[k], a[i])
    ensures forall k | 0 <= k < j :: i + 1 < |a| ==> CookieAndValueComparator(b[k], a[i + 1])
  {
    if i + 1 < |a| {
      SortedByValueToo(a, i, i + 1);
      forall k | 0 <= k < j ensures CookieAndValueComparator(b[k], a[i + 1]) {
        ComparatorTransitive(b[k], a[i], a[i + 1]);
      }
    }
  }

  lemma SameViewBelow(a: seq<Cookie>, b: seq<Cookie>, i: nat, j: nat)
    requires IsCookieSet(a) && i < |a| && j < |b| && ViewOf(a[i]) == ViewOf(b[j])
    ensures i + 1 < |a| ==> CookieAndValueComparator(b[j], a[i + 1])
  {
    if i + 1 < |a| { SortedByValueToo(a, i, i + 1); }
  }

  // ---------------------------------------------------------------------------------------
  // Update
  // ---------------------------------------------------------------------------------------

  type Key = (string, string)

  function Cached(cache: map<Key, seq<Cookie>>, key: Key): seq<Cookie> {
    if key in cache then cache[key] else []
  }

  predicate AllSets(cache: map<Key, seq<Cookie>>) {
    forall key | key in cache :: IsCookieSet(cache[key])
  }

  /** The set Update leaves for its key. Without a difference it is the old one, although the
      cookies' other attributes may have changed. */
  function Updated(oldSet: seq<Cookie>, newSet: seq<Cookie>): seq<Cookie> {
    if Missing(newSet, oldSet) == [] && Missing(oldSet, newSet) == [] then oldSet else newSet
  }

  /** An output vector of the caller. */
  class CookieVector {
    var items: seq<Cookie>

    constructor ()
      ensures items == []
    {
      items := [];
    }

    method AppendAll(cookies: seq<Cookie>)
      modifies this
      ensures items == old(items) + cookies
    {
      items := items + cookies;
    }
  }

  class Cache {
    var cache: map<Key, seq<Cookie>>

    ghost predicate Valid()
      reads this
    {
      AllSets(cache)
    }

    constructor ()
      ensures Valid() && cache == map[]
    {
      cache := map[];
    }

    /** Both vectors may be the same object; then it gets the removed cookies first. */
    method Update(url: string, name: string, newCookies: seq<Cookie>,
                  outRemoved: CookieVector?, outAdded: CookieVector?)
      returns (changed: bool)
      requires Valid()
      modifies this, outRemoved, outAdded
      ensures Valid()
      ensures var oldSet, newSet := Cached(old(cache), (url, name)), MakeSet(newCookies);
              && cache == old(cache)[(url, name) := Updated(oldSet, newSet)]
              && (changed <==> Missing(newSet, oldSet) != [] || Missing(oldSet, newSet) != [])
              && (outRemoved != null && outRemoved != outAdded ==>
                    outRemoved.items == old(outRemoved.items) + Missing(oldSet, newSet))
              && (outAdded != null && outRemoved != outAdded ==>
                    outAdded.items == old(outAdded.items) + Missing(newSet, oldSet))
              && (outAdded != null && outRemoved == outAdded ==>
                    outAdded.items == old(outAdded.items) + Missing(oldSet, newSet) + Missing(newSet, oldSet))
    {
      var key := (url, name);
      if key !in cache {
        cache := cache[key := []];
      }
      var oldSet := cache[key];
      var newSet := SetOf(newCookies);
      MakeSetKeepsFirst(newCookies);
      var addedCookies := SetDifference(newSet, oldSet);
      var removedCookies := SetDifference(oldSet, newSet);
      if addedCookies == [] && removedCookies == [] {
        return false;
      }
      cache := cache[key := newSet];
      if outRemoved != null {
        outRemoved.AppendAll(removedCookies);
      }
      if outAdded != null {
        outAdded.AppendAll(addedCookies);
      }
      return true;
    }
  }

  /** The range constructor of std::set: inserts one cookie after the other. */
  method SetOf(cookies: seq<Cookie>) returns (s: seq<Cookie>)
    ensures s == MakeSet(cookies)
  {
    s := [];
    for i := 0 to |cookies|
      invariant s == MakeSet(cookies[..i])
    {
      assert cookies[..i + 1][..i] == cookies[..i];
      s := Insert(s, cookies[i]);
    }
    assert cookies[..|cookies|] == cookies;
  }

  // ---------------------------------------------------------------------------------------
  // What the reported differences are worth
  // ---------------------------------------------------------------------------------------

  function Views(s: seq<Cookie>): set<View> {
    set c | c in s :: ViewOf(c)
  }

  lemma MissingViews(a: seq<Cookie>, b: seq<Cookie>)
    ensures Views(Missing(a, b)) == Views(a) - Views(b)
  {
    MissingElements(a, b);
    forall v ensures v in Views(Missing(a, b)) <==> v in Views(a) - Views(b) {
      if v in Views(a) && v !in Views(b) {
        var c :| c in a && ViewOf(c) == v;
        assert !Present(c, b);
        assert c in Missing(a, b);
      }
      if v in Views(Missing(a, b)) {
        var c :| c in Missing(a, b) && ViewOf(c) == v;
        assert c in a && !Present(c, b);
        assert v in Views(a) && v !in Views(b);
      }
    }
  }

  /** Update answers false exactly when the old set and the new one agree, cookie by cookie, in
      everything the finer comparator sees. */
  lemma NoChangeExactlyWhenSame(oldSet: seq<Cookie>, newSet: seq<Cookie>)
    requires IsCookieSet(oldSet) && IsCookieSet(newSet)
    ensures Missing(newSet, oldSet) == [] && Missing(oldSet, newSet) == [] <==> Agree(oldSet, newSet)
  {
    NothingMissing(oldSet, newSet);
    NothingMissing(newSet, oldSet);
    if Missing(newSet, oldSet) == [] && Missing(oldSet, newSet) == [] {
      SameSets(oldSet, newSet);
    }
    if Agree(oldSet, newSet) {
      AgreeingPresent(oldSet, newSet);
      AgreeingPresent(newSet, oldSet);
    }
  }

  predicate Agree(a: seq<Cookie>, b: seq<Cookie>) {
    |a| == |b| && forall i | 0 <= i < |a| :: ViewOf(a[i]) == ViewOf(b[i])
  }

  lemma NothingMissing(a: seq<Cookie>, b: seq<Cookie>)
    ensures Missing(a, b) == [] <==> forall c | c in a :: Present(c, b)
  {
    MissingElements(a, b);
    if Missing(a, b) != [] {
      assert Missing(a, b)[0] in Missing(a, b);
    }
  }

  lemma AgreeingPresent(a: seq<Cookie>, b: seq<Cookie>)
    requires Agree(a, b)
    ensures forall c | c in a :: Present(c, b)
  {
    forall c | c in a ensures Present(c, b) {
      var i :| 0 <= i < |a| && a[i] == c;
      assert b[i] in b;
    }
  }

  lemma TailIsSet(a: seq<Cookie>)
    requires IsCookieSet(a) && a != []
    ensures IsCookieSet(a[1..])
    ensures forall c | c in a[1..] :: CookieComparator(a[0], c)
  {
  }

  lemma {:induction false} SameSets(a: seq<Cookie>, b: seq<Cookie>)
    requires IsCookieSet(a) && IsCookieSet(b)
    requires forall c | c in a :: Present(c, b)
    requires forall c | c in b :: Present(c, a)
    ensures Agree(a, b)
  {
    if a == [] || b == [] {
      assert a != [] ==> Present(a[0], b);
      assert b != [] ==> Present(b[0], a);
    } else {
      SameFirst(a, b);
      TailIsSet(a);
      TailIsSet(b);
      TailPresent(a, b);
      TailPresent(b, a);
      SameSets(a[1..], b[1..]);
    }
  }

  lemma FirstOrLater(x: Cookie, b: seq<Cookie>) returns (d: Cookie)
    requires IsCookieSet(b) && b != [] && Present(x, b)
    ensures ViewOf(d) == ViewOf(x) && (d == b[0] || CookieComparator(b[0], d))
  {
    d :| d in b && ViewOf(d) == ViewOf(x);
    TailIsSet(b);
  }

  lemma SameFirst(a: seq<Cookie>, b: seq<Cookie>)
    requires IsCookieSet(a) && IsCookieSet(b) && a != [] && b != []
    requires Present(a[0], b) && Present(b[0], a)
    ensures ViewOf(a[0]) == ViewOf(b[0])
  {
    var c := FirstOrLater(b[0], a);
    var d := FirstOrLater(a[0], b);
    ComparatorTrichotomy(a[0], b[0]);
  }

  lemma TailPresent(a: seq<Cookie>, b: seq<Cookie>)
    requires IsCookieSet(a) && a != [] && b != [] && ViewOf(a[0]) == ViewOf(b[0])
    requires forall c | c in a :: Present(c, b)
    ensures forall c | c in a[1..] :: Present(c, b[1..])
  {
    TailIsSet(a);
    forall c | c in a[1..] ensures Present(c, b[1..]) {
      assert Present(c, b);
      var d :| d in b && ViewOf(d) == ViewOf(c);
      ComparatorTrichotomy(a[0], c);
      assert d != b[0];
      assert d in b[1..];
    }
  }

  /** One call of Update. */
  datatype Call = Call(key: Key, cookies: seq<Cookie>)

  function CacheAfter(history: seq<Call>): map<Key, seq<Cookie>> {
    if history == [] then map[]
    else
      var before, call := CacheAfter(history[..|history| - 1]), history[|history| - 1];
      before[call.key := Updated(Cached(before, call.key), MakeSet(call.cookies))]
  }

  /** What somebody has who takes out what is reported removed for `key` and then puts in what is
      reported added, call after call, starting with nothing. */
  function Replayed(history: seq<Call>, key: Key): set<View> {
    if history == [] then {}
    else
      var before, call := history[..|history| - 1], history[|history| - 1];
      if call.key != key then Replayed(before, key)
      else
        var oldSet, newSet := Cached(CacheAfter(before), key), MakeSet(call.cookies);
        Replayed(before, key) - Views(Missing(oldSet, newSet)) + Views(Missing(newSet, oldSet))
  }

  /** The set of the last call for `key`. */
  function Latest(history: seq<Call>, key: Key): seq<Cookie> {
    if history == [] then []
    else if history[|history| - 1].key == key then MakeSet(history[|history| - 1].cookies)
    else Latest(history[..|history| - 1], key)
  }

  /** Replaying the reports from nothing gives the cached set and the latest set, for every key. */
  lemma {:induction false} ReplayReproducesCache(history: seq<Call>, key: Key)
    ensures Replayed(history, key) == Views(Cached(CacheAfter(history), key)) == Views(Latest(history, key))
    ensures AllSets(CacheAfter(history))
  {
    if history != [] {
      var before, call := history[..|history| - 1], history[|history| - 1];
      var oldSet, newSet := Cached(CacheAfter(before), call.key), MakeSet(call.cookies);
      ReplayReproducesCache(before, key);
      MakeSetKeepsFirst(call.cookies);
      MissingViews(oldSet, newSet);
      MissingViews(newSet, oldSet);
      if Updated(oldSet, newSet) == oldSet {
        assert Missing(oldSet, newSet) == [] && Missing(newSet, oldSet) == [] ==> Views(oldSet) == Views(newSet);
      }
    }
  }

  /** The set of the last call for `key` that reported anything. */
  function LatestReported(history: seq<Call>, key: Key): seq<Cookie> {
    if history == [] then []
    else
      var before, call := LatestReported(history[..|history| - 1], key), history[|history| - 1];
      if call.key == key && Views(MakeSet(call.cookies)) != Views(before) then MakeSet(call.cookies) else before
  }

  /** What is cached, down to the attributes that no comparator sees: a call that reports nothing leaves
      the old cookies, even where new ones differ in such an attribute. */
  lemma {:induction false} CacheKeepsReported(history: seq<Call>, key: Key)
    ensures Cached(CacheAfter(history), key) == LatestReported(history, key)
  {
    if history != [] {
      var before, call := history[..|history| - 1], history[|history| - 1];
      CacheKeepsReported(before, key);
      ReplayReproducesCache(before, key);
      if call.key == key {
        var oldSet, newSet := Cached(CacheAfter(before), key), MakeSet(call.cookies);
        DifferenceExactlyWhen(oldSet, newSet);
      }
    }
  }

  lemma DifferenceExactlyWhen(oldSet: seq<Cookie>, newSet: seq<Cookie>)
    ensures Missing(newSet, oldSet) == [] && Missing(oldSet, newSet) == [] <==> Views(newSet) == Views(oldSet)
  {
    MissingViews(oldSet, newSet);
    MissingViews(newSet, oldSet);
    NoViews(Missing(oldSet, newSet));
    NoViews(Missing(newSet, oldSet));
    var gone, come := Views(oldSet) - Views(newSet), Views(newSet) - Views(oldSet);
    assert Views(newSet) == Views(oldSet) <==> come == {} && gone == {};
  }

  lemma NoViews(s: seq<Cookie>)
    ensures Views(s) == {} <==> s == []
  {
    if s != [] { assert s[0] in s && ViewOf(s[0]) in Views(s); }
  }
}
