/** The plain object `{ [n: number]: string }` that the sparse queues of queue.ts
    use as storage, modelled as a finite map from integer keys to strings.
    `Object.values` lists the non-negative integer (array-index) keyed
    properties of such an object in ascending key order (OrdinaryOwnPropertyKeys,
    section 10.1.11.1 of ECMA-262); ObjectValues is that listing. The queues
    only ever create such keys; a negative key, which JavaScript would list
    after them in creation order, is not modelled. */
module IndexMap {

  /** A set with no member is empty. */
  lemma NoMemberEmpty(s: set<int>)
    requires forall x :: x !in s
    ensures s == {}
  {
    assert forall x :: x in s <==> x in {};
  }

  /** Every non-empty finite set of integers has a least element. */
  lemma {:induction false} HasMin(s: set<int>)
    requires s != {}
    ensures exists k :: k in s && forall j :: j in s ==> k <= j
    decreases s
  {
    if forall y :: y !in s {
      NoMemberEmpty(s);
    }
    var x :| x in s;
    if s != {x} {
      HasMin(s - {x});
      var k :| k in s - {x} && forall j :: j in s - {x} ==> k <= j;
      var least := if x < k then x else k;
      forall j | j in s
        ensures least <= j
      {
        if j != x {
          assert j in s - {x};
        }
      }
      assert least in s;
    } else {
      assert forall j :: j in s ==> x <= j;
    }
  }

  /** The least key of a non-empty key set. */
  function MinKey(s: set<int>): (k: int)
    requires s != {}
    ensures k in s && forall j :: j in s ==> k <= j
  {
    HasMin(s);
    var k :| k in s && forall j :: j in s ==> k <= j;
    k
  }

  /** The values of `m` listed by ascending key. */
  function ObjectValues(m: map<int, string>): (r: seq<string>)
    ensures |r| == |m|
    decreases |m|
  {
    if |m| == 0 then []
    else
      var k := MinKey(m.Keys);
      assert (m - {k}).Keys == m.Keys - {k};
      [m[k]] + ObjectValues(m - {k})
  }

  /** Deleting the least key removes the first value listed. */
  lemma ValuesRemoveMin(m: map<int, string>, k: int)
    requires k in m && forall j :: j in m ==> k <= j
    ensures ObjectValues(m) == [m[k]] + ObjectValues(m - {k})
  {
  }

  /** A map whose keys are exactly the integers in [lo, hi) has hi - lo entries. */
  lemma {:induction false} RangeSize(m: map<int, string>, lo: int, hi: int)
    requires lo <= hi
    requires forall j :: j in m <==> lo <= j < hi
    ensures |m| == hi - lo
    decreases hi - lo
  {
    if lo < hi {
      assert lo in m;
      var m' := m - {lo};
      assert forall j :: j in m' <==> lo + 1 <= j < hi;
      RangeSize(m', lo + 1, hi);
    } else {
      assert forall j :: j !in m.Keys;
      assert m.Keys == {};
    }
  }

  /** Over a map whose keys are exactly [lo, hi), the listing is m[lo], m[lo + 1], ..., m[hi - 1]. */
  lemma {:induction false} ValuesOfRange(m: map<int, string>, lo: int, hi: int)
    requires lo <= hi
    requires forall j :: j in m <==> lo <= j < hi
    ensures |ObjectValues(m)| == hi - lo
    ensures forall i :: 0 <= i < hi - lo ==> ObjectValues(m)[i] == m[lo + i]
    decreases hi - lo
  {
    RangeSize(m, lo, hi);
    if lo < hi {
      var m' := m - {lo};
      assert forall j :: j in m' <==> lo + 1 <= j < hi;
      ValuesRemoveMin(m, lo);
      ValuesOfRange(m', lo + 1, hi);
      forall i | 0 <= i < hi - lo
        ensures ObjectValues(m)[i] == m[lo + i]
      {
        if i > 0 {
          assert ObjectValues(m)[i] == ObjectValues(m')[i - 1];
        }
      }
    }
  }
}
