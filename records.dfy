/** Assignment to a JavaScript object property: a new key is added at the
    end, an existing key keeps its position and takes the new value. The
    preprocessor's output objects and the per-property records of `cx`
    depend on this. */
module Records {
  import opened Types

  /** Index of the first entry with key `k`, or -1. */
  function IndexOf<V>(r: Record<V>, k: string): (i: int)
    ensures -1 <= i < |r|
    ensures i >= 0 ==> r[i].0 == k && forall j :: 0 <= j < i ==> r[j].0 != k
    ensures i == -1 ==> forall j :: 0 <= j < |r| ==> r[j].0 != k
    decreases |r|
  {
    if r == [] then -1
    else if r[0].0 == k then 0
    else
      var j := IndexOf(r[1..], k);
      if j == -1 then -1 else j + 1
  }

  /** `obj[k]`: the value under `k`, `None` when absent or `undefined`. */
  function Get<V>(r: Record<V>, k: string): Option<V> {
    var i := IndexOf(r, k);
    if i == -1 then None else r[i].1
  }

  /** `obj[k] = v`. */
  function Assign<V>(r: Record<V>, k: string, v: V): Record<V> {
    var i := IndexOf(r, k);
    if i >= 0 then r[i := (k, Some(v))] else r + [(k, Some(v))]
  }

  /** An assignment keeps the key order, adding a new key at the end, and
      changes the value under `k` only. */
  lemma AssignFacts<V>(r: Record<V>, k: string, v: V)
    ensures Keys(Assign(r, k, v)) == if k in Keys(r) then Keys(r) else Keys(r) + [k]
    ensures Get(Assign(r, k, v), k) == Some(v)
    ensures forall k' :: k' != k ==> Get(Assign(r, k, v), k') == Get(r, k')
    ensures UniqueKeys(r) ==> UniqueKeys(Assign(r, k, v))
  {
    AssignKeys(r, k, v);
    AssignGet(r, k, v);
    forall k' | k' != k ensures Get(Assign(r, k, v), k') == Get(r, k') {
      AssignGetOther(r, k, v, k');
    }
    if UniqueKeys(r) {
      AssignUnique(r, k, v);
    }
  }

  lemma AssignKeys<V>(r: Record<V>, k: string, v: V)
    ensures Keys(Assign(r, k, v)) == if k in Keys(r) then Keys(r) else Keys(r) + [k]
  {
    var i := IndexOf(r, k);
    var r' := Assign(r, k, v);
    if i >= 0 {
      assert Keys(r)[i] == k;
      assert forall j :: 0 <= j < |r'| ==> Keys(r')[j] == Keys(r)[j];
    } else {
      assert k !in Keys(r);
      assert forall j :: 0 <= j < |r'| ==> Keys(r')[j] == (Keys(r) + [k])[j];
    }
  }

  lemma AssignGet<V>(r: Record<V>, k: string, v: V)
    ensures Get(Assign(r, k, v), k) == Some(v)
  {
    var i := IndexOf(r, k);
    var r' := Assign(r, k, v);
    if i >= 0 {
      assert forall j :: 0 <= j < i ==> r'[j] == r[j];
      assert r'[i] == (k, Some(v));
    } else {
      assert forall j :: 0 <= j < |r| ==> r'[j] == r[j];
      assert r'[|r|] == (k, Some(v));
    }
  }

  lemma AssignGetOther<V>(r: Record<V>, k: string, v: V, k': string)
    requires k' != k
    ensures Get(Assign(r, k, v), k') == Get(r, k')
  {
    IndexOfAfterAssign(r, k, v, k');
    var j := IndexOf(r, k');
    if j >= 0 {
      assert Assign(r, k, v)[j] == r[j];
    }
  }

  lemma AssignUnique<V>(r: Record<V>, k: string, v: V)
    requires UniqueKeys(r)
    ensures UniqueKeys(Assign(r, k, v))
  {
    var i := IndexOf(r, k);
    var r' := Assign(r, k, v);
    assert forall j :: 0 <= j < |r| ==> r'[j].0 == r[j].0;
  }

  lemma IndexOfAfterAssign<V>(r: Record<V>, k: string, v: V, k': string)
    requires k' != k
    ensures var i := IndexOf(r, k);
            IndexOf(if i >= 0 then r[i := (k, Some(v))] else r + [(k, Some(v))], k') == IndexOf(r, k')
  {
    var i := IndexOf(r, k);
    var r' := if i >= 0 then r[i := (k, Some(v))] else r + [(k, Some(v))];
    assert forall j :: 0 <= j < |r| ==> (r'[j].0 == k' <==> r[j].0 == k');
    assert |r'| > |r| ==> r'[|r|].0 == k;
  }

  /** A sequence of assignments, left to right. */
  function AssignAll<V>(r: Record<V>, ps: seq<(string, V)>): Record<V>
    decreases |ps|
  {
    if ps == [] then r
    else
      var last := ps[|ps| - 1];
      Assign(AssignAll(r, ps[..|ps| - 1]), last.0, last.1)
  }

  function PairKeys<V>(ps: seq<(string, V)>): (ks: seq<string>)
    ensures |ks| == |ps| && forall i :: 0 <= i < |ps| ==> ks[i] == ps[i].0
  {
    if ps == [] then [] else PairKeys(ps[..|ps| - 1]) + [ps[|ps| - 1].0]
  }

  /** The distinct elements of `ks` in the order of their first occurrence. */
  function FirstSeen(ks: seq<string>): seq<string>
    decreases |ks|
  {
    if ks == [] then []
    else
      var prior := FirstSeen(ks[..|ks| - 1]);
      if ks[|ks| - 1] in prior then prior else prior + [ks[|ks| - 1]]
  }

  /** The value of the last pair with key `k`. */
  function LastWith<V>(ps: seq<(string, V)>, k: string): Option<V>
    decreases |ps|
  {
    if ps == [] then None
    else if ps[|ps| - 1].0 == k then Some(ps[|ps| - 1].1)
    else LastWith(ps[..|ps| - 1], k)
  }

  lemma {:induction false} FirstSeenMembers(ks: seq<string>)
    ensures forall k :: k in FirstSeen(ks) <==> k in ks
    decreases |ks|
  {
    if ks != [] {
      var init := ks[..|ks| - 1];
      FirstSeenMembers(init);
      assert ks == init + [ks[|ks| - 1]];
    }
  }

  lemma {:induction false} FirstSeenUnique(ks: seq<string>)
    ensures forall i, j :: 0 <= i < j < |FirstSeen(ks)| ==> FirstSeen(ks)[i] != FirstSeen(ks)[j]
    decreases |ks|
  {
    if ks != [] {
      FirstSeenUnique(ks[..|ks| - 1]);
    }
  }

  lemma {:induction false} FirstSeenOfUnique(ks: seq<string>)
    requires forall i, j :: 0 <= i < j < |ks| ==> ks[i] != ks[j]
    ensures FirstSeen(ks) == ks
    decreases |ks|
  {
    if ks != [] {
      var init := ks[..|ks| - 1];
      FirstSeenOfUnique(init);
      assert ks == init + [ks[|ks| - 1]];
      assert ks[|ks| - 1] !in init;
    }
  }

  /** The keys after a run of assignments: those the object had, then each
      newly assigned key once, in the order it was first assigned. */
  lemma {:induction false} AssignAllKeys<V>(r: Record<V>, ps: seq<(string, V)>)
    requires UniqueKeys(r)
    ensures Keys(AssignAll(r, ps)) == FirstSeen(Keys(r) + PairKeys(ps))
    ensures UniqueKeys(AssignAll(r, ps))
    decreases |ps|
  {
    if ps == [] {
      assert Keys(r) + PairKeys(ps) == Keys(r);
      FirstSeenOfUnique(Keys(r));
    } else {
      var init := ps[..|ps| - 1];
      var last := ps[|ps| - 1];
      AssignAllKeys(r, init);
      var before := Keys(r) + PairKeys(init);
      assert AssignAll(r, ps) == Assign(AssignAll(r, init), last.0, last.1);
      AssignNewKey(AssignAll(r, init), before, last.0, last.1);
      assert Keys(r) + PairKeys(ps) == before + [last.0] by {
        assert PairKeys(ps) == PairKeys(init) + [last.0];
      }
    }
  }

  lemma AssignNewKey<V>(prior: Record<V>, before: seq<string>, k: string, v: V)
    requires UniqueKeys(prior) && Keys(prior) == FirstSeen(before)
    ensures Keys(Assign(prior, k, v)) == FirstSeen(before + [k])
    ensures UniqueKeys(Assign(prior, k, v))
  {
    AssignFacts(prior, k, v);
    FirstSeenSnoc(before, k);
  }

  lemma FirstSeenSnoc(ks: seq<string>, k: string)
    ensures FirstSeen(ks + [k]) == if k in FirstSeen(ks) then FirstSeen(ks) else FirstSeen(ks) + [k]
  {
    assert (ks + [k])[..|ks|] == ks;
  }

  /** Assignments into a fresh object: the keys in order of first
      assignment, each with its last assigned value. */
  lemma AssignFromEmpty<V>(ps: seq<(string, V)>)
    ensures Keys(AssignAll([], ps)) == FirstSeen(PairKeys(ps))
    ensures UniqueKeys(AssignAll([], ps))
    ensures forall k :: k in Keys(AssignAll([], ps)) <==> k in PairKeys(ps)
    ensures forall k :: Get(AssignAll([], ps), k) == LastWith(ps, k)
  {
    var none: Record<V> := [];
    AssignAllKeys(none, ps);
    assert Keys(none) + PairKeys(ps) == PairKeys(ps);
    FirstSeenMembers(PairKeys(ps));
    forall k ensures Get(AssignAll(none, ps), k) == LastWith(ps, k) {
      AssignAllGet(none, ps, k);
    }
  }

  /** After a run of assignments the value under `k` is the last one
      assigned to it, or the original one when `k` was never assigned. */
  lemma {:induction false} AssignAllGet<V>(r: Record<V>, ps: seq<(string, V)>, k: string)
    ensures Get(AssignAll(r, ps), k) == if LastWith(ps, k).Some? then LastWith(ps, k) else Get(r, k)
    decreases |ps|
  {
    if ps != [] {
      AssignAllGet(r, ps[..|ps| - 1], k);
      AssignFacts(AssignAll(r, ps[..|ps| - 1]), ps[|ps| - 1].0, ps[|ps| - 1].1);
    }
  }

  /** One more assignment at the end of a run. */
  lemma AssignAllSnoc<V>(r: Record<V>, ps: seq<(string, V)>, p: (string, V))
    ensures AssignAll(r, ps + [p]) == Assign(AssignAll(r, ps), p.0, p.1)
  {
    assert (ps + [p])[..|ps|] == ps;
  }

  lemma {:induction false} AssignAllConcat<V>(r: Record<V>, a: seq<(string, V)>, b: seq<(string, V)>)
    ensures AssignAll(r, a + b) == AssignAll(AssignAll(r, a), b)
    decreases |b|
  {
    if b == [] {
      assert a + b == a;
    } else {
      assert (a + b)[..|a + b| - 1] == a + b[..|b| - 1];
      assert (a + b)[|a + b| - 1] == b[|b| - 1];
      AssignAllConcat(r, a, b[..|b| - 1]);
    }
  }

  lemma {:induction false} LastWithSome<V>(ps: seq<(string, V)>, k: string)
    ensures LastWith(ps, k).Some? <==> k in PairKeys(ps)
    ensures LastWith(ps, k).Some? ==>
      exists i :: 0 <= i < |ps| && ps[i] == (k, LastWith(ps, k).value) && forall j :: i < j < |ps| ==> ps[j].0 != k
    decreases |ps|
  {
    if ps != [] {
      var init := ps[..|ps| - 1];
      LastWithSome(init, k);
      assert PairKeys(ps) == PairKeys(init) + [ps[|ps| - 1].0];
      if ps[|ps| - 1].0 != k && LastWith(init, k).Some? {
        var i :| 0 <= i < |init| && init[i] == (k, LastWith(init, k).value) && forall j :: i < j < |init| ==> init[j].0 != k;
        assert ps[i] == init[i];
      }
    }
  }

  /** With unique keys, the entry at position `i` is what `Get` finds. */
  lemma GetAt<V>(r: Record<V>, i: int)
    requires UniqueKeys(r) && 0 <= i < |r|
    ensures Get(r, r[i].0) == r[i].1
  {
  }

  /** `Get` in terms of membership, for unique keys. */
  lemma GetSomeIn<V>(r: Record<V>, k: string, v: V)
    requires UniqueKeys(r)
    ensures Get(r, k) == Some(v) <==> (k, Some(v)) in r
  {
    if (k, Some(v)) in r {
      var i :| 0 <= i < |r| && r[i] == (k, Some(v));
      GetAt(r, i);
    }
  }

  /** Every present entry satisfies `q`. */
  predicate AllEntries<V>(r: Record<V>, q: (string, V) -> bool) {
    forall i :: 0 <= i < |r| && r[i].1.Some? ==> q(r[i].0, r[i].1.value)
  }

  /** Assignments keep a property of the entries that every assigned pair
      has too. */
  lemma {:induction false} AssignAllKeeps<V>(r: Record<V>, ps: seq<(string, V)>, q: (string, V) -> bool)
    requires AllEntries(r, q)
    requires forall i :: 0 <= i < |ps| ==> q(ps[i].0, ps[i].1)
    ensures AllEntries(AssignAll(r, ps), q)
    decreases |ps|
  {
    if ps != [] {
      var init := ps[..|ps| - 1];
      assert forall i :: 0 <= i < |init| ==> init[i] == ps[i];
      AssignAllKeeps(r, init, q);
      var last := ps[|ps| - 1];
      var prior := AssignAll(r, init);
      var j := IndexOf(prior, last.0);
      assert AssignAll(r, ps) == if j >= 0 then prior[j := (last.0, Some(last.1))] else prior + [(last.0, Some(last.1))];
    }
  }

  /** A mutable JavaScript object whose property assignments follow
      `Assign`. */
  class ObjectRecord<V> {
    var entries: Record<V>

    constructor ()
      ensures entries == []
    {
      entries := [];
    }

    method Set(k: string, v: V)
      modifies this
      ensures entries == Assign(old(entries), k, v)
    {
      var i := 0;
      while i < |entries| && entries[i].0 != k
        invariant 0 <= i <= |entries|
        invariant forall j :: 0 <= j < i ==> entries[j].0 != k
      {
        i := i + 1;
      }
      if i < |entries| {
        entries := entries[i := (k, Some(v))];
      } else {
        entries := entries + [(k, Some(v))];
      }
    }
  }
}
