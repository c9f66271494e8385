/** src/utils.ts: class-string concatenation, own-key iteration and
    memoisation. */
module Utils {
  import opened Types

  /** `appendString`: adds `value` after a single space, or alone when the
      accumulator is empty. */
  function AppendString(acc: string, value: string): string {
    acc + (if acc != "" then " " + value else value)
  }

  /** The loops of the source fold `appendString` over a list, left to
      right. */
  function FoldAppend(acc: string, ts: seq<string>): string
    decreases |ts|
  {
    if ts == [] then acc else FoldAppend(AppendString(acc, ts[0]), ts[1..])
  }

  /** Reference definition: the tokens joined by single spaces. */
  function JoinSpaces(ts: seq<string>): string
    decreases |ts|
  {
    if ts == [] then "" else if |ts| == 1 then ts[0] else ts[0] + " " + JoinSpaces(ts[1..])
  }

  predicate AllNonEmpty(ts: seq<string>) {
    forall i :: 0 <= i < |ts| ==> ts[i] != ""
  }

  lemma AppendStringEmpty(v: string)
    ensures AppendString("", v) == v
  {
  }

  lemma AppendStringNonEmpty(a: string, v: string)
    requires a != ""
    ensures AppendString(a, v) == a + " " + v
  {
  }

  lemma {:induction false} JoinSpacesCons(t: string, ts: seq<string>)
    requires ts != []
    ensures JoinSpaces([t] + ts) == t + " " + JoinSpaces(ts)
  {
    assert ([t] + ts)[1..] == ts;
  }

  lemma {:induction false} JoinSpacesNonEmpty(ts: seq<string>)
    requires AllNonEmpty(ts) && ts != []
    ensures JoinSpaces(ts) != ""
  {
    if |ts| > 1 {
      assert |JoinSpaces(ts)| >= |ts[0]|;
    }
  }

  /** Folding `appendString` over non-empty tokens joins them with single
      spaces, after the accumulator when it is not empty. */
  lemma {:induction false} FoldAppendJoins(acc: string, ts: seq<string>)
    requires AllNonEmpty(ts)
    ensures FoldAppend(acc, ts) == JoinSpaces(if acc == "" then ts else [acc] + ts)
    decreases |ts|
  {
    if ts != [] {
      var next := AppendString(acc, ts[0]);
      assert next != "";
      assert AllNonEmpty(ts[1..]) by {
        forall i | 0 <= i < |ts[1..]| ensures ts[1..][i] != "" {
          assert ts[1..][i] == ts[i + 1];
        }
      }
      FoldAppendJoins(next, ts[1..]);
      assert [next] + ts[1..] != [];
      if acc == "" {
        assert next == ts[0];
        assert [next] + ts[1..] == ts;
      } else {
        if ts[1..] == [] {
          assert [next] + ts[1..] == [next];
          assert [acc] + ts == [acc, ts[0]];
          assert JoinSpaces([acc, ts[0]]) == acc + " " + JoinSpaces([ts[0]]) by {
            JoinSpacesCons(acc, [ts[0]]);
          }
        } else {
          JoinSpacesCons(next, ts[1..]);
          JoinSpacesCons(ts[0], ts[1..]);
          assert [ts[0]] + ts[1..] == ts;
          JoinSpacesCons(acc, ts);
        }
      }
    }
  }

  lemma FoldAppendJoinsFromEmpty(ts: seq<string>)
    requires AllNonEmpty(ts)
    ensures FoldAppend("", ts) == JoinSpaces(ts)
  {
    FoldAppendJoins("", ts);
  }

  /** One more `appendString` at the end of a fold. */
  lemma {:induction false} FoldAppendSnoc(acc: string, ts: seq<string>, t: string)
    ensures FoldAppend(acc, ts + [t]) == AppendString(FoldAppend(acc, ts), t)
    decreases |ts|
  {
    if ts == [] {
      assert [] + [t] == [t];
    } else {
      assert (ts + [t])[0] == ts[0];
      assert (ts + [t])[1..] == ts[1..] + [t];
      FoldAppendSnoc(AppendString(acc, ts[0]), ts[1..], t);
    }
  }

  lemma {:induction false} FoldAppendConcat(acc: string, a: seq<string>, b: seq<string>)
    ensures FoldAppend(acc, a + b) == FoldAppend(FoldAppend(acc, a), b)
    decreases |a|
  {
    if a == [] {
      assert a + b == b;
    } else {
      assert (a + b)[0] == a[0];
      assert (a + b)[1..] == a[1..] + b;
      FoldAppendConcat(AppendString(acc, a[0]), a[1..], b);
    }
  }

  /** `forEach`: the own keys of an object, in order, with the entries whose
      value is `null` or `undefined` skipped. */
  function Present<V>(r: Record<V>): (p: seq<(string, V)>)
    ensures |p| <= |r|
  {
    if r == [] then []
    else
      var init := Present(r[..|r| - 1]);
      if r[|r| - 1].1.Some? then init + [(r[|r| - 1].0, r[|r| - 1].1.value)] else init
  }

  /** The visited entries are exactly the present ones. */
  lemma {:induction false} PresentMembers<V>(r: Record<V>)
    ensures forall i :: 0 <= i < |Present(r)| ==> (Present(r)[i].0, Some(Present(r)[i].1)) in r
    ensures forall i :: 0 <= i < |r| && r[i].1.Some? ==> (r[i].0, r[i].1.value) in Present(r)
    decreases |r|
  {
    if r != [] {
      var init := r[..|r| - 1];
      PresentMembers(init);
      assert forall i :: 0 <= i < |init| ==> init[i] == r[i];
      assert r == init + [r[|r| - 1]];
    }
  }

  /** Visiting is left to right: the entries of a concatenation are those of
      the first part followed by those of the second. */
  lemma {:induction false} PresentAppend<V>(a: Record<V>, b: Record<V>)
    ensures Present(a + b) == Present(a) + Present(b)
    decreases |b|
  {
    if b == [] {
      assert a + b == a;
    } else {
      var b' := b[..|b| - 1];
      assert (a + b)[..|a + b| - 1] == a + b';
      PresentAppend(a, b');
    }
  }

  lemma PresentSnoc<V>(r: Record<V>, e: (string, Option<V>))
    ensures Present(r + [e]) == if e.1.Some? then Present(r) + [(e.0, e.1.value)] else Present(r)
  {
    assert (r + [e])[..|r + [e]| - 1] == r;
  }

  /** `memoize`: a function of one string argument whose non-null results are
      kept. `invoked` says whether the wrapped function ran for this call. */
  class Memoized<T> {
    const fn: string -> Option<T>
    var cache: map<string, Option<T>>

    ghost predicate Valid()
      reads this
    {
      forall k :: k in cache ==> cache[k] == fn(k)
    }

    constructor (fn: string -> Option<T>)
      ensures Valid() && this.fn == fn && cache == map[]
    {
      this.fn := fn;
      cache := map[];
    }

    method Call(arg: string) returns (r: Option<T>, invoked: bool)
      requires Valid()
      modifies this
      ensures Valid()
      ensures r == fn(arg)
      ensures invoked <==> !(arg in old(cache) && old(cache)[arg].Some?)
      ensures cache == if invoked then old(cache)[arg := fn(arg)] else old(cache)
    {
      invoked := !(arg in cache && cache[arg].Some?);
      if invoked {
        cache := cache[arg := fn(arg)];
      }
      r := cache[arg];
    }
  }

  /** Once a call has returned a non-null result, later calls with the same
      argument return it without running the wrapped function. */
  method MemoizeCallsOnce<T>(m: Memoized<T>, arg: string) returns (first: Option<T>, second: Option<T>, secondInvoked: bool)
    requires m.Valid()
    modifies m
    ensures first == second == m.fn(arg)
    ensures first.Some? ==> !secondInvoked
  {
    var invoked;
    first, invoked := m.Call(arg);
    second, secondInvoked := m.Call(arg);
  }
}
