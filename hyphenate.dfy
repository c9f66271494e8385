/** src/hyphenateName.ts: camelCase property names to hyphen-case, with a
    memo table. */
module HyphenateName {

  predicate IsUpper(c: char) {
    'A' <= c <= 'Z'
  }

  function ToLower(c: char): (d: char)
    requires IsUpper(c)
    ensures 'a' <= d <= 'z'
  {
    (c as int + 32) as char
  }

  function CountUpper(s: string): nat
    decreases |s|
  {
    if s == [] then 0 else (if IsUpper(s[0]) then 1 else 0) + CountUpper(s[1..])
  }

  predicate NoUpper(s: string) {
    forall i :: 0 <= i < |s| ==> !IsUpper(s[i])
  }

  /** What one character becomes: `-` and its lower-case form for an upper
      case ASCII letter, itself otherwise. */
  function HyphenateChar(c: char): string {
    if IsUpper(c) then ['-', ToLower(c)] else [c]
  }

  /** `name.replace(/([A-Z])/g, "-$1").toLowerCase()` for ASCII input. */
  function Hyphenate(name: string): (r: string)
    ensures |r| == |name| + CountUpper(name)
    ensures NoUpper(r)
    decreases |name|
  {
    if name == [] then [] else HyphenateChar(name[0]) + Hyphenate(name[1..])
  }

  /** A name with no upper-case letter is returned unchanged. */
  lemma {:induction false} HyphenateNoUpper(name: string)
    requires NoUpper(name)
    ensures Hyphenate(name) == name
    decreases |name|
  {
    if name != [] {
      assert NoUpper(name[1..]) by {
        forall i | 0 <= i < |name[1..]| ensures !IsUpper(name[1..][i]) {
          assert name[1..][i] == name[i + 1];
        }
      }
      HyphenateNoUpper(name[1..]);
      assert name == [name[0]] + name[1..];
    }
  }

  /** Hyphenation works character by character: the image of a concatenation
      is the concatenation of the images. */
  lemma {:induction false} HyphenateConcat(a: string, b: string)
    ensures Hyphenate(a + b) == Hyphenate(a) + Hyphenate(b)
    decreases |a|
  {
    if a == [] {
      assert a + b == b;
    } else {
      assert (a + b)[0] == a[0];
      assert (a + b)[1..] == a[1..] + b;
      HyphenateConcat(a[1..], b);
    }
  }

  /** Each character maps to `HyphenateChar` of it, in order. */
  lemma HyphenateSnoc(a: string, c: char)
    ensures Hyphenate(a + [c]) == Hyphenate(a) + HyphenateChar(c)
  {
    HyphenateConcat(a, [c]);
  }

  /** The memo table of hyphenated names: an entry, once written, is the
      hyphenation of its key. */
  class NameHyphenator {
    var cache: map<string, string>

    ghost predicate Valid()
      reads this
    {
      forall k :: k in cache ==> cache[k] == Hyphenate(k)
    }

    constructor ()
      ensures Valid() && cache == map[]
    {
      cache := map[];
    }

    /** `hyphenateName`: `??=` writes the entry only when it is missing. */
    method HyphenateName(name: string) returns (r: string)
      requires Valid()
      modifies this
      ensures Valid()
      ensures r == Hyphenate(name)
      ensures name in old(cache) ==> r == old(cache)[name] && cache == old(cache)
      ensures name !in old(cache) ==> cache == old(cache)[name := r]
    {
      if name !in cache {
        cache := cache[name := Hyphenate(name)];
      }
      r := cache[name];
    }
  }
}
