/** src/cx.ts: the class-name caches shared with the engine, and `cx`, which
    merges class strings so that one class per CSS property and state
    survives. The variant inside src/sheet.ts differs only in how a cached
    class without a property is treated, so both are given here. */
module Cx {
  import opened Types
  import opened Utils
  import opened Records

  // ----- class-name arguments -----

  /** `ClassNames`: strings, falsy values and nested arrays of them. */
  datatype ClassName = Name(s: string) | Group(items: seq<ClassName>) | Falsy

  /** `s.split(" ")`: the parts between single spaces, empty ones included. */
  function Split(s: string): (parts: seq<string>)
    ensures |parts| >= 1
    ensures forall i :: 0 <= i < |parts| ==> ' ' !in parts[i]
    decreases |s|
  {
    if s == [] then [""]
    else
      var rest := Split(s[1..]);
      if s[0] == ' ' then [""] + rest else [[s[0]] + rest[0]] + rest[1..]
  }

  function NonEmptyParts(parts: seq<string>): (ts: seq<string>)
    ensures AllNonEmpty(ts)
    ensures forall i :: 0 <= i < |ts| ==> ts[i] in parts
    decreases |parts|
  {
    if parts == [] then []
    else
      var init := NonEmptyParts(parts[..|parts| - 1]);
      var last := parts[|parts| - 1];
      if last != "" then init + [last] else init
  }

  /** The class names a string contributes. */
  function Tokens(s: string): seq<string> {
    NonEmptyParts(Split(s))
  }

  predicate NoSpace(s: string) {
    ' ' !in s
  }

  /** The tokens of `items`, depth first and left to right. */
  function Flatten(items: seq<ClassName>): seq<string>
    decreases items
  {
    if items == [] then [] else Flatten(items[..|items| - 1]) + ItemTokens(items[|items| - 1])
  }

  /** The tokens one argument contributes; falsy values contribute none. */
  function ItemTokens(x: ClassName): seq<string>
    decreases x
  {
    match x
    case Name(s) => Tokens(s)
    case Group(xs) => Flatten(xs)
    case Falsy => []
  }

  /** The array `extractClassNames` pushes into. */
  class Accumulator {
    var items: seq<string>

    constructor ()
      ensures items == []
    {
      items := [];
    }

    method Push(t: string)
      modifies this
      ensures items == old(items) + [t]
    {
      items := items + [t];
    }
  }

  /** The inner loop of `extractClassNames` over `item.split(" ")`. */
  method PushParts(parts: seq<string>, acc: Accumulator)
    modifies acc
    ensures acc.items == old(acc.items) + NonEmptyParts(parts)
  {
    for j := 0 to |parts|
      invariant acc.items == old(acc.items) + NonEmptyParts(parts[..j])
    {
      assert parts[..j + 1][..j] == parts[..j];
      if parts[j] != "" {
        acc.Push(parts[j]);
      }
    }
    assert parts[..|parts|] == parts;
  }

  /** `extractClassNames`. */
  method ExtractClassNames(items: seq<ClassName>, acc: Accumulator)
    modifies acc
    ensures acc.items == old(acc.items) + Flatten(items)
    decreases items
  {
    for i := 0 to |items|
      invariant acc.items == old(acc.items) + Flatten(items[..i])
    {
      assert items[..i + 1][..i] == items[..i];
      PushItem(items[i], acc);
    }
    assert items[..|items|] == items;
  }

  /** One iteration of `extractClassNames`: a string is split, an array is
      walked recursively, anything else is skipped. */
  method PushItem(item: ClassName, acc: Accumulator)
    modifies acc
    ensures acc.items == old(acc.items) + ItemTokens(item)
    decreases item
  {
    match item {
      case Name(s) => PushParts(Split(s), acc);
      case Group(xs) => ExtractClassNames(xs, acc);
      case Falsy =>
    }
  }

  // ----- caches -----

  /** The per-layer caches: reset class names, and for each property-tracking
      layer the property each class sets (`None` when the host rule had no
      declaration to read it from). */
  datatype CacheView = CacheView(
    reset: set<string>,
    atomic: map<string, Option<string>>,
    hover: map<string, Option<string>>,
    focus: map<string, Option<string>>,
    active: map<string, Option<string>>)

  /** `caches`: module-level state the engine writes and `cx` reads. */
  class Caches {
    var reset: set<string>
    var atomic: map<string, Option<string>>
    var hover: map<string, Option<string>>
    var focus: map<string, Option<string>>
    var active: map<string, Option<string>>

    constructor ()
      ensures View() == CacheView({}, map[], map[], map[], map[])
    {
      reset, atomic, hover, focus, active := {}, map[], map[], map[], map[];
    }

    function View(): CacheView
      reads this
    {
      CacheView(reset, atomic, hover, focus, active)
    }
  }

  /** `map.get(k)`: `undefined` when absent or mapped to `undefined`. */
  function Lookup(m: map<string, Option<string>>, k: string): Option<string> {
    if k in m then m[k] else None
  }

  // ----- resolution -----

  /** src/cx.ts tests `get(className) != null`; src/sheet.ts tests
      `has(className)` and then ignores an `undefined` property. */
  datatype Variant = CssCx | SheetCx

  datatype Layer = Atomic | Hover | Focus | Active

  /** Where one token goes. */
  datatype Bucket = External | ResetClass | Tracked(layer: Layer, property: string) | Dropped

  function Probe(v: Variant, m: map<string, Option<string>>, t: string, l: Layer): Option<Bucket> {
    match v
    case CssCx => if Lookup(m, t).Some? then Some(Tracked(l, Lookup(m, t).value)) else None
    case SheetCx => if t in m then Some(if m[t].Some? then Tracked(l, m[t].value) else Dropped) else None
  }

  /** The classification chain of one token: atomic, hover, focus, active,
      reset, and otherwise external. */
  function Classify(v: Variant, c: CacheView, t: string): Bucket {
    var a, h, f, x := Probe(v, c.atomic, t, Atomic), Probe(v, c.hover, t, Hover),
                      Probe(v, c.focus, t, Focus), Probe(v, c.active, t, Active);
    if a.Some? then a.value
    else if h.Some? then h.value
    else if f.Some? then f.value
    else if x.Some? then x.value
    else if t in c.reset then ResetClass
    else External
  }

  /** The loop state of `cx`: the external tokens in order, the reset class
      kept, and one record per property-tracking layer from property to
      class. */
  datatype Resolution = Resolution(
    external: seq<string>,
    reset: Option<string>,
    atomic: Record<string>,
    hover: Record<string>,
    focus: Record<string>,
    active: Record<string>)

  const Start: Resolution := Resolution([], None, [], [], [], [])

  function LayerOf(r: Resolution, l: Layer): Record<string> {
    match l
    case Atomic => r.atomic
    case Hover => r.hover
    case Focus => r.focus
    case Active => r.active
  }

  function WithLayer(r: Resolution, l: Layer, rec: Record<string>): Resolution {
    match l
    case Atomic => r.(atomic := rec)
    case Hover => r.(hover := rec)
    case Focus => r.(focus := rec)
    case Active => r.(active := rec)
  }

  function Step(v: Variant, c: CacheView, r: Resolution, t: string): Resolution {
    match Classify(v, c, t)
    case External => r.(external := r.external + [t])
    case ResetClass => if r.reset.None? then r.(reset := Some(t)) else r
    case Tracked(l, p) => WithLayer(r, l, Assign(LayerOf(r, l), p, t))
    case Dropped => r
  }

  /** The loop of `cx` over the tokens, from the empty state. */
  function Resolve(v: Variant, c: CacheView, ts: seq<string>): Resolution
    decreases |ts|
  {
    if ts == [] then Start else Step(v, c, Resolve(v, c, ts[..|ts| - 1]), ts[|ts| - 1])
  }

  /** `forEach` over a record of class names: its present values in key
      order. */
  function Values(r: Record<string>): (vs: seq<string>)
    ensures |vs| <= |r|
    decreases |r|
  {
    if r == [] then []
    else
      var init := Values(r[..|r| - 1]);
      match r[|r| - 1].1
      case Some(x) => init + [x]
      case None => init
  }

  /** The emitted tokens: external ones, the reset class, then the atomic,
      hover, focus and active records. */
  function OutputTokens(r: Resolution): seq<string> {
    r.external + (if r.reset.Some? then [r.reset.value] else [])
    + Values(r.atomic) + Values(r.hover) + Values(r.focus) + Values(r.active)
  }

  /** The string `cx` returns. */
  function CxString(v: Variant, c: CacheView, items: seq<ClassName>): string {
    JoinSpaces(OutputTokens(Resolve(v, c, Flatten(items))))
  }

  // ----- the imperative code -----

  /** `appendClassNames`. */
  method AppendClassNames(acc: string, classNames: Record<string>) returns (output: string)
    ensures output == FoldAppend(acc, Values(classNames))
  {
    output := acc;
    for i := 0 to |classNames|
      invariant output == FoldAppend(acc, Values(classNames[..i]))
    {
      assert classNames[..i + 1][..i] == classNames[..i];
      if classNames[i].1.Some? {
        FoldAppendSnoc(acc, Values(classNames[..i]), classNames[i].1.value);
        output := AppendString(output, classNames[i].1.value);
      }
    }
    assert classNames[..|classNames|] == classNames;
  }

  /** The body of the `for (const className of classNames)` loop, on the
      mutable records; `external` names the tokens `output` already holds. */
  method StepRecords(v: Variant, c: CacheView, className: string,
                     output: string, reset: Option<string>, external: seq<string>,
                     atomic: ObjectRecord<string>, hover: ObjectRecord<string>,
                     focus: ObjectRecord<string>, active: ObjectRecord<string>)
    returns (output': string, reset': Option<string>, external': seq<string>)
    requires atomic != hover && atomic != focus && atomic != active
    requires hover != focus && hover != active && focus != active
    requires output == FoldAppend("", external)
    modifies atomic, hover, focus, active
    ensures Resolution(external', reset', atomic.entries, hover.entries, focus.entries, active.entries)
         == Step(v, c, Resolution(external, reset, old(atomic.entries), old(hover.entries),
                                  old(focus.entries), old(active.entries)), className)
    ensures output' == FoldAppend("", external')
  {
    output', reset', external' := output, reset, external;
    match Classify(v, c, className) {
      case Tracked(l, p) =>
        match l {
          case Atomic => atomic.Set(p, className);
          case Hover => hover.Set(p, className);
          case Focus => focus.Set(p, className);
          case Active => active.Set(p, className);
        }
      case ResetClass =>
        if reset.None? {
          reset' := Some(className);
        }
      case External =>
        FoldAppendSnoc("", external, className);
        output' := AppendString(output, className);
        external' := external + [className];
      case Dropped =>
    }
  }

  /** `cx` (src/cx.ts) for `CssCx`, the `cx` of `createSheet`
      (src/sheet.ts) for `SheetCx`. It only reads the caches. */
  method Cx(v: Variant, caches: Caches, items: seq<ClassName>) returns (output: string)
    ensures output == CxString(v, caches.View(), items)
  {
    var acc := new Accumulator();
    ExtractClassNames(items, acc);
    var classNames := acc.items;
    assert classNames == Flatten(items);
    var c := caches.View();
    var reset, atomic, hover, focus, active;
    var external;
    output, reset, external, atomic, hover, focus, active := ResolveClassNames(v, c, classNames);
    output := AppendResolved(output, reset, external, atomic, hover, focus, active);
    FlattenNonEmpty(items);
    OutputNonEmpty(v, c, classNames);
    FoldAppendJoinsFromEmpty(OutputTokens(Resolve(v, c, classNames)));
    assert output == JoinSpaces(OutputTokens(Resolve(v, c, Flatten(items))));
  }

  /** The loop of `cx` over the extracted class names. */
  method ResolveClassNames(v: Variant, c: CacheView, classNames: seq<string>)
    returns (output: string, reset: Option<string>, external: seq<string>,
             atomicEntries: Record<string>, hoverEntries: Record<string>,
             focusEntries: Record<string>, activeEntries: Record<string>)
    ensures Resolution(external, reset, atomicEntries, hoverEntries, focusEntries, activeEntries)
         == Resolve(v, c, classNames)
    ensures output == FoldAppend("", external)
  {
    output := "";
    reset := None;
    external := [];
    var atomic := new ObjectRecord<string>();
    var hover := new ObjectRecord<string>();
    var focus := new ObjectRecord<string>();
    var active := new ObjectRecord<string>();

    for i := 0 to |classNames|
      invariant Resolution(external, reset, atomic.entries, hover.entries, focus.entries, active.entries)
             == Resolve(v, c, classNames[..i])
      invariant output == FoldAppend("", external)
    {
      assert classNames[..i + 1][..i] == classNames[..i];
      output, reset, external := StepRecords(v, c, classNames[i], output, reset, external,
                                             atomic, hover, focus, active);
    }
    assert classNames[..|classNames|] == classNames;
    atomicEntries, hoverEntries, focusEntries, activeEntries := atomic.entries, hover.entries, focus.entries, active.entries;
  }

  /** The tail of both variants of `cx`: the reset class, then
      `appendClassNames` for the atomic, hover, focus and active records. */
  method AppendResolved(output: string, reset: Option<string>, ghost external: seq<string>,
                        atomic: Record<string>, hover: Record<string>,
                        focus: Record<string>, active: Record<string>) returns (out: string)
    requires output == FoldAppend("", external)
    ensures out == FoldAppend("", OutputTokens(Resolution(external, reset, atomic, hover, focus, active)))
  {
    ghost var resetPart := if reset.Some? then [reset.value] else [];
    out := output;
    if reset.Some? {
      FoldAppendSnoc("", external, reset.value);
      out := AppendString(out, reset.value);
    } else {
      assert external + resetPart == external;
    }
    ghost var done := external + resetPart;
    assert out == FoldAppend("", done);
    out := AppendClassNames(out, atomic);
    FoldAppendConcat("", done, Values(atomic));
    done := done + Values(atomic);
    out := AppendClassNames(out, hover);
    FoldAppendConcat("", done, Values(hover));
    done := done + Values(hover);
    out := AppendClassNames(out, focus);
    FoldAppendConcat("", done, Values(focus));
    done := done + Values(focus);
    out := AppendClassNames(out, active);
    FoldAppendConcat("", done, Values(active));
    done := done + Values(active);
    assert done == OutputTokens(Resolution(external, reset, atomic, hover, focus, active));
  }

  // ----- properties -----

  lemma {:induction false} FlattenNonEmpty(items: seq<ClassName>)
    ensures AllNonEmpty(Flatten(items))
    decreases items
  {
    if items != [] {
      FlattenNonEmpty(items[..|items| - 1]);
      match items[|items| - 1] {
        case Name(s) =>
        case Group(xs) => FlattenNonEmpty(xs);
        case Falsy =>
      }
      assert AllNonEmpty(ItemTokens(items[|items| - 1]));
    }
  }

  lemma {:induction false} ValuesFrom(r: Record<string>, x: string)
    requires x in Values(r)
    ensures exists i :: 0 <= i < |r| && r[i].1 == Some(x)
    decreases |r|
  {
    var init := r[..|r| - 1];
    if x in Values(init) {
      ValuesFrom(init, x);
      var i :| 0 <= i < |init| && init[i].1 == Some(x);
      assert r[i] == init[i];
    } else {
      assert r[|r| - 1].1 == Some(x);
    }
  }

  lemma {:induction false} ValuesTo(r: Record<string>, i: int)
    requires 0 <= i < |r| && r[i].1.Some?
    ensures r[i].1.value in Values(r)
    decreases |r|
  {
    if i < |r| - 1 {
      var init := r[..|r| - 1];
      assert init[i] == r[i];
      ValuesTo(init, i);
    }
  }

  /** An assignment adds at most the assigned value to the values. */
  lemma ValuesAssign(r: Record<string>, k: string, t: string, x: string)
    requires x in Values(Assign(r, k, t))
    ensures x in Values(r) || x == t
  {
    var r' := Assign(r, k, t);
    ValuesFrom(r', x);
    var j :| 0 <= j < |r'| && r'[j].1 == Some(x);
    var i := IndexOf(r, k);
    if x != t {
      assert j < |r| && r'[j] == r[j];
      ValuesTo(r, j);
    }
  }

  lemma StepAddsOnly(v: Variant, c: CacheView, r: Resolution, t: string, x: string)
    requires x in OutputTokens(Step(v, c, r, t))
    ensures x in OutputTokens(r) || x == t
  {
    match Classify(v, c, t)
    case Tracked(l, p) =>
      var r' := Step(v, c, r, t);
      match l {
        case Atomic => if x in Values(r'.atomic) { ValuesAssign(r.atomic, p, t, x); }
        case Hover => if x in Values(r'.hover) { ValuesAssign(r.hover, p, t, x); }
        case Focus => if x in Values(r'.focus) { ValuesAssign(r.focus, p, t, x); }
        case Active => if x in Values(r'.active) { ValuesAssign(r.active, p, t, x); }
      }
    case _ =>
  }

  /** `cx` emits only tokens it was given. */
  lemma {:induction false} OutputFromInput(v: Variant, c: CacheView, ts: seq<string>)
    ensures forall x :: x in OutputTokens(Resolve(v, c, ts)) ==> x in ts
    decreases |ts|
  {
    if ts != [] {
      var init := ts[..|ts| - 1];
      OutputFromInput(v, c, init);
      forall x | x in OutputTokens(Resolve(v, c, ts)) ensures x in ts {
        StepAddsOnly(v, c, Resolve(v, c, init), ts[|ts| - 1], x);
      }
    }
  }

  lemma OutputNonEmpty(v: Variant, c: CacheView, ts: seq<string>)
    requires AllNonEmpty(ts)
    ensures AllNonEmpty(OutputTokens(Resolve(v, c, ts)))
  {
    OutputFromInput(v, c, ts);
    var out := OutputTokens(Resolve(v, c, ts));
    forall i | 0 <= i < |out| ensures out[i] != "" {
      assert out[i] in out;
      var j :| 0 <= j < |ts| && ts[j] == out[i];
    }
  }

  // ----- splitting -----

  /** `split(" ")` followed by `join(" ")` gives the string back. */
  lemma {:induction false} SplitJoin(s: string)
    ensures JoinSpaces(Split(s)) == s
    decreases |s|
  {
    if s != [] {
      var rest := Split(s[1..]);
      SplitJoin(s[1..]);
      if s[0] == ' ' {
        JoinSpacesCons("", rest);
      } else if |rest| == 1 {
        assert Split(s) == [[s[0]] + rest[0]];
      } else {
        assert rest == [rest[0]] + rest[1..];
        JoinSpacesCons(rest[0], rest[1..]);
        JoinSpacesCons([s[0]] + rest[0], rest[1..]);
      }
    }
  }

  lemma {:induction false} SplitOfSpaceless(s: string)
    requires NoSpace(s)
    ensures Split(s) == [s]
    decreases |s|
  {
    if s != [] {
      assert s[0] in s;
      assert NoSpace(s[1..]) by {
        assert forall c :: c in s[1..] ==> c in s;
      }
      SplitOfSpaceless(s[1..]);
      assert [s[0]] + s[1..] == s;
    }
  }

  /** A space separates the parts of the two sides. */
  lemma {:induction false} SplitAtSpace(a: string, b: string)
    ensures Split(a + " " + b) == Split(a) + Split(b)
    decreases |a|
  {
    if a == [] {
      assert a + " " + b == [' '] + b;
      assert ([' '] + b)[1..] == b;
    } else {
      var s := a + " " + b;
      assert s[0] == a[0];
      assert s[1..] == a[1..] + " " + b;
      SplitAtSpace(a[1..], b);
    }
  }

  lemma {:induction false} NonEmptyPartsConcat(x: seq<string>, y: seq<string>)
    ensures NonEmptyParts(x + y) == NonEmptyParts(x) + NonEmptyParts(y)
    decreases |y|
  {
    if y == [] {
      assert x + y == x;
    } else {
      assert (x + y)[..|x + y| - 1] == x + y[..|y| - 1];
      assert (x + y)[|x + y| - 1] == y[|y| - 1];
      NonEmptyPartsConcat(x, y[..|y| - 1]);
    }
  }

  lemma TokensOfToken(t: string)
    requires t != "" && NoSpace(t)
    ensures Tokens(t) == [t]
  {
    SplitOfSpaceless(t);
    var parts := [t];
    assert parts[..|parts| - 1] == [] && parts[|parts| - 1] == t;
    assert NonEmptyParts(parts) == NonEmptyParts([]) + [t];
  }

  lemma TokensAfterToken(t: string, s: string)
    requires t != "" && NoSpace(t)
    ensures Tokens(t + " " + s) == [t] + Tokens(s)
  {
    SplitAtSpace(t, s);
    SplitOfSpaceless(t);
    NonEmptyPartsConcat([t], Split(s));
    TokensOfToken(t);
  }

  /** Joining non-empty, space-free tokens and splitting the result again
      gives the tokens back. */
  lemma {:induction false} TokensOfJoin(ts: seq<string>)
    requires AllNonEmpty(ts)
    requires forall i :: 0 <= i < |ts| ==> NoSpace(ts[i])
    ensures Tokens(JoinSpaces(ts)) == ts
    decreases |ts|
  {
    if |ts| == 1 {
      TokensOfToken(ts[0]);
    } else if |ts| > 1 {
      var rest := ts[1..];
      assert forall i :: 0 <= i < |rest| ==> rest[i] == ts[i + 1];
      TokensOfJoin(rest);
      assert ts == [ts[0]] + rest;
      JoinSpacesCons(ts[0], rest);
      TokensAfterToken(ts[0], JoinSpaces(rest));
    }
  }

  lemma TokensSpaceless(s: string)
    ensures forall i :: 0 <= i < |Tokens(s)| ==> NoSpace(Tokens(s)[i])
  {
    var parts := Split(s);
    forall i | 0 <= i < |Tokens(s)| ensures NoSpace(Tokens(s)[i]) {
      var j :| 0 <= j < |parts| && parts[j] == Tokens(s)[i];
    }
  }

  lemma {:induction false} FlattenNoSpace(items: seq<ClassName>)
    ensures forall i :: 0 <= i < |Flatten(items)| ==> NoSpace(Flatten(items)[i])
    decreases items
  {
    if items != [] {
      FlattenNoSpace(items[..|items| - 1]);
      var item := items[|items| - 1];
      match item {
        case Name(s) =>
          TokensSpaceless(s);
          assert ItemTokens(item) == Tokens(s);
        case Group(xs) =>
          FlattenNoSpace(xs);
          assert ItemTokens(item) == Flatten(xs);
        case Falsy =>
      }
      assert Flatten(items) == Flatten(items[..|items| - 1]) + ItemTokens(item);
    }
  }

  /** The string `cx` returns splits back into exactly the tokens it
      emitted, so passing it to `cx` again reads the same classes. */
  lemma CxStringSplits(v: Variant, c: CacheView, items: seq<ClassName>)
    ensures Tokens(CxString(v, c, items)) == OutputTokens(Resolve(v, c, Flatten(items)))
  {
    var ts := Flatten(items);
    var out := OutputTokens(Resolve(v, c, ts));
    FlattenNonEmpty(items);
    FlattenNoSpace(items);
    OutputFromInput(v, c, ts);
    OutputNonEmpty(v, c, ts);
    forall i | 0 <= i < |out| ensures NoSpace(out[i]) {
      assert out[i] in out;
      var j :| 0 <= j < |ts| && ts[j] == out[i];
    }
    TokensOfJoin(out);
  }

  // ----- resolution -----

  /** External tokens depend on nothing else: the external part of a
      concatenation is the concatenation of the external parts. */
  lemma {:induction false} ExternalsConcat(v: Variant, c: CacheView, a: seq<string>, b: seq<string>)
    ensures Resolve(v, c, a + b).external == Resolve(v, c, a).external + Resolve(v, c, b).external
    decreases |b|
  {
    if b == [] {
      assert a + b == a;
    } else {
      var b' := b[..|b| - 1];
      var x := b[|b| - 1];
      assert a + b == (a + b') + [x] && b == b' + [x];
      ExternalsConcat(v, c, a, b');
      ResolveSnoc(v, c, a + b', x);
      ResolveSnoc(v, c, b', x);
      StepExternal(v, c, Resolve(v, c, a + b'), x);
      StepExternal(v, c, Resolve(v, c, b'), x);
    }
  }

  lemma StepExternal(v: Variant, c: CacheView, r: Resolution, t: string)
    ensures Step(v, c, r, t).external == if Classify(v, c, t) == External then r.external + [t] else r.external
  {
  }

  lemma StepReset(v: Variant, c: CacheView, r: Resolution, t: string)
    ensures Step(v, c, r, t).reset
            == if Classify(v, c, t) == ResetClass && r.reset.None? then Some(t) else r.reset
  {
  }

  lemma StepLayer(v: Variant, c: CacheView, r: Resolution, t: string, l: Layer)
    ensures LayerOf(Step(v, c, r, t), l)
            == if Classify(v, c, t).Tracked? && Classify(v, c, t).layer == l
               then Assign(LayerOf(r, l), Classify(v, c, t).property, t) else LayerOf(r, l)
  {
  }

  lemma ResolveSnoc(v: Variant, c: CacheView, init: seq<string>, t: string)
    ensures Resolve(v, c, init + [t]) == Step(v, c, Resolve(v, c, init), t)
  {
    assert (init + [t])[..|init|] == init;
  }

  lemma {:induction false} ExternalsCounted(v: Variant, c: CacheView, ts: seq<string>, t: string)
    ensures multiset(Resolve(v, c, ts).external)[t]
            == if Classify(v, c, t) == External then multiset(ts)[t] else 0
    decreases |ts|
  {
    if ts != [] {
      var init := ts[..|ts| - 1];
      var x := ts[|ts| - 1];
      ExternalsCounted(v, c, init, t);
      assert ts == init + [x];
      ResolveSnoc(v, c, init, x);
      StepExternal(v, c, Resolve(v, c, init), x);
    }
  }

  /** There is a reset class exactly when some token is classified as one. */
  lemma {:induction false} ResetKeptIff(v: Variant, c: CacheView, ts: seq<string>)
    ensures Resolve(v, c, ts).reset.None? <==> forall i :: 0 <= i < |ts| ==> Classify(v, c, ts[i]) != ResetClass
    decreases |ts|
  {
    if ts != [] {
      var init := ts[..|ts| - 1];
      ResetKeptIff(v, c, init);
      assert forall i :: 0 <= i < |init| ==> ts[i] == init[i];
      assert ts == init + [ts[|ts| - 1]];
      ResolveSnoc(v, c, init, ts[|ts| - 1]);
      StepReset(v, c, Resolve(v, c, init), ts[|ts| - 1]);
    }
  }

  /** The reset class kept is the first token classified as a reset class. */
  lemma {:induction false} FirstResetWins(v: Variant, c: CacheView, ts: seq<string>)
    requires Resolve(v, c, ts).reset.Some?
    ensures exists i :: 0 <= i < |ts| && ts[i] == Resolve(v, c, ts).reset.value && Classify(v, c, ts[i]) == ResetClass
              && forall j :: 0 <= j < i ==> Classify(v, c, ts[j]) != ResetClass
    decreases |ts|
  {
    var init := ts[..|ts| - 1];
    var t := ts[|ts| - 1];
    var prev := Resolve(v, c, init);
    assert ts == init + [t];
    ResolveSnoc(v, c, init, t);
    StepReset(v, c, prev, t);
    if prev.reset.Some? {
      FirstResetWins(v, c, init);
      var i :| 0 <= i < |init| && init[i] == prev.reset.value && Classify(v, c, init[i]) == ResetClass
        && forall j :: 0 <= j < i ==> Classify(v, c, init[j]) != ResetClass;
      assert forall j :: 0 <= j <= i ==> ts[j] == init[j];
    } else {
      ResetKeptIff(v, c, init);
      assert forall j :: 0 <= j < |init| ==> ts[j] == init[j];
    }
  }

  /** The (property, class) pairs of the tokens a layer tracks, in order. */
  function TrackedPairs(v: Variant, c: CacheView, ts: seq<string>, l: Layer): (ps: seq<(string, string)>)
    ensures forall i :: 0 <= i < |ps| ==> ps[i].1 in ts && Classify(v, c, ps[i].1) == Tracked(l, ps[i].0)
    decreases |ts|
  {
    if ts == [] then []
    else
      var init := TrackedPairs(v, c, ts[..|ts| - 1], l);
      var t := ts[|ts| - 1];
      match Classify(v, c, t)
      case Tracked(l', p) => if l' == l then init + [(p, t)] else init
      case _ => init
  }

  /** Each layer's record is the run of its tracked assignments. */
  lemma {:induction false} LayerAssignments(v: Variant, c: CacheView, ts: seq<string>, l: Layer)
    ensures LayerOf(Resolve(v, c, ts), l) == AssignAll([], TrackedPairs(v, c, ts, l))
    decreases |ts|
  {
    if ts != [] {
      var init := ts[..|ts| - 1];
      var t := ts[|ts| - 1];
      LayerAssignments(v, c, init, l);
      assert ts == init + [t];
      ResolveSnoc(v, c, init, t);
      StepLayer(v, c, Resolve(v, c, init), t, l);
      var b := Classify(v, c, t);
      if b.Tracked? && b.layer == l {
        AssignAllSnoc([], TrackedPairs(v, c, init, l), (b.property, t));
      }
    }
  }

  /** For each state, the classes `cx` keeps are one per property, in the
      order the properties first appear, and each is the last class given
      for its property. */
  lemma LastClassWins(v: Variant, c: CacheView, ts: seq<string>, l: Layer)
    ensures var rec := LayerOf(Resolve(v, c, ts), l);
      && Keys(rec) == FirstSeen(PairKeys(TrackedPairs(v, c, ts, l)))
      && UniqueKeys(rec)
      && forall p :: Get(rec, p) == LastWith(TrackedPairs(v, c, ts, l), p)
  {
    LayerAssignments(v, c, ts, l);
    AssignFromEmpty(TrackedPairs(v, c, ts, l));
  }

  /** A class cached with no property: src/cx.ts treats it as an external
      class, src/sheet.ts drops it. */
  lemma UndefinedPropertyDiffers(c: CacheView, ts: seq<string>, t: string)
    requires t in c.atomic && c.atomic[t].None?
    requires t !in c.hover && t !in c.focus && t !in c.active && t !in c.reset
    ensures Resolve(SheetCx, c, ts + [t]) == Resolve(SheetCx, c, ts)
    ensures Resolve(CssCx, c, ts + [t]).external == Resolve(CssCx, c, ts).external + [t]
  {
    assert (ts + [t])[..|ts|] == ts;
  }

  // ----- the examples of __tests__/cx.tsx -----

  lemma ResolveUnrolled(v: Variant, c: CacheView, ts: seq<string>)
    requires 1 <= |ts| <= 4
    ensures Resolve(v, c, ts) == (
      var r1 := Step(v, c, Start, ts[0]);
      if |ts| == 1 then r1 else
      var r2 := Step(v, c, r1, ts[1]);
      if |ts| == 2 then r2 else
      var r3 := Step(v, c, r2, ts[2]);
      if |ts| == 3 then r3 else Step(v, c, r3, ts[3]))
  {
    assert ts[..1][..0] == [];
    if |ts| >= 2 { assert ts[..2][..1] == ts[..1]; }
    if |ts| >= 3 { assert ts[..3][..2] == ts[..2]; }
    if |ts| == 4 { assert ts[..3] == ts[..|ts| - 1]; }
    if |ts| == 3 { assert ts[..2] == ts[..|ts| - 1]; }
    if |ts| == 2 { assert ts[..1] == ts[..|ts| - 1]; }
  }

  predicate Token(t: string) {
    t != "" && NoSpace(t)
  }

  /** `CxString` of arguments whose tokens and resolution are known. */
  lemma CxStringFrom(v: Variant, c: CacheView, items: seq<ClassName>, ts: seq<string>, r: Resolution)
    requires Flatten(items) == ts && Resolve(v, c, ts) == r
    ensures CxString(v, c, items) == JoinSpaces(OutputTokens(r))
  {
  }

  lemma FlattenSnoc(items: seq<ClassName>, x: ClassName)
    ensures Flatten(items + [x]) == Flatten(items) + ItemTokens(x)
  {
    assert (items + [x])[..|items|] == items;
  }

  lemma FlattenOne(x: ClassName)
    ensures Flatten([x]) == ItemTokens(x)
  {
    FlattenSnoc([], x);
    assert [] + [x] == [x];
  }

  lemma FlattenTwo(x: ClassName, y: ClassName)
    ensures Flatten([x, y]) == ItemTokens(x) + ItemTokens(y)
  {
    FlattenOne(x);
    FlattenSnoc([x], y);
    assert [x] + [y] == [x, y];
  }

  lemma FlattenThree(x: ClassName, y: ClassName, z: ClassName)
    ensures Flatten([x, y, z]) == ItemTokens(x) + ItemTokens(y) + ItemTokens(z)
  {
    FlattenTwo(x, y);
    FlattenSnoc([x, y], z);
    assert [x, y] + [z] == [x, y, z];
  }

  lemma LaterClassTokens(a: string, b: string, d: string)
    requires Token(a) && Token(b) && Token(d)
    ensures Flatten([Name(a + " " + b), Name(d)]) == [a, b, d]
  {
    TokensAfterToken(a, b);
    TokensOfToken(b);
    TokensOfToken(d);
    FlattenTwo(Name(a + " " + b), Name(d));
  }

  lemma LaterClassOutput(a: string, d: string, p: string, q: string)
    ensures JoinSpaces(OutputTokens(Resolution([], None, [(p, Some(a)), (q, Some(d))], [], [], []))) == a + " " + d
  {
    var rec := [(p, Some(a)), (q, Some(d))];
    assert rec[..1] == [rec[0]] && [rec[0]][..0] == [];
    assert Values(rec) == [a, d];
    JoinSpacesCons(a, [d]);
  }

  lemma LaterClassResolves(v: Variant, c: CacheView, a: string, b: string, d: string, p: string, q: string)
    requires p != q
    requires Classify(v, c, a) == Tracked(Atomic, p)
    requires Classify(v, c, b) == Tracked(Atomic, q) && Classify(v, c, d) == Tracked(Atomic, q)
    ensures Resolve(v, c, [a, b, d]) == Resolution([], None, [(p, Some(a)), (q, Some(d))], [], [], [])
  {
    ResolveUnrolled(v, c, [a, b, d]);
    var r1 := Step(v, c, Start, a);
    assert r1.atomic == [(p, Some(a))];
    var r2 := Step(v, c, r1, b);
    assert IndexOf(r1.atomic, q) == -1;
    assert r2.atomic == [(p, Some(a)), (q, Some(b))];
    assert IndexOf(r2.atomic, q) == 1;
  }

  /** `cx(sheet.foo, sheet.bar)` with `foo` setting two properties and
      `bar` the second one again: `bar`'s class replaces `foo`'s, in its
      place. */
  lemma LaterClassReplacesEarlier(v: Variant, c: CacheView, a: string, b: string, d: string, p: string, q: string)
    requires Token(a) && Token(b) && Token(d) && p != q
    requires Classify(v, c, a) == Tracked(Atomic, p)
    requires Classify(v, c, b) == Tracked(Atomic, q) && Classify(v, c, d) == Tracked(Atomic, q)
    ensures CxString(v, c, [Name(a + " " + b), Name(d)]) == a + " " + d
  {
    LaterClassTokens(a, b, d);
    LaterClassResolves(v, c, a, b, d, p, q);
    var r := Resolution([], None, [(p, Some(a)), (q, Some(d))], [], [], []);
    CxStringFrom(v, c, [Name(a + " " + b), Name(d)], [a, b, d], r);
    LaterClassOutput(a, d, p, q);
  }

  lemma OneResetTokens(r: string, r': string, x: string, h: string)
    requires Token(r) && Token(r') && Token(x) && Token(h)
    ensures Flatten([Name(r), Name(r'), Name(x + " " + h)]) == [r, r', x, h]
  {
    TokensOfToken(r);
    TokensOfToken(r');
    TokensAfterToken(x, h);
    TokensOfToken(h);
    FlattenThree(Name(r), Name(r'), Name(x + " " + h));
  }

  lemma OneResetOutput(r: string, x: string, h: string, p: string)
    ensures JoinSpaces(OutputTokens(Resolution([], Some(r), [(p, Some(x))], [(p, Some(h))], [], [])))
         == r + " " + x + " " + h
  {
    var atomic, hover := [(p, Some(x))], [(p, Some(h))];
    assert atomic[..0] == [] && hover[..0] == [];
    assert OutputTokens(Resolution([], Some(r), atomic, hover, [], [])) == [r, x, h];
    JoinSpacesCons(x, [h]);
    JoinSpacesCons(r, [x, h]);
  }

  lemma OneResetResolves(v: Variant, c: CacheView, r: string, r': string, x: string, h: string, p: string)
    requires Classify(v, c, r) == ResetClass && Classify(v, c, r') == ResetClass
    requires Classify(v, c, x) == Tracked(Atomic, p) && Classify(v, c, h) == Tracked(Hover, p)
    ensures Resolve(v, c, [r, r', x, h]) == Resolution([], Some(r), [(p, Some(x))], [(p, Some(h))], [], [])
  {
    ResolveUnrolled(v, c, [r, r', x, h]);
  }

  /** `cx(sheet.$foo, sheet.$bar, sheet.baz)`: the second reset class is
      dropped, and the reset class comes before the atomic and hover ones. */
  lemma OneResetClassKept(v: Variant, c: CacheView, r: string, r': string, x: string, h: string, p: string)
    requires Token(r) && Token(r') && Token(x) && Token(h)
    requires Classify(v, c, r) == ResetClass && Classify(v, c, r') == ResetClass
    requires Classify(v, c, x) == Tracked(Atomic, p) && Classify(v, c, h) == Tracked(Hover, p)
    ensures CxString(v, c, [Name(r), Name(r'), Name(x + " " + h)]) == r + " " + x + " " + h
  {
    OneResetTokens(r, r', x, h);
    OneResetResolves(v, c, r, r', x, h, p);
    CxStringFrom(v, c, [Name(r), Name(r'), Name(x + " " + h)], [r, r', x, h],
                 Resolution([], Some(r), [(p, Some(x))], [(p, Some(h))], [], []));
    OneResetOutput(r, x, h, p);
  }

  lemma ExternalAfterAtomic(v: Variant, c: CacheView, x: string, e: string, p: string)
    requires Classify(v, c, x) == Tracked(Atomic, p) && Classify(v, c, e) == External
    ensures Resolve(v, c, [x, e]) == Resolution([e], None, [(p, Some(x))], [], [], [])
  {
    ResolveUnrolled(v, c, [x, e]);
  }

  /** `cx(sheet.foo, false && sheet.bar, true && ["foo"])`: the falsy
      argument is skipped and the external class comes first. */
  lemma ExternalClassesFirst(v: Variant, c: CacheView, x: string, e: string, p: string)
    requires Token(x) && Token(e)
    requires Classify(v, c, x) == Tracked(Atomic, p) && Classify(v, c, e) == External
    ensures CxString(v, c, [Name(x), Falsy, Group([Name(e)])]) == e + " " + x
  {
    TokensOfToken(x);
    TokensOfToken(e);
    FlattenOne(Name(e));
    FlattenThree(Name(x), Falsy, Group([Name(e)]));
    ExternalAfterAtomic(v, c, x, e, p);
    var atomic := [(p, Some(x))];
    CxStringFrom(v, c, [Name(x), Falsy, Group([Name(e)])], [x, e], Resolution([e], None, atomic, [], [], []));
    assert atomic[..0] == [];
    assert OutputTokens(Resolution([e], None, atomic, [], [], [])) == [e, x];
    JoinSpacesCons(e, [x]);
  }
}
