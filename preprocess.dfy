/** src/preprocess.ts: shorthand expansion, `from`/`to` renaming and the
    partition of pseudo-state buckets, before anything is stringified. */
module Preprocess {
  import opened Types
  import opened Utils
  import opened Records

  /** The longhands each table shorthand fans out to, in assignment order
      (preprocess.ts:13-57). */
  const Shorthands: map<string, seq<string>> := map[
    "borderColor" := ["borderTopColor", "borderRightColor", "borderBottomColor", "borderLeftColor"],
    "borderRadius" := ["borderTopLeftRadius", "borderTopRightRadius", "borderBottomRightRadius", "borderBottomLeftRadius"],
    "borderStyle" := ["borderTopStyle", "borderRightStyle", "borderBottomStyle", "borderLeftStyle"],
    "borderWidth" := ["borderTopWidth", "borderRightWidth", "borderBottomWidth", "borderLeftWidth"],
    "gap" := ["rowGap", "columnGap"],
    "inset" := ["top", "right", "bottom", "left"],
    "insetBlock" := ["insetBlockStart", "insetBlockEnd"],
    "insetInline" := ["insetInlineStart", "insetInlineEnd"],
    "margin" := ["marginTop", "marginRight", "marginBottom", "marginLeft"],
    "marginBlock" := ["marginBlockStart", "marginBlockEnd"],
    "marginHorizontal" := ["marginRight", "marginLeft"],
    "marginInline" := ["marginInlineStart", "marginInlineEnd"],
    "marginVertical" := ["marginTop", "marginBottom"],
    "overflow" := ["overflowX", "overflowY"],
    "overscrollBehavior" := ["overscrollBehaviorX", "overscrollBehaviorY"],
    "padding" := ["paddingTop", "paddingRight", "paddingBottom", "paddingLeft"],
    "paddingBlock" := ["paddingBlockStart", "paddingBlockEnd"],
    "paddingHorizontal" := ["paddingRight", "paddingLeft"],
    "paddingInline" := ["paddingInlineStart", "paddingInlineEnd"],
    "paddingVertical" := ["paddingTop", "paddingBottom"],
    "scrollMarginBlock" := ["scrollMarginBlockStart", "scrollMarginBlockEnd"],
    "scrollMarginInline" := ["scrollMarginInlineStart", "scrollMarginInlineEnd"],
    "scrollPaddingBlock" := ["scrollPaddingBlockStart", "scrollPaddingBlockEnd"],
    "scrollPaddingInline" := ["scrollPaddingInlineStart", "scrollPaddingInlineEnd"]
  ]

  /** No shorthand lists itself among its longhands. */
  lemma {:induction false} ShorthandNotOwnLonghand(k: string, i: int)
    requires k in Shorthands && 0 <= i < |Shorthands[k]|
    ensures Shorthands[k][i] != k
  {
  }

  /** The longhands of one shorthand are distinct. */
  lemma {:induction false} LonghandsDistinct(k: string, i: int, j: int)
    requires k in Shorthands && 0 <= i < j < |Shorthands[k]|
    ensures Shorthands[k][i] != Shorthands[k][j]
  {
  }

  /** Every key of `ls` paired with the same value. */
  function Pairs(ls: seq<string>, v: Value): (ps: seq<(string, Value)>)
    ensures |ps| == |ls| && forall i :: 0 <= i < |ls| ==> ps[i] == (ls[i], v)
  {
    if ls == [] then [] else Pairs(ls[..|ls| - 1], v) + [(ls[|ls| - 1], v)]
  }

  /** The assignments `preprocessRule` makes to its output for one present
      entry, in the order it makes them. */
  function Expansion(key: string, v: Value): seq<(string, Value)> {
    if key in Shorthands then Pairs(Shorthands[key], v)
    else if key == "backgroundPosition" then BackgroundPositionAssignments(v)
    else if key == "flex" then FlexAssignments(v)
    else [(key, v)]
  }

  /** `backgroundPosition` sets the X axis unless the value names a vertical
      edge, and the Y axis unless it names a horizontal edge. */
  function BackgroundPositionAssignments(v: Value): seq<(string, Value)> {
    (if v != Str("top") && v != Str("bottom") then [("backgroundPositionX", v)] else [])
    + (if v != Str("left") && v != Str("right") then [("backgroundPositionY", v)] else [])
  }

  /** `flex` expands only for a non-negative number. */
  function FlexAssignments(v: Value): seq<(string, Value)> {
    if v.Num? && v.n >= 0 then [("flexGrow", v), ("flexShrink", Num(1)), ("flexBasis", Str("0%"))] else []
  }

  /** The assignments made for a run of present entries. */
  function ExpandAll(ps: seq<(string, Value)>): seq<(string, Value)>
    decreases |ps|
  {
    if ps == [] then []
    else ExpandAll(ps[..|ps| - 1]) + Expansion(ps[|ps| - 1].0, ps[|ps| - 1].1)
  }

  /** `preprocessStyle`. */
  function PreprocessedStyle(style: Style): Style {
    AssignAll([], ExpandAll(Present(style)))
  }

  /** The entries whose key is not a pseudo-state key. */
  function BaseEntries(ps: seq<(string, Value)>): (b: seq<(string, Value)>)
    ensures forall i :: 0 <= i < |b| ==> !IsPseudoKey(b[i].0) && b[i] in ps
    ensures forall i :: 0 <= i < |ps| && !IsPseudoKey(ps[i].0) ==> ps[i] in b
    decreases |ps|
  {
    if ps == [] then []
    else
      var init := BaseEntries(ps[..|ps| - 1]);
      assert forall i :: 0 <= i < |ps| - 1 ==> ps[..|ps| - 1][i] == ps[i];
      if IsPseudoKey(ps[|ps| - 1].0) then init else init + [ps[|ps| - 1]]
  }

  /** `preprocessResetStyle`. */
  function PreprocessedReset(style: Style): Style {
    AssignAll([], ExpandAll(BaseEntries(Present(style))))
  }

  /** The assignment of one pseudo-state bucket, made only when the bucket
      was present; the last present occurrence is the one kept. */
  function Bucket(ps: seq<(string, Value)>, k: string): seq<(string, Value)> {
    match LastWith(ps, k)
    case Some(v) => [(k, Obj(PreprocessedStyle(Fields(v))))]
    case None => []
  }

  function PseudoBuckets(ps: seq<(string, Value)>): seq<(string, Value)> {
    Bucket(ps, ":hover") + Bucket(ps, ":focus") + Bucket(ps, ":active")
  }

  /** `preprocessAtomicStyle`. A bucket whose value is not an object is
      taken as empty (its TypeScript type excludes that case). */
  function PreprocessedAtomic(style: Style): Style {
    AssignAll(PreprocessedReset(style), PseudoBuckets(Present(style)))
  }

  function RenameFrame(sel: string): string {
    if sel == "from" then "0%" else if sel == "to" then "100%" else sel
  }

  function Frames(ps: seq<(string, Value)>): (fs: seq<(string, Value)>)
    ensures |fs| == |ps|
    ensures forall i :: 0 <= i < |ps| ==> fs[i] == (RenameFrame(ps[i].0), Obj(PreprocessedStyle(Fields(ps[i].1))))
    decreases |ps|
  {
    if ps == [] then []
    else
      var last := ps[|ps| - 1];
      Frames(ps[..|ps| - 1]) + [(RenameFrame(last.0), Obj(PreprocessedStyle(Fields(last.1))))]
  }

  /** `preprocessKeyframes`. */
  function PreprocessedKeyframes(keyframes: Style): Style {
    AssignAll([], Frames(Present(keyframes)))
  }

  // ----- the imperative code -----

  /** `preprocessRule`: the assignments of `Expansion`, made on `acc` in
      place; nothing for a `null`/`undefined` value. */
  method PreprocessRule(acc: ObjectRecord<Value>, key: string, value: Option<Value>)
    modifies acc
    ensures acc.entries == AssignAll(old(acc.entries), if value.Some? then Expansion(key, value.value) else [])
  {
    if value.Some? {
      var v := value.value;
      if key in Shorthands {
        AssignLonghands(acc, Shorthands[key], v);
      } else if key == "backgroundPosition" {
        AssignBackgroundPosition(acc, v);
      } else if key == "flex" {
        AssignFlex(acc, v);
      } else {
        acc.Set(key, v);
        assert [(key, v)][..0] == [];
      }
    }
  }

  /** The `for ... of shorthand` loop. */
  method AssignLonghands(acc: ObjectRecord<Value>, longhands: seq<string>, v: Value)
    modifies acc
    ensures acc.entries == AssignAll(old(acc.entries), Pairs(longhands, v))
  {
    ghost var start := acc.entries;
    for j := 0 to |longhands|
      invariant acc.entries == AssignAll(start, Pairs(longhands[..j], v))
    {
      AssignLonghand(acc, longhands, j, v, start);
    }
    assert longhands[..|longhands|] == longhands;
  }

  /** One iteration of that loop. */
  method AssignLonghand(acc: ObjectRecord<Value>, longhands: seq<string>, j: int, v: Value, ghost start: Record<Value>)
    requires 0 <= j < |longhands|
    requires acc.entries == AssignAll(start, Pairs(longhands[..j], v))
    modifies acc
    ensures acc.entries == AssignAll(start, Pairs(longhands[..j + 1], v))
  {
    assert Pairs(longhands[..j + 1], v) == Pairs(longhands[..j], v) + [(longhands[j], v)] by {
      assert longhands[..j + 1][..j] == longhands[..j];
    }
    AssignAllSnoc(start, Pairs(longhands[..j], v), (longhands[j], v));
    acc.Set(longhands[j], v);
  }

  method AssignBackgroundPosition(acc: ObjectRecord<Value>, v: Value)
    modifies acc
    ensures acc.entries == AssignAll(old(acc.entries), BackgroundPositionAssignments(v))
  {
    ghost var start := acc.entries;
    ghost var xs := if v != Str("top") && v != Str("bottom") then [("backgroundPositionX", v)] else [];
    ghost var ys := if v != Str("left") && v != Str("right") then [("backgroundPositionY", v)] else [];
    if v != Str("top") && v != Str("bottom") {
      acc.Set("backgroundPositionX", v);
      AssignAllSnoc(start, [], ("backgroundPositionX", v));
      assert [] + [("backgroundPositionX", v)] == xs;
    }
    assert acc.entries == AssignAll(start, xs);
    ghost var mid := acc.entries;
    if v != Str("left") && v != Str("right") {
      acc.Set("backgroundPositionY", v);
      AssignAllSnoc(mid, [], ("backgroundPositionY", v));
      assert [] + [("backgroundPositionY", v)] == ys;
    }
    assert acc.entries == AssignAll(mid, ys);
    AssignAllConcat(start, xs, ys);
  }

  method AssignFlex(acc: ObjectRecord<Value>, v: Value)
    modifies acc
    ensures acc.entries == AssignAll(old(acc.entries), FlexAssignments(v))
  {
    if v.Num? && v.n >= 0 {
      ghost var start := acc.entries;
      var p0, p1, p2 := ("flexGrow", v), ("flexShrink", Num(1)), ("flexBasis", Str("0%"));
      acc.Set(p0.0, p0.1);
      AssignAllSnoc(start, [], p0);
      assert [] + [p0] == [p0];
      acc.Set(p1.0, p1.1);
      AssignAllSnoc(start, [p0], p1);
      assert [p0] + [p1] == [p0, p1];
      acc.Set(p2.0, p2.1);
      AssignAllSnoc(start, [p0, p1], p2);
      assert [p0, p1] + [p2] == [p0, p1, p2];
    }
  }

  /** One step of the `forEach` over a style: the present entries of the
      longer prefix are those of the shorter one plus the new entry's
      assignments. */
  lemma {:induction false} ExpandStep(style: Style, i: int)
    requires 0 <= i < |style|
    ensures ExpandAll(Present(style[..i + 1]))
            == ExpandAll(Present(style[..i])) + (if style[i].1.Some? then Expansion(style[i].0, style[i].1.value) else [])
  {
    assert style[..i + 1] == style[..i] + [style[i]];
    PresentSnoc(style[..i], style[i]);
    if style[i].1.Some? {
      var ps := Present(style[..i]) + [(style[i].0, style[i].1.value)];
      assert ps[..|ps| - 1] == Present(style[..i]);
    }
  }

  method PreprocessStyle(style: Style) returns (out: Style)
    ensures out == PreprocessedStyle(style)
  {
    var acc := new ObjectRecord<Value>();
    for i := 0 to |style|
      invariant acc.entries == AssignAll([], ExpandAll(Present(style[..i])))
    {
      ExpandStep(style, i);
      ghost var before := acc.entries;
      if style[i].1.Some? {
        PreprocessRule(acc, style[i].0, style[i].1);
      }
      AssignAllConcat([], ExpandAll(Present(style[..i])),
                      if style[i].1.Some? then Expansion(style[i].0, style[i].1.value) else []);
    }
    assert style[..|style|] == style;
    out := acc.entries;
  }

  method PreprocessKeyframes(keyframes: Style) returns (out: Style)
    ensures out == PreprocessedKeyframes(keyframes)
  {
    var acc := new ObjectRecord<Value>();
    for i := 0 to |keyframes|
      invariant acc.entries == AssignAll([], Frames(Present(keyframes[..i])))
    {
      assert keyframes[..i + 1] == keyframes[..i] + [keyframes[i]];
      PresentSnoc(keyframes[..i], keyframes[i]);
      var (sel, value) := keyframes[i];
      if value.Some? {
        var frame := PreprocessStyle(Fields(value.value));
        ghost var ps := Present(keyframes[..i]) + [(sel, value.value)];
        assert ps[..|ps| - 1] == Present(keyframes[..i]);
        acc.Set(RenameFrame(sel), Obj(frame));
        AssignAllSnoc([], Frames(Present(keyframes[..i])), (RenameFrame(sel), Obj(frame)));
      }
    }
    assert keyframes[..|keyframes|] == keyframes;
    out := acc.entries;
  }

  lemma {:induction false} BaseStep(style: Style, i: int)
    requires 0 <= i < |style|
    ensures ExpandAll(BaseEntries(Present(style[..i + 1])))
            == ExpandAll(BaseEntries(Present(style[..i])))
               + (if style[i].1.Some? && !IsPseudoKey(style[i].0) then Expansion(style[i].0, style[i].1.value) else [])
  {
    assert style[..i + 1] == style[..i] + [style[i]];
    PresentSnoc(style[..i], style[i]);
    if style[i].1.Some? {
      var ps := Present(style[..i]) + [(style[i].0, style[i].1.value)];
      assert ps[..|ps| - 1] == Present(style[..i]);
      if !IsPseudoKey(style[i].0) {
        var bs := BaseEntries(Present(style[..i])) + [(style[i].0, style[i].1.value)];
        assert bs[..|bs| - 1] == BaseEntries(Present(style[..i]));
      }
    }
  }

  method PreprocessResetStyle(style: Style) returns (out: Style)
    ensures out == PreprocessedReset(style)
  {
    var acc := new ObjectRecord<Value>();
    for i := 0 to |style|
      invariant acc.entries == AssignAll([], ExpandAll(BaseEntries(Present(style[..i]))))
    {
      BaseStep(style, i);
      if style[i].1.Some? && !IsPseudoKey(style[i].0) {
        PreprocessRule(acc, style[i].0, style[i].1);
      }
      AssignAllConcat([], ExpandAll(BaseEntries(Present(style[..i]))),
                      if style[i].1.Some? && !IsPseudoKey(style[i].0) then Expansion(style[i].0, style[i].1.value) else []);
    }
    assert style[..|style|] == style;
    out := acc.entries;
  }

  /** The bucket variable after one more entry: a present entry under `k`
      replaces it. */
  lemma {:induction false} LastWithStep(style: Style, i: int, k: string)
    requires 0 <= i < |style|
    ensures LastWith(Present(style[..i + 1]), k)
            == if style[i].1.Some? && style[i].0 == k then style[i].1 else LastWith(Present(style[..i]), k)
  {
    assert style[..i + 1] == style[..i] + [style[i]];
    PresentSnoc(style[..i], style[i]);
    if style[i].1.Some? {
      var ps := Present(style[..i]) + [(style[i].0, style[i].1.value)];
      assert ps[..|ps| - 1] == Present(style[..i]);
    }
  }

  method PreprocessAtomicStyle(style: Style) returns (out: Style)
    ensures out == PreprocessedAtomic(style)
  {
    var acc := new ObjectRecord<Value>();
    var hover: Option<Value> := None;
    var focus: Option<Value> := None;
    var active: Option<Value> := None;
    for i := 0 to |style|
      invariant acc.entries == AssignAll([], ExpandAll(BaseEntries(Present(style[..i]))))
      invariant hover == LastWith(Present(style[..i]), ":hover")
      invariant focus == LastWith(Present(style[..i]), ":focus")
      invariant active == LastWith(Present(style[..i]), ":active")
    {
      BaseStep(style, i);
      LastWithStep(style, i, ":hover");
      LastWithStep(style, i, ":focus");
      LastWithStep(style, i, ":active");
      var (key, value) := style[i];
      if value.Some? {
        if key == ":hover" {
          hover := value;
        } else if key == ":focus" {
          focus := value;
        } else if key == ":active" {
          active := value;
        } else {
          PreprocessRule(acc, key, value);
        }
      }
      AssignAllConcat([], ExpandAll(BaseEntries(Present(style[..i]))),
                      if style[i].1.Some? && !IsPseudoKey(style[i].0) then Expansion(style[i].0, style[i].1.value) else []);
    }
    assert style[..|style|] == style;
    ghost var base := acc.entries;
    ghost var ps := Present(style);
    if hover.Some? {
      var h := PreprocessStyle(Fields(hover.value));
      acc.Set(":hover", Obj(h));
    }
    assert acc.entries == AssignAll(base, Bucket(ps, ":hover"));
    if focus.Some? {
      var f := PreprocessStyle(Fields(focus.value));
      acc.Set(":focus", Obj(f));
    }
    assert acc.entries == AssignAll(AssignAll(base, Bucket(ps, ":hover")), Bucket(ps, ":focus"));
    AssignAllConcat(base, Bucket(ps, ":hover"), Bucket(ps, ":focus"));
    if active.Some? {
      var a := PreprocessStyle(Fields(active.value));
      acc.Set(":active", Obj(a));
    }
    AssignAllConcat(base, Bucket(ps, ":hover") + Bucket(ps, ":focus"), Bucket(ps, ":active"));
    out := acc.entries;
  }

  // ----- properties -----

  /** None of the table's longhands is a pseudo-state key. */
  lemma {:induction false} LonghandsNotPseudo(k: string, i: int)
    requires k in Shorthands && 0 <= i < |Shorthands[k]|
    ensures !IsPseudoKey(Shorthands[k][i])
  {
  }

  lemma {:induction false} PairsLastWith(ls: seq<string>, v: Value, k: string)
    ensures LastWith(Pairs(ls, v), k) == if k in ls then Some(v) else None
    decreases |ls|
  {
    if ls != [] {
      PairsLastWith(ls[..|ls| - 1], v, k);
      assert ls == ls[..|ls| - 1] + [ls[|ls| - 1]];
    }
  }

  lemma {:induction false} PairKeysConcat<V>(a: seq<(string, V)>, b: seq<(string, V)>)
    ensures PairKeys(a + b) == PairKeys(a) + PairKeys(b)
  {
  }

  lemma {:induction false} LastWithConcat<V>(a: seq<(string, V)>, b: seq<(string, V)>, k: string)
    ensures LastWith(a + b, k) == if LastWith(b, k).Some? then LastWith(b, k) else LastWith(a, k)
    decreases |b|
  {
    if b == [] {
      assert a + b == a;
    } else {
      assert (a + b)[..|a + b| - 1] == a + b[..|b| - 1];
      LastWithConcat(a, b[..|b| - 1], k);
    }
  }

  lemma {:induction false} SingleEntry(k: string, v: Value)
    ensures Present([(k, Some(v))]) == [(k, v)]
    ensures ExpandAll([(k, v)]) == Expansion(k, v)
  {
    assert [(k, Some(v))][..0] == [];
    assert [(k, v)][..0] == [];
  }

  /** Assigning one value to distinct keys, into a fresh object. */
  lemma {:induction false} PairsAssigned(ls: seq<string>, v: Value)
    requires forall i, j :: 0 <= i < j < |ls| ==> ls[i] != ls[j]
    ensures Keys(AssignAll([], Pairs(ls, v))) == ls
    ensures forall i :: 0 <= i < |ls| ==> AssignAll([], Pairs(ls, v))[i].1 == Some(v)
  {
    var ps := Pairs(ls, v);
    var out := AssignAll([], ps);
    AssignFromEmpty(ps);
    assert PairKeys(ps) == ls;
    FirstSeenOfUnique(ls);
    forall i | 0 <= i < |ls| ensures out[i].1 == Some(v) {
      GetAt(out, i);
      PairsLastWith(ls, v, out[i].0);
      assert out[i].0 == Keys(out)[i];
    }
  }

  lemma {:induction false} ShorthandStyle(key: string, v: Value)
    requires key in Shorthands
    ensures PreprocessedStyle([(key, Some(v))]) == AssignAll([], Pairs(Shorthands[key], v))
  {
    SingleEntry(key, v);
  }

  /** A table shorthand is replaced by its longhands, in table order, each
      carrying the shorthand's value; the shorthand itself is not kept. */
  lemma {:induction false} ShorthandFansOut(key: string, v: Value)
    requires key in Shorthands
    ensures var out := PreprocessedStyle([(key, Some(v))]);
      && Keys(out) == Shorthands[key]
      && key !in Keys(out)
      && forall i :: 0 <= i < |out| ==> out[i].1 == Some(v)
  {
    var ls := Shorthands[key];
    ShorthandStyle(key, v);
    forall i, j | 0 <= i < j < |ls| ensures ls[i] != ls[j] {
      LonghandsDistinct(key, i, j);
    }
    PairsAssigned(ls, v);
    forall i | 0 <= i < |ls| ensures ls[i] != key {
      ShorthandNotOwnLonghand(key, i);
    }
  }

  lemma {:induction false} BackgroundPositionStyle(v: Value)
    ensures PreprocessedStyle([("backgroundPosition", Some(v))]) == AssignAll([], BackgroundPositionAssignments(v))
  {
    SingleEntry("backgroundPosition", v);
  }

  /** Up to two assignments of one value to distinct keys, into a fresh
      object. */
  lemma {:induction false} OptionalPairAssigned(a: string, b: string, v: Value, useA: bool, useB: bool)
    requires a != b
    ensures AssignAll([], (if useA then [(a, v)] else []) + (if useB then [(b, v)] else []))
            == (if useA then [(a, Some(v))] else []) + (if useB then [(b, Some(v))] else [])
  {
    var xs: seq<(string, Value)> := if useA then [(a, v)] else [];
    var ys: seq<(string, Value)> := if useB then [(b, v)] else [];
    AssignAllConcat([], xs, ys);
    if useA {
      AssignAllSnoc([], [], (a, v));
      assert [] + [(a, v)] == xs;
    }
    if useB {
      AssignAllSnoc(AssignAll([], xs), [], (b, v));
      assert [] + [(b, v)] == ys;
    }
  }

  /** `backgroundPosition` alone yields the X axis unless the value is `top`
      or `bottom`, then the Y axis unless it is `left` or `right`. */
  lemma {:induction false} BackgroundPositionSplits(v: Value)
    ensures PreprocessedStyle([("backgroundPosition", Some(v))])
            == (if v != Str("top") && v != Str("bottom") then [("backgroundPositionX", Some(v))] else [])
               + (if v != Str("left") && v != Str("right") then [("backgroundPositionY", Some(v))] else [])
  {
    BackgroundPositionStyle(v);
    OptionalPairAssigned("backgroundPositionX", "backgroundPositionY", v,
                         v != Str("top") && v != Str("bottom"), v != Str("left") && v != Str("right"));
  }

  /** `flex` alone yields `flexGrow`, `flexShrink: 1` and `flexBasis: "0%"`
      for a non-negative number, and nothing for any other value. */
  lemma {:induction false} FlexExpands(v: Value)
    ensures PreprocessedStyle([("flex", Some(v))])
            == if v.Num? && v.n >= 0
               then [("flexGrow", Some(v)), ("flexShrink", Some(Num(1))), ("flexBasis", Some(Str("0%")))]
               else []
  {
    SingleEntry("flex", v);
    assert Expansion("flex", v) == FlexAssignments(v);
    if v.Num? && v.n >= 0 {
      var p0, p1, p2 := ("flexGrow", v), ("flexShrink", Num(1)), ("flexBasis", Str("0%"));
      AssignAllSnoc([], [], p0);
      assert [] + [p0] == [p0];
      AssignAllSnoc([], [p0], p1);
      assert [p0] + [p1] == [p0, p1];
      AssignAllSnoc([], [p0, p1], p2);
      assert [p0, p1] + [p2] == [p0, p1, p2];
    }
  }

  /** A `null`/`undefined` entry contributes nothing to any of the
      preprocessed forms. */
  lemma {:induction false} NullEntryIgnored(style: Style, k: string)
    ensures PreprocessedStyle(style + [(k, None)]) == PreprocessedStyle(style)
    ensures PreprocessedReset(style + [(k, None)]) == PreprocessedReset(style)
    ensures PreprocessedAtomic(style + [(k, None)]) == PreprocessedAtomic(style)
    ensures PreprocessedKeyframes(style + [(k, None)]) == PreprocessedKeyframes(style)
  {
    PresentSnoc(style, (k, None));
  }

  predicate IsPlainKey(k: string) {
    k !in Shorthands && k != "backgroundPosition" && k != "flex"
  }

  lemma {:induction false} ExpandAllPlain(ps: seq<(string, Value)>)
    requires forall i :: 0 <= i < |ps| ==> IsPlainKey(ps[i].0)
    ensures ExpandAll(ps) == ps
    decreases |ps|
  {
    if ps != [] {
      ExpandAllPlain(ps[..|ps| - 1]);
      assert ps == ps[..|ps| - 1] + [ps[|ps| - 1]];
    }
  }

  /** Keys that are not shorthands are copied: each present key appears once,
      at the position of its first present occurrence, with its last present
      value. */
  lemma {:induction false} PlainStyleCopied(style: Style)
    requires forall i :: 0 <= i < |style| ==> IsPlainKey(style[i].0)
    ensures Keys(PreprocessedStyle(style)) == FirstSeen(PairKeys(Present(style)))
    ensures forall k :: Get(PreprocessedStyle(style), k) == LastWith(Present(style), k)
  {
    var ps := Present(style);
    PresentMembers(style);
    forall i | 0 <= i < |ps| ensures IsPlainKey(ps[i].0) {
      var j :| 0 <= j < |style| && style[j] == (ps[i].0, Some(ps[i].1));
    }
    ExpandAllPlain(ps);
    assert PreprocessedStyle(style) == AssignAll([], ps);
    AssignFromEmpty(ps);
  }

  lemma {:induction false} PresentKeyIn<V>(r: Record<V>, k: string)
    ensures k in PairKeys(Present(r)) <==> exists i :: 0 <= i < |r| && r[i].0 == k && r[i].1.Some?
  {
    var ps := Present(r);
    PresentMembers(r);
    if k in PairKeys(ps) {
      var j :| 0 <= j < |ps| && PairKeys(ps)[j] == k;
      var i :| 0 <= i < |r| && r[i] == (ps[j].0, Some(ps[j].1));
    }
    if exists i :: 0 <= i < |r| && r[i].0 == k && r[i].1.Some? {
      var i :| 0 <= i < |r| && r[i].0 == k && r[i].1.Some?;
      var j :| 0 <= j < |ps| && ps[j] == (r[i].0, r[i].1.value);
      assert PairKeys(ps)[j] == k;
    }
  }

  lemma {:induction false} FrameKeyFrom(keyframes: Style, k: string)
    requires k in PairKeys(Frames(Present(keyframes)))
    ensures exists i :: 0 <= i < |keyframes| && keyframes[i].1.Some? && RenameFrame(keyframes[i].0) == k
  {
    var ps := Present(keyframes);
    PresentMembers(keyframes);
    var fs := Frames(ps);
    var j :| 0 <= j < |fs| && PairKeys(fs)[j] == k;
    assert fs[j].0 == RenameFrame(ps[j].0);
    var i :| 0 <= i < |keyframes| && keyframes[i] == (ps[j].0, Some(ps[j].1));
    assert RenameFrame(keyframes[i].0) == k;
  }

  lemma {:induction false} FrameKeyTo(keyframes: Style, k: string, i: int)
    requires 0 <= i < |keyframes| && keyframes[i].1.Some? && RenameFrame(keyframes[i].0) == k
    ensures k in PairKeys(Frames(Present(keyframes)))
  {
    var ps := Present(keyframes);
    PresentMembers(keyframes);
    var fs := Frames(ps);
    assert (keyframes[i].0, keyframes[i].1.value) in ps;
    var j :| 0 <= j < |ps| && ps[j] == (keyframes[i].0, keyframes[i].1.value);
    assert fs[j].0 == RenameFrame(ps[j].0);
    assert PairKeys(fs)[j] == k;
  }

  lemma {:induction false} KeyframeKey(keyframes: Style, k: string)
    ensures k in Keys(PreprocessedKeyframes(keyframes)) <==>
              exists i :: 0 <= i < |keyframes| && keyframes[i].1.Some? && RenameFrame(keyframes[i].0) == k
  {
    AssignFromEmpty(Frames(Present(keyframes)));
    if k in PairKeys(Frames(Present(keyframes))) {
      FrameKeyFrom(keyframes, k);
    }
    if exists i :: 0 <= i < |keyframes| && keyframes[i].1.Some? && RenameFrame(keyframes[i].0) == k {
      var i :| 0 <= i < |keyframes| && keyframes[i].1.Some? && RenameFrame(keyframes[i].0) == k;
      FrameKeyTo(keyframes, k, i);
    }
  }

  /** The selectors of the preprocessed keyframes are the renamed selectors
      of the present frames; `from` and `to` never remain. */
  lemma {:induction false} KeyframesRenamed(keyframes: Style)
    ensures forall k :: k in Keys(PreprocessedKeyframes(keyframes)) <==>
              exists i :: 0 <= i < |keyframes| && keyframes[i].1.Some? && RenameFrame(keyframes[i].0) == k
    ensures "from" !in Keys(PreprocessedKeyframes(keyframes))
    ensures "to" !in Keys(PreprocessedKeyframes(keyframes))
  {
    forall k {
      KeyframeKey(keyframes, k);
    }
  }

  /** Each preprocessed frame is the preprocessed style of the last present
      frame whose selector renames to it. */
  lemma {:induction false} KeyframeValue(keyframes: Style, k: string)
    requires Get(PreprocessedKeyframes(keyframes), k).Some?
    ensures exists i :: 0 <= i < |keyframes| && keyframes[i].1.Some? && RenameFrame(keyframes[i].0) == k
              && Get(PreprocessedKeyframes(keyframes), k) == Some(Obj(PreprocessedStyle(Fields(keyframes[i].1.value))))
  {
    var ps := Present(keyframes);
    PresentMembers(keyframes);
    var fs := Frames(ps);
    AssignAllGet([], fs, k);
    LastWithSome(fs, k);
    var j :| 0 <= j < |fs| && fs[j] == (k, LastWith(fs, k).value) && forall j' :: j < j' < |fs| ==> fs[j'].0 != k;
    var i :| 0 <= i < |keyframes| && keyframes[i] == (ps[j].0, Some(ps[j].1));
    assert fs[j] == (RenameFrame(ps[j].0), Obj(PreprocessedStyle(Fields(ps[j].1))));
  }

  lemma {:induction false} ExpansionNoPseudo(key: string, v: Value, j: int)
    requires !IsPseudoKey(key) && 0 <= j < |Expansion(key, v)|
    ensures !IsPseudoKey(Expansion(key, v)[j].0)
  {
    if key in Shorthands {
      LonghandsNotPseudo(key, j);
    }
  }

  lemma {:induction false} ExpandAllNoPseudo(ps: seq<(string, Value)>, j: int)
    requires forall i :: 0 <= i < |ps| ==> !IsPseudoKey(ps[i].0)
    requires 0 <= j < |ExpandAll(ps)|
    ensures !IsPseudoKey(ExpandAll(ps)[j].0)
    decreases |ps|
  {
    var init := ps[..|ps| - 1];
    var last := ps[|ps| - 1];
    var e := ExpandAll(init);
    if j < |e| {
      ExpandAllNoPseudo(init, j);
    } else {
      ExpansionNoPseudo(last.0, last.1, j - |e|);
    }
  }

  /** A reset style keeps no pseudo-state key, and its preprocessed keys are
      unique. */
  lemma {:induction false} ResetDropsPseudo(style: Style)
    ensures forall k :: k in Keys(PreprocessedReset(style)) ==> !IsPseudoKey(k)
    ensures UniqueKeys(PreprocessedReset(style))
  {
    var es := ExpandAll(BaseEntries(Present(style)));
    AssignAllKeys([], es);
    var none: Record<Value> := [];
    assert Keys(none) + PairKeys(es) == PairKeys(es);
    FirstSeenMembers(PairKeys(es));
    forall k | k in PairKeys(es) ensures !IsPseudoKey(k) {
      var j :| 0 <= j < |es| && PairKeys(es)[j] == k;
      ExpandAllNoPseudo(BaseEntries(Present(style)), j);
    }
  }

  /** The pseudo-state keys present in `ps`, in the fixed order. */
  function PresentPseudo(ps: seq<(string, Value)>): (ks: seq<string>)
    ensures forall i :: 0 <= i < |ks| ==> IsPseudoKey(ks[i]) && LastWith(ps, ks[i]).Some?
    ensures forall i, j :: 0 <= i < j < |ks| ==> ks[i] != ks[j]
  {
    (if LastWith(ps, ":hover").Some? then [":hover"] else [])
    + (if LastWith(ps, ":focus").Some? then [":focus"] else [])
    + (if LastWith(ps, ":active").Some? then [":active"] else [])
  }

  lemma {:induction false} BucketFacts(ps: seq<(string, Value)>, k: string, k': string)
    ensures PairKeys(Bucket(ps, k)) == if LastWith(ps, k).Some? then [k] else []
    ensures LastWith(Bucket(ps, k), k') ==
              if k' == k && LastWith(ps, k).Some? then Some(Obj(PreprocessedStyle(Fields(LastWith(ps, k).value)))) else None
  {
    if LastWith(ps, k).Some? {
      assert Bucket(ps, k)[..0] == [];
    }
  }

  lemma {:induction false} PseudoBucketKeys(ps: seq<(string, Value)>)
    ensures PairKeys(PseudoBuckets(ps)) == PresentPseudo(ps)
  {
    var bh, bf, ba := Bucket(ps, ":hover"), Bucket(ps, ":focus"), Bucket(ps, ":active");
    PairKeysConcat(bh, bf);
    PairKeysConcat(bh + bf, ba);
    BucketFacts(ps, ":hover", ":hover");
    BucketFacts(ps, ":focus", ":focus");
    BucketFacts(ps, ":active", ":active");
  }

  lemma {:induction false} PseudoBucketValue(ps: seq<(string, Value)>, k: string)
    ensures LastWith(PseudoBuckets(ps), k) ==
              if IsPseudoKey(k) && LastWith(ps, k).Some? then Some(Obj(PreprocessedStyle(Fields(LastWith(ps, k).value)))) else None
  {
    var bh, bf, ba := Bucket(ps, ":hover"), Bucket(ps, ":focus"), Bucket(ps, ":active");
    BucketFacts(ps, ":hover", k);
    BucketFacts(ps, ":focus", k);
    BucketFacts(ps, ":active", k);
    LastWithConcat(bh, bf, k);
    LastWithConcat(bh + bf, ba, k);
  }

  /** `preprocessAtomicStyle` keeps the base keys in the order and with the
      values `preprocessResetStyle` gives them, then appends each present
      pseudo-state bucket in the order `:hover`, `:focus`, `:active`, whatever
      their order in the input. */
  lemma {:induction false} AtomicKeys(style: Style)
    ensures Keys(PreprocessedAtomic(style)) == Keys(PreprocessedReset(style)) + PresentPseudo(Present(style))
  {
    var ps := Present(style);
    PresentMembers(style);
    var base := PreprocessedReset(style);
    ResetDropsPseudo(style);
    AssignAllKeys(base, PseudoBuckets(ps));
    PseudoBucketKeys(ps);
    BaseThenPseudoUnique(Keys(base), PresentPseudo(ps));
    FirstSeenOfUnique(Keys(base) + PresentPseudo(ps));
  }

  lemma {:induction false} BaseThenPseudoUnique(base: seq<string>, pseudo: seq<string>)
    requires forall i, j :: 0 <= i < j < |base| ==> base[i] != base[j]
    requires forall i :: 0 <= i < |base| ==> !IsPseudoKey(base[i])
    requires forall i, j :: 0 <= i < j < |pseudo| ==> pseudo[i] != pseudo[j]
    requires forall i :: 0 <= i < |pseudo| ==> IsPseudoKey(pseudo[i])
    ensures forall i, j :: 0 <= i < j < |base + pseudo| ==> (base + pseudo)[i] != (base + pseudo)[j]
  {
    var all := base + pseudo;
    forall i, j | 0 <= i < j < |all| ensures all[i] != all[j] {
      if j >= |base| && i < |base| {
        assert !IsPseudoKey(all[i]) && IsPseudoKey(all[j]);
      } else if i >= |base| {
        assert all[i] == pseudo[i - |base|] && all[j] == pseudo[j - |base|];
      }
    }
  }

  /** A base key has the value `preprocessResetStyle` gives it; a pseudo-state
      key holds the preprocessed last present bucket of that name. */
  lemma {:induction false} AtomicValue(style: Style, k: string)
    ensures Get(PreprocessedAtomic(style), k) ==
              if !IsPseudoKey(k) then Get(PreprocessedReset(style), k)
              else if LastWith(Present(style), k).Some? then Some(Obj(PreprocessedStyle(Fields(LastWith(Present(style), k).value))))
              else None
  {
    var ps := Present(style);
    PresentMembers(style);
    var base := PreprocessedReset(style);
    AssignAllGet(base, PseudoBuckets(ps), k);
    PseudoBucketValue(ps, k);
    ResetDropsPseudo(style);
    var i := IndexOf(base, k);
    assert i >= 0 ==> Keys(base)[i] == k;
  }

  // ----- the TypeScript shapes survive preprocessing -----

  function ScalarEntry(k: string, v: Value): bool {
    IsScalar(v)
  }

  function NestedEntry(k: string, v: Value): bool {
    if IsPseudoKey(k) then v.Obj? && IsFlat(v.fields) else IsScalar(v)
  }

  function FrameEntry(k: string, v: Value): bool {
    v.Obj? && IsFlat(v.fields)
  }

  /** The present entries of a flat object carry strings or numbers. */
  lemma PresentScalar(style: Style)
    requires IsFlat(style)
    ensures forall i :: 0 <= i < |Present(style)| ==> IsScalar(Present(style)[i].1)
  {
    var ps := Present(style);
    PresentMembers(style);
    forall i | 0 <= i < |ps| ensures IsScalar(ps[i].1) {
      var j :| 0 <= j < |style| && style[j] == (ps[i].0, Some(ps[i].1));
    }
  }

  /** Expansion copies the value or writes a number or a string. */
  lemma {:induction false} ExpandAllScalar(ps: seq<(string, Value)>)
    requires forall i :: 0 <= i < |ps| ==> IsScalar(ps[i].1)
    ensures forall i :: 0 <= i < |ExpandAll(ps)| ==> ScalarEntry(ExpandAll(ps)[i].0, ExpandAll(ps)[i].1)
    decreases |ps|
  {
    if ps != [] {
      var init := ps[..|ps| - 1];
      assert forall i :: 0 <= i < |init| ==> init[i] == ps[i];
      ExpandAllScalar(init);
    }
  }

  /** `preprocessStyle` turns a flat style into a flat style. */
  lemma FlatStyleKept(style: Style)
    requires IsFlat(style)
    ensures IsFlat(PreprocessedStyle(style))
  {
    PresentScalar(style);
    ExpandAllScalar(Present(style));
    AssignAllKeeps([], ExpandAll(Present(style)), ScalarEntry);
  }

  /** `preprocessResetStyle` turns a nestable style into a flat one. */
  lemma ResetIsFlat(style: Style)
    requires IsNestable(style)
    ensures IsFlat(PreprocessedReset(style))
  {
    var ps := Present(style);
    PresentMembers(style);
    var b := BaseEntries(ps);
    forall i | 0 <= i < |b| ensures IsScalar(b[i].1) {
      var j :| 0 <= j < |ps| && ps[j] == b[i];
      var m :| 0 <= m < |style| && style[m] == (ps[j].0, Some(ps[j].1));
    }
    ExpandAllScalar(b);
    AssignAllKeeps([], ExpandAll(b), ScalarEntry);
  }

  /** `preprocessAtomicStyle` turns a nestable style into a nestable one. */
  lemma AtomicIsNestable(style: Style)
    requires IsNestable(style)
    ensures IsNestable(PreprocessedAtomic(style))
  {
    var ps := Present(style);
    PresentMembers(style);
    var base := PreprocessedReset(style);
    ResetIsFlat(style);
    ResetDropsPseudo(style);
    forall i | 0 <= i < |base| && base[i].1.Some? ensures NestedEntry(base[i].0, base[i].1.value) {
      assert Keys(base)[i] == base[i].0;
    }
    var bs := PseudoBuckets(ps);
    forall i | 0 <= i < |bs| ensures NestedEntry(bs[i].0, bs[i].1) {
      BucketEntry(style, ":hover");
      BucketEntry(style, ":focus");
      BucketEntry(style, ":active");
    }
    AssignAllKeeps(base, bs, NestedEntry);
  }

  lemma BucketEntry(style: Style, k: string)
    requires IsNestable(style) && IsPseudoKey(k)
    ensures forall i :: 0 <= i < |Bucket(Present(style), k)| ==>
              NestedEntry(Bucket(Present(style), k)[i].0, Bucket(Present(style), k)[i].1)
  {
    var ps := Present(style);
    PresentMembers(style);
    LastWithSome(ps, k);
    if LastWith(ps, k).Some? {
      var v := LastWith(ps, k).value;
      var i :| 0 <= i < |ps| && ps[i] == (k, v) && forall j :: i < j < |ps| ==> ps[j].0 != k;
      var m :| 0 <= m < |style| && style[m] == (k, Some(v));
      FlatStyleKept(Fields(v));
    }
  }

  /** `preprocessKeyframes` keeps every frame a flat object. */
  lemma KeyframesKept(keyframes: Style)
    requires IsKeyframes(keyframes)
    ensures IsKeyframes(PreprocessedKeyframes(keyframes))
  {
    var ps := Present(keyframes);
    PresentMembers(keyframes);
    var fs := Frames(ps);
    forall i | 0 <= i < |fs| ensures FrameEntry(fs[i].0, fs[i].1) {
      var m :| 0 <= m < |keyframes| && keyframes[m] == (ps[i].0, Some(ps[i].1));
      FlatStyleKept(Fields(ps[i].1));
    }
    AssignAllKeeps([], fs, FrameEntry);
  }
}
