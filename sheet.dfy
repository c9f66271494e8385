/** src/sheet.ts: the runtime engine `createSheet`. Each of its six slots is
    a media rule of the document's style sheet, or missing; the engine
    appends a rule to a slot's media rule when the host accepts it, and
    does nothing for a slot that has none. Its caches are those its own
    `cx` reads. */
module Sheet {
  import opened Types
  import opened Utils
  import opened Records
  import opened Preprocess
  import opened Cx
  import Classes = Cx
  import opened Host
  import opened Engine
  import opened EngineLaws
  import HyphenateName
  import NormalizeValue

  /** The state of one `createSheet()` call: the keyframes names, the class
      caches, and what the engine appended to each of the six media rules. */
  class SheetEngine {
    const f: Foreign
    const h: Hosting
    /** The media rule behind each slot (`getMediaRule`), if any, with the
        rules it held at start-up. */
    const hosts: seq<Option<seq<HostRule>>>
    const caches: Caches
    var keyframesNames: set<string>
    /** The rules appended to each slot's media rule, in insertion order. */
    var inserted: seq<seq<string>>

    ghost predicate Valid()
      reads this
    {
      && |hosts| == 6 && |inserted| == 6
      && h.keyframes == hosts[0].Some? && h.reset == hosts[1].Some? && h.atomic == hosts[2].Some?
      && h.hover == hosts[3].Some? && h.focus == hosts[4].Some? && h.active == hosts[5].Some?
    }

    function State(): Store
      requires |inserted| == 6
      reads this, caches
    {
      Store(keyframesNames, caches.View(), inserted[0], inserted[1], inserted[2], inserted[3], inserted[4], inserted[5])
    }

    /** `createSheet()` up to its closures (sheet.ts:105-174): the six media
        rules and the names and caches rehydrated from the rules they
        already hold; a missing media rule is skipped. `sheet` says whether
        the style element has a sheet, `current[i]` is the media rule
        already at index `i`, `created[i]` whether the host accepted the
        empty one inserted there, and `accepts` whether it accepts a rule
        text. */
    constructor (f: Foreign, accepts: string -> bool, sheet: bool, current: seq<Option<seq<HostRule>>>, created: seq<bool>)
      requires |current| == 6 && |created| == 6
      ensures Valid() && fresh(caches) && this.f == f
      ensures forall i :: 0 <= i < 6 ==> hosts[i] == MediaRule(sheet, current[i], created[i])
      ensures h == Hosting(accepts, hosts[0].Some?, hosts[1].Some?, hosts[2].Some?, hosts[3].Some?, hosts[4].Some?, hosts[5].Some?)
      ensures State() == Store(
        NamesIn(RulesIn(hosts[0])),
        CacheView(ClassNamesIn(RulesIn(hosts[1])), PropertiesIn(RulesIn(hosts[2])), PropertiesIn(RulesIn(hosts[3])),
                  PropertiesIn(RulesIn(hosts[4])), PropertiesIn(RulesIn(hosts[5]))),
        [], [], [], [], [], [])
    {
      var hs := seq(6, i requires 0 <= i < 6 => MediaRule(sheet, current[i], created[i]));
      var names := RehydrateNames(RulesIn(hs[0]));
      var c := RehydrateCaches(hs);
      this.f := f;
      hosts := hs;
      h := Hosting(accepts, hs[0].Some?, hs[1].Some?, hs[2].Some?, hs[3].Some?, hs[4].Some?, hs[5].Some?);
      keyframesNames := names;
      inserted := [[], [], [], [], [], []];
      caches := c;
    }

    /** `insertRule(sheet, rule)`: the rule is appended to the media rule of
        slot `i` when the host accepts it; a refusal is swallowed. */
    method InsertRule(i: nat, rule: string)
      requires Valid() && i < 6 && hosts[i].Some?
      modifies this
      ensures Valid() && keyframesNames == old(keyframesNames)
      ensures inserted == old(inserted)[i := AddRule(SheetTs, true, h.accepts, old(inserted[i]), rule)]
    {
      if h.accepts(rule) {
        inserted := inserted[i := inserted[i] + [rule]];
      }
    }

    /** One declaration of `insertAtomicRules` or of a pseudo-state helper,
        once its media rule is known to exist: on a cache miss the class is
        recorded with its property and the rule inserted. */
    method InsertDeclaration(d: Decl) returns (className: string)
      requires Valid() && Live(SheetTs, h, d.layer)
      modifies this, caches
      ensures Valid()
      ensures className == ClassOf(f, d)
      ensures State() == InsertDecl(SheetTs, f, h, old(State()), d)
    {
      match d.layer
      case Atomic =>
        className := "x-" + f.hash(d.rule);
        assert RuleText(SheetTs, f, d) == "." + className + " { " + d.rule + " }";
        if className !in caches.atomic {
          caches.atomic := caches.atomic[className := Some(d.property)];
          InsertRule(2, "." + className + " { " + d.rule + " }");
        }
      case Hover =>
        className := "h-" + f.hash(d.rule);
        assert RuleText(SheetTs, f, d) == "." + className + ":hover { " + d.rule + " }";
        if className !in caches.hover {
          caches.hover := caches.hover[className := Some(d.property)];
          InsertRule(3, "." + className + ":hover { " + d.rule + " }");
        }
      case Focus =>
        className := "f-" + f.hash(d.rule);
        assert RuleText(SheetTs, f, d) == "." + className + ":focus-visible { " + d.rule + " }";
        if className !in caches.focus {
          caches.focus := caches.focus[className := Some(d.property)];
          InsertRule(4, "." + className + ":focus-visible { " + d.rule + " }");
        }
      case Active =>
        className := "a-" + f.hash(d.rule);
        assert RuleText(SheetTs, f, d) == "." + className + ":active { " + d.rule + " }";
        if className !in caches.active {
          caches.active := caches.active[className := Some(d.property)];
          InsertRule(5, "." + className + ":active { " + d.rule + " }");
        }
    }

    /** `insertHoverRules`, `insertFocusRules` and `insertActiveRules`, for
        the layer `l`: `""` and no change without that layer's media rule,
        otherwise the classes of the bucket's declarations. They are only
        called by `insertAtomicRules`, once the atomic media rule exists. */
    method InsertPseudoRules(l: Layer, style: Style) returns (classNames: string)
      requires Valid() && h.atomic && l != Atomic && IsFlat(style)
      modifies this, caches
      ensures Valid()
      ensures classNames == if Hosted(h, l) then FoldAppend("", ClassList(f, BucketDeclsOf(SheetTs, f, l, style))) else ""
      ensures State() == InsertDecls(SheetTs, f, h, old(State()), BucketDeclsOf(SheetTs, f, l, style))
    {
      classNames := "";
      if !Hosted(h, l) {
        InsertDeclsCached(SheetTs, f, h, State(), BucketDeclsOf(SheetTs, f, l, style));
        return;
      }
      ghost var s0 := State();
      for i := 0 to |style|
        invariant Valid()
        invariant IsFlat(style[..i])
        invariant classNames == FoldAppend("", ClassList(f, BucketDeclsOf(SheetTs, f, l, style[..i])))
        invariant State() == InsertDecls(SheetTs, f, h, s0, BucketDeclsOf(SheetTs, f, l, style[..i]))
      {
        BucketStep(SheetTs, f, l, style, i);
        if style[i].1.Some? {
          var key, value := style[i].0, style[i].1.value;
          var className := InsertDeclaration(Decl(l, key, StringifyRule(SheetTs, f, key, value)));
          FoldAppendSnoc("", ClassList(f, BucketDeclsOf(SheetTs, f, l, style[..i])), className);
          classNames := AppendString(classNames, className);
        }
      }
      assert style[..|style|] == style;
    }

    /** The class string one present entry of `insertAtomicRules` appends: a
        pseudo-state helper's result, or the class of one declaration. */
    method InsertEntry(key: string, value: Value) returns (className: string)
      requires Valid() && h.atomic && NestedEntry(key, value)
      modifies this, caches
      ensures Valid()
      ensures className == Chunk(f, h, key, value)
      ensures State() == InsertDecls(SheetTs, f, h, old(State()), EntryDecls(SheetTs, f, key, value))
    {
      if key == ":hover" || key == ":focus" || key == ":active" {
        className := InsertPseudoRules(LayerOfKey(key), value.fields);
      } else {
        var d := Decl(Atomic, key, StringifyRule(SheetTs, f, key, value));
        InsertDeclsSingle(SheetTs, f, h, State(), d);
        className := InsertDeclaration(d);
      }
    }

    /** One iteration of `insertAtomicRules`' loop: the entry at `i`, when
        present, is handled and its class string appended. */
    method AtomicIteration(style: Style, i: int, ghost s0: Store, classNames: string) returns (next: string)
      requires Valid() && h.atomic && IsNestable(style) && 0 <= i < |style| && AllNested(Present(style[..i]))
      requires classNames == FoldAppend("", Chunks(f, h, Present(style[..i])))
      requires State() == InsertDecls(SheetTs, f, h, s0, StyleDecls(SheetTs, f, Present(style[..i])))
      modifies this, caches
      ensures Valid() && AllNested(Present(style[..i + 1]))
      ensures next == FoldAppend("", Chunks(f, h, Present(style[..i + 1])))
      ensures State() == InsertDecls(SheetTs, f, h, s0, StyleDecls(SheetTs, f, Present(style[..i + 1])))
    {
      ChunksStep(f, h, style, i);
      next := classNames;
      if style[i].1.Some? {
        AtomicStep(SheetTs, f, h, s0, style, i);
        var className := InsertEntry(style[i].0, style[i].1.value);
        FoldAppendSnoc("", Chunks(f, h, Present(style[..i])), className);
        next := AppendString(classNames, className);
      } else {
        StyleDeclsStep(SheetTs, f, style, i);
      }
    }

    /** `insertAtomicRules`: `""` and no change without the atomic media
        rule; otherwise each present entry's class string appended in
        visiting order, the empty ones included. */
    method InsertAtomicRules(style: Style) returns (classNames: string)
      requires Valid() && IsNestable(style)
      modifies this, caches
      ensures Valid()
      ensures classNames == AtomicOutput(SheetTs, f, h, style)
      ensures State() == AtomicAfter(SheetTs, f, h, old(State()), style)
    {
      classNames := "";
      PresentNested(style);
      if hosts[2].None? {
        InsertDeclsCached(SheetTs, f, h, State(), StyleDecls(SheetTs, f, Present(style)));
        return;
      }
      ghost var s0 := State();
      assert style[..0] == [];
      for i := 0 to |style|
        invariant Valid()
        invariant AllNested(Present(style[..i]))
        invariant classNames == FoldAppend("", Chunks(f, h, Present(style[..i])))
        invariant State() == InsertDecls(SheetTs, f, h, s0, StyleDecls(SheetTs, f, Present(style[..i])))
      {
        classNames := AtomicIteration(style, i, s0, classNames);
      }
      assert style[..|style|] == style;
    }

    /** The declarations of a flat style stringified and appended in
        visiting order, as `insertResetRule` and each frame of
        `insertKeyframes` build their `rules`. */
    method RulesText(style: Style) returns (rules: string)
      requires IsFlat(style)
      ensures rules == FoldAppend("", FlatTextsOf(SheetTs, f, style))
    {
      rules := "";
      assert style[..0] == [];
      for i := 0 to |style|
        invariant IsFlat(style[..i])
        invariant rules == FoldAppend("", FlatTextsOf(SheetTs, f, style[..i]))
      {
        FlatTextsStep(SheetTs, f, style, i);
        if style[i].1.Some? {
          var t := StringifyRule(SheetTs, f, style[i].0, style[i].1.value);
          FoldAppendSnoc("", FlatTextsOf(SheetTs, f, style[..i]), t);
          rules := AppendString(rules, t);
        }
      }
      assert style[..|style|] == style;
    }

    /** `insertResetRule`: `""` without the reset media rule; otherwise the
        reset class of the style, recorded and its rule inserted once. */
    method InsertResetRule(style: Style) returns (className: string)
      requires Valid() && IsFlat(style)
      modifies this, caches
      ensures Valid()
      ensures className == ResetOutput(SheetTs, f, h, style)
      ensures State() == ResetAfter(SheetTs, f, h, old(State()), style)
    {
      if hosts[1].None? {
        return "";
      }
      var rules := RulesText(style);
      className := "r-" + f.hash(rules);
      if className !in caches.reset {
        caches.reset := caches.reset + {className};
        InsertRule(1, "." + className + " { " + rules + " }");
      }
    }

    /** The body `insertKeyframes` builds: each frame as `key { rules }`,
        appended with spaces. */
    method KeyframesBodyText(keyframes: Style) returns (body: string)
      requires IsKeyframes(keyframes)
      ensures body == KeyframesBody(SheetTs, f, keyframes)
    {
      body := "";
      assert keyframes[..0] == [];
      for i := 0 to |keyframes|
        invariant IsKeyframes(keyframes[..i])
        invariant body == FoldAppend("", FrameTextsOf(SheetTs, f, keyframes[..i]))
      {
        FrameTextsStep(SheetTs, f, keyframes, i);
        if keyframes[i].1.Some? {
          var key, value := keyframes[i].0, keyframes[i].1.value;
          var rules := RulesText(value.fields);
          FoldAppendSnoc("", FrameTextsOf(SheetTs, f, keyframes[..i]), FrameText(SheetTs, f, key, value));
          body := AppendString(body, key + " { " + rules + " }");
        }
      }
      assert keyframes[..|keyframes|] == keyframes;
    }

    /** `insertKeyframes`: `undefined` without the keyframes media rule;
        otherwise the keyframes name, recorded and its rule inserted once. */
    method InsertKeyframes(keyframes: Style) returns (name: Option<string>)
      requires Valid() && IsKeyframes(keyframes)
      modifies this
      ensures Valid()
      ensures name == KeyframesOutput(SheetTs, f, h, keyframes)
      ensures State() == KeyframesAfter(SheetTs, f, h, old(State()), keyframes)
    {
      if hosts[0].None? {
        return None;
      }
      var body := KeyframesBodyText(keyframes);
      var n := "k-" + f.hash(body);
      if n !in keyframesNames {
        keyframesNames := keyframesNames + {n};
        InsertRule(0, "@keyframes " + n + " { " + body + " }");
      }
      name := Some(n);
    }

    /** `cx` of `createSheet` (sheet.ts:322-381): it reads this engine's
        caches only. */
    method Cx(items: seq<ClassName>) returns (output: string)
      ensures output == CxString(SheetCx, caches.View(), items)
    {
      output := Classes.Cx(SheetCx, caches, items);
    }
  }

  // ----- what sheet.ts appends, against src/css.ts -----

  /** Every pseudo-state bucket among the entries has a present
      declaration. */
  predicate NoEmptyBucket(ps: seq<(string, Value)>) {
    forall i :: 0 <= i < |ps| && IsPseudoKey(ps[i].0) ==> ps[i].1.Obj? && Present(ps[i].1.fields) != []
  }

  /** Classes of declarations are never empty. */
  lemma ClassListNonEmpty(f: Foreign, ds: seq<Decl>)
    ensures AllNonEmpty(ClassList(f, ds))
  {
    var cs := ClassList(f, ds);
    forall i | 0 <= i < |cs| ensures cs[i] != "" {
      assert cs[i] == Prefix(ds[i].layer) + f.hash(ds[i].rule);
    }
  }

  /** Appending the space-joined tokens at once is appending them one by
      one, when there is at least one and none is empty. */
  lemma AppendJoined(acc: string, ts: seq<string>)
    requires ts != [] && AllNonEmpty(ts)
    ensures AppendString(acc, FoldAppend("", ts)) == FoldAppend(acc, ts)
  {
    FoldAppendJoins("", ts);
    FoldAppendJoins(acc, ts);
    if acc != "" {
      JoinSpacesCons(acc, ts);
    }
  }

  /** One entry's chunk appends exactly the classes of its declarations,
      when its layer is hosted and its bucket is not empty. */
  lemma ChunkAppends(f: Foreign, h: Hosting, acc: string, k: string, v: Value)
    requires NestedEntry(k, v) && h.hover && h.focus && h.active
    requires IsPseudoKey(k) ==> Present(v.fields) != []
    ensures AppendString(acc, Chunk(f, h, k, v)) == FoldAppend(acc, ClassList(f, EntryDecls(SheetTs, f, k, v)))
  {
    var cs := ClassList(f, EntryDecls(SheetTs, f, k, v));
    ClassListNonEmpty(f, EntryDecls(SheetTs, f, k, v));
    if IsPseudoKey(k) {
      PresentScalar(v.fields);
      AppendJoined(acc, cs);
    } else {
      FoldAppendSingle(acc, ClassOf(f, Decl(Atomic, k, StringifyRule(SheetTs, f, k, v))));
    }
  }

  lemma ChunksSnoc(f: Foreign, h: Hosting, ps: seq<(string, Value)>)
    requires AllNested(ps) && ps != []
    ensures AllNested(ps[..|ps| - 1])
    ensures FoldAppend("", Chunks(f, h, ps))
            == AppendString(FoldAppend("", Chunks(f, h, ps[..|ps| - 1])), Chunk(f, h, ps[|ps| - 1].0, ps[|ps| - 1].1))
  {
    var init := ps[..|ps| - 1];
    assert forall i :: 0 <= i < |init| ==> init[i] == ps[i];
    var c := Chunk(f, h, ps[|ps| - 1].0, ps[|ps| - 1].1);
    FoldAppendSnoc("", Chunks(f, h, init), c);
  }

  lemma ClassListSnoc(f: Foreign, ps: seq<(string, Value)>)
    requires AllNested(ps) && ps != []
    ensures AllNested(ps[..|ps| - 1])
    ensures FoldAppend("", ClassList(f, StyleDecls(SheetTs, f, ps)))
            == FoldAppend(FoldAppend("", ClassList(f, StyleDecls(SheetTs, f, ps[..|ps| - 1]))),
                          ClassList(f, EntryDecls(SheetTs, f, ps[|ps| - 1].0, ps[|ps| - 1].1)))
  {
    var init := ps[..|ps| - 1];
    assert forall i :: 0 <= i < |init| ==> init[i] == ps[i];
    var (k, v) := ps[|ps| - 1];
    ClassListConcat(f, StyleDecls(SheetTs, f, init), EntryDecls(SheetTs, f, k, v));
    FoldAppendConcat("", ClassList(f, StyleDecls(SheetTs, f, init)), ClassList(f, EntryDecls(SheetTs, f, k, v)));
  }

  /** With every layer hosted and no empty bucket, the chunks sheet.ts
      appends spell the class list of the style's declarations: the same
      shape src/css.ts returns. */
  lemma {:induction false} ChunksSpellClassList(f: Foreign, h: Hosting, ps: seq<(string, Value)>)
    requires AllNested(ps) && NoEmptyBucket(ps) && h.hover && h.focus && h.active
    ensures FoldAppend("", Chunks(f, h, ps)) == FoldAppend("", ClassList(f, StyleDecls(SheetTs, f, ps)))
    decreases |ps|
  {
    if ps != [] {
      var init := ps[..|ps| - 1];
      assert NoEmptyBucket(init) by {
        assert forall i :: 0 <= i < |init| ==> init[i] == ps[i];
      }
      ChunksSnoc(f, h, ps);
      ClassListSnoc(f, ps);
      ChunksSpellClassList(f, h, init);
      ChunkAppends(f, h, FoldAppend("", ClassList(f, StyleDecls(SheetTs, f, init))), ps[|ps| - 1].0, ps[|ps| - 1].1);
    }
  }

  /** `insertAtomicRules` returns the classes of the style's declarations
      joined by single spaces when every media rule it writes to exists and
      no pseudo-state bucket is empty. */
  lemma AtomicOutputSpellsClasses(f: Foreign, h: Hosting, style: Style)
    requires IsNestable(style) && h.atomic && h.hover && h.focus && h.active
    requires AllNested(Present(style)) && NoEmptyBucket(Present(style))
    ensures AtomicOutput(SheetTs, f, h, style) == JoinSpaces(ClassList(f, StyleDecls(SheetTs, f, Present(style))))
  {
    ChunksSpellClassList(f, h, Present(style));
    ClassListNonEmpty(f, StyleDecls(SheetTs, f, Present(style)));
    FoldAppendJoinsFromEmpty(ClassList(f, StyleDecls(SheetTs, f, Present(style))));
  }

  lemma PresentPair<V>(k1: string, v1: V, k2: string, v2: V)
    ensures Present([(k1, Some(v1)), (k2, Some(v2))]) == [(k1, v1), (k2, v2)]
  {
    assert [(k1, Some(v1)), (k2, Some(v2))] == [(k1, Some(v1))] + [(k2, Some(v2))];
    PresentSnoc([(k1, Some(v1))], (k2, Some(v2)));
    assert [] + [(k1, Some(v1))] == [(k1, Some(v1))];
    PresentSnoc([], (k1, Some(v1)));
  }

  /** The other side: a pseudo-state bucket whose media rule is missing
      still appends its `""`, which leaves a trailing space after the class
      before it (sheet.ts:297-316). */
  lemma MissingLayerLeavesSpace(f: Foreign, h: Hosting, k: string, v: Value, bucket: Style)
    requires h.atomic && !h.hover && IsScalar(v) && !IsPseudoKey(k) && IsFlat(bucket)
    ensures IsNestable([(k, Some(v)), (":hover", Some(Obj(bucket)))])
    ensures AtomicOutput(SheetTs, f, h, [(k, Some(v)), (":hover", Some(Obj(bucket)))])
            == ClassOf(f, Decl(Atomic, k, StringifyRule(SheetTs, f, k, v))) + " "
  {
    var style := [(k, Some(v)), (":hover", Some(Obj(bucket)))];
    var ps := [(k, v), (":hover", Obj(bucket))];
    PresentPair(k, v, ":hover", Obj(bucket));
    PresentNested(style);
    var c := ClassOf(f, Decl(Atomic, k, StringifyRule(SheetTs, f, k, v)));
    assert Chunks(f, h, ps) == [c, ""] by {
      assert ps[..1] == [(k, v)] && [(k, v)][..0] == [];
      assert Chunks(f, h, [(k, v)]) == [c];
    }
    TrailingSpace(c);
  }

  lemma TrailingSpace(c: string)
    requires c != ""
    ensures FoldAppend("", [c, ""]) == c + " "
  {
    assert [c, ""][1..] == [""];
    assert [""][1..] == [];
  }

  // ----- the arguments of normalizeValue -----

  /** sheet.ts:64 as written: a plain length is written with the property
      name as its value. */
  lemma StringifyAsWrittenSwaps(f: Foreign)
    ensures StringifyAsWritten(f, "width", Num(100)) == "width: width;"
  {
    HyphenateWidth();
    NatHundred();
    assert "100" !in NormalizeValue.ColorProperties;
  }

  /** The corrected stringification writes the normalised value. */
  lemma StringifyRuleNormalizes(f: Foreign)
    ensures StringifyRule(SheetTs, f, "width", Num(100)) == "width: 100px;"
  {
    HyphenateWidth();
    NatHundred();
    assert "width" !in NormalizeValue.UnitlessProperties;
  }

  lemma HyphenateWidth()
    ensures HyphenateName.Hyphenate("width") == "width"
  {
    HyphenateName.HyphenateNoUpper("width");
  }

  lemma NatHundred()
    ensures NormalizeValue.IntText(100) == "100"
  {
    assert NormalizeValue.NatText(1) == "1";
    assert NormalizeValue.NatText(10) == "10";
  }
}
