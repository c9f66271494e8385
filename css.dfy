/** src/css.ts: the build-time engine. Each of its six slots keeps the set of
    rule texts it was given, in insertion order, and writes them out as one
    media block of the CSS file; a slot backed by a host media rule keeps a
    rule only when the host accepted it. Its caches are the ones src/cx.ts
    reads. */
module Css {
  import opened Types
  import opened Utils
  import opened Records
  import opened Preprocess
  import opened Cx
  import opened Host
  import opened Engine
  import opened EngineLaws

  /** No rule text occurs twice. */
  predicate Distinct(rules: seq<string>) {
    forall i, j :: 0 <= i < j < |rules| ==> rules[i] != rules[j]
  }

  lemma SetAddDistinct(rules: seq<string>, t: string)
    requires Distinct(rules)
    ensures Distinct(SetAdd(rules, t)) && t in SetAdd(rules, t)
    ensures SetAdd(SetAdd(rules, t), t) == SetAdd(rules, t)
  {
  }

  /** The media query of each slot, by its index in the style sheet:
      keyframes, reset, atomic, hover, focus, active. */
  const Media: seq<string> := ["all", "all", "all", "(hover:hover)", "all", "all"]

  /** `toString` of a slot: `@media M{...}` with the rules concatenated, or
      `@media M{}` when there are none. */
  function Render(media: string, rules: seq<string>): string {
    if |rules| > 0 then "@media " + media + "{" + Join(rules, "") + "}" else "@media " + media + "{}"
  }

  /** The empty case of `toString` writes what joining no rules would:
      every slot is one media block whatever it holds. */
  lemma RenderUniform(media: string, rules: seq<string>)
    ensures Render(media, rules) == "@media " + media + "{" + Join(rules, "") + "}"
  {
  }

  /** `getCssFileContent`: the six slots, one per line. */
  function FileContent(rules: seq<seq<string>>): string
    requires |rules| == 6
  {
    Join(seq(6, i requires 0 <= i < 6 => Render(Media[i], rules[i])), "\n")
  }

  /** `t` occurs in `s` at `k`. */
  predicate OccursAt(s: string, t: string, k: int) {
    0 <= k <= |s| - |t| && s[k..k + |t|] == t
  }

  /** `t` occurs in `s`. */
  ghost predicate Contains(s: string, t: string) {
    exists k :: OccursAt(s, t, k)
  }

  lemma ContainsSelf(t: string)
    ensures Contains(t, t)
  {
    assert OccursAt(t, t, 0);
  }

  lemma ContainsLeft(s: string, t: string, u: string)
    requires Contains(s, t)
    ensures Contains(s + u, t)
  {
    var k :| OccursAt(s, t, k);
    assert (s + u)[k..k + |t|] == s[k..k + |t|];
    assert OccursAt(s + u, t, k);
  }

  lemma ContainsRight(s: string, t: string, u: string)
    requires Contains(s, t)
    ensures Contains(u + s, t)
  {
    var k :| OccursAt(s, t, k);
    assert (u + s)[|u| + k..|u| + k + |t|] == s[k..k + |t|];
    assert OccursAt(u + s, t, |u| + k);
  }

  lemma ContainsTrans(s: string, t: string, u: string)
    requires Contains(s, t) && Contains(t, u)
    ensures Contains(s, u)
  {
    var k :| OccursAt(s, t, k);
    var m :| OccursAt(t, u, m);
    assert forall x :: 0 <= x < |t| ==> s[k + x] == t[x];
    assert s[k + m..k + m + |u|] == t[m..m + |u|];
    assert OccursAt(s, u, k + m);
  }

  /** Every joined text occurs in the join. */
  lemma {:induction false} JoinContains(ts: seq<string>, sep: string, j: int)
    requires 0 <= j < |ts|
    ensures Contains(Join(ts, sep), ts[j])
    decreases |ts|
  {
    if |ts| == 1 {
      ContainsSelf(ts[0]);
    } else {
      var init := ts[..|ts| - 1];
      if j == |ts| - 1 {
        ContainsSelf(ts[j]);
        ContainsRight(ts[j], ts[j], Join(init, sep) + sep);
      } else {
        JoinContains(init, sep, j);
        assert init[j] == ts[j];
        ContainsLeft(Join(init, sep), ts[j], sep + ts[|ts| - 1]);
        assert Join(init, sep) + (sep + ts[|ts| - 1]) == Join(ts, sep);
      }
    }
  }

  /** Every rule a slot holds is written to the CSS file. */
  lemma FileContentHasRule(rules: seq<seq<string>>, i: int, j: int)
    requires |rules| == 6 && 0 <= i < 6 && 0 <= j < |rules[i]|
    ensures Contains(FileContent(rules), rules[i][j])
  {
    var blocks := seq(6, n requires 0 <= n < 6 => Render(Media[n], rules[n]));
    JoinContains(rules[i], "", j);
    ContainsRight(Join(rules[i], ""), rules[i][j], "@media " + Media[i] + "{");
    ContainsLeft("@media " + Media[i] + "{" + Join(rules[i], ""), rules[i][j], "}");
    assert blocks[i] == "@media " + Media[i] + "{" + Join(rules[i], "") + "}";
    JoinContains(blocks, "\n", i);
    ContainsTrans(FileContent(rules), blocks[i], rules[i][j]);
  }

  /** An entry of `cssMakeInput`: the built-in `keyframes` helper, or a value
      provided through `extend`. */
  datatype InputEntry = BuiltinKeyframes | Provided(value: Value)

  /** The argument of `make`: the styles, or a function of `cssMakeInput`.
      Such a function is described by the keyframes objects it hands to
      `cssMakeInput.keyframes`, in call order, and by the styles it returns
      given `cssMakeInput` and the names those calls returned. */
  datatype StylesArg =
    | Styles(styles: Style)
    | FromInput(calls: Record<InputEntry> -> seq<Style>, build: (Record<InputEntry>, seq<string>) -> Style)

  predicate AllKeyframes(ks: seq<Style>) {
    forall i :: 0 <= i < |ks| ==> IsKeyframes(ks[i])
  }

  /** What `make` demands of a function argument: keyframes objects for
      the helper, and the helper still in place when it is called. */
  predicate CallableWith(arg: StylesArg, input: Record<InputEntry>) {
    arg.FromInput? ==>
      AllKeyframes(arg.calls(input)) &&
      (|arg.calls(input)| > 0 ==> Get(input, "keyframes") == Some(BuiltinKeyframes))
  }

  /** The names the `keyframes` helper returns for `ks`, in call order. */
  function RequestedNames(f: Foreign, ks: seq<Style>): (ns: seq<string>)
    requires AllKeyframes(ks)
    ensures |ns| == |ks|
    decreases |ks|
  {
    if ks == [] then []
    else
      var init := ks[..|ks| - 1];
      assert forall i :: 0 <= i < |init| ==> init[i] == ks[i];
      KeyframesKept(ks[|ks| - 1]);
      RequestedNames(f, init) + [KeyframesName(CssTs, f, PreprocessedKeyframes(ks[|ks| - 1]))]
  }

  /** The state after the `keyframes` helper was called on each of `ks`. */
  function RequestsAfter(f: Foreign, h: Hosting, s: Store, ks: seq<Style>): Store
    requires AllKeyframes(ks)
    decreases |ks|
  {
    if ks == [] then s
    else
      var init := ks[..|ks| - 1];
      assert forall i :: 0 <= i < |init| ==> init[i] == ks[i];
      KeyframesKept(ks[|ks| - 1]);
      KeyframesAfter(CssTs, f, h, RequestsAfter(f, h, s, init), PreprocessedKeyframes(ks[|ks| - 1]))
  }

  /** The styles `make` iterates over. */
  function StylesOf(f: Foreign, arg: StylesArg, input: Record<InputEntry>): Style
    requires CallableWith(arg, input)
  {
    match arg
    case Styles(styles) => styles
    case FromInput(calls, build) => build(input, RequestedNames(f, calls(input)))
  }

  /** The state once the styles are known: a function argument has called
      the helper by then. */
  function StoreBefore(f: Foreign, h: Hosting, s: Store, arg: StylesArg, input: Record<InputEntry>): Store
    requires CallableWith(arg, input)
  {
    match arg
    case Styles(_) => s
    case FromInput(calls, _) => RequestsAfter(f, h, s, calls(input))
  }

  /** Every name the helper returned is recorded, and `make` afterwards
      keeps it and every other rule and cache entry. */
  lemma {:induction false} RequestsRecorded(f: Foreign, h: Hosting, s: Store, ks: seq<Style>)
    requires AllKeyframes(ks)
    ensures Extends(s, RequestsAfter(f, h, s, ks))
    ensures forall i :: 0 <= i < |ks| ==> RequestedNames(f, ks)[i] in RequestsAfter(f, h, s, ks).names
    decreases |ks|
  {
    if ks != [] {
      var init, last := ks[..|ks| - 1], ks[|ks| - 1];
      assert forall i :: 0 <= i < |init| ==> init[i] == ks[i];
      RequestsRecorded(f, h, s, init);
      var r := RequestsAfter(f, h, s, init);
      KeyframesKept(last);
      KeyframesIdempotent(CssTs, f, h, r, PreprocessedKeyframes(last));
      ExtendsTrans(s, r, RequestsAfter(f, h, s, ks));
    }
  }

  lemma MakeKeepsRequestedNames(f: Foreign, h: Hosting, s: Store, ks: seq<Style>, styles: Style)
    requires AllKeyframes(ks) && IsStyleMap(styles)
    ensures Extends(s, MakeAfter(CssTs, f, h, RequestsAfter(f, h, s, ks), styles))
    ensures forall i :: 0 <= i < |ks| ==>
      RequestedNames(f, ks)[i] in MakeAfter(CssTs, f, h, RequestsAfter(f, h, s, ks), styles).names
  {
    var r := RequestsAfter(f, h, s, ks);
    RequestsRecorded(f, h, s, ks);
    MakeIdempotent(CssTs, f, h, r, styles);
    ExtendsTrans(s, r, MakeAfter(CssTs, f, h, r, styles));
  }

  function ProvidedPairs(ps: seq<(string, Value)>): seq<(string, InputEntry)>
  {
    seq(|ps|, i requires 0 <= i < |ps| => (ps[i].0, Provided(ps[i].1)))
  }

  lemma ProvidedStep(input: Record<Value>, i: int)
    requires 0 <= i < |input|
    ensures ProvidedPairs(Present(input[..i + 1])) ==
      if input[i].1.Some? then ProvidedPairs(Present(input[..i])) + [(input[i].0, Provided(input[i].1.value))]
      else ProvidedPairs(Present(input[..i]))
  {
    assert input[..i + 1] == input[..i] + [input[i]];
    PresentSnoc(input[..i], input[i]);
  }

  /** The module state of src/css.ts: the keyframes names, the caches of
      src/cx.ts, the `cssRules` set of each of the six `getMediaRule` objects
      and `cssMakeInput`. */
  class CssEngine {
    const f: Foreign
    const h: Hosting
    /** The host media rule behind each slot, if any; its rules are read
        once, by rehydration. */
    const hosts: seq<Option<seq<HostRule>>>
    const caches: Caches
    var keyframesNames: set<string>
    /** The `cssRules` set of each slot, in insertion order. */
    var rules: seq<seq<string>>
    const makeInput: ObjectRecord<InputEntry>

    ghost predicate Valid()
      reads this
    {
      && |hosts| == 6 && |rules| == 6
      && (forall i :: 0 <= i < 6 ==> Distinct(rules[i]))
      && h.keyframes == hosts[0].Some? && h.reset == hosts[1].Some? && h.atomic == hosts[2].Some?
      && h.hover == hosts[3].Some? && h.focus == hosts[4].Some? && h.active == hosts[5].Some?
    }

    function State(): Store
      requires |rules| == 6
      reads this, caches
    {
      Store(keyframesNames, caches.View(), rules[0], rules[1], rules[2], rules[3], rules[4], rules[5])
    }

    /** Module start-up: the six slots (css.ts:114-119) and the rehydration
        of the keyframes names and the caches from the host's rules
        (css.ts:121-163). `sheet` says whether there is a document style
        sheet, `current[i]` is the media rule already at index `i`,
        `created[i]` whether the host accepted the empty media rule inserted
        there, and `accepts` whether it accepts a rule text. */
    constructor (f: Foreign, accepts: string -> bool, sheet: bool, current: seq<Option<seq<HostRule>>>, created: seq<bool>)
      requires |current| == 6 && |created| == 6
      ensures Valid() && fresh(caches) && fresh(makeInput) && this.f == f
      ensures forall i :: 0 <= i < 6 ==> hosts[i] == MediaRule(sheet, current[i], created[i])
      ensures h == Hosting(accepts, hosts[0].Some?, hosts[1].Some?, hosts[2].Some?, hosts[3].Some?, hosts[4].Some?, hosts[5].Some?)
      ensures State() == Store(
        NamesIn(RulesIn(hosts[0])),
        CacheView(ClassNamesIn(RulesIn(hosts[1])), PropertiesIn(RulesIn(hosts[2])), PropertiesIn(RulesIn(hosts[3])),
                  PropertiesIn(RulesIn(hosts[4])), PropertiesIn(RulesIn(hosts[5]))),
        [], [], [], [], [], [])
      ensures makeInput.entries == [("keyframes", Some(BuiltinKeyframes))]
    {
      var input := new ObjectRecord<InputEntry>();
      input.Set("keyframes", BuiltinKeyframes);
      var hs := seq(6, i requires 0 <= i < 6 => MediaRule(sheet, current[i], created[i]));
      var names := RehydrateNames(RulesIn(hs[0]));
      var c := RehydrateCaches(hs);
      this.f := f;
      hosts := hs;
      h := Hosting(accepts, hs[0].Some?, hs[1].Some?, hs[2].Some?, hs[3].Some?, hs[4].Some?, hs[5].Some?);
      keyframesNames := names;
      rules := [[], [], [], [], [], []];
      caches := c;
      makeInput := input;
    }

    /** `insertRule` of slot `i`: without a host media rule the set always
        takes the rule; with one, only when the host accepted it. */
    method InsertRule(i: nat, rule: string)
      requires Valid() && i < 6
      modifies this
      ensures Valid() && keyframesNames == old(keyframesNames)
      ensures rules == old(rules)[i := AddRule(CssTs, hosts[i].Some?, h.accepts, old(rules[i]), rule)]
    {
      if hosts[i].None? || h.accepts(rule) {
        SetAddDistinct(rules[i], rule);
        if rule !in rules[i] {
          rules := rules[i := rules[i] + [rule]];
        }
      }
    }

    /** The `toString` of slot `i`. */
    function ToString(i: nat): string
      requires Valid() && i < 6
      reads this
    {
      Render(Media[i], rules[i])
    }

    /** `getCssFileContent`. */
    function GetCssFileContent(): string
      requires Valid()
      reads this
    {
      FileContent(rules)
    }

    /** One declaration of `insertAtomicRules`: on a cache miss the rule is
        inserted and the class recorded with its property. Returns the
        class. */
    method InsertDeclaration(d: Decl) returns (className: string)
      requires Valid()
      modifies this, caches
      ensures Valid()
      ensures className == ClassOf(f, d)
      ensures State() == InsertDecl(CssTs, f, h, old(State()), d)
    {
      match d.layer
      case Atomic =>
        className := "x-" + f.hash(d.rule);
        assert RuleText(CssTs, f, d) == "." + className + "{" + d.rule + "}";
        if className !in caches.atomic {
          InsertRule(2, "." + className + "{" + d.rule + "}");
          caches.atomic := caches.atomic[className := Some(d.property)];
        }
      case Hover =>
        className := "h-" + f.hash(d.rule);
        assert RuleText(CssTs, f, d) == "." + className + ":hover{" + d.rule + "}";
        if className !in caches.hover {
          InsertRule(3, "." + className + ":hover{" + d.rule + "}");
          caches.hover := caches.hover[className := Some(d.property)];
        }
      case Focus =>
        className := "f-" + f.hash(d.rule);
        assert RuleText(CssTs, f, d) == "." + className + ":focus-visible{" + d.rule + "}";
        if className !in caches.focus {
          InsertRule(4, "." + className + ":focus-visible{" + d.rule + "}");
          caches.focus := caches.focus[className := Some(d.property)];
        }
      case Active =>
        className := "a-" + f.hash(d.rule);
        assert RuleText(CssTs, f, d) == "." + className + ":active{" + d.rule + "}";
        if className !in caches.active {
          InsertRule(5, "." + className + ":active{" + d.rule + "}");
          caches.active := caches.active[className := Some(d.property)];
        }
    }

    /** The loop over one pseudo-state bucket of `insertAtomicRules`. */
    method InsertBucket(l: Layer, style: Style, acc: string) returns (classNames: string)
      requires Valid() && IsFlat(style)
      modifies this, caches
      ensures Valid()
      ensures classNames == FoldAppend(acc, ClassList(f, BucketDeclsOf(CssTs, f, l, style)))
      ensures State() == InsertDecls(CssTs, f, h, old(State()), BucketDeclsOf(CssTs, f, l, style))
    {
      ghost var s0 := State();
      classNames := acc;
      for i := 0 to |style|
        invariant Valid()
        invariant IsFlat(style[..i])
        invariant classNames == FoldAppend(acc, ClassList(f, BucketDeclsOf(CssTs, f, l, style[..i])))
        invariant State() == InsertDecls(CssTs, f, h, s0, BucketDeclsOf(CssTs, f, l, style[..i]))
      {
        BucketStep(CssTs, f, l, style, i);
        if style[i].1.Some? {
          var key, value := style[i].0, style[i].1.value;
          var className := InsertDeclaration(Decl(l, key, StringifyRule(CssTs, f, key, value)));
          FoldAppendSnoc(acc, ClassList(f, BucketDeclsOf(CssTs, f, l, style[..i])), className);
          classNames := AppendString(classNames, className);
        }
      }
      assert style[..|style|] == style;
    }

    /** One present entry of `insertAtomicRules`: a pseudo-state bucket or
        one plain declaration. */
    method InsertEntry(key: string, value: Value, acc: string) returns (classNames: string)
      requires Valid() && NestedEntry(key, value)
      modifies this, caches
      ensures Valid()
      ensures classNames == FoldAppend(acc, ClassList(f, EntryDecls(CssTs, f, key, value)))
      ensures State() == InsertDecls(CssTs, f, h, old(State()), EntryDecls(CssTs, f, key, value))
    {
      if key == ":hover" || key == ":focus" || key == ":active" {
        classNames := InsertBucket(LayerOfKey(key), value.fields, acc);
      } else {
        var d := Decl(Atomic, key, StringifyRule(CssTs, f, key, value));
        InsertDeclsSingle(CssTs, f, h, State(), d);
        var className := InsertDeclaration(d);
        FoldAppendSingle(acc, className);
        classNames := AppendString(acc, className);
      }
    }

    /** `insertAtomicRules`: the classes of the style's declarations, in
        visiting order, and the state `AtomicAfter` describes. */
    method InsertAtomicRules(style: Style) returns (classNames: string)
      requires Valid() && IsNestable(style)
      modifies this, caches
      ensures Valid()
      ensures classNames == AtomicOutput(CssTs, f, h, style)
      ensures State() == AtomicAfter(CssTs, f, h, old(State()), style)
    {
      ghost var s0 := State();
      classNames := "";
      assert style[..0] == [];
      for i := 0 to |style|
        invariant Valid()
        invariant AllNested(Present(style[..i]))
        invariant classNames == FoldAppend("", ClassList(f, StyleDecls(CssTs, f, Present(style[..i]))))
        invariant State() == InsertDecls(CssTs, f, h, s0, StyleDecls(CssTs, f, Present(style[..i])))
      {
        StyleDeclsStep(CssTs, f, style, i);
        if style[i].1.Some? {
          AtomicStep(CssTs, f, h, s0, style, i);
          classNames := InsertEntry(style[i].0, style[i].1.value, classNames);
        }
      }
      assert style[..|style|] == style;
    }

    /** The declarations of a flat style stringified in visiting order, as
        `insertResetRule` and `insertKeyframes` collect them. */
    method StringifyAll(style: Style) returns (texts: seq<string>)
      requires IsFlat(style)
      ensures texts == FlatTextsOf(CssTs, f, style)
    {
      texts := [];
      assert style[..0] == [];
      for i := 0 to |style|
        invariant IsFlat(style[..i])
        invariant texts == FlatTextsOf(CssTs, f, style[..i])
      {
        FlatTextsStep(CssTs, f, style, i);
        if style[i].1.Some? {
          texts := texts + [StringifyRule(CssTs, f, style[i].0, style[i].1.value)];
        }
      }
      assert style[..|style|] == style;
    }

    /** `insertResetRule`: the reset class of the style, whose rule is
        inserted and class recorded once. */
    method InsertResetRule(style: Style) returns (className: string)
      requires Valid() && IsFlat(style)
      modifies this, caches
      ensures Valid()
      ensures className == ResetOutput(CssTs, f, h, style)
      ensures State() == ResetAfter(CssTs, f, h, old(State()), style)
    {
      var texts := StringifyAll(style);
      var body := Join(texts, ";");
      className := "r-" + f.hash(body);
      if className !in caches.reset {
        InsertRule(1, "." + className + "{" + body + "}");
        caches.reset := caches.reset + {className};
      }
    }

    /** One frame of `insertKeyframes`: `key{rules}`, the rules joined by
        `;`. */
    method FrameBodyText(key: string, value: Value) returns (text: string)
      requires FrameEntry(key, value)
      ensures text == FrameText(CssTs, f, key, value)
    {
      var texts := StringifyAll(value.fields);
      text := key + "{" + Join(texts, ";") + "}";
    }

    /** The body `insertKeyframes` builds: each frame as `key{rules}`,
        concatenated. */
    method KeyframesBodyText(keyframes: Style) returns (body: string)
      requires IsKeyframes(keyframes)
      ensures body == KeyframesBody(CssTs, f, keyframes)
    {
      body := "";
      assert keyframes[..0] == [];
      for i := 0 to |keyframes|
        invariant IsKeyframes(keyframes[..i])
        invariant body == Join(FrameTextsOf(CssTs, f, keyframes[..i]), "")
      {
        FrameTextsStep(CssTs, f, keyframes, i);
        if keyframes[i].1.Some? {
          var text := FrameBodyText(keyframes[i].0, keyframes[i].1.value);
          ConcatSnoc(FrameTextsOf(CssTs, f, keyframes[..i]), text);
          body := body + text;
        }
      }
      assert keyframes[..|keyframes|] == keyframes;
    }

    /** `insertKeyframes`: the keyframes name, whose rule is inserted and
        name recorded once. */
    method InsertKeyframes(keyframes: Style) returns (name: string)
      requires Valid() && IsKeyframes(keyframes)
      modifies this
      ensures Valid()
      ensures Some(name) == KeyframesOutput(CssTs, f, h, keyframes)
      ensures State() == KeyframesAfter(CssTs, f, h, old(State()), keyframes)
    {
      var body := KeyframesBodyText(keyframes);
      name := "k-" + f.hash(body);
      if name !in keyframesNames {
        InsertRule(0, "@keyframes " + name + "{" + body + "}");
        keyframesNames := keyframesNames + {name};
      }
    }

    /** `cssMakeInput.keyframes`: the keyframes preprocessed, then
        inserted. */
    method Keyframes(keyframes: Style) returns (name: string)
      requires Valid() && IsKeyframes(keyframes)
      modifies this
      ensures Valid() && IsKeyframes(PreprocessedKeyframes(keyframes))
      ensures Some(name) == KeyframesOutput(CssTs, f, h, PreprocessedKeyframes(keyframes))
      ensures State() == KeyframesAfter(CssTs, f, h, old(State()), PreprocessedKeyframes(keyframes))
    {
      var pre := PreprocessKeyframes(keyframes);
      KeyframesKept(keyframes);
      name := InsertKeyframes(pre);
    }

    /** `css.extend`: each present entry of `input` is assigned into
        `cssMakeInput`; `input` itself is returned. */
    method Extend(input: Record<Value>) returns (r: Record<Value>)
      modifies makeInput
      ensures r == input
      ensures makeInput.entries == AssignAll(old(makeInput.entries), ProvidedPairs(Present(input)))
    {
      ghost var start := makeInput.entries;
      assert input[..0] == [];
      for i := 0 to |input|
        invariant makeInput.entries == AssignAll(start, ProvidedPairs(Present(input[..i])))
      {
        ProvidedStep(input, i);
        if input[i].1.Some? {
          AssignAllSnoc(start, ProvidedPairs(Present(input[..i])), (input[i].0, Provided(input[i].1.value)));
          makeInput.Set(input[i].0, Provided(input[i].1.value));
        }
      }
      assert input[..|input|] == input;
      r := input;
    }

    /** What `make` does for one present entry. */
    method MakeEntry(key: string, value: Value) returns (className: string)
      requires Valid() && StyleEntry(key, value)
      modifies this, caches
      ensures Valid()
      ensures className == EntryOutput(CssTs, f, h, key, value)
      ensures State() == RunJob(CssTs, f, h, old(State()), EntryJob(CssTs, f, key, value))
    {
      EntryJobRuns(CssTs, f, h, State(), key, value);
      if |key| > 0 && key[0] == '$' {
        var pre := PreprocessResetStyle(value.fields);
        className := InsertResetRule(pre);
      } else {
        var pre := PreprocessAtomicStyle(value.fields);
        className := InsertAtomicRules(pre);
      }
    }

    /** One iteration of `make`'s loop: the entry at `i` is handled and,
        when present, its class string assigned into the output. */
    method MakeStep(styles: Style, i: int, ghost s0: Store, out: ObjectRecord<string>)
      requires Valid() && IsStyleMap(styles) && 0 <= i < |styles| && IsStyleMap(styles[..i])
      requires out.entries == MakeOutput(CssTs, f, h, styles[..i])
      requires State() == MakeAfter(CssTs, f, h, s0, styles[..i])
      modifies this, caches, out
      ensures Valid() && IsStyleMap(styles[..i + 1])
      ensures out.entries == MakeOutput(CssTs, f, h, styles[..i + 1])
      ensures State() == MakeAfter(CssTs, f, h, s0, styles[..i + 1])
    {
      MakeOutputStep(CssTs, f, h, styles, i);
      MakeAfterStep(CssTs, f, h, s0, styles, i);
      if styles[i].1.Some? {
        var className := MakeEntry(styles[i].0, styles[i].1.value);
        out.Set(styles[i].0, className);
      }
    }

    /** A function argument calling `cssMakeInput.keyframes` on each of
        `ks` in turn. */
    method CallKeyframes(ks: seq<Style>) returns (names: seq<string>)
      requires Valid() && AllKeyframes(ks)
      modifies this
      ensures Valid()
      ensures names == RequestedNames(f, ks)
      ensures State() == RequestsAfter(f, h, old(State()), ks)
    {
      ghost var s0 := State();
      names := [];
      assert ks[..0] == [];
      for i := 0 to |ks|
        invariant Valid()
        invariant names == RequestedNames(f, ks[..i])
        invariant State() == RequestsAfter(f, h, s0, ks[..i])
      {
        assert ks[..i + 1][..i] == ks[..i];
        var name := Keyframes(ks[i]);
        names := names + [name];
      }
      assert ks[..|ks|] == ks;
    }

    /** `css.make`: a function argument is applied to `cssMakeInput`
        first; then one reset class or one atomic class string per style
        name, and the state `MakeAfter` describes. */
    method Make(arg: StylesArg) returns (output: Record<string>)
      requires Valid() && CallableWith(arg, makeInput.entries)
      requires IsStyleMap(StylesOf(f, arg, makeInput.entries))
      modifies this, caches
      ensures Valid()
      ensures output == MakeOutput(CssTs, f, h, StylesOf(f, arg, makeInput.entries))
      ensures State() ==
        MakeAfter(CssTs, f, h, StoreBefore(f, h, old(State()), arg, makeInput.entries), StylesOf(f, arg, makeInput.entries))
    {
      var styles;
      match arg {
        case Styles(st) =>
          styles := st;
        case FromInput(calls, build) =>
          var names := CallKeyframes(calls(makeInput.entries));
          styles := build(makeInput.entries, names);
      }
      ghost var s0 := State();
      var out := new ObjectRecord<string>();
      assert styles[..0] == [];
      for i := 0 to |styles|
        invariant Valid() && IsStyleMap(styles[..i])
        invariant out.entries == MakeOutput(CssTs, f, h, styles[..i])
        invariant State() == MakeAfter(CssTs, f, h, s0, styles[..i])
      {
        MakeStep(styles, i, s0, out);
      }
      assert styles[..|styles|] == styles;
      output := out.entries;
    }
  }
}
