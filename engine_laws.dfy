/** Laws of the engines' state changes: nothing recorded is ever lost or
    rewritten, every insert is idempotent, `make` run twice on the same styles
    changes nothing the second time, identical declarations written through
    different colour spellings share one rule, and a class just recorded is
    resolved by `cx` to the property it was recorded with. */
module EngineLaws {
  import opened Types
  import opened Utils
  import opened Records
  import opened NormalizeValue
  import opened Preprocess
  import opened Cx
  import opened Engine

  /** `t` extends `s`: the name and class sets only grow, a cached class
      keeps its property, and each slot's rules only grow at the end. */
  predicate Extends(s: Store, t: Store) {
    && s.names <= t.names
    && s.caches.reset <= t.caches.reset
    && s.keyframes <= t.keyframes
    && s.reset <= t.reset
    && (forall l :: RulesOf(s, l) <= RulesOf(t, l))
    && (forall l, c :: c in CacheOf(s.caches, l) ==> c in CacheOf(t.caches, l) && CacheOf(t.caches, l)[c] == CacheOf(s.caches, l)[c])
  }

  lemma ExtendsTrans(s: Store, t: Store, u: Store)
    requires Extends(s, t) && Extends(t, u)
    ensures Extends(s, u)
  {
    forall l ensures RulesOf(s, l) <= RulesOf(u, l) {
      assert RulesOf(s, l) <= RulesOf(t, l) <= RulesOf(u, l);
    }
  }

  lemma AddRuleExtends(dl: Dialect, backed: bool, accepts: string -> bool, rules: seq<string>, t: string)
    ensures rules <= AddRule(dl, backed, accepts, rules, t)
    ensures |AddRule(dl, backed, accepts, rules, t)| <= |rules| + 1
  {
  }

  /** One declaration extends the state and leaves its class cached when its
      layer is live. */
  lemma InsertDeclExtends(dl: Dialect, f: Foreign, h: Hosting, s: Store, d: Decl)
    ensures Extends(s, InsertDecl(dl, f, h, s, d))
    ensures Live(dl, h, d.layer) ==> ClassOf(f, d) in CacheOf(InsertDecl(dl, f, h, s, d).caches, d.layer)
  {
    var t := InsertDecl(dl, f, h, s, d);
    if Live(dl, h, d.layer) && ClassOf(f, d) !in CacheOf(s.caches, d.layer) {
      AddRuleExtends(dl, Hosted(h, d.layer), h.accepts, RulesOf(s, d.layer), RuleText(dl, f, d));
      forall l ensures RulesOf(s, l) <= RulesOf(t, l) {
        if l != d.layer {
          assert RulesOf(t, l) == RulesOf(s, l);
        }
      }
    }
  }

  /** A run of declarations extends the state and leaves every live
      declaration's class cached. */
  lemma {:induction false} InsertDeclsExtends(dl: Dialect, f: Foreign, h: Hosting, s: Store, ds: seq<Decl>)
    ensures Extends(s, InsertDecls(dl, f, h, s, ds))
    ensures forall i :: 0 <= i < |ds| && Live(dl, h, ds[i].layer) ==>
              ClassOf(f, ds[i]) in CacheOf(InsertDecls(dl, f, h, s, ds).caches, ds[i].layer)
    decreases |ds|
  {
    if ds != [] {
      var init := ds[..|ds| - 1];
      var mid := InsertDecls(dl, f, h, s, init);
      InsertDeclsExtends(dl, f, h, s, init);
      InsertDeclExtends(dl, f, h, mid, ds[|ds| - 1]);
      ExtendsTrans(s, mid, InsertDecls(dl, f, h, s, ds));
      assert forall i :: 0 <= i < |init| ==> init[i] == ds[i];
    }
  }

  /** Declarations whose classes are all cached change nothing. */
  lemma {:induction false} InsertDeclsCached(dl: Dialect, f: Foreign, h: Hosting, s: Store, ds: seq<Decl>)
    requires forall i :: 0 <= i < |ds| && Live(dl, h, ds[i].layer) ==> ClassOf(f, ds[i]) in CacheOf(s.caches, ds[i].layer)
    ensures InsertDecls(dl, f, h, s, ds) == s
    decreases |ds|
  {
    if ds != [] {
      var init := ds[..|ds| - 1];
      assert forall i :: 0 <= i < |init| ==> init[i] == ds[i];
      InsertDeclsCached(dl, f, h, s, init);
    }
  }

  /** A cache hit inserts nothing: the same declarations a second time leave
      the state as the first time left it. */
  lemma InsertDeclsIdempotent(dl: Dialect, f: Foreign, h: Hosting, s: Store, ds: seq<Decl>)
    ensures InsertDecls(dl, f, h, InsertDecls(dl, f, h, s, ds), ds) == InsertDecls(dl, f, h, s, ds)
  {
    InsertDeclsExtends(dl, f, h, s, ds);
    InsertDeclsCached(dl, f, h, InsertDecls(dl, f, h, s, ds), ds);
  }

  /** Each declaration adds at most one rule to its slot. */
  lemma {:induction false} InsertDeclsRuleCount(dl: Dialect, f: Foreign, h: Hosting, s: Store, ds: seq<Decl>, l: Layer)
    ensures |RulesOf(InsertDecls(dl, f, h, s, ds), l)| <= |RulesOf(s, l)| + |ds|
    decreases |ds|
  {
    if ds != [] {
      var init := ds[..|ds| - 1];
      var mid := InsertDecls(dl, f, h, s, init);
      InsertDeclsRuleCount(dl, f, h, s, init, l);
      var d := ds[|ds| - 1];
      if Live(dl, h, d.layer) && ClassOf(f, d) !in CacheOf(mid.caches, d.layer) && l == d.layer {
        AddRuleExtends(dl, Hosted(h, d.layer), h.accepts, RulesOf(mid, d.layer), RuleText(dl, f, d));
      }
    }
  }

  /** `insertAtomicRules` is idempotent. */
  lemma AtomicIdempotent(dl: Dialect, f: Foreign, h: Hosting, s: Store, style: Style)
    requires IsNestable(style)
    ensures AtomicAfter(dl, f, h, AtomicAfter(dl, f, h, s, style), style) == AtomicAfter(dl, f, h, s, style)
  {
    PresentNested(style);
    InsertDeclsIdempotent(dl, f, h, s, StyleDecls(dl, f, Present(style)));
  }

  /** Recording a reset class extends the state, leaves the class recorded
      when the slot is live, and a second recording changes nothing. */
  lemma RecordResetFacts(dl: Dialect, h: Hosting, s: Store, n: string, text: string)
    ensures Extends(s, RecordReset(dl, h, s, n, text))
    ensures (dl.CssTs? || h.reset) ==> n in RecordReset(dl, h, s, n, text).caches.reset
    ensures RecordReset(dl, h, RecordReset(dl, h, s, n, text), n, text) == RecordReset(dl, h, s, n, text)
  {
    AddRuleExtends(dl, h.reset, h.accepts, s.reset, text);
    var t := RecordReset(dl, h, s, n, text);
    assert forall l :: RulesOf(t, l) == RulesOf(s, l);
    assert forall l :: CacheOf(t.caches, l) == CacheOf(s.caches, l);
  }

  /** `insertResetRule` records its class and is idempotent. */
  lemma ResetIdempotent(dl: Dialect, f: Foreign, h: Hosting, s: Store, style: Style)
    requires IsFlat(style)
    ensures Extends(s, ResetAfter(dl, f, h, s, style))
    ensures (dl.CssTs? || h.reset) ==> ResetName(dl, f, style) in ResetAfter(dl, f, h, s, style).caches.reset
    ensures ResetAfter(dl, f, h, ResetAfter(dl, f, h, s, style), style) == ResetAfter(dl, f, h, s, style)
  {
    var n := ResetName(dl, f, style);
    RecordResetFacts(dl, h, s, n, ResetText(dl, n, ResetBody(dl, f, style)));
  }

  lemma RecordKeyframesFacts(dl: Dialect, h: Hosting, s: Store, n: string, text: string)
    ensures Extends(s, RecordKeyframes(dl, h, s, n, text))
    ensures (dl.CssTs? || h.keyframes) ==> n in RecordKeyframes(dl, h, s, n, text).names
    ensures RecordKeyframes(dl, h, RecordKeyframes(dl, h, s, n, text), n, text) == RecordKeyframes(dl, h, s, n, text)
  {
    AddRuleExtends(dl, h.keyframes, h.accepts, s.keyframes, text);
    var t := RecordKeyframes(dl, h, s, n, text);
    assert forall l :: RulesOf(t, l) == RulesOf(s, l);
    assert forall l :: CacheOf(t.caches, l) == CacheOf(s.caches, l);
  }

  /** `insertKeyframes` records its name and is idempotent. */
  lemma KeyframesIdempotent(dl: Dialect, f: Foreign, h: Hosting, s: Store, keyframes: Style)
    requires IsKeyframes(keyframes)
    ensures Extends(s, KeyframesAfter(dl, f, h, s, keyframes))
    ensures KeyframesOutput(dl, f, h, keyframes).Some? ==>
              KeyframesOutput(dl, f, h, keyframes).value in KeyframesAfter(dl, f, h, s, keyframes).names
    ensures KeyframesAfter(dl, f, h, KeyframesAfter(dl, f, h, s, keyframes), keyframes) == KeyframesAfter(dl, f, h, s, keyframes)
  {
    var n := KeyframesName(dl, f, keyframes);
    RecordKeyframesFacts(dl, h, s, n, KeyframesText(dl, n, KeyframesBody(dl, f, keyframes)));
  }

  // ----- make -----

  /** Everything a job would record is recorded in `s`. */
  predicate JobDone(dl: Dialect, f: Foreign, h: Hosting, s: Store, j: Job) {
    match j
    case ResetJob(n, _) => (dl.SheetTs? && !h.reset) || n in s.caches.reset
    case AtomicJob(ds) =>
      forall i :: 0 <= i < |ds| && Live(dl, h, ds[i].layer) ==> ClassOf(f, ds[i]) in CacheOf(s.caches, ds[i].layer)
  }

  /** A job extends the state, leaves itself done, and changes nothing when
      it was done already. */
  lemma RunJobFacts(dl: Dialect, f: Foreign, h: Hosting, s: Store, j: Job)
    ensures Extends(s, RunJob(dl, f, h, s, j))
    ensures JobDone(dl, f, h, RunJob(dl, f, h, s, j), j)
    ensures JobDone(dl, f, h, s, j) ==> RunJob(dl, f, h, s, j) == s
  {
    match j
    case ResetJob(n, text) =>
      RecordResetFacts(dl, h, s, n, text);
    case AtomicJob(ds) =>
      InsertDeclsExtends(dl, f, h, s, ds);
      if JobDone(dl, f, h, s, j) {
        InsertDeclsCached(dl, f, h, s, ds);
      }
  }

  /** Being done survives any extension of the state. */
  lemma JobDoneKept(dl: Dialect, f: Foreign, h: Hosting, s: Store, t: Store, j: Job)
    requires Extends(s, t) && JobDone(dl, f, h, s, j)
    ensures JobDone(dl, f, h, t, j)
  {
  }

  /** After a run of jobs every job is done and the state extends the old
      one. */
  lemma {:induction false} RunJobsFacts(dl: Dialect, f: Foreign, h: Hosting, s: Store, js: seq<Job>)
    ensures Extends(s, RunJobs(dl, f, h, s, js))
    ensures forall i :: 0 <= i < |js| ==> JobDone(dl, f, h, RunJobs(dl, f, h, s, js), js[i])
    decreases |js|
  {
    if js != [] {
      var init := js[..|js| - 1];
      var mid := RunJobs(dl, f, h, s, init);
      var t := RunJobs(dl, f, h, s, js);
      RunJobsFacts(dl, f, h, s, init);
      RunJobFacts(dl, f, h, mid, js[|js| - 1]);
      ExtendsTrans(s, mid, t);
      forall i | 0 <= i < |js| ensures JobDone(dl, f, h, t, js[i]) {
        if i < |init| {
          assert js[i] == init[i];
          JobDoneKept(dl, f, h, mid, t, js[i]);
        }
      }
    }
  }

  /** Jobs that are all done change nothing. */
  lemma {:induction false} RunJobsDone(dl: Dialect, f: Foreign, h: Hosting, s: Store, js: seq<Job>)
    requires forall i :: 0 <= i < |js| ==> JobDone(dl, f, h, s, js[i])
    ensures RunJobs(dl, f, h, s, js) == s
    decreases |js|
  {
    if js != [] {
      var init := js[..|js| - 1];
      assert forall i :: 0 <= i < |init| ==> init[i] == js[i];
      RunJobsDone(dl, f, h, s, init);
      RunJobFacts(dl, f, h, s, js[|js| - 1]);
    }
  }

  /** `make` of the same styles a second time inserts nothing. */
  lemma MakeIdempotent(dl: Dialect, f: Foreign, h: Hosting, s: Store, styles: Style)
    requires IsStyleMap(styles)
    ensures Extends(s, MakeAfter(dl, f, h, s, styles))
    ensures MakeAfter(dl, f, h, MakeAfter(dl, f, h, s, styles), styles) == MakeAfter(dl, f, h, s, styles)
  {
    PresentStyles(styles);
    var js := Jobs(dl, f, Present(styles));
    RunJobsFacts(dl, f, h, s, js);
    RunJobsDone(dl, f, h, RunJobs(dl, f, h, s, js), js);
  }

  /** Two reset keys of `make` with the same style write one rule: the second
      changes nothing, and both keys get the same class. */
  lemma IdenticalResetsShareRule(dl: Dialect, f: Foreign, h: Hosting, s: Store, k1: string, k2: string, v: Value)
    requires IsResetKey(k1) && IsResetKey(k2) && StyleEntry(k1, v)
    ensures EntryJob(dl, f, k1, v) == EntryJob(dl, f, k2, v)
    ensures var t := RunJob(dl, f, h, s, EntryJob(dl, f, k1, v));
            RunJob(dl, f, h, t, EntryJob(dl, f, k2, v)) == t
    ensures EntryOutput(dl, f, h, k1, v) == EntryOutput(dl, f, h, k2, v)
  {
    var j := EntryJob(dl, f, k1, v);
    RunJobFacts(dl, f, h, s, j);
    RunJobFacts(dl, f, h, RunJob(dl, f, h, s, j), j);
  }

  // ----- equivalent spellings -----

  /** Two spellings of the same colour give one declaration text, so one class,
      and the second insertion changes nothing. */
  lemma EquivalentColorsShareRule(dl: Dialect, f: Foreign, h: Hosting, s: Store, l: Layer, key: string, a: string, b: string)
    requires key in ColorProperties && key != "appearance" && key != "lineClamp"
    requires !IsWebColor(a) && !IsWebColor(b)
    requires f.resolveColor(a).Some? && f.resolveColor(a) == f.resolveColor(b)
    ensures var d1 := Decl(l, key, StringifyRule(dl, f, key, Str(a)));
            var d2 := Decl(l, key, StringifyRule(dl, f, key, Str(b)));
            ClassOf(f, d1) == ClassOf(f, d2)
            && InsertDecl(dl, f, h, InsertDecl(dl, f, h, s, d1), d2) == InsertDecl(dl, f, h, s, d1)
  {
    SameColorSameText(f, key, key, a, b);
    var d1 := Decl(l, key, StringifyRule(dl, f, key, Str(a)));
    InsertDeclsIdempotent(dl, f, h, s, [d1]);
    assert [d1][..0] == [];
  }

  // ----- what cx sees -----

  function Rank(l: Layer): nat {
    match l
    case Atomic => 0
    case Hover => 1
    case Focus => 2
    case Active => 3
  }

  /** A class recorded by a cache miss, and unknown to the layers `cx` probes
      before its own, is resolved by `cx` to the property it was recorded
      with, under both variants of `cx`. */
  lemma InsertedClassResolves(v: Variant, dl: Dialect, f: Foreign, h: Hosting, s: Store, d: Decl)
    requires Live(dl, h, d.layer)
    requires forall l :: Rank(l) <= Rank(d.layer) ==> ClassOf(f, d) !in CacheOf(s.caches, l)
    ensures Classify(v, InsertDecl(dl, f, h, s, d).caches, ClassOf(f, d)) == Tracked(d.layer, d.property)
  {
    var c := ClassOf(f, d);
    var t := InsertDecl(dl, f, h, s, d);
    assert c !in CacheOf(s.caches, d.layer);
    assert CacheOf(t.caches, d.layer)[c] == Some(d.property);
    forall l | Rank(l) < Rank(d.layer) ensures c !in CacheOf(t.caches, l) {
      assert CacheOf(t.caches, l) == CacheOf(s.caches, l);
    }
    match d.layer {
      case Atomic =>
      case Hover => assert c !in t.caches.atomic by { assert Rank(Atomic) < Rank(Hover); }
      case Focus =>
        assert c !in t.caches.atomic by { assert Rank(Atomic) < Rank(Focus); }
        assert c !in t.caches.hover by { assert Rank(Hover) < Rank(Focus); }
      case Active =>
        assert c !in t.caches.atomic by { assert Rank(Atomic) < Rank(Active); }
        assert c !in t.caches.hover by { assert Rank(Hover) < Rank(Active); }
        assert c !in t.caches.focus by { assert Rank(Focus) < Rank(Active); }
    }
  }

  // ----- one step of the engines' loops -----

  lemma {:induction false} InsertDeclsConcat(dl: Dialect, f: Foreign, h: Hosting, s: Store, a: seq<Decl>, b: seq<Decl>)
    ensures InsertDecls(dl, f, h, s, a + b) == InsertDecls(dl, f, h, InsertDecls(dl, f, h, s, a), b)
    decreases |b|
  {
    if b == [] {
      assert a + b == a;
    } else {
      var init := b[..|b| - 1];
      assert (a + b)[..|a + b| - 1] == a + init;
      InsertDeclsConcat(dl, f, h, s, a, init);
    }
  }

  lemma InsertDeclsSingle(dl: Dialect, f: Foreign, h: Hosting, s: Store, d: Decl)
    ensures InsertDecls(dl, f, h, s, [d]) == InsertDecl(dl, f, h, s, d)
  {
    assert [d][..0] == [];
  }

  lemma ClassListConcat(f: Foreign, a: seq<Decl>, b: seq<Decl>)
    ensures ClassList(f, a + b) == ClassList(f, a) + ClassList(f, b)
  {
    var l, r := ClassList(f, a + b), ClassList(f, a) + ClassList(f, b);
    assert forall i :: 0 <= i < |l| ==> l[i] == r[i];
  }

  lemma FoldAppendSingle(acc: string, t: string)
    ensures FoldAppend(acc, [t]) == AppendString(acc, t)
  {
    FoldAppendSnoc(acc, [], t);
    assert [] + [t] == [t];
  }

  /** One entry of an atomic style adds its declarations at the end. */
  lemma StyleDeclsStep(dl: Dialect, f: Foreign, style: Style, i: int)
    requires IsNestable(style) && 0 <= i < |style|
    ensures AllNested(Present(style[..i])) && AllNested(Present(style[..i + 1]))
    ensures style[i].1.Some? ==> NestedEntry(style[i].0, style[i].1.value)
    ensures StyleDecls(dl, f, Present(style[..i + 1])) ==
      if style[i].1.Some? then StyleDecls(dl, f, Present(style[..i])) + EntryDecls(dl, f, style[i].0, style[i].1.value)
      else StyleDecls(dl, f, Present(style[..i]))
  {
    assert style[..i + 1] == style[..i] + [style[i]];
    PresentSnoc(style[..i], style[i]);
    PresentNested(style[..i]);
    PresentNested(style[..i + 1]);
    if style[i].1.Some? {
      var ps := Present(style[..i]);
      assert (ps + [(style[i].0, style[i].1.value)])[..|ps|] == ps;
    }
  }

  /** One entry of a pseudo-state bucket adds its declaration at the end. */
  lemma BucketStep(dl: Dialect, f: Foreign, l: Layer, style: Style, i: int)
    requires IsFlat(style) && 0 <= i < |style|
    ensures IsFlat(style[..i])
    ensures BucketDeclsOf(dl, f, l, style[..i + 1]) ==
      if style[i].1.Some? then BucketDeclsOf(dl, f, l, style[..i]) + [Decl(l, style[i].0, StringifyRule(dl, f, style[i].0, style[i].1.value))]
      else BucketDeclsOf(dl, f, l, style[..i])
  {
    assert style[..i + 1] == style[..i] + [style[i]];
    PresentSnoc(style[..i], style[i]);
    PresentScalar(style[..i]);
    PresentScalar(style[..i + 1]);
  }

  /** One entry of a flat style adds its declaration text at the end. */
  lemma FlatTextsStep(dl: Dialect, f: Foreign, style: Style, i: int)
    requires IsFlat(style) && 0 <= i < |style|
    ensures IsFlat(style[..i])
    ensures FlatTextsOf(dl, f, style[..i + 1]) ==
      if style[i].1.Some? then FlatTextsOf(dl, f, style[..i]) + [StringifyRule(dl, f, style[i].0, style[i].1.value)]
      else FlatTextsOf(dl, f, style[..i])
  {
    assert style[..i + 1] == style[..i] + [style[i]];
    PresentSnoc(style[..i], style[i]);
    PresentScalar(style[..i]);
    PresentScalar(style[..i + 1]);
  }

  lemma FrameTextsSnoc(dl: Dialect, f: Foreign, ps: seq<(string, Value)>, k: string, v: Value)
    requires AllFrames(ps) && FrameEntry(k, v)
    ensures AllFrames(ps + [(k, v)])
    ensures FrameTexts(dl, f, ps + [(k, v)]) == FrameTexts(dl, f, ps) + [FrameText(dl, f, k, v)]
  {
    var qs := ps + [(k, v)];
    assert forall i :: 0 <= i < |qs| ==> qs[i] == if i < |ps| then ps[i] else (k, v);
  }

  /** One frame of a keyframes object adds its text at the end. */
  lemma FrameTextsStep(dl: Dialect, f: Foreign, keyframes: Style, i: int)
    requires IsKeyframes(keyframes) && 0 <= i < |keyframes|
    ensures IsKeyframes(keyframes[..i])
    ensures keyframes[i].1.Some? ==> FrameEntry(keyframes[i].0, keyframes[i].1.value)
    ensures FrameTextsOf(dl, f, keyframes[..i + 1]) ==
      if keyframes[i].1.Some? then FrameTextsOf(dl, f, keyframes[..i]) + [FrameText(dl, f, keyframes[i].0, keyframes[i].1.value)]
      else FrameTextsOf(dl, f, keyframes[..i])
  {
    assert keyframes[..i + 1] == keyframes[..i] + [keyframes[i]];
    PresentSnoc(keyframes[..i], keyframes[i]);
    PresentFrames(keyframes[..i]);
    PresentFrames(keyframes[..i + 1]);
    if keyframes[i].1.Some? {
      FrameTextsSnoc(dl, f, Present(keyframes[..i]), keyframes[i].0, keyframes[i].1.value);
    }
  }

  lemma JoinSnoc(ts: seq<string>, t: string, sep: string)
    ensures Join(ts + [t], sep) == if ts == [] then t else Join(ts, sep) + sep + t
  {
    assert (ts + [t])[..|ts|] == ts;
  }

  /** Joining with no separator is concatenating. */
  lemma ConcatSnoc(ts: seq<string>, t: string)
    ensures Join(ts + [t], "") == Join(ts, "") + t
  {
    JoinSnoc(ts, t, "");
    if ts != [] {
      assert Join(ts, "") + "" + t == Join(ts, "") + t;
    }
  }

  lemma MakePairsSnoc(dl: Dialect, f: Foreign, h: Hosting, ps: seq<(string, Value)>, k: string, v: Value)
    requires AllStyles(ps) && StyleEntry(k, v)
    ensures AllStyles(ps + [(k, v)])
    ensures MakePairs(dl, f, h, ps + [(k, v)]) == MakePairs(dl, f, h, ps) + [(k, EntryOutput(dl, f, h, k, v))]
  {
    var qs := ps + [(k, v)];
    assert forall i :: 0 <= i < |qs| ==> qs[i] == if i < |ps| then ps[i] else (k, v);
  }

  lemma JobsSnoc(dl: Dialect, f: Foreign, h: Hosting, s: Store, ps: seq<(string, Value)>, k: string, v: Value)
    requires AllStyles(ps) && StyleEntry(k, v)
    ensures AllStyles(ps + [(k, v)])
    ensures RunJobs(dl, f, h, s, Jobs(dl, f, ps + [(k, v)])) == RunJob(dl, f, h, RunJobs(dl, f, h, s, Jobs(dl, f, ps)), EntryJob(dl, f, k, v))
  {
    var qs := ps + [(k, v)];
    assert forall i :: 0 <= i < |qs| ==> qs[i] == if i < |ps| then ps[i] else (k, v);
    var js := Jobs(dl, f, ps);
    assert Jobs(dl, f, qs) == js + [EntryJob(dl, f, k, v)];
    assert (js + [EntryJob(dl, f, k, v)])[..|js|] == js;
  }

  /** The pairs `make` assigns carry the style names in order, and the
      last pair for a name holds the class string of that name's last value. */
  lemma {:induction false} MakePairsLastWith(dl: Dialect, f: Foreign, h: Hosting, ps: seq<(string, Value)>, k: string)
    requires AllStyles(ps)
    ensures PairKeys(MakePairs(dl, f, h, ps)) == PairKeys(ps)
    ensures LastWith(ps, k).Some? ==> StyleEntry(k, LastWith(ps, k).value)
    ensures LastWith(MakePairs(dl, f, h, ps), k) ==
      if LastWith(ps, k).Some? then Some(EntryOutput(dl, f, h, k, LastWith(ps, k).value)) else None
    decreases |ps|
  {
    if ps != [] {
      var init, last := ps[..|ps| - 1], ps[|ps| - 1];
      assert ps == init + [last];
      MakePairsLastWith(dl, f, h, init, k);
      MakePairsSnoc(dl, f, h, init, last.0, last.1);
      var out := MakePairs(dl, f, h, init) + [(last.0, EntryOutput(dl, f, h, last.0, last.1))];
      assert out[..|out| - 1] == MakePairs(dl, f, h, init);
    }
  }

  /** `make`'s output has one entry per present style name, in the order of
      first appearance, and each name holds the class string of its last
      present value. */
  lemma MakeOutputEntries(dl: Dialect, f: Foreign, h: Hosting, styles: Style)
    requires IsStyleMap(styles)
    ensures AllStyles(Present(styles))
    ensures Keys(MakeOutput(dl, f, h, styles)) == FirstSeen(PairKeys(Present(styles)))
    ensures UniqueKeys(MakeOutput(dl, f, h, styles))
    ensures forall k :: Get(MakeOutput(dl, f, h, styles), k).Some? <==> k in PairKeys(Present(styles))
    ensures forall k | LastWith(Present(styles), k).Some? ::
      StyleEntry(k, LastWith(Present(styles), k).value) &&
      Get(MakeOutput(dl, f, h, styles), k) == Some(EntryOutput(dl, f, h, k, LastWith(Present(styles), k).value))
  {
    var ps := Present(styles);
    PresentStyles(styles);
    var pairs := MakePairs(dl, f, h, ps);
    AssignFromEmpty(pairs);
    forall k ensures Get(MakeOutput(dl, f, h, styles), k).Some? <==> k in PairKeys(ps) {
      MakePairsLastWith(dl, f, h, ps, k);
      LastWithSome(ps, k);
    }
    forall k | LastWith(ps, k).Some?
      ensures StyleEntry(k, LastWith(ps, k).value)
      ensures Get(MakeOutput(dl, f, h, styles), k) == Some(EntryOutput(dl, f, h, k, LastWith(ps, k).value))
    {
      MakePairsLastWith(dl, f, h, ps, k);
    }
    MakePairsLastWith(dl, f, h, ps, "");
  }

  /** One entry of a style map adds one key to `make`'s output. */
  lemma MakeOutputStep(dl: Dialect, f: Foreign, h: Hosting, styles: Style, i: int)
    requires IsStyleMap(styles) && 0 <= i < |styles|
    ensures IsStyleMap(styles[..i])
    ensures styles[i].1.Some? ==> StyleEntry(styles[i].0, styles[i].1.value)
    ensures MakeOutput(dl, f, h, styles[..i + 1]) ==
      if styles[i].1.Some?
      then Assign(MakeOutput(dl, f, h, styles[..i]), styles[i].0, EntryOutput(dl, f, h, styles[i].0, styles[i].1.value))
      else MakeOutput(dl, f, h, styles[..i])
  {
    assert styles[..i + 1] == styles[..i] + [styles[i]];
    PresentSnoc(styles[..i], styles[i]);
    PresentStyles(styles[..i]);
    PresentStyles(styles[..i + 1]);
    if styles[i].1.Some? {
      var k, v := styles[i].0, styles[i].1.value;
      var pairs := MakePairs(dl, f, h, Present(styles[..i]));
      MakePairsSnoc(dl, f, h, Present(styles[..i]), k, v);
      AssignAllSnoc([], pairs, (k, EntryOutput(dl, f, h, k, v)));
    }
  }

  /** One entry of a style map runs one job. */
  lemma MakeAfterStep(dl: Dialect, f: Foreign, h: Hosting, s: Store, styles: Style, i: int)
    requires IsStyleMap(styles) && 0 <= i < |styles|
    ensures IsStyleMap(styles[..i])
    ensures styles[i].1.Some? ==> StyleEntry(styles[i].0, styles[i].1.value)
    ensures MakeAfter(dl, f, h, s, styles[..i + 1]) ==
      if styles[i].1.Some?
      then RunJob(dl, f, h, MakeAfter(dl, f, h, s, styles[..i]), EntryJob(dl, f, styles[i].0, styles[i].1.value))
      else MakeAfter(dl, f, h, s, styles[..i])
  {
    assert styles[..i + 1] == styles[..i] + [styles[i]];
    PresentSnoc(styles[..i], styles[i]);
    PresentStyles(styles[..i]);
    PresentStyles(styles[..i + 1]);
    if styles[i].1.Some? {
      JobsSnoc(dl, f, h, s, Present(styles[..i]), styles[i].0, styles[i].1.value);
    }
  }

  /** One present entry of an atomic style: its declarations are inserted,
      and their classes appended, after those of the entries before it. */
  lemma AtomicStep(dl: Dialect, f: Foreign, h: Hosting, s: Store, style: Style, i: int)
    requires IsNestable(style) && 0 <= i < |style| && style[i].1.Some?
    ensures AllNested(Present(style[..i])) && AllNested(Present(style[..i + 1]))
    ensures NestedEntry(style[i].0, style[i].1.value)
    ensures var before := StyleDecls(dl, f, Present(style[..i]));
            var added := EntryDecls(dl, f, style[i].0, style[i].1.value);
            var after := StyleDecls(dl, f, Present(style[..i + 1]));
            && InsertDecls(dl, f, h, s, after) == InsertDecls(dl, f, h, InsertDecls(dl, f, h, s, before), added)
            && FoldAppend("", ClassList(f, after)) == FoldAppend(FoldAppend("", ClassList(f, before)), ClassList(f, added))
  {
    StyleDeclsStep(dl, f, style, i);
    var before := StyleDecls(dl, f, Present(style[..i]));
    var added := EntryDecls(dl, f, style[i].0, style[i].1.value);
    InsertDeclsConcat(dl, f, h, s, before, added);
    ClassListConcat(f, before, added);
    FoldAppendConcat("", ClassList(f, before), ClassList(f, added));
  }

  /** One entry of an atomic style adds one chunk at the end of what
      sheet.ts appends. */
  lemma ChunksStep(f: Foreign, h: Hosting, style: Style, i: int)
    requires IsNestable(style) && 0 <= i < |style|
    ensures AllNested(Present(style[..i])) && AllNested(Present(style[..i + 1]))
    ensures style[i].1.Some? ==> NestedEntry(style[i].0, style[i].1.value)
    ensures Chunks(f, h, Present(style[..i + 1])) ==
      if style[i].1.Some? then Chunks(f, h, Present(style[..i])) + [Chunk(f, h, style[i].0, style[i].1.value)]
      else Chunks(f, h, Present(style[..i]))
  {
    assert style[..i + 1] == style[..i] + [style[i]];
    PresentSnoc(style[..i], style[i]);
    PresentNested(style[..i]);
    PresentNested(style[..i + 1]);
    if style[i].1.Some? {
      var ps := Present(style[..i]);
      assert (ps + [(style[i].0, style[i].1.value)])[..|ps|] == ps;
    }
  }
}
