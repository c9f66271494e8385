/** What the two style engines compute: src/css.ts (rule text kept in
    buffers and written out as a CSS file) and src/sheet.ts (rule text
    written to a style element of the document). Both stringify the same
    declarations, derive class names by hashing them, and record each new
    class in a cache before (or after) writing its rule once; they differ in
    the spacing of the text, in how a reset body is joined, and in what a
    missing host media rule means. The engines themselves are the classes of
    css.dfy and sheet.dfy, proved against the functions here. */
module Engine {
  import opened Types
  import opened Utils
  import opened Records
  import opened HyphenateName
  import opened NormalizeValue
  import opened Preprocess
  import opened Cx
  import opened Host

  /** Which engine: src/css.ts or src/sheet.ts. */
  datatype Dialect = CssTs | SheetTs

  // ----- the host style sheet -----

  /** The host as the engines see it after start-up: whether the host accepts
      a rule text, and which of the six slots has a host media rule. */
  datatype Hosting = Hosting(
    accepts: string -> bool,
    keyframes: bool, reset: bool, atomic: bool, hover: bool, focus: bool, active: bool)

  function Hosted(h: Hosting, l: Layer): bool {
    match l
    case Atomic => h.atomic
    case Hover => h.hover
    case Focus => h.focus
    case Active => h.active
  }

  // ----- rule text -----

  /** `${value}` for a string or an integer. */
  function ValueText(v: Value): string
    requires IsScalar(v)
  {
    if v.Num? then IntText(v.n) else v.s
  }

  /** `stringifyRule` (css.ts:95-104; sheet.ts:56-65 with the arguments of
      `normalizeValue` in their declared order). */
  function StringifyRule(dl: Dialect, f: Foreign, key: string, value: Value): string
    requires IsScalar(value)
  {
    var t := ValueText(value);
    match dl
    case CssTs =>
      if key == "appearance" then "-webkit-appearance:" + t + ";appearance:" + t
      else if key == "lineClamp" then "-webkit-line-clamp:" + t + ";line-clamp:" + t
      else Hyphenate(key) + ":" + NormalizedValue(f, key, value)
    case SheetTs =>
      if key == "appearance" then "-webkit-appearance: " + t + "; appearance: " + t + ";"
      else if key == "lineClamp" then "-webkit-line-clamp: " + t + "; line-clamp: " + t + ";"
      else Hyphenate(key) + ": " + NormalizedValue(f, key, value) + ";"
  }

  /** sheet.ts:64 as written: `normalizeValue(value, name)` passes the value
      as the property name and the property name as the value. */
  function StringifyAsWritten(f: Foreign, name: string, value: Value): string
    requires IsScalar(value)
  {
    var t := ValueText(value);
    if name == "appearance" then "-webkit-appearance: " + t + "; appearance: " + t + ";"
    else if name == "lineClamp" then "-webkit-line-clamp: " + t + "; line-clamp: " + t + ";"
    else Hyphenate(name) + ": " + NormalizedValue(f, t, Str(name)) + ";"
  }

  /** One stringified declaration of an atomic style, with the layer it goes
      to and the property the cache records for it. */
  datatype Decl = Decl(layer: Layer, property: string, rule: string)

  function Prefix(l: Layer): string {
    match l
    case Atomic => "x-"
    case Hover => "h-"
    case Focus => "f-"
    case Active => "a-"
  }

  function Suffix(l: Layer): string {
    match l
    case Atomic => ""
    case Hover => ":hover"
    case Focus => ":focus-visible"
    case Active => ":active"
  }

  /** The class of a declaration: the layer prefix and the hash of the rule. */
  function ClassOf(f: Foreign, d: Decl): string {
    Prefix(d.layer) + f.hash(d.rule)
  }

  /** The rule inserted for a declaration. */
  function RuleText(dl: Dialect, f: Foreign, d: Decl): string {
    match dl
    case CssTs => "." + ClassOf(f, d) + Suffix(d.layer) + "{" + d.rule + "}"
    case SheetTs => "." + ClassOf(f, d) + Suffix(d.layer) + " { " + d.rule + " }"
  }

  function LayerOfKey(k: string): Layer {
    if k == ":hover" then Hover else if k == ":focus" then Focus else if k == ":active" then Active else Atomic
  }

  predicate AllScalar(ps: seq<(string, Value)>) {
    forall i :: 0 <= i < |ps| ==> IsScalar(ps[i].1)
  }

  predicate AllNested(ps: seq<(string, Value)>) {
    forall i :: 0 <= i < |ps| ==> NestedEntry(ps[i].0, ps[i].1)
  }

  /** The declarations of a pseudo-state bucket, in visiting order. */
  function BucketDecls(dl: Dialect, f: Foreign, l: Layer, ps: seq<(string, Value)>): seq<Decl>
    requires AllScalar(ps)
  {
    seq(|ps|, i requires 0 <= i < |ps| => Decl(l, ps[i].0, StringifyRule(dl, f, ps[i].0, ps[i].1)))
  }


  /** The declarations of a flat style as a pseudo-state bucket. */
  function BucketDeclsOf(dl: Dialect, f: Foreign, l: Layer, style: Style): seq<Decl>
    requires IsFlat(style)
  {
    PresentScalar(style);
    BucketDecls(dl, f, l, Present(style))
  }

  /** The declarations of one present entry of an atomic style. */
  function EntryDecls(dl: Dialect, f: Foreign, k: string, v: Value): seq<Decl>
    requires NestedEntry(k, v)
  {
    if IsPseudoKey(k) then BucketDeclsOf(dl, f, LayerOfKey(k), v.fields)
    else [Decl(Atomic, k, StringifyRule(dl, f, k, v))]
  }

  /** The declarations of an atomic style, in visiting order. */
  function StyleDecls(dl: Dialect, f: Foreign, ps: seq<(string, Value)>): seq<Decl>
    requires AllNested(ps)
    decreases |ps|
  {
    if ps == [] then []
    else
      var init := ps[..|ps| - 1];
      assert forall i :: 0 <= i < |init| ==> init[i] == ps[i];
      StyleDecls(dl, f, init) + EntryDecls(dl, f, ps[|ps| - 1].0, ps[|ps| - 1].1)
  }

  function ClassList(f: Foreign, ds: seq<Decl>): (cs: seq<string>)
    ensures |cs| == |ds|
    ensures forall i :: 0 <= i < |ds| ==> cs[i] == ClassOf(f, ds[i])
    decreases |ds|
  {
    if ds == [] then [] else ClassList(f, ds[..|ds| - 1]) + [ClassOf(f, ds[|ds| - 1])]
  }

  /** What sheet.ts appends for one present entry: the class of a plain
      declaration, or everything its pseudo-state helper returns, which is
      `""` when that layer has no host media rule. */
  function Chunk(f: Foreign, h: Hosting, k: string, v: Value): string
    requires NestedEntry(k, v)
  {
    if IsPseudoKey(k) then
      if Hosted(h, LayerOfKey(k)) then FoldAppend("", ClassList(f, EntryDecls(SheetTs, f, k, v))) else ""
    else ClassOf(f, Decl(Atomic, k, StringifyRule(SheetTs, f, k, v)))
  }

  function Chunks(f: Foreign, h: Hosting, ps: seq<(string, Value)>): (cs: seq<string>)
    requires AllNested(ps)
    ensures |cs| == |ps|
    decreases |ps|
  {
    if ps == [] then []
    else
      var init := ps[..|ps| - 1];
      assert forall i :: 0 <= i < |init| ==> init[i] == ps[i];
      Chunks(f, h, init) + [Chunk(f, h, ps[|ps| - 1].0, ps[|ps| - 1].1)]
  }

  lemma PresentNested(style: Style)
    requires IsNestable(style)
    ensures AllNested(Present(style))
  {
    var ps := Present(style);
    PresentMembers(style);
    forall i | 0 <= i < |ps| ensures NestedEntry(ps[i].0, ps[i].1) {
      var j :| 0 <= j < |style| && style[j] == (ps[i].0, Some(ps[i].1));
    }
  }

  /** The class string `insertAtomicRules` returns. */
  function AtomicOutput(dl: Dialect, f: Foreign, h: Hosting, style: Style): string
    requires IsNestable(style)
  {
    PresentNested(style);
    match dl
    case CssTs => FoldAppend("", ClassList(f, StyleDecls(CssTs, f, Present(style))))
    case SheetTs => if !h.atomic then "" else FoldAppend("", Chunks(f, h, Present(style)))
  }

  // ----- the engine's state -----

  /** Everything the engines keep: the keyframes names, the class caches `cx`
      reads, and the rule text of each of the six slots, in insertion order. */
  datatype Store = Store(
    names: set<string>, caches: CacheView,
    keyframes: seq<string>, reset: seq<string>,
    atomic: seq<string>, hover: seq<string>, focus: seq<string>, active: seq<string>)

  function CacheOf(c: CacheView, l: Layer): map<string, Option<string>> {
    match l
    case Atomic => c.atomic
    case Hover => c.hover
    case Focus => c.focus
    case Active => c.active
  }

  function RulesOf(s: Store, l: Layer): seq<string> {
    match l
    case Atomic => s.atomic
    case Hover => s.hover
    case Focus => s.focus
    case Active => s.active
  }

  /** `s` with the cache and the rules of layer `l` replaced. */
  function Put(s: Store, l: Layer, m: map<string, Option<string>>, rules: seq<string>): (r: Store)
    ensures CacheOf(r.caches, l) == m && RulesOf(r, l) == rules
    ensures forall l' :: l' != l ==> CacheOf(r.caches, l') == CacheOf(s.caches, l') && RulesOf(r, l') == RulesOf(s, l')
    ensures r.names == s.names && r.caches.reset == s.caches.reset
    ensures r.keyframes == s.keyframes && r.reset == s.reset
  {
    match l
    case Atomic => s.(caches := s.caches.(atomic := m), atomic := rules)
    case Hover => s.(caches := s.caches.(hover := m), hover := rules)
    case Focus => s.(caches := s.caches.(focus := m), focus := rules)
    case Active => s.(caches := s.caches.(active := m), active := rules)
  }

  /** `Set.add` on the insertion-ordered contents of a set. */
  function SetAdd(rules: seq<string>, t: string): seq<string> {
    if t in rules then rules else rules + [t]
  }

  /** What an insert does to a slot's rules. css.ts keeps a set, added to
      always when the slot has no host media rule and only after the host
      accepted the rule when it has one; sheet.ts appends to the host media
      rule when the host accepts. */
  function AddRule(dl: Dialect, backed: bool, accepts: string -> bool, rules: seq<string>, t: string): seq<string> {
    match dl
    case CssTs => if !backed || accepts(t) then SetAdd(rules, t) else rules
    case SheetTs => if backed && accepts(t) then rules + [t] else rules
  }

  /** Whether a declaration of layer `l` is processed at all: sheet.ts does
      nothing without the atomic media rule, nor for a pseudo-state bucket
      without its own. */
  predicate Live(dl: Dialect, h: Hosting, l: Layer) {
    dl.CssTs? || (h.atomic && Hosted(h, l))
  }

  /** One declaration: on a cache miss its rule is inserted and its class is
      recorded with its property; on a hit nothing changes. */
  function InsertDecl(dl: Dialect, f: Foreign, h: Hosting, s: Store, d: Decl): Store {
    var c := ClassOf(f, d);
    var m := CacheOf(s.caches, d.layer);
    if !Live(dl, h, d.layer) || c in m then s
    else Put(s, d.layer, m[c := Some(d.property)], AddRule(dl, Hosted(h, d.layer), h.accepts, RulesOf(s, d.layer), RuleText(dl, f, d)))
  }

  function InsertDecls(dl: Dialect, f: Foreign, h: Hosting, s: Store, ds: seq<Decl>): Store
    decreases |ds|
  {
    if ds == [] then s else InsertDecl(dl, f, h, InsertDecls(dl, f, h, s, ds[..|ds| - 1]), ds[|ds| - 1])
  }

  /** The state after `insertAtomicRules(style)`. */
  function AtomicAfter(dl: Dialect, f: Foreign, h: Hosting, s: Store, style: Style): Store
    requires IsNestable(style)
  {
    PresentNested(style);
    InsertDecls(dl, f, h, s, StyleDecls(dl, f, Present(style)))
  }

  // ----- reset rules -----

  function FlatTexts(dl: Dialect, f: Foreign, ps: seq<(string, Value)>): seq<string>
    requires AllScalar(ps)
  {
    seq(|ps|, i requires 0 <= i < |ps| => StringifyRule(dl, f, ps[i].0, ps[i].1))
  }


  /** The stringified declarations of a flat style, in visiting order. */
  function FlatTextsOf(dl: Dialect, f: Foreign, style: Style): seq<string>
    requires IsFlat(style)
  {
    PresentScalar(style);
    FlatTexts(dl, f, Present(style))
  }

  /** `Array.prototype.join(sep)`. */
  function Join(ts: seq<string>, sep: string): string
    decreases |ts|
  {
    if ts == [] then "" else if |ts| == 1 then ts[0] else Join(ts[..|ts| - 1], sep) + sep + ts[|ts| - 1]
  }

  /** The declarations of a reset rule: joined by `;` in css.ts, by spaces in
      sheet.ts. */
  function ResetBody(dl: Dialect, f: Foreign, style: Style): string
    requires IsFlat(style)
  {
    var ts := FlatTextsOf(dl, f, style);
    if dl.CssTs? then Join(ts, ";") else FoldAppend("", ts)
  }

  function ResetName(dl: Dialect, f: Foreign, style: Style): string
    requires IsFlat(style)
  {
    "r-" + f.hash(ResetBody(dl, f, style))
  }

  function ResetText(dl: Dialect, name: string, body: string): string {
    if dl.CssTs? then "." + name + "{" + body + "}" else "." + name + " { " + body + " }"
  }

  /** Recording a reset class: on a miss its rule is inserted and the class
      added to the reset cache; on a hit, or in sheet.ts without a reset
      media rule, nothing changes. */
  function RecordReset(dl: Dialect, h: Hosting, s: Store, n: string, text: string): Store {
    if (dl.SheetTs? && !h.reset) || n in s.caches.reset then s
    else s.(caches := s.caches.(reset := s.caches.reset + {n}), reset := AddRule(dl, h.reset, h.accepts, s.reset, text))
  }

  /** The state after `insertResetRule(style)`. */
  function ResetAfter(dl: Dialect, f: Foreign, h: Hosting, s: Store, style: Style): Store
    requires IsFlat(style)
  {
    var n := ResetName(dl, f, style);
    RecordReset(dl, h, s, n, ResetText(dl, n, ResetBody(dl, f, style)))
  }

  /** The class `insertResetRule(style)` returns. */
  function ResetOutput(dl: Dialect, f: Foreign, h: Hosting, style: Style): string
    requires IsFlat(style)
  {
    if dl.SheetTs? && !h.reset then "" else ResetName(dl, f, style)
  }

  // ----- keyframes -----

  predicate AllFrames(ps: seq<(string, Value)>) {
    forall i :: 0 <= i < |ps| ==> FrameEntry(ps[i].0, ps[i].1)
  }

  /** One frame: `key{rules.join(";")}` in css.ts, `key { rules }` with the
      rules joined by spaces in sheet.ts. */
  function FrameText(dl: Dialect, f: Foreign, k: string, v: Value): string
    requires FrameEntry(k, v)
  {
    var ts := FlatTextsOf(dl, f, v.fields);
    if dl.CssTs? then k + "{" + Join(ts, ";") + "}" else k + " { " + FoldAppend("", ts) + " }"
  }

  function FrameTexts(dl: Dialect, f: Foreign, ps: seq<(string, Value)>): seq<string>
    requires AllFrames(ps)
  {
    seq(|ps|, i requires 0 <= i < |ps| => FrameText(dl, f, ps[i].0, ps[i].1))
  }


  lemma PresentFrames(keyframes: Style)
    requires IsKeyframes(keyframes)
    ensures AllFrames(Present(keyframes))
  {
    var ps := Present(keyframes);
    PresentMembers(keyframes);
    forall i | 0 <= i < |ps| ensures FrameEntry(ps[i].0, ps[i].1) {
      var j :| 0 <= j < |keyframes| && keyframes[j] == (ps[i].0, Some(ps[i].1));
    }
  }

  /** The frame texts of a keyframes object, in visiting order. */
  function FrameTextsOf(dl: Dialect, f: Foreign, keyframes: Style): seq<string>
    requires IsKeyframes(keyframes)
  {
    PresentFrames(keyframes);
    FrameTexts(dl, f, Present(keyframes))
  }

  /** The frames concatenated (css.ts) or joined by spaces (sheet.ts). */
  function KeyframesBody(dl: Dialect, f: Foreign, keyframes: Style): string
    requires IsKeyframes(keyframes)
  {
    var ts := FrameTextsOf(dl, f, keyframes);
    if dl.CssTs? then Join(ts, "") else FoldAppend("", ts)
  }

  function KeyframesName(dl: Dialect, f: Foreign, keyframes: Style): string
    requires IsKeyframes(keyframes)
  {
    "k-" + f.hash(KeyframesBody(dl, f, keyframes))
  }

  function KeyframesText(dl: Dialect, name: string, body: string): string {
    if dl.CssTs? then "@keyframes " + name + "{" + body + "}" else "@keyframes " + name + " { " + body + " }"
  }

  /** Recording a keyframes name, as `RecordReset` does a reset class. */
  function RecordKeyframes(dl: Dialect, h: Hosting, s: Store, n: string, text: string): Store {
    if (dl.SheetTs? && !h.keyframes) || n in s.names then s
    else s.(names := s.names + {n}, keyframes := AddRule(dl, h.keyframes, h.accepts, s.keyframes, text))
  }

  /** The state after `insertKeyframes(keyframes)`. */
  function KeyframesAfter(dl: Dialect, f: Foreign, h: Hosting, s: Store, keyframes: Style): Store
    requires IsKeyframes(keyframes)
  {
    var n := KeyframesName(dl, f, keyframes);
    RecordKeyframes(dl, h, s, n, KeyframesText(dl, n, KeyframesBody(dl, f, keyframes)))
  }

  /** The name `insertKeyframes(keyframes)` returns; sheet.ts returns
      `undefined` without a keyframes media rule. */
  function KeyframesOutput(dl: Dialect, f: Foreign, h: Hosting, keyframes: Style): Option<string>
    requires IsKeyframes(keyframes)
  {
    if dl.SheetTs? && !h.keyframes then None else Some(KeyframesName(dl, f, keyframes))
  }

  // ----- make -----

  /** A `$` first character marks a reset style; `key[0]` of the empty key is
      `undefined`. */
  predicate IsResetKey(k: string) {
    |k| > 0 && k[0] == '$'
  }

  predicate StyleEntry(k: string, v: Value) {
    v.Obj? && IsNestable(v.fields)
  }

  predicate AllStyles(ps: seq<(string, Value)>) {
    forall i :: 0 <= i < |ps| ==> StyleEntry(ps[i].0, ps[i].1)
  }

  lemma PresentStyles(styles: Style)
    requires IsStyleMap(styles)
    ensures AllStyles(Present(styles))
  {
    var ps := Present(styles);
    PresentMembers(styles);
    forall i | 0 <= i < |ps| ensures StyleEntry(ps[i].0, ps[i].1) {
      var j :| 0 <= j < |styles| && styles[j] == (ps[i].0, Some(ps[i].1));
    }
  }

  /** What `make` does for one key: record one reset class with its rule,
      or insert the declarations of an atomic style. */
  datatype Job = ResetJob(name: string, text: string) | AtomicJob(decls: seq<Decl>)

  function EntryJob(dl: Dialect, f: Foreign, k: string, v: Value): Job
    requires StyleEntry(k, v)
  {
    ResetIsFlat(v.fields);
    AtomicIsNestable(v.fields);
    if IsResetKey(k) then
      var style := PreprocessedReset(v.fields);
      var n := ResetName(dl, f, style);
      ResetJob(n, ResetText(dl, n, ResetBody(dl, f, style)))
    else
      var style := PreprocessedAtomic(v.fields);
      PresentNested(style);
      AtomicJob(StyleDecls(dl, f, Present(style)))
  }

  function RunJob(dl: Dialect, f: Foreign, h: Hosting, s: Store, j: Job): Store {
    match j
    case ResetJob(n, text) => RecordReset(dl, h, s, n, text)
    case AtomicJob(ds) => InsertDecls(dl, f, h, s, ds)
  }

  /** The class string `make` stores under one key. */
  function EntryOutput(dl: Dialect, f: Foreign, h: Hosting, k: string, v: Value): string
    requires StyleEntry(k, v)
  {
    ResetIsFlat(v.fields);
    AtomicIsNestable(v.fields);
    if IsResetKey(k) then ResetOutput(dl, f, h, PreprocessedReset(v.fields))
    else AtomicOutput(dl, f, h, PreprocessedAtomic(v.fields))
  }

  /** The state after `make` handled one key: `insertResetRule` or
      `insertAtomicRules` of the preprocessed style. */
  lemma EntryJobRuns(dl: Dialect, f: Foreign, h: Hosting, s: Store, k: string, v: Value)
    requires StyleEntry(k, v)
    ensures IsFlat(PreprocessedReset(v.fields)) && IsNestable(PreprocessedAtomic(v.fields))
    ensures RunJob(dl, f, h, s, EntryJob(dl, f, k, v)) ==
              if IsResetKey(k) then ResetAfter(dl, f, h, s, PreprocessedReset(v.fields))
              else AtomicAfter(dl, f, h, s, PreprocessedAtomic(v.fields))
  {
    ResetIsFlat(v.fields);
    AtomicIsNestable(v.fields);
  }

  function MakePairs(dl: Dialect, f: Foreign, h: Hosting, ps: seq<(string, Value)>): seq<(string, string)>
    requires AllStyles(ps)
  {
    seq(|ps|, i requires 0 <= i < |ps| => (ps[i].0, EntryOutput(dl, f, h, ps[i].0, ps[i].1)))
  }

  /** The object `make(styles)` returns. */
  function MakeOutput(dl: Dialect, f: Foreign, h: Hosting, styles: Style): Record<string>
    requires IsStyleMap(styles)
  {
    PresentStyles(styles);
    AssignAll([], MakePairs(dl, f, h, Present(styles)))
  }

  function Jobs(dl: Dialect, f: Foreign, ps: seq<(string, Value)>): seq<Job>
    requires AllStyles(ps)
  {
    seq(|ps|, i requires 0 <= i < |ps| => EntryJob(dl, f, ps[i].0, ps[i].1))
  }

  function RunJobs(dl: Dialect, f: Foreign, h: Hosting, s: Store, js: seq<Job>): Store
    decreases |js|
  {
    if js == [] then s else RunJob(dl, f, h, RunJobs(dl, f, h, s, js[..|js| - 1]), js[|js| - 1])
  }

  /** The state after `make(styles)`. */
  function MakeAfter(dl: Dialect, f: Foreign, h: Hosting, s: Store, styles: Style): Store
    requires IsStyleMap(styles)
  {
    PresentStyles(styles);
    RunJobs(dl, f, h, s, Jobs(dl, f, Present(styles)))
  }
}
