/** src/index.ts: the public `css.keyframes`, `css.make` and `cx` of the
    runtime library, each a thin layer over the one `createSheet()` engine
    the module creates when it loads. The engine is passed in. */
module Index {
  import opened Types
  import opened Records
  import opened Preprocess
  import Classes = Cx
  import opened Engine
  import opened EngineLaws
  import opened Sheet

  /** `css.keyframes`: the keyframes preprocessed, then inserted; without
      the keyframes media rule the result is `undefined`. */
  method Keyframes(sheet: SheetEngine, keyframes: Style) returns (name: Option<string>)
    requires sheet.Valid() && IsKeyframes(keyframes)
    modifies sheet
    ensures sheet.Valid() && IsKeyframes(PreprocessedKeyframes(keyframes))
    ensures name == KeyframesOutput(SheetTs, sheet.f, sheet.h, PreprocessedKeyframes(keyframes))
    ensures sheet.State() == KeyframesAfter(SheetTs, sheet.f, sheet.h, old(sheet.State()), PreprocessedKeyframes(keyframes))
  {
    var pre := PreprocessKeyframes(keyframes);
    KeyframesKept(keyframes);
    name := sheet.InsertKeyframes(pre);
  }

  /** What `make` stores under one key: the reset class of a `$` key, the
      atomic class string of any other. */
  method MakeEntry(sheet: SheetEngine, key: string, value: Value) returns (className: string)
    requires sheet.Valid() && StyleEntry(key, value)
    modifies sheet, sheet.caches
    ensures sheet.Valid()
    ensures className == EntryOutput(SheetTs, sheet.f, sheet.h, key, value)
    ensures sheet.State() == RunJob(SheetTs, sheet.f, sheet.h, old(sheet.State()), EntryJob(SheetTs, sheet.f, key, value))
  {
    EntryJobRuns(SheetTs, sheet.f, sheet.h, sheet.State(), key, value);
    if |key| > 0 && key[0] == '$' {
      var pre := PreprocessResetStyle(value.fields);
      className := sheet.InsertResetRule(pre);
    } else {
      var pre := PreprocessAtomicStyle(value.fields);
      className := sheet.InsertAtomicRules(pre);
    }
  }

  /** One iteration of `make`'s loop. */
  method MakeStep(sheet: SheetEngine, styles: Style, i: int, ghost s0: Store, out: ObjectRecord<string>)
    requires sheet.Valid() && IsStyleMap(styles) && 0 <= i < |styles| && IsStyleMap(styles[..i])
    requires out.entries == MakeOutput(SheetTs, sheet.f, sheet.h, styles[..i])
    requires sheet.State() == MakeAfter(SheetTs, sheet.f, sheet.h, s0, styles[..i])
    modifies sheet, sheet.caches, out
    ensures sheet.Valid() && IsStyleMap(styles[..i + 1])
    ensures out.entries == MakeOutput(SheetTs, sheet.f, sheet.h, styles[..i + 1])
    ensures sheet.State() == MakeAfter(SheetTs, sheet.f, sheet.h, s0, styles[..i + 1])
  {
    MakeOutputStep(SheetTs, sheet.f, sheet.h, styles, i);
    MakeAfterStep(SheetTs, sheet.f, sheet.h, s0, styles, i);
    if styles[i].1.Some? {
      var className := MakeEntry(sheet, styles[i].0, styles[i].1.value);
      out.Set(styles[i].0, className);
    }
  }

  /** `css.make`: one class string per style name, and the state
      `MakeAfter` describes. */
  method Make(sheet: SheetEngine, styles: Style) returns (output: Record<string>)
    requires sheet.Valid() && IsStyleMap(styles)
    modifies sheet, sheet.caches
    ensures sheet.Valid()
    ensures output == MakeOutput(SheetTs, sheet.f, sheet.h, styles)
    ensures sheet.State() == MakeAfter(SheetTs, sheet.f, sheet.h, old(sheet.State()), styles)
  {
    ghost var s0 := sheet.State();
    var out := new ObjectRecord<string>();
    assert styles[..0] == [];
    for i := 0 to |styles|
      invariant sheet.Valid() && IsStyleMap(styles[..i])
      invariant out.entries == MakeOutput(SheetTs, sheet.f, sheet.h, styles[..i])
      invariant sheet.State() == MakeAfter(SheetTs, sheet.f, sheet.h, s0, styles[..i])
    {
      MakeStep(sheet, styles, i, s0, out);
    }
    assert styles[..|styles|] == styles;
    output := out.entries;
  }

  /** `cx`: the engine's own `cx`. */
  method Cx(sheet: SheetEngine, items: seq<Classes.ClassName>) returns (output: string)
    ensures output == Classes.CxString(Classes.SheetCx, sheet.caches.View(), items)
  {
    output := sheet.Cx(items);
  }
}
