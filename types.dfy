/** Shapes of the values the engine works on: style objects, keyframes and the
    foreign collaborators (hash, colour resolver). JavaScript
    objects are dynamically typed, so one `Value` type covers flat styles,
    nestable styles and keyframes; the TypeScript types become predicates. */
module Types {

  datatype Option<+T> = None | Some(value: T)

  /** A JavaScript object as an ordered list of own keys; a `None` value is
      `undefined` or `null`. */
  type Record<V> = seq<(string, Option<V>)>

  /** A style value: a number (integers only), a string, or a nested object
      (a pseudo-state bucket or a keyframe). */
  datatype Value = Num(n: int) | Str(s: string) | Obj(fields: Record<Value>)

  type Style = Record<Value>

  /** The packed 32-bit colour `0xRRGGBBAA` returned by the colour resolver. */
  type Packed = bv32

  /** Functions the engine consumes but does not define. */
  datatype Foreign = Foreign(
    hash: string -> string,             // @emotion/hash or ./hash
    resolveColor: string -> Option<Packed>, // @react-native/normalize-colors
    alphaText: int -> string            // (a / 255).toFixed(2) for an alpha byte a
  )

  predicate IsScalar(v: Value) {
    v.Num? || v.Str?
  }

  predicate IsPseudoKey(k: string) {
    k == ":hover" || k == ":focus" || k == ":active"
  }

  /** TypeScript `FlatStyle`: every present value is a string or a number. */
  predicate IsFlat(s: Style) {
    forall i :: 0 <= i < |s| && s[i].1.Some? ==> IsScalar(s[i].1.value)
  }

  /** TypeScript `Style`/`Nestable<Style>`: pseudo-state keys hold flat
      objects, all other keys hold strings or numbers. */
  predicate IsNestable(s: Style) {
    forall i :: 0 <= i < |s| && s[i].1.Some? ==>
      if IsPseudoKey(s[i].0) then s[i].1.value.Obj? && IsFlat(s[i].1.value.fields)
      else IsScalar(s[i].1.value)
  }

  /** TypeScript `Keyframes`: every present frame is a flat object. */
  predicate IsKeyframes(k: Style) {
    forall i :: 0 <= i < |k| && k[i].1.Some? ==> k[i].1.value.Obj? && IsFlat(k[i].1.value.fields)
  }

  /** A map of style names to nestable styles, as `make` takes it. */
  predicate IsStyleMap(m: Style) {
    forall i :: 0 <= i < |m| && m[i].1.Some? ==> m[i].1.value.Obj? && IsNestable(m[i].1.value.fields)
  }

  /** The fields of an object value; a string or a number has none that the
      engine visits. */
  function Fields(v: Value): Record<Value> {
    if v.Obj? then v.fields else []
  }

  function Keys<V>(r: Record<V>): (ks: seq<string>)
    ensures |ks| == |r|
    ensures forall i :: 0 <= i < |r| ==> ks[i] == r[i].0
  {
    if r == [] then [] else Keys(r[..|r| - 1]) + [r[|r| - 1].0]
  }

  predicate UniqueKeys<V>(r: Record<V>) {
    forall i, j :: 0 <= i < j < |r| ==> r[i].0 != r[j].0
  }
}
