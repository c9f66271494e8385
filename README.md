# swan-io/css in Dafny

A model of the runtime core of swan-io/css, an atomic-CSS library. A style object is turned into content-hashed class names:

- `x-` for a plain declaration;
- `h-`, `f-` and `a-` for the `:hover`, `:focus` and `:active` buckets;
- `r-` for a whole reset style;
- `k-` for keyframes.

Each distinct rule is inserted at most once into one of six layers of a style sheet: keyframes, reset, atomic, hover, focus, active. `cx` merges class strings. Among classes that set the same CSS property, the last one wins, and only the first reset class is kept.

The modules follow the program's files:

| module | file | what it holds |
|---|---|---|
| `Types` | types.dfy | the dynamic value of a style (`Num`, `Str`, `Obj`), JavaScript objects as ordered records, the foreign functions (`hash`, `normalizeColor`, the alpha text, the host's acceptance of a rule) |
| `Utils` | utils.dfy | `appendString`, `forEach` (as `Present`, the entries it visits) and `memoize` |
| `Records` | records.dfy | JavaScript object assignment: a new key goes at the end, an existing key keeps its place. Also the mutable `ObjectRecord` |
| `HyphenateName`, `NormalizeValue` | hyphenate.dfy, normalize.dfy | name and value normalisation, each with its memo table as a class |
| `Preprocess` | preprocess.dfy | the shorthand table, `preprocessRule` and the four preprocessors, as methods over an `ObjectRecord`, proved equal to functions about which the expansion facts are proved |
| `Cx` | cx.dfy | `extractClassNames`, `appendClassNames` and both `cx` loops (the one in src/cx.ts and the one inside src/sheet.ts, told apart by `Variant`), proved equal to a resolution function `Resolve` |
| `Host` | host.dfy | `getMediaRule`, `getClassName` and the rehydration loops |
| `Engine`, `EngineLaws` | engine.dfy, engine_laws.dfy | the meaning of an engine, shared by both engines: the store after a call and the string it returns, as functions of the store before. Also the laws: idempotence, growth only, rule counts, what `cx` resolves after an insertion |
| `Css` | css.dfy | src/css.ts as the class `CssEngine`: six buffered slots, caches, `css.extend`, `css.make`, `getCssFileContent` |
| `Sheet` | sheet.dfy | `createSheet` of src/sheet.ts as the class `SheetEngine` |
| `Index` | index.dfy | `css.keyframes`, `css.make` and `cx` of src/index.ts over a `SheetEngine` |

Both engines' insert operations are methods with loops. Each is proved to return the string, and leave the store, that one of the `Engine` functions computes. The `Engine` functions carry a `Dialect` parameter for the textual differences between the two files:

- src/css.ts writes `.c{rule}` and `key:value`, joined by `;`.
- src/sheet.ts writes `.c { rule }` and `key: value;`, joined by spaces.

Inputs the program takes from its environment are parameters:

- `hash` and `normalizeColor` are fields of a `Foreign` value. `hash` is any deterministic function of a string; nothing assumes it is injective.
- The document style sheet appears as the constructor arguments `sheet`, `current` and `created`. `accepts` says whether the host's `insertRule` accepts a rule text rather than throwing, and `HostRule` lists the rules already present for rehydration, each with its selector text and `style[0]`.

## Model

| member | source | states |
|---|---|---|
| Utils.AppendStringEmpty | src/utils.ts:3-4 | `appendString("", v)` is `v` |
| Utils.AppendStringNonEmpty | src/utils.ts:3-4 | for a non-empty accumulator, `appendString(a, v)` is `a + " " + v` |
| Utils.FoldAppendJoins | src/utils.ts:3-4 | folding `appendString` over non-empty tokens joins the accumulator (when non-empty) and the tokens with single spaces |
| Utils.FoldAppendJoinsFromEmpty | src/utils.ts:3-4 | folding from `""` over non-empty tokens is the tokens joined by single spaces |
| Utils.JoinSpacesNonEmpty | src/utils.ts:3-4 | joining at least one non-empty token gives a non-empty string |
| Utils.FoldAppendConcat | src/utils.ts:3-4 | folding over a concatenation is folding over the second part from the result of the first |
| Utils.Present | src/utils.ts:6-19 | `forEach` visits at most as many entries as the object has |
| Utils.PresentMembers | src/utils.ts:10-16 | every visited entry is an own entry with a non-null value, and every own entry with a non-null value is visited |
| Utils.PresentAppend | src/utils.ts:10-18 | visiting is left to right: the visits of a concatenation are those of the first part, then those of the second |
| Utils.Memoized.Call | src/utils.ts:21-31 | the call returns `fn(arg)`; the wrapped function runs exactly when no non-null result is cached for `arg`, and only then is the cache updated |
| Utils.MemoizeCallsOnce | src/utils.ts:21-31 | two calls with the same argument return the same `fn(arg)`; once that is non-null, the second call does not run `fn` |
| Records.IndexOf | src/preprocess.ts:74 | the position of a key is the first one holding it, or -1 exactly when the key is absent |
| Records.AssignFacts | src/preprocess.ts:74 | assigning `obj[k] = v` adds `k` at the end only when it is new and keeps every other key in place; it sets `k` to `v`, changes no other key, and keeps keys unique |
| Records.AssignAllKeys | src/preprocess.ts:72-75 | after a series of assignments, the keys are the distinct keys in first-seen order and are unique |
| Records.AssignFromEmpty | src/preprocess.ts:108-116 | assigning pairs into `{}` gives the distinct keys in first-seen order, each holding the value of its last pair |
| Records.AssignAllGet | src/cx.ts:58 | after assignments, a key holds the value of its last assigned pair, or its earlier value when no pair assigns it |
| Records.AssignAllConcat | src/preprocess.ts:111-113 | assigning two runs of pairs is assigning the first run, then the second |
| Records.LastWithSome | src/cx.ts:58 | a key has a last value exactly when some pair has that key; that pair has no later pair with the same key |
| Records.FirstSeenMembers | src/cx.ts:58 | the first-seen order holds exactly the keys that occur |
| Records.FirstSeenUnique | src/cx.ts:58 | the first-seen order holds no key twice |
| Records.AssignAllKeeps | src/preprocess.ts:72-75 | a property of all entries is kept by assignments whose pairs all have it |
| Records.ObjectRecord.Set | src/preprocess.ts:74 | the record after `obj[k] = v` is the assignment of `v` to `k` |
| HyphenateName.Hyphenate | src/hyphenateName.ts:7-9 | the output has no ASCII capital `A`–`Z`, and its length is the input's plus the number of those capitals (each gains a `-`) |
| HyphenateName.HyphenateConcat | src/hyphenateName.ts:7-9 | hyphenation works character by character: hyphenating a concatenation concatenates the halves' results; an uppercase letter becomes `-` and its lowercase form |
| HyphenateName.HyphenateNoUpper | src/hyphenateName.ts:7-9 | an input without ASCII capitals is returned unchanged |
| HyphenateName.NameHyphenator.HyphenateName | src/hyphenateName.ts:4-11 | returns the hyphenated name; a cached name is answered from the table, which then does not change; an uncached one is added |
| NormalizeValue.NatTextRoundTrip | src/normalizeValue.ts:90 | `String(n)` of a natural number reads back as `n` |
| NormalizeValue.IntTextRoundTrip | src/normalizeValue.ts:90 | `String(n)` of any integer, a `-` and digits when negative, reads back as `n` |
| NormalizeValue.NumberReadsBack | src/normalizeValue.ts:88-91 | an integer under a unitless property is written as its decimal text, which reads back as the integer; under any other property it is that text followed by `px` |
| NormalizeValue.StringPassesThrough | src/normalizeValue.ts:93-96 | a string under a non-colour property, a web colour keyword or `var(` value, or a colour `normalizeColor` cannot resolve, is returned unchanged |
| NormalizeValue.RgbToHex | src/normalizeValue.ts:69-86 | the hex text starts with `#` and has 3 digits when every channel's nibbles are equal, 6 otherwise |
| NormalizeValue.RgbToHexDecodes | src/normalizeValue.ts:69-86 | for channels in 0..255, the hex text decodes back to `(r, g, b)`, in both the 3-digit and the 6-digit form |
| NormalizeValue.Channels | src/normalizeValue.ts:105-110 | the rotation `(c << 24) \| (c >>> 8)` followed by the three byte masks gives red, green and blue as the top three bytes of `normalizeColor`'s result and alpha as its low byte |
| NormalizeValue.RotatedBytes | src/normalizeValue.ts:105-110 | the bit-level facts about the rotation and masks, on 32-bit words |
| NormalizeValue.OpaqueColorDecodes | src/normalizeValue.ts:102-114 | a resolved colour with alpha byte 255 is written as hex that decodes to its red, green and blue bytes |
| NormalizeValue.TransparentColorText | src/normalizeValue.ts:112-115 | a resolved colour with alpha byte 0 is written as `rgba(r,g,b,0)` |
| NormalizeValue.SameColorSameText | src/normalizeValue.ts:93-118 | two spellings of a colour that resolve to the same value are written identically, under any colour property |
| NormalizeValue.ValueNormalizer.NormalizeValue | src/normalizeValue.ts:88-122 | returns the normalised value; the memo table gains an entry only for an uncached colour string that resolves, and never for an unresolved string |
| Preprocess.ShorthandNotOwnLonghand | src/preprocess.ts:13-57 | no shorthand in the table lists itself as a longhand |
| Preprocess.LonghandsDistinct | src/preprocess.ts:13-57 | the longhands of each shorthand are distinct |
| Preprocess.LonghandsNotPseudo | src/preprocess.ts:13-57 | no longhand is a pseudo-state key |
| Preprocess.PreprocessRule | src/preprocess.ts:63-106 | `preprocessRule` assigns the expansion of the entry (longhands, the background position axes, the flex triple or the key itself) and nothing for a null value |
| Preprocess.AssignLonghands | src/preprocess.ts:72-75 | the loop over longhands assigns the value to each longhand in table order |
| Preprocess.AssignBackgroundPosition | src/preprocess.ts:76-82 | assigns `backgroundPositionX` unless the value is `top`/`bottom`, and `backgroundPositionY` unless it is `left`/`right` |
| Preprocess.AssignFlex | src/preprocess.ts:83-88 | assigns `flexGrow`, `flexShrink: 1`, `flexBasis: "0%"` for a number >= 0, and nothing otherwise |
| Preprocess.PreprocessStyle | src/preprocess.ts:108-116 | the output is the preprocessed style: the expansions of the present entries, assigned in order into `{}` |
| Preprocess.PreprocessKeyframes | src/preprocess.ts:118-127 | the output is the preprocessed keyframes |
| Preprocess.PreprocessResetStyle | src/preprocess.ts:129-143 | the output is the preprocessed reset style, with the pseudo-state keys skipped |
| Preprocess.PreprocessAtomicStyle | src/preprocess.ts:145-178 | the output is the preprocessed base keys, followed by the last present hover, focus and active buckets, each preprocessed |
| Preprocess.ShorthandFansOut | src/preprocess.ts:69-75 | a table shorthand yields exactly its longhands, in table order, each with the shorthand's value; the shorthand key itself is absent |
| Preprocess.BackgroundPositionSplits | src/preprocess.ts:76-82 | `backgroundPosition` yields X unless `top`/`bottom`, then Y unless `left`/`right`, with the same value |
| Preprocess.FlexExpands | src/preprocess.ts:83-88 | `flex` yields the grow/shrink/basis triple for a number >= 0, and no key for anything else |
| Preprocess.NullEntryIgnored | src/preprocess.ts:68 | a null or undefined entry changes none of the four preprocessors' outputs |
| Preprocess.PlainStyleCopied | src/preprocess.ts:89-92 | without shorthand keys, the output keys are the present keys in first-seen order, each with its last present value |
| Preprocess.KeyframesRenamed | src/preprocess.ts:118-127 | the output frames are exactly the present selectors with `from` renamed `0%` and `to` renamed `100%`; neither `from` nor `to` remains |
| Preprocess.KeyframeValue | src/preprocess.ts:121-123 | every output frame is the preprocessed style of an input frame whose renamed selector it bears |
| Preprocess.ResetDropsPseudo | src/preprocess.ts:129-143 | a preprocessed reset style has no pseudo-state key, and its keys are unique |
| Preprocess.AtomicKeys | src/preprocess.ts:145-178 | the keys of a preprocessed atomic style are the reset-style keys followed by the present pseudo-state keys, in the order hover, focus, active |
| Preprocess.AtomicValue | src/preprocess.ts:155-175 | a base key holds what the reset preprocessing gives it; a pseudo-state key holds the preprocessed last present bucket, or nothing |
| Preprocess.PseudoBucketKeys | src/preprocess.ts:166-175 | the attached buckets are the present pseudo-state keys, in fixed order |
| Preprocess.FlatStyleKept | src/preprocess.ts:108-116 | preprocessing a flat style gives a flat style |
| Preprocess.ResetIsFlat | src/preprocess.ts:129-143 | preprocessing a nestable style for reset gives a flat style |
| Preprocess.AtomicIsNestable | src/preprocess.ts:145-178 | preprocessing a nestable style for atomic rules gives a nestable style |
| Preprocess.KeyframesKept | src/preprocess.ts:118-127 | preprocessing keyframes gives keyframes |
| Cx.Split | src/cx.ts:15 | `split(" ")` gives at least one part, no part holding a space |
| Cx.SplitJoin | src/cx.ts:15 | joining the parts of `split(" ")` with spaces gives back the string |
| Cx.NonEmptyParts | src/cx.ts:16-18 | the kept parts are non-empty parts of the split |
| Cx.TokensOfJoin | src/cx.ts:15-18 | splitting a space-joined list of non-empty spaceless tokens gives back the tokens |
| Cx.Accumulator.Push | src/cx.ts:17 | `acc.push(part)` appends the part |
| Cx.PushParts | src/cx.ts:15-19 | the parts loop appends the non-empty parts in order |
| Cx.PushItem | src/cx.ts:13-22 | an item appends its tokens: a string's non-empty parts, an array's flattened tokens depth-first, nothing for a falsy item |
| Cx.ExtractClassNames | src/cx.ts:12-26 | appends the depth-first, left-to-right flattening of the items |
| Cx.FlattenNonEmpty | src/cx.ts:12-26 | no extracted class name is empty |
| Cx.FlattenNoSpace | src/cx.ts:12-26 | no extracted class name holds a space |
| Cx.AppendClassNames | src/cx.ts:28-39 | appends the record's values in key order |
| Cx.StepRecords | src/cx.ts:54-94 | one iteration of the loop updates the output, the reset and the four records as `Step` says |
| Cx.ResolveClassNames | src/cx.ts:54-94 | the loop computes `Resolve` over the class names, the output holding the external tokens |
| Cx.AppendResolved | src/cx.ts:96-103 | the tail appends the reset, then the atomic, hover, focus and active values |
| Cx.Cx | src/cx.ts:41-106 | `cx` returns the output tokens of the resolution of the flattened items, joined by single spaces; it takes the caches without modifying them |
| Cx.CxStringSplits | src/cx.ts:41-106 | the output string splits back into exactly the output tokens: no leading, trailing or doubled space |
| Cx.OutputFromInput | src/cx.ts:54-103 | every output token is one of the input tokens |
| Cx.OutputNonEmpty | src/cx.ts:54-103 | from non-empty input tokens, every output token is non-empty |
| Cx.ExternalsConcat | src/cx.ts:91-93 | external tokens keep their input order |
| Cx.ExternalsCounted | src/cx.ts:91-93 | an external token appears as often as in the input, without deduplication; a non-external token never appears among the externals |
| Cx.ResetKeptIff | src/cx.ts:83-90 | no reset is kept exactly when no token classifies as a reset |
| Cx.FirstResetWins | src/cx.ts:83-90 | the kept reset is the first reset token of the input |
| Cx.TrackedPairs | src/cx.ts:54-81 | the property-tracking pairs of a layer are input tokens classified into that layer under their property |
| Cx.LayerAssignments | src/cx.ts:58-79 | each layer's record is the assignments of its tracked tokens under their properties |
| Cx.LastClassWins | src/cx.ts:58-79 | each layer keeps one token per property, at the position where the property was first seen, holding its last token |
| Cx.StepExternal | src/cx.ts:91-93 | one token is appended to the externals exactly when it classifies as external |
| Cx.StepLayer | src/cx.ts:54-81 | a tracked token changes only its own layer's record |
| Cx.UndefinedPropertyDiffers | src/cx.ts:55-57 | a token cached in the atomic layer with an undefined property is dropped by the src/sheet.ts variant (src/sheet.ts:334-339) but emitted as external by the src/cx.ts variant |
| Cx.LaterClassReplacesEarlier | src/sheet.ts:333-380 | `cx("a b", "d")`, where `b` and `d` set the same property, gives `"a d"`: foo's colour class is dropped |
| Cx.OneResetClassKept | src/sheet.ts:358-373 | `cx($foo, $bar, "x h")` keeps only the first reset, followed by the atomic and hover classes |
| Cx.ExternalClassesFirst | src/cx.ts:96-103 | external classes come before atomic ones in the output, and falsy items are ignored |
| Cx.Caches.constructor | src/cx.ts:4-10 | the caches start empty |
| Host.MediaRule | src/css.ts:33-93 | a slot has a host media rule exactly when there is a style sheet that either has a rule at that index or accepted the empty media rule; an existing one is kept and a created one starts empty |
| Host.IndexOfChar | src/sheet.ts:101 | `indexOf` gives the first position of the character, or -1 exactly when it is absent |
| Host.Clamp | src/sheet.ts:102 | a `substring` bound is kept when it lies within the string, and is clamped to 0 below and to the length above |
| Host.ClassNameOfSelector | src/sheet.ts:99-103 | `getClassName(".c" + suffix)` is `c` for a class without `:` and an empty or `:`-led suffix; so `.h-X:hover` gives `h-X` |
| Host.LeadingColon | src/css.ts:106-110 | a selector starting with `:` gives `":"` (`substring(1, 0)` swaps its bounds) |
| Host.NamesInIff | src/css.ts:123-128 | the rehydrated keyframes names are exactly the names of the keyframes rules |
| Host.ClassNamesInIff | src/css.ts:130-135 | the rehydrated reset classes are exactly the class names of the style rules |
| Host.PropertiesInFacts | src/css.ts:137-142 | a rehydrated class maps to the first property of the last style rule of that class |
| Host.PropertiesInKeys | src/css.ts:137-163 | the rehydrated classes of a property-tracking layer are exactly the style rules' class names |
| Host.RehydrateNames | src/sheet.ts:122-129 | the loop collects the keyframes names of the host rules |
| Host.RehydrateClassNames | src/sheet.ts:131-138 | the loop collects the reset class names of the host rules |
| Host.RehydrateProperties | src/sheet.ts:140-147 | the loop maps each style rule's class name to its first property, the last rule winning |
| Host.RehydrateCaches | src/css.ts:130-163 | the caches start as the rehydration of the reset, atomic, hover, focus and active host rules |
| Engine.ClassList | src/css.ts:247-253 | one class per declaration, in order, each the layer prefix plus the rule's hash |
| EngineLaws.MakeOutputEntries | src/css.ts:275-291 | `make`'s output has unique keys: the present style names in order of first appearance. Each holds the class string `EntryOutput` gives for that name's last present value |
| EngineLaws.AddRuleExtends | src/css.ts:42-56 | adding a rule to a slot keeps its rules and adds at most one |
| EngineLaws.InsertDeclExtends | src/css.ts:247-255 | inserting a declaration only grows the store; in a live layer it caches the class |
| EngineLaws.InsertDeclsCached | src/css.ts:247-255 | when every class is already cached, inserting changes nothing (cache hit) |
| EngineLaws.InsertDeclsRuleCount | src/css.ts:206-259 | inserting declarations adds at most one rule per declaration to a layer |
| EngineLaws.InsertDeclsIdempotent | src/css.ts:206-259 | inserting the same declarations twice is inserting them once |
| EngineLaws.AtomicIdempotent | src/css.ts:206-259 | `insertAtomicRules` of a style twice leaves the store it leaves once |
| EngineLaws.ResetIdempotent | src/css.ts:188-204 | `insertResetRule` only grows the store, caches its class, and is idempotent |
| EngineLaws.KeyframesIdempotent | src/css.ts:165-186 | `insertKeyframes` only grows the store, records the name it returns, and is idempotent |
| EngineLaws.RunJobFacts | src/css.ts:283-287 | one entry of `make` only grows the store and leaves its job done; a job already done changes nothing |
| EngineLaws.RunJobsFacts | src/css.ts:275-291 | running all entries of `make` leaves every entry's job done |
| EngineLaws.MakeIdempotent | src/css.ts:275-291 | `make` only grows the store, and making the same styles twice leaves the store making them once does |
| EngineLaws.IdenticalResetsShareRule | src/sheet.ts:203-222 | two reset styles with the same declarations under different `$` names give one class and one rule |
| EngineLaws.EquivalentColorsShareRule | src/css.ts:95-104 | two spellings of one colour give the same class, and the second insertion adds nothing |
| EngineLaws.InsertedClassResolves | src/css.ts:247-255 | a class recorded on a cache miss is resolved by both `cx` variants to the property it was recorded with |
| Css.SetAddDistinct | src/css.ts:42 | a slot's `Set` of rules holds each text once: adding keeps the rules distinct, contains the text, and adding it again changes nothing |
| Css.RenderUniform | src/css.ts:44-47 | a slot renders as `@media M{...}` with its rules concatenated in insertion order, `@media M{}` when empty |
| Css.FileContentHasRule | src/css.ts:294-302 | every rule a slot holds appears in the CSS file content |
| Css.CssEngine.constructor | src/css.ts:112-163 | the six slots are set up by `getMediaRule`, the keyframes names and caches are rehydrated from the host rules, every slot buffer starts empty, and `cssMakeInput` holds the `keyframes` helper |
| Css.CssEngine.InsertRule | src/css.ts:49-91 | a slot's `insertRule` adds the text to its set, and with a host media rule only when the host accepted it |
| Css.CssEngine.InsertDeclaration | src/css.ts:247-255 | returns the class of the declaration and leaves the store `InsertDecl` describes: on a miss one rule is added and the class cached under its property, on a hit nothing changes |
| Css.CssEngine.InsertBucket | src/css.ts:210-245 | a pseudo-state bucket appends its classes in order, with its own prefix, selector and cache |
| Css.CssEngine.InsertAtomicRules | src/css.ts:206-259 | returns one class per declaration, joined by single spaces in iteration order, and leaves the store `AtomicAfter` describes |
| Css.CssEngine.InsertResetRule | src/css.ts:188-204 | returns `r-` plus the hash of the declarations joined by `;`, inserting that rule once |
| Css.CssEngine.InsertKeyframes | src/css.ts:165-186 | always returns `k-` plus the hash of the concatenated `selector{decls}` body, inserting `@keyframes` once |
| Css.CssEngine.Keyframes | src/css.ts:262-264 | the `keyframes` helper of `cssMakeInput` inserts the preprocessed keyframes |
| Css.CssEngine.Extend | src/css.ts:267-273 | `extend` assigns every present entry into `cssMakeInput` and returns its argument |
| Css.CssEngine.CallKeyframes | src/css.ts:262-264 | a styles function's calls of `cssMakeInput.keyframes` return, in order, the `k-` names of the preprocessed keyframes and leave the store `RequestsAfter` describes |
| Css.CssEngine.Make | src/css.ts:275-291 | a function argument is applied to `cssMakeInput` first: its keyframes calls insert their preprocessed keyframes, and it receives their names. `make` then returns `MakeOutput` of the resulting styles, sending `$` keys to the reset path and others to the atomic path, and leaves the store `MakeAfter` describes from the store after those calls |
| Css.RequestsRecorded | src/css.ts:262-264 | the keyframes calls only grow the store and record every name they return |
| Css.MakeKeepsRequestedNames | src/css.ts:275-291 | after `make` with a function argument, every keyframes name the function received is recorded, and the store only grew |
| Css.CssEngine.StringifyAll | src/css.ts:191-193 | one stringified rule per present declaration, `hyphen(key):normalized`, with the two `-webkit-` forms for `appearance` and `lineClamp` |
| Sheet.SheetEngine.constructor | src/sheet.ts:105-174 | the six layers come from `getMediaRule`, and the keyframes names and class maps are the rehydration of the rules found there; every layer's inserted rules start empty |
| Sheet.SheetEngine.InsertRule | src/sheet.ts:46-54 | the rule is appended to the host media rule when the host accepts it |
| Sheet.SheetEngine.InsertDeclaration | src/sheet.ts:307-313 | on a miss the class is cached under its key and `.c { rule }` appended; on a hit nothing changes |
| Sheet.SheetEngine.InsertPseudoRules | src/sheet.ts:224-289 | without the layer's media rule, returns `""` and records nothing; otherwise returns its classes joined by spaces |
| Sheet.SheetEngine.InsertEntry | src/sheet.ts:297-314 | one entry gives one class, or a bucket's class string |
| Sheet.SheetEngine.InsertAtomicRules | src/sheet.ts:290-320 | returns `""` and records nothing without the atomic layer; otherwise returns the entries' class strings appended in order, and leaves the store `AtomicAfter` describes |
| Sheet.SheetEngine.RulesText | src/sheet.ts:208-212 | the reset body is the stringified declarations joined by single spaces |
| Sheet.SheetEngine.InsertResetRule | src/sheet.ts:203-222 | returns `""` without the reset layer; otherwise returns the `r-` class of the body, inserted once |
| Sheet.SheetEngine.KeyframesBodyText | src/sheet.ts:181-191 | the body is the frames `sel { rules }` joined by spaces |
| Sheet.SheetEngine.InsertKeyframes | src/sheet.ts:176-201 | returns `undefined` without the keyframes layer; otherwise returns the `k-` name, inserted once |
| Sheet.SheetEngine.Cx | src/sheet.ts:322-381 | this `cx` is the resolution in which an undefined property drops the token |
| Sheet.AtomicOutputSpellsClasses | src/sheet.ts:290-320 | with all four property layers present and no empty bucket, the atomic output is the classes of all declarations joined by single spaces |
| Sheet.MissingLayerLeavesSpace | src/sheet.ts:297-316 | without the hover layer, `{k: v, ":hover": {...}}` gives the atomic class followed by one trailing space, because the empty bucket string is still appended |
| Sheet.StringifyAsWrittenSwaps | src/sheet.ts:64 | as written, `width: 100` stringifies to `width: width;` |
| Sheet.StringifyRuleNormalizes | src/sheet.ts:56-65 | with the arguments in `normalizeValue`'s order, `width: 100` stringifies to `width: 100px;` |
| Index.Keyframes | src/index.ts:12-13 | `css.keyframes` is `insertKeyframes` of the preprocessed keyframes, `undefined` without the layer |
| Index.MakeEntry | src/index.ts:21-24 | a `$` key gets `insertResetRule(preprocessResetStyle(v))`, any other key `insertAtomicRules(preprocessAtomicStyle(v))` |
| Index.Make | src/index.ts:15-28 | one output entry per present style name, in order, and the store `MakeAfter` describes |
| Index.Cx | src/index.ts:31 | the exported `cx` is the sheet's `cx` |

## Left out

- DOM and CSSOM access (`getSheet`, `document`, `instanceof`) are not modelled. The document sheet is the constructor arguments `sheet`, `current` and `created`. The host's `insertRule` is the predicate `accepts`, so success or failure is a function of the rule text. The browser's `rule.style[0]` is a field of `HostRule`.
- `hash`, `normalizeColor` and `postcss-value-parser` are foreign code. `hash` and `normalizeColor` are uninterpreted fields of `Foreign`. The value parser is used only by a development warning.
- Floating point is not modelled. Numbers are integers, so `String(n)` of a fraction, `Infinity` and `NaN` are out. `Number.isFinite` in the `flex` check always holds. The alpha text `(a / 255).toFixed(2)` is the abstract `alphaText`.
- Development-mode `console.warn` and `console.error` are left out: they have no effect on results.
- src/vite-plugin.ts, the examples and the build configuration are not part of this model.
- src/types.ts has only type declarations. Its types are predicates on the one dynamic `Value`: `IsFlat`, `IsNestable`, `IsKeyframes`, `IsStyleMap`.
- The media query texts of src/sheet.ts (`all`, `(hover: hover)`) are not tracked. Its layers are the host's rules, and the model keeps the texts it inserted into them, not the host's serialisation.
- Utils.Present: `forEach` with a callback is not a method of its own. It is the sequence of entries it visits, and each caller's loop iterates that sequence, as the callback would run.
- Both engines use the pure `Hyphenate` and `NormalizedValue` where the source calls the memoised functions. The memo classes are proved to return those same values, so only the tables' contents are not threaded through the engines.
- HyphenateName.Hyphenate: `toLowerCase` is modelled on the ASCII capitals `A`–`Z` only, the letters the pattern `/([A-Z])/g` hyphenates. Other capitals such as `Ä` are kept as they are, whereas JavaScript lowercases them, and `İ` even changes length. CSS property names are ASCII, so engine output is unaffected. HyphenateName.HyphenateNoUpper and the `NameHyphenator` class carry the same restriction.
- Sheet.SheetEngine.InsertDeclaration, Sheet.SheetEngine.InsertPseudoRules, Sheet.SheetEngine.InsertEntry, Sheet.SheetEngine.InsertAtomicRules, Sheet.SheetEngine.RulesText, Sheet.SheetEngine.InsertResetRule, Sheet.SheetEngine.KeyframesBodyText, Sheet.SheetEngine.InsertKeyframes, Index.Keyframes, Index.MakeEntry, Index.Make: the sheet engine stringifies with `normalizeValue(name, value)`, the corrected order. src/sheet.ts:64 passes `(value, name)` (see Findings). So these members do not promise the texts the code as written produces for numbers and colours: `width: 100` gives `width: 100px;`, not `width: width;`. The as-written text is `Engine.StringifyAsWritten`.
- Css.CssEngine.Make: a styles function is arbitrary JavaScript. It is modelled by the list of keyframes objects it passes to `cssMakeInput.keyframes`, which is a function of `cssMakeInput`, and by the styles it builds from `cssMakeInput` and the returned names. A function whose later calls depend on names returned by earlier ones is not expressible. Calling entries that `extend` provided is not modelled: they are plain values here. Calling the helper after `extend` replaced `keyframes` would be a `TypeError`, so `make` requires the helper to be in place when the function calls it.
- Sheet.SheetEngine.InsertPseudoRules: requires the atomic layer to be present, because src/sheet.ts calls the pseudo-state inserts only from `insertAtomicRules` after that check.
- The memo tables of src/hyphenateName.ts and src/normalizeValue.ts are per instance rather than module-global. One instance models the module.

## Findings

| source | as written | input that shows it | evidently intended | confidence | as-written member | corrected member |
|---|---|---|---|---|---|---|
| src/sheet.ts:64 | `normalizeValue(value, name)` passes the value as the key and the property name as the value (the signature at src/normalizeValue.ts:88 is `(key, value)`) | `{ width: 100 }` stringifies to `width: width;` | `normalizeValue(name, value)`, giving `width: 100px;` as src/css.ts:103 does | high, not executed | Sheet.StringifyAsWrittenSwaps | Sheet.StringifyRuleNormalizes |
