/** The part of the document's style sheet both engines read at start-up:
    the media rule of each slot (`getMediaRule`), the class name a style
    rule's selector stands for (`getClassName`), and the names, classes and
    properties rehydrated from rules already present (css.ts:121-163,
    sheet.ts:122-174). */
module Host {
  import opened Types
  import opened Cx

  /** A rule of a host media rule, as far as rehydration looks at it:
      `selectorText` and `style[0]` of a `CSSStyleRule`, `name` of a
      `CSSKeyframesRule`; any other kind of rule is skipped. */
  datatype HostRule =
    | StyleRule(selectorText: string, firstProperty: Option<string>)
    | KeyframesRule(name: string)
    | OtherRule

  /** `getMediaRule`: the host media rule behind a slot, if any. There is
      none without a document sheet; one already at the slot's index is
      reused; otherwise an empty one is created, which the host may refuse
      (`created` is false then). */
  function MediaRule(sheet: bool, current: Option<seq<HostRule>>, created: bool): (m: Option<seq<HostRule>>)
    ensures m.Some? <==> sheet && (current.Some? || created)
    ensures current.Some? && sheet ==> m == current
    ensures m.Some? && current.None? ==> m == Some([])
  {
    if !sheet then None else if current.Some? then current else if created then Some([]) else None
  }

  // ----- getClassName -----

  /** `s.indexOf(c)`. */
  function IndexOfChar(s: string, c: char): (i: int)
    ensures -1 <= i < |s|
    ensures i >= 0 ==> s[i] == c && forall j :: 0 <= j < i ==> s[j] != c
    ensures i == -1 <==> c !in s
    decreases |s|
  {
    if s == [] then -1
    else if s[0] == c then 0
    else
      var j := IndexOfChar(s[1..], c);
      assert forall k :: 0 <= k < |s| - 1 ==> s[1..][k] == s[k + 1];
      assert c in s[1..] ==> c in s;
      assert c in s && s[0] != c ==> c in s[1..];
      if j == -1 then -1 else j + 1
  }

  /** The clamping of a `substring` bound: negative to zero, past the end
      to the length, otherwise the bound itself. */
  function Clamp(n: int, len: nat): (r: nat)
    ensures r <= len
    ensures 0 <= n <= len ==> r == n
    ensures n < 0 ==> r == 0
    ensures n > len ==> r == len
  {
    if n < 0 then 0 else if n > len then len else n
  }

  /** `s.substring(start, end)`: both bounds are clamped to the string and
      swapped when the start lies after the end. */
  function JsSubstring(s: string, start: int, end: int): string {
    var a := Clamp(start, |s|);
    var b := Clamp(end, |s|);
    if a <= b then s[a..b] else s[b..a]
  }

  /** `getClassName`: the selector without its leading character, up to the
      first `:`. */
  function GetClassName(selector: string): string {
    var end := IndexOfChar(selector, ':');
    if end > -1 then JsSubstring(selector, 1, end) else JsSubstring(selector, 1, |selector|)
  }

  /** The selector of a rule the engines write, `.` then the class then an
      optional pseudo-class, gives back the class. */
  lemma ClassNameOfSelector(c: string, suffix: string)
    requires ':' !in c
    requires suffix == [] || suffix[0] == ':'
    ensures GetClassName("." + c + suffix) == c
  {
    var sel := "." + c + suffix;
    assert sel[1..1 + |c|] == c;
    assert forall j :: 0 <= j < 1 + |c| ==> sel[j] == if j == 0 then '.' else c[j - 1];
    if suffix != [] {
      assert sel[1 + |c|] == ':';
      assert IndexOfChar(sel, ':') == 1 + |c|;
    } else {
      assert sel == "." + c;
      assert ':' !in sel;
    }
  }

  /** A selector starting with `:` gives `":"`: `substring(1, 0)` swaps its
      bounds. */
  lemma LeadingColon(selector: string)
    requires |selector| > 0 && selector[0] == ':'
    ensures GetClassName(selector) == ":"
  {
    assert IndexOfChar(selector, ':') == 0;
    assert selector[0..1] == [selector[0]];
  }

  // ----- rehydration -----

  /** The keyframes names rehydrated from a media rule's rules. */
  function NamesIn(rules: seq<HostRule>): set<string>
    decreases |rules|
  {
    if rules == [] then {}
    else
      var last := rules[|rules| - 1];
      NamesIn(rules[..|rules| - 1]) + (if last.KeyframesRule? then {last.name} else {})
  }

  /** The classes rehydrated from a media rule's style rules. */
  function ClassNamesIn(rules: seq<HostRule>): set<string>
    decreases |rules|
  {
    if rules == [] then {}
    else
      var last := rules[|rules| - 1];
      ClassNamesIn(rules[..|rules| - 1]) + (if last.StyleRule? then {GetClassName(last.selectorText)} else {})
  }

  /** The class-to-property map rehydrated from a media rule's style rules;
      a later rule for the same class overwrites an earlier one. */
  function PropertiesIn(rules: seq<HostRule>): map<string, Option<string>>
    decreases |rules|
  {
    if rules == [] then map[]
    else
      var last := rules[|rules| - 1];
      var m := PropertiesIn(rules[..|rules| - 1]);
      if last.StyleRule? then m[GetClassName(last.selectorText) := last.firstProperty] else m
  }

  /** A name is rehydrated exactly when some keyframes rule carries it. */
  lemma {:induction false} NamesInIff(rules: seq<HostRule>, n: string)
    ensures n in NamesIn(rules) <==> exists i :: 0 <= i < |rules| && rules[i] == KeyframesRule(n)
    decreases |rules|
  {
    if rules != [] {
      var init := rules[..|rules| - 1];
      NamesInIff(init, n);
      assert forall i :: 0 <= i < |init| ==> init[i] == rules[i];
      if n in NamesIn(rules) && n !in NamesIn(init) {
        assert rules[|rules| - 1] == KeyframesRule(n);
      }
    }
  }

  /** A class is rehydrated exactly when some style rule's selector names
      it. */
  lemma {:induction false} ClassNamesInIff(rules: seq<HostRule>, c: string)
    ensures c in ClassNamesIn(rules) <==>
      exists i :: 0 <= i < |rules| && rules[i].StyleRule? && GetClassName(rules[i].selectorText) == c
    decreases |rules|
  {
    if rules != [] {
      var init := rules[..|rules| - 1];
      ClassNamesInIff(init, c);
      assert forall i :: 0 <= i < |init| ==> init[i] == rules[i];
      if c in ClassNamesIn(rules) && c !in ClassNamesIn(init) {
        assert rules[|rules| - 1].StyleRule? && GetClassName(rules[|rules| - 1].selectorText) == c;
      }
    }
  }

  /** The map has a key for exactly the rehydrated classes, and under each
      the first property of the last style rule for that class. */
  lemma {:induction false} PropertiesInFacts(rules: seq<HostRule>, i: int)
    requires 0 <= i < |rules| && rules[i].StyleRule?
    requires forall j :: i < j < |rules| && rules[j].StyleRule? ==>
               GetClassName(rules[j].selectorText) != GetClassName(rules[i].selectorText)
    ensures GetClassName(rules[i].selectorText) in PropertiesIn(rules)
    ensures PropertiesIn(rules)[GetClassName(rules[i].selectorText)] == rules[i].firstProperty
    decreases |rules|
  {
    var init := rules[..|rules| - 1];
    if i < |rules| - 1 {
      assert forall j :: 0 <= j < |init| ==> init[j] == rules[j];
      PropertiesInFacts(init, i);
    }
  }

  lemma {:induction false} PropertiesInKeys(rules: seq<HostRule>)
    ensures PropertiesIn(rules).Keys == ClassNamesIn(rules)
    decreases |rules|
  {
    if rules != [] {
      PropertiesInKeys(rules[..|rules| - 1]);
    }
  }

  // ----- the rehydration loops -----

  method RehydrateNames(rules: seq<HostRule>) returns (names: set<string>)
    ensures names == NamesIn(rules)
  {
    names := {};
    for i := 0 to |rules|
      invariant names == NamesIn(rules[..i])
    {
      assert rules[..i + 1][..i] == rules[..i];
      if rules[i].KeyframesRule? {
        names := names + {rules[i].name};
      }
    }
    assert rules[..|rules|] == rules;
  }

  method RehydrateClassNames(rules: seq<HostRule>) returns (classNames: set<string>)
    ensures classNames == ClassNamesIn(rules)
  {
    classNames := {};
    for i := 0 to |rules|
      invariant classNames == ClassNamesIn(rules[..i])
    {
      assert rules[..i + 1][..i] == rules[..i];
      if rules[i].StyleRule? {
        classNames := classNames + {GetClassName(rules[i].selectorText)};
      }
    }
    assert rules[..|rules|] == rules;
  }

  method RehydrateProperties(rules: seq<HostRule>) returns (properties: map<string, Option<string>>)
    ensures properties == PropertiesIn(rules)
  {
    properties := map[];
    for i := 0 to |rules|
      invariant properties == PropertiesIn(rules[..i])
    {
      assert rules[..i + 1][..i] == rules[..i];
      if rules[i].StyleRule? {
        properties := properties[GetClassName(rules[i].selectorText) := rules[i].firstProperty];
      }
    }
    assert rules[..|rules|] == rules;
  }

  /** The rules rehydration reads from a slot: those of its host media rule,
      or none; reading none is what skipping a missing media rule does. */
  function RulesIn(host: Option<seq<HostRule>>): seq<HostRule> {
    if host.Some? then host.value else []
  }

  /** The caches of src/cx.ts filled from the host rules of the reset,
      atomic, hover, focus and active slots (css.ts:130-163, sheet.ts:130-174). */
  method RehydrateCaches(hs: seq<Option<seq<HostRule>>>) returns (c: Caches)
    requires |hs| == 6
    ensures fresh(c)
    ensures c.View() == CacheView(ClassNamesIn(RulesIn(hs[1])), PropertiesIn(RulesIn(hs[2])),
                                  PropertiesIn(RulesIn(hs[3])), PropertiesIn(RulesIn(hs[4])), PropertiesIn(RulesIn(hs[5])))
  {
    c := new Caches();
    c.reset := RehydrateClassNames(RulesIn(hs[1]));
    c.atomic := RehydrateProperties(RulesIn(hs[2]));
    c.hover := RehydrateProperties(RulesIn(hs[3]));
    c.focus := RehydrateProperties(RulesIn(hs[4]));
    c.active := RehydrateProperties(RulesIn(hs[5]));
  }
}
