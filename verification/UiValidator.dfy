/** Which UI configurations are accepted, and the loops that find out. */
module UiValidator {
  import opened Common
  import opened UiModel

  const MAX_SCREEN_COUNT: nat := 24

  /** What a refusal names, in the order in which it is looked for. */
  datatype Problem =
    | TooManyScreens | DuplicateScreenId | BadScreenType | EmptyGrid | UnknownActiveGroup
    | DuplicateWidgetId | BadWidgetType | BadWidgetSize | BadWidgetPosition | BadWidgetProperty | BadBinding

  // ---------------------------------------------------------------- properties

  const PROPERTY_NAMES: seq<string> :=
    ["NONE", "IS_ACTIVE", "IS_SMOOTHED", "MIN_VALUE", "MAX_VALUE", "CHART_POINT_COUNT", "CHART_TYPE", "LABEL",
     "VALUE_PRECISION", "EDGE_OFFSET", "POSITION_X", "POSITION_Y", "POSITION_ANGLE", "ICON_TYPE", "START_ANGLE",
     "END_ANGLE", "FILE_PATH", "IMG_WIDTH", "IMG_HEIGHT", "PIVOT_X", "PIVOT_Y", "DIRECTION", "SETTING_ID", "STEP",
     "UNIT", "TARGET_SCREEN_GROUP", "IS_VISIBLE", "VALUE", "NAVIGATION_INTENT"]

  const NONE: nat := 0
  const IS_ACTIVE: nat := 1
  const IS_SMOOTHED: nat := 2
  const LABEL: nat := 7
  const FILE_PATH: nat := 16
  const SETTING_ID: nat := 22
  const UNIT: nat := 24
  const IS_VISIBLE: nat := 26

  /** The key spells the name, one byte a character. */
  predicate Spells(key: Text, name: string) {
    |key| == |name| && forall i :: 0 <= i < |key| ==> key[i] == name[i] as int
  }

  /** The first property of this name from the t-th on, or the number of names. */
  function TypeFrom(key: Text, t: nat): (r: nat)
    requires t <= |PROPERTY_NAMES|
    ensures t <= r <= |PROPERTY_NAMES| && (r < |PROPERTY_NAMES| ==> Spells(key, PROPERTY_NAMES[r]))
    ensures forall u :: t <= u < r ==> !Spells(key, PROPERTY_NAMES[u])
    decreases |PROPERTY_NAMES| - t
  {
    if t == |PROPERTY_NAMES| || Spells(key, PROPERTY_NAMES[t]) then t else TypeFrom(key, t + 1)
  }

  datatype Kind = Numeric | Boolean | Textual

  function KindOf(t: nat): Kind {
    if t == IS_ACTIVE || t == IS_SMOOTHED || t == IS_VISIBLE then Boolean
    else if t == LABEL || t == FILE_PATH || t == SETTING_ID || t == UNIT then Textual
    else Numeric
  }

  predicate HoldsKind(v: ConfigValue, kind: Kind) {
    match kind
    case Boolean => v.BoolValue?
    case Textual => v.TextValue?
    case Numeric => v.IntValue? || v.DoubleValue?
  }

  /** The key names a property, not NONE, and the value is of its kind. */
  predicate PropertyOk(key: Text, v: ConfigValue) {
    var t := TypeFrom(key, 0);
    t < |PROPERTY_NAMES| && t != NONE && HoldsKind(v, KindOf(t))
  }

  // ---------------------------------------------------------------- what is accepted

  predicate BindingOk(b: PropertyBinding) {
    1 <= b.channel <= 4 && b.direction <= 2 && b.target != NONE && b.target < |PROPERTY_NAMES|
    && (b.selectorValue.Unset? || b.selectorValue.TextValue? || b.selectorValue.IntValue?)
  }

  predicate WidgetTypeOk(kind: Uint32) {
    0x1_0001 <= kind <= 0x1_0002 || 0x2_0065 <= kind <= 0x2_006b || 0x3_00c9 <= kind <= 0x3_00cb
  }

  predicate SizeOk(w: WidgetConfiguration, g: GridSettings) {
    0 < w.size.width <= g.width && 0 < w.size.height <= g.height
  }

  predicate PositionOk(w: WidgetConfiguration, g: GridSettings) {
    0 <= w.position.x < g.width && 0 <= w.position.y < g.height
  }

  predicate PropertiesOk(w: WidgetConfiguration) {
    forall key :: key in w.properties ==> PropertyOk(key, w.properties[key])
  }

  predicate BindingsOk(w: WidgetConfiguration) {
    forall i :: 0 <= i < |w.bindings| ==> BindingOk(w.bindings[i])
  }

  predicate DistinctWidgets(ws: seq<WidgetConfiguration>) {
    forall i, j :: 0 <= i < j < |ws| ==> ws[i].id != ws[j].id
  }

  predicate HasBadType(s: ScreenConfiguration) {
    exists i :: 0 <= i < |s.widgets| && !WidgetTypeOk(s.widgets[i].kind)
  }

  predicate HasBadSize(s: ScreenConfiguration) {
    exists i :: 0 <= i < |s.widgets| && !SizeOk(s.widgets[i], s.grid)
  }

  predicate HasBadPosition(s: ScreenConfiguration) {
    exists i :: 0 <= i < |s.widgets| && !PositionOk(s.widgets[i], s.grid)
  }

  predicate HasBadProperty(s: ScreenConfiguration) {
    exists i :: 0 <= i < |s.widgets| && !PropertiesOk(s.widgets[i])
  }

  predicate HasBadBinding(s: ScreenConfiguration) {
    exists i :: 0 <= i < |s.widgets| && !BindingsOk(s.widgets[i])
  }

  /** What is wrong with the widgets of a screen first. */
  function ScreenProblem(s: ScreenConfiguration): Option<Problem> {
    if !DistinctWidgets(s.widgets) then Some(DuplicateWidgetId)
    else if HasBadType(s) then Some(BadWidgetType)
    else if HasBadSize(s) then Some(BadWidgetSize)
    else if HasBadPosition(s) then Some(BadWidgetPosition)
    else if HasBadProperty(s) then Some(BadWidgetProperty)
    else if HasBadBinding(s) then Some(BadBinding)
    else None
  }

  /** The problem of the first screen whose widgets have one. */
  function WidgetsProblem(screens: seq<ScreenConfiguration>): Option<Problem> {
    if screens == [] then None
    else
      var first := ScreenProblem(screens[0]);
      if first.Some? then first else WidgetsProblem(screens[1..])
  }

  predicate DistinctScreens(screens: seq<ScreenConfiguration>) {
    forall i, j :: 0 <= i < j < |screens| ==> screens[i].id != screens[j].id
  }

  /** A configuration without screens has no active group to check. */
  predicate ActiveGroupOk(c: UiConfiguration) {
    c.screens == [] || exists i :: 0 <= i < |c.screens| && c.screens[i].groupId == c.activeGroup
  }

  /** The verdict: nothing, or the problem that is found first. */
  function Verdict(c: UiConfiguration): Option<Problem> {
    if |c.screens| > MAX_SCREEN_COUNT then Some(TooManyScreens)
    else if !DistinctScreens(c.screens) then Some(DuplicateScreenId)
    else if exists i :: 0 <= i < |c.screens| && !(1 <= c.screens[i].kind <= 4) then Some(BadScreenType)
    else if exists i :: 0 <= i < |c.screens| && (c.screens[i].grid.width == 0 || c.screens[i].grid.height == 0) then
      Some(EmptyGrid)
    else if !ActiveGroupOk(c) then Some(UnknownActiveGroup)
    else WidgetsProblem(c.screens)
  }

  // ---------------------------------------------------------------- what an accepted configuration guarantees

  const BOOLEAN_KEYS: seq<string> := ["IS_ACTIVE", "IS_SMOOTHED", "IS_VISIBLE"]

  const TEXT_KEYS: seq<string> := ["LABEL", "FILE_PATH", "SETTING_ID", "UNIT"]

  const NUMBER_KEYS: seq<string> :=
    ["MIN_VALUE", "MAX_VALUE", "CHART_POINT_COUNT", "CHART_TYPE", "VALUE_PRECISION", "EDGE_OFFSET", "POSITION_X",
     "POSITION_Y", "POSITION_ANGLE", "ICON_TYPE", "START_ANGLE", "END_ANGLE", "IMG_WIDTH", "IMG_HEIGHT", "PIVOT_X",
     "PIVOT_Y", "DIRECTION", "STEP", "TARGET_SCREEN_GROUP", "VALUE", "NAVIGATION_INTENT"]

  predicate IsOneOf(key: Text, names: seq<string>) {
    exists i :: 0 <= i < |names| && Spells(key, names[i])
  }

  /** The key is one of the 28 names, and its value a bool, a text or a number as the name wants it. */
  predicate SoundProperty(key: Text, v: ConfigValue) {
    || (IsOneOf(key, BOOLEAN_KEYS) && v.BoolValue?)
    || (IsOneOf(key, TEXT_KEYS) && v.TextValue?)
    || (IsOneOf(key, NUMBER_KEYS) && (v.IntValue? || v.DoubleValue?))
  }

  lemma NamesAreDistinct(u: nat, t: nat)
    requires u < t < |PROPERTY_NAMES|
    ensures PROPERTY_NAMES[u] != PROPERTY_NAMES[t]
  {
  }

  lemma NameHasItsKind(t: nat)
    requires 0 < t < |PROPERTY_NAMES|
    ensures KindOf(t) == Boolean ==> PROPERTY_NAMES[t] in BOOLEAN_KEYS
    ensures KindOf(t) == Textual ==> PROPERTY_NAMES[t] in TEXT_KEYS
    ensures KindOf(t) == Numeric ==> PROPERTY_NAMES[t] in NUMBER_KEYS
  {
  }

  lemma BooleanName(i: nat)
    requires i < |BOOLEAN_KEYS|
    ensures BOOLEAN_KEYS[i] == PROPERTY_NAMES[if i == 0 then 1 else if i == 1 then 2 else 26]
  {
  }

  lemma TextName(i: nat)
    requires i < |TEXT_KEYS|
    ensures TEXT_KEYS[i] == PROPERTY_NAMES[if i == 0 then 7 else if i == 1 then 16 else if i == 2 then 22 else 24]
  {
  }

  /** Where the numeric names stand among all names. */
  const NUMBER_PLACES: seq<nat> := [3, 4, 5, 6, 8, 9, 10, 11, 12, 13, 14, 15, 17, 18, 19, 20, 21, 23, 25, 27, 28]

  lemma NumberName(i: nat)
    requires i < |NUMBER_KEYS|
    ensures |NUMBER_PLACES| == |NUMBER_KEYS| && 0 < NUMBER_PLACES[i] < |PROPERTY_NAMES|
    ensures NUMBER_KEYS[i] == PROPERTY_NAMES[NUMBER_PLACES[i]] && KindOf(NUMBER_PLACES[i]) == Numeric
  {
  }

  lemma SameName(key: Text, a: string, b: string)
    requires Spells(key, a) && Spells(key, b)
    ensures a == b
  {
  }

  /** A key that spells a name is found as that name. */
  lemma FoundAs(key: Text, t: nat)
    requires t < |PROPERTY_NAMES| && Spells(key, PROPERTY_NAMES[t])
    ensures TypeFrom(key, 0) == t
  {
    var r := TypeFrom(key, 0);
    if r < t {
      SameName(key, PROPERTY_NAMES[r], PROPERTY_NAMES[t]);
      NamesAreDistinct(r, t);
    }
  }

  lemma PropertyOkIff(key: Text, v: ConfigValue)
    ensures PropertyOk(key, v) <==> SoundProperty(key, v)
  {
    var r := TypeFrom(key, 0);
    if 0 < r < |PROPERTY_NAMES| {
      NameHasItsKind(r);
      NameIsOneOf(key, PROPERTY_NAMES[r], BOOLEAN_KEYS);
      NameIsOneOf(key, PROPERTY_NAMES[r], TEXT_KEYS);
      NameIsOneOf(key, PROPERTY_NAMES[r], NUMBER_KEYS);
    }
    KindIsByName(key);
  }

  lemma NameIsOneOf(key: Text, name: string, names: seq<string>)
    requires Spells(key, name)
    ensures name in names ==> IsOneOf(key, names)
  {
    if name in names {
      var i :| 0 <= i < |names| && names[i] == name;
      assert Spells(key, names[i]);
    }
  }

  lemma KindIsByName(key: Text)
    ensures
      var t := TypeFrom(key, 0);
      && (IsOneOf(key, BOOLEAN_KEYS) ==> 0 < t < |PROPERTY_NAMES| && KindOf(t) == Boolean)
      && (IsOneOf(key, TEXT_KEYS) ==> 0 < t < |PROPERTY_NAMES| && KindOf(t) == Textual)
      && (IsOneOf(key, NUMBER_KEYS) ==> 0 < t < |PROPERTY_NAMES| && KindOf(t) == Numeric)
  {
    if IsOneOf(key, BOOLEAN_KEYS) {
      var i: nat :| i < |BOOLEAN_KEYS| && Spells(key, BOOLEAN_KEYS[i]);
      BooleanName(i);
      FoundAs(key, if i == 0 then 1 else if i == 1 then 2 else 26);
    }
    if IsOneOf(key, TEXT_KEYS) {
      var i: nat :| i < |TEXT_KEYS| && Spells(key, TEXT_KEYS[i]);
      TextName(i);
      FoundAs(key, if i == 0 then 7 else if i == 1 then 16 else if i == 2 then 22 else 24);
    }
    if IsOneOf(key, NUMBER_KEYS) {
      var i: nat :| i < |NUMBER_KEYS| && Spells(key, NUMBER_KEYS[i]);
      NumberName(i);
      FoundAs(key, NUMBER_PLACES[i]);
    }
  }

  /** A binding names one of the four channels, one of the three directions, one of the 28 properties. */
  predicate SoundBinding(b: PropertyBinding) {
    && b.channel in {1, 2, 3, 4} && b.direction in {0, 1, 2} && 1 <= b.target <= 28
    && (b.selectorValue == Unset || b.selectorValue.TextValue? || b.selectorValue.IntValue?)
  }

  /** One of the twelve widgets, not empty, no larger than the grid, and starting inside it. */
  predicate SoundWidget(w: WidgetConfiguration, columns: nat, rows: nat) {
    && w.kind in {0x1_0001, 0x1_0002, 0x2_0065, 0x2_0066, 0x2_0067, 0x2_0068, 0x2_0069, 0x2_006a, 0x2_006b,
                  0x3_00c9, 0x3_00ca, 0x3_00cb}
    && 1 <= w.size.width <= columns && 1 <= w.size.height <= rows
    && 0 <= w.position.x <= columns - 1 && 0 <= w.position.y <= rows - 1
    && (forall key :: key in w.properties ==> SoundProperty(key, w.properties[key]))
    && (forall i :: 0 <= i < |w.bindings| ==> SoundBinding(w.bindings[i]))
  }

  predicate SoundScreen(s: ScreenConfiguration) {
    && s.kind in {1, 2, 3, 4} && s.grid.width > 0 && s.grid.height > 0
    && (forall i :: 0 <= i < |s.widgets| ==> SoundWidget(s.widgets[i], s.grid.width, s.grid.height))
    && (forall i, j :: 0 <= i < |s.widgets| && 0 <= j < |s.widgets| && s.widgets[i].id == s.widgets[j].id ==> i == j)
  }

  /** At most 24 sound screens with ids of their own, one of them in the active group if there are any. */
  predicate Sound(c: UiConfiguration) {
    && |c.screens| <= 24
    && (forall i :: 0 <= i < |c.screens| ==> SoundScreen(c.screens[i]))
    && (forall i, j :: 0 <= i < |c.screens| && 0 <= j < |c.screens| && c.screens[i].id == c.screens[j].id ==> i == j)
    && (|c.screens| > 0 ==> exists i :: 0 <= i < |c.screens| && c.screens[i].groupId == c.activeGroup)
  }

  lemma PropertiesOkIff(w: WidgetConfiguration)
    ensures PropertiesOk(w) <==> forall key :: key in w.properties ==> SoundProperty(key, w.properties[key])
  {
    forall key | key in w.properties
      ensures PropertyOk(key, w.properties[key]) <==> SoundProperty(key, w.properties[key])
    {
      PropertyOkIff(key, w.properties[key]);
    }
  }

  lemma BindingsOkIff(w: WidgetConfiguration)
    ensures BindingsOk(w) <==> forall i :: 0 <= i < |w.bindings| ==> SoundBinding(w.bindings[i])
  {
    forall i | 0 <= i < |w.bindings| ensures BindingOk(w.bindings[i]) <==> SoundBinding(w.bindings[i]) {
    }
  }

  lemma WidgetOkIff(w: WidgetConfiguration, g: GridSettings)
    ensures WidgetTypeOk(w.kind) && SizeOk(w, g) && PositionOk(w, g) && PropertiesOk(w) && BindingsOk(w)
            <==> SoundWidget(w, g.width, g.height)
  {
    PropertiesOkIff(w);
    BindingsOkIff(w);
  }

  lemma ScreenOkIff(s: ScreenConfiguration)
    ensures ScreenProblem(s).None? && 1 <= s.kind <= 4 && s.grid.width != 0 && s.grid.height != 0 <==> SoundScreen(s)
  {
    forall i | 0 <= i < |s.widgets|
      ensures WidgetTypeOk(s.widgets[i].kind) && SizeOk(s.widgets[i], s.grid) && PositionOk(s.widgets[i], s.grid)
              && PropertiesOk(s.widgets[i]) && BindingsOk(s.widgets[i])
              <==> SoundWidget(s.widgets[i], s.grid.width, s.grid.height)
    {
      WidgetOkIff(s.widgets[i], s.grid);
    }
  }

  lemma {:induction false} WidgetsOkIff(screens: seq<ScreenConfiguration>)
    ensures WidgetsProblem(screens).None? <==> forall i :: 0 <= i < |screens| ==> ScreenProblem(screens[i]).None?
  {
    if screens != [] {
      WidgetsOkIff(screens[1..]);
      assert forall i :: 1 <= i < |screens| ==> screens[i] == screens[1..][i - 1];
    }
  }

  /** A configuration is accepted if and only if it is sound. */
  lemma AcceptedIff(c: UiConfiguration)
    ensures Verdict(c).None? <==> Sound(c)
  {
    WidgetsOkIff(c.screens);
    forall i | 0 <= i < |c.screens|
      ensures (ScreenProblem(c.screens[i]).None? && 1 <= c.screens[i].kind <= 4
               && c.screens[i].grid.width != 0 && c.screens[i].grid.height != 0)
              <==> SoundScreen(c.screens[i])
    {
      ScreenOkIff(c.screens[i]);
    }
  }

  /** The problem is a widget's own. */
  predicate WidgetHas(w: WidgetConfiguration, columns: nat, rows: nat, p: Problem) {
    match p
    case BadWidgetType => w.kind !in {0x1_0001, 0x1_0002, 0x2_0065, 0x2_0066, 0x2_0067, 0x2_0068, 0x2_0069, 0x2_006a,
                                      0x2_006b, 0x3_00c9, 0x3_00ca, 0x3_00cb}
    case BadWidgetSize => w.size.width == 0 || w.size.height == 0 || w.size.width > columns || w.size.height > rows
    case BadWidgetPosition => w.position.x < 0 || w.position.y < 0 || w.position.x >= columns || w.position.y >= rows
    case BadWidgetProperty => exists key :: key in w.properties && !SoundProperty(key, w.properties[key])
    case BadBinding => exists i :: 0 <= i < |w.bindings| && !SoundBinding(w.bindings[i])
    case _ => false
  }

  predicate ScreenHas(s: ScreenConfiguration, p: Problem) {
    match p
    case BadScreenType => s.kind !in {1, 2, 3, 4}
    case EmptyGrid => s.grid.width == 0 || s.grid.height == 0
    case DuplicateWidgetId => exists i, j :: 0 <= i < j < |s.widgets| && s.widgets[i].id == s.widgets[j].id
    case _ => exists i :: 0 <= i < |s.widgets| && WidgetHas(s.widgets[i], s.grid.width, s.grid.height, p)
  }

  predicate Has(c: UiConfiguration, p: Problem) {
    match p
    case TooManyScreens => |c.screens| > 24
    case DuplicateScreenId => exists i, j :: 0 <= i < j < |c.screens| && c.screens[i].id == c.screens[j].id
    case UnknownActiveGroup =>
      c.screens != [] && forall i :: 0 <= i < |c.screens| ==> c.screens[i].groupId != c.activeGroup
    case _ => exists i :: 0 <= i < |c.screens| && ScreenHas(c.screens[i], p)
  }

  lemma ScreenProblemIsThere(s: ScreenConfiguration)
    requires ScreenProblem(s).Some?
    ensures ScreenHas(s, ScreenProblem(s).value)
  {
    var p := ScreenProblem(s).value;
    forall i | 0 <= i < |s.widgets|
      ensures PropertiesOk(s.widgets[i])
              || exists key :: key in s.widgets[i].properties && !SoundProperty(key, s.widgets[i].properties[key])
      ensures BindingsOk(s.widgets[i])
              || exists k :: 0 <= k < |s.widgets[i].bindings| && !SoundBinding(s.widgets[i].bindings[k])
    {
      PropertiesOkIff(s.widgets[i]);
      BindingsOkIff(s.widgets[i]);
    }
    if p != DuplicateWidgetId {
      var i :| 0 <= i < |s.widgets|
        && (if p == BadWidgetType then !WidgetTypeOk(s.widgets[i].kind)
            else if p == BadWidgetSize then !SizeOk(s.widgets[i], s.grid)
            else if p == BadWidgetPosition then !PositionOk(s.widgets[i], s.grid)
            else if p == BadWidgetProperty then !PropertiesOk(s.widgets[i])
            else !BindingsOk(s.widgets[i]));
      assert WidgetHas(s.widgets[i], s.grid.width, s.grid.height, p);
    }
  }

  lemma {:induction false} WidgetsProblemIsThere(screens: seq<ScreenConfiguration>)
    requires WidgetsProblem(screens).Some?
    ensures exists i :: 0 <= i < |screens| && ScreenHas(screens[i], WidgetsProblem(screens).value)
    ensures WidgetsProblem(screens).value in {DuplicateWidgetId, BadWidgetType, BadWidgetSize, BadWidgetPosition,
                                              BadWidgetProperty, BadBinding}
  {
    if ScreenProblem(screens[0]).Some? {
      ScreenProblemIsThere(screens[0]);
    } else {
      WidgetsProblemIsThere(screens[1..]);
      var i :| 0 <= i < |screens[1..]| && ScreenHas(screens[1..][i], WidgetsProblem(screens).value);
      assert ScreenHas(screens[i + 1], WidgetsProblem(screens).value);
    }
  }

  lemma WidgetsComeLast(c: UiConfiguration, p: Problem)
    requires Verdict(c) == Some(p)
    requires p !in {TooManyScreens, DuplicateScreenId, BadScreenType, EmptyGrid, UnknownActiveGroup}
    ensures WidgetsProblem(c.screens) == Some(p)
  {
  }

  lemma BadScreenIsThere(c: UiConfiguration)
    requires Verdict(c) in {Some(BadScreenType), Some(EmptyGrid)}
    ensures exists i :: 0 <= i < |c.screens| && ScreenHas(c.screens[i], Verdict(c).value)
  {
    WidgetsAreNotScreens(c.screens);
    if Verdict(c).value == BadScreenType {
      var i :| 0 <= i < |c.screens| && !(1 <= c.screens[i].kind <= 4);
      assert ScreenHas(c.screens[i], BadScreenType);
    } else {
      var i :| 0 <= i < |c.screens| && (c.screens[i].grid.width == 0 || c.screens[i].grid.height == 0);
      assert ScreenHas(c.screens[i], EmptyGrid);
    }
  }

  lemma WidgetsAreNotScreens(screens: seq<ScreenConfiguration>)
    ensures WidgetsProblem(screens) !in {Some(TooManyScreens), Some(DuplicateScreenId), Some(BadScreenType),
                                         Some(EmptyGrid), Some(UnknownActiveGroup)}
  {
    if WidgetsProblem(screens).Some? {
      WidgetsProblemIsThere(screens);
    }
  }

  /** The problem that a refusal names is there. */
  lemma NamedProblemIsThere(c: UiConfiguration)
    requires Verdict(c).Some?
    ensures Has(c, Verdict(c).value)
  {
    WidgetsAreNotScreens(c.screens);
    match Verdict(c).value
    case BadScreenType => BadScreenIsThere(c);
    case EmptyGrid => BadScreenIsThere(c);
    case TooManyScreens =>
    case DuplicateScreenId =>
    case UnknownActiveGroup =>
    case _ =>
      WidgetsComeLast(c, Verdict(c).value);
      WidgetsProblemIsThere(c.screens);
  }

  // ---------------------------------------------------------------- the order of widgets does not matter

  /** The same distinctness without an order: one widget an id, and it only once. */
  ghost predicate DistinctIn(m: multiset<WidgetConfiguration>) {
    forall a, b :: a in m && b in m && a.id == b.id ==> a == b && m[a] == 1
  }

  lemma {:induction false} DistinctIff(ws: seq<WidgetConfiguration>)
    ensures DistinctWidgets(ws) <==> DistinctIn(multiset(ws))
  {
    if ws != [] {
      var head, tail := ws[0], ws[1..];
      assert ws == [head] + tail;
      assert multiset(ws) == multiset{head} + multiset(tail);
      DistinctIff(tail);
      HeadDistinctIff(head, tail);
      HeadJoinsIff(head, multiset(tail));
    }
  }

  lemma HeadDistinctIff(head: WidgetConfiguration, tail: seq<WidgetConfiguration>)
    ensures DistinctWidgets([head] + tail)
            <==> DistinctWidgets(tail) && forall b :: b in multiset(tail) ==> b.id != head.id
  {
    var ws := [head] + tail;
    if DistinctWidgets(ws) {
      forall i, j | 0 <= i < j < |tail| ensures tail[i].id != tail[j].id {
        assert ws[i + 1] == tail[i] && ws[j + 1] == tail[j];
      }
      forall b | b in multiset(tail) ensures b.id != head.id {
        var j :| 0 <= j < |tail| && tail[j] == b;
        assert ws[0] == head && ws[j + 1] == b;
      }
    } else {
      var i, j :| 0 <= i < j < |ws| && ws[i].id == ws[j].id;
      assert ws[j] == tail[j - 1] && tail[j - 1] in multiset(tail);
      if i > 0 {
        assert ws[i] == tail[i - 1];
      }
    }
  }

  lemma HeadJoinsIff(head: WidgetConfiguration, m: multiset<WidgetConfiguration>)
    ensures DistinctIn(multiset{head} + m) <==> DistinctIn(m) && forall b :: b in m ==> b.id != head.id
  {
    var all := multiset{head} + m;
    if DistinctIn(all) {
      forall b | b in m ensures b.id != head.id {
        assert head in all && b in all;
        assert b == head ==> all[head] >= 2;
      }
      forall a, b | a in m && b in m && a.id == b.id ensures a == b && m[a] == 1 {
        assert a in all && b in all && all[a] == 1;
      }
    }
  }

  lemma InMultiset(ws: seq<WidgetConfiguration>, i: nat)
    requires i < |ws|
    ensures ws[i] in multiset(ws)
  {
  }

  /** Widgets that all pass a check pass it in any order. */
  lemma AllInAnyOrder(ws: seq<WidgetConfiguration>, ws': seq<WidgetConfiguration>, ok: WidgetConfiguration -> bool)
    requires multiset(ws) == multiset(ws')
    ensures (exists i :: 0 <= i < |ws| && !ok(ws[i])) <==> (exists i :: 0 <= i < |ws'| && !ok(ws'[i]))
  {
    if exists i :: 0 <= i < |ws| && !ok(ws[i]) {
      AnyMoves(ws, ws', ok);
    }
    if exists i :: 0 <= i < |ws'| && !ok(ws'[i]) {
      AnyMoves(ws', ws, ok);
    }
  }

  lemma AnyMoves(ws: seq<WidgetConfiguration>, ws': seq<WidgetConfiguration>, ok: WidgetConfiguration -> bool)
    requires multiset(ws) == multiset(ws')
    requires exists i :: 0 <= i < |ws| && !ok(ws[i])
    ensures exists i :: 0 <= i < |ws'| && !ok(ws'[i])
  {
    var i :| 0 <= i < |ws| && !ok(ws[i]);
    InMultiset(ws, i);
    assert ws[i] in multiset(ws');
    var j :| 0 <= j < |ws'| && ws'[j] == ws[i];
  }

  /** The same screen with its widgets in any order. */
  ghost predicate Reordered(s: ScreenConfiguration, s': ScreenConfiguration) {
    s' == s.(widgets := s'.widgets) && multiset(s.widgets) == multiset(s'.widgets)
  }

  lemma HasBadTypeInAnyOrder(s: ScreenConfiguration, s': ScreenConfiguration)
    requires Reordered(s, s')
    ensures HasBadType(s) == HasBadType(s')
  {
    AllInAnyOrder(s.widgets, s'.widgets, (w: WidgetConfiguration) => WidgetTypeOk(w.kind));
  }

  lemma HasBadSizeInAnyOrder(s: ScreenConfiguration, s': ScreenConfiguration)
    requires Reordered(s, s')
    ensures HasBadSize(s) == HasBadSize(s')
  {
    AllInAnyOrder(s.widgets, s'.widgets, (w: WidgetConfiguration) => SizeOk(w, s.grid));
  }

  lemma HasBadPositionInAnyOrder(s: ScreenConfiguration, s': ScreenConfiguration)
    requires Reordered(s, s')
    ensures HasBadPosition(s) == HasBadPosition(s')
  {
    AllInAnyOrder(s.widgets, s'.widgets, (w: WidgetConfiguration) => PositionOk(w, s.grid));
  }

  lemma HasBadPropertyInAnyOrder(s: ScreenConfiguration, s': ScreenConfiguration)
    requires Reordered(s, s')
    ensures HasBadProperty(s) == HasBadProperty(s')
  {
    AllInAnyOrder(s.widgets, s'.widgets, PropertiesOk);
  }

  lemma HasBadBindingInAnyOrder(s: ScreenConfiguration, s': ScreenConfiguration)
    requires Reordered(s, s')
    ensures HasBadBinding(s) == HasBadBinding(s')
  {
    AllInAnyOrder(s.widgets, s'.widgets, BindingsOk);
  }

  lemma DistinctInAnyOrder(s: ScreenConfiguration, s': ScreenConfiguration)
    requires Reordered(s, s')
    ensures DistinctWidgets(s.widgets) == DistinctWidgets(s'.widgets)
  {
    DistinctIff(s.widgets);
    DistinctIff(s'.widgets);
  }

  lemma ScreenInAnyOrder(s: ScreenConfiguration, s': ScreenConfiguration)
    requires Reordered(s, s')
    ensures ScreenProblem(s) == ScreenProblem(s')
  {
    DistinctInAnyOrder(s, s');
    HasBadTypeInAnyOrder(s, s');
    HasBadSizeInAnyOrder(s, s');
    HasBadPositionInAnyOrder(s, s');
    HasBadPropertyInAnyOrder(s, s');
    HasBadBindingInAnyOrder(s, s');
  }

  /** The same configuration with the widgets of every screen in any order. */
  ghost predicate WidgetsReordered(c: UiConfiguration, c': UiConfiguration) {
    c' == c.(screens := c'.screens) && |c.screens| == |c'.screens|
    && forall i :: 0 <= i < |c.screens| ==> Reordered(c.screens[i], c'.screens[i])
  }

  lemma {:induction false} ScreensInAnyOrder(a: seq<ScreenConfiguration>, b: seq<ScreenConfiguration>)
    requires |a| == |b| && forall i :: 0 <= i < |a| ==> Reordered(a[i], b[i])
    ensures WidgetsProblem(a) == WidgetsProblem(b)
  {
    if a != [] {
      ScreenInAnyOrder(a[0], b[0]);
      ScreensInAnyOrder(a[1..], b[1..]);
    }
  }

  /** The verdict, down to the problem it names, does not depend on the order of any screen's widgets. */
  lemma VerdictInAnyOrder(c: UiConfiguration, c': UiConfiguration)
    requires WidgetsReordered(c, c')
    ensures Verdict(c) == Verdict(c')
  {
    ScreensInAnyOrder(c.screens, c'.screens);
    HeadersInAnyOrder(c, c');
  }

  lemma HeadersInAnyOrder(c: UiConfiguration, c': UiConfiguration)
    requires WidgetsReordered(c, c')
    ensures DistinctScreens(c.screens) == DistinctScreens(c'.screens) && ActiveGroupOk(c) == ActiveGroupOk(c')
    ensures forall i :: 0 <= i < |c.screens| ==>
              c.screens[i].kind == c'.screens[i].kind && c.screens[i].grid == c'.screens[i].grid
  {
    forall i | 0 <= i < |c.screens|
      ensures c.screens[i].id == c'.screens[i].id && c.screens[i].groupId == c'.screens[i].groupId
              && c.screens[i].kind == c'.screens[i].kind && c.screens[i].grid == c'.screens[i].grid
    {
      assert Reordered(c.screens[i], c'.screens[i]);
    }
  }

  // ---------------------------------------------------------------- the checks

  method Validate(c: UiConfiguration) returns (problem: Option<Problem>)
    ensures problem == Verdict(c)
  {
    if |c.screens| > MAX_SCREEN_COUNT {
      return Some(TooManyScreens);
    }
    problem := ValidateScreenId(c);
    if problem.Some? {
      return;
    }
    problem := ValidateScreenType(c);
    if problem.Some? {
      return;
    }
    problem := ValidateScreenGrid(c);
    if problem.Some? {
      return;
    }
    problem := ValidateActiveScreenGroupId(c);
    if problem.Some? {
      return;
    }
    problem := ValidateScreens(c);
  }

  method ValidateScreenId(c: UiConfiguration) returns (problem: Option<Problem>)
    ensures problem == if DistinctScreens(c.screens) then None else Some(DuplicateScreenId)
  {
    var ids: set<Uint32> := {};
    var i := 0;
    while i < |c.screens|
      invariant 0 <= i <= |c.screens|
      invariant ids == set j | 0 <= j < i :: c.screens[j].id
      invariant forall j, k :: 0 <= j < k < i ==> c.screens[j].id != c.screens[k].id
    {
      if c.screens[i].id in ids {
        return Some(DuplicateScreenId);
      }
      ids := ids + {c.screens[i].id};
      i := i + 1;
    }
    problem := None;
  }

  method ValidateScreenType(c: UiConfiguration) returns (problem: Option<Problem>)
    ensures problem == if exists i :: 0 <= i < |c.screens| && !(1 <= c.screens[i].kind <= 4) then Some(BadScreenType)
                       else None
  {
    var i := 0;
    while i < |c.screens|
      invariant 0 <= i <= |c.screens|
      invariant forall j :: 0 <= j < i ==> 1 <= c.screens[j].kind <= 4
    {
      var kind := c.screens[i].kind;
      if !(kind == 1 || kind == 2 || kind == 3 || kind == 4) {
        return Some(BadScreenType);
      }
      i := i + 1;
    }
    problem := None;
  }

  method ValidateScreenGrid(c: UiConfiguration) returns (problem: Option<Problem>)
    ensures problem == if exists i :: 0 <= i < |c.screens|
                                      && (c.screens[i].grid.width == 0 || c.screens[i].grid.height == 0)
                       then Some(EmptyGrid) else None
  {
    var i := 0;
    while i < |c.screens|
      invariant 0 <= i <= |c.screens|
      invariant forall j :: 0 <= j < i ==> c.screens[j].grid.width != 0 && c.screens[j].grid.height != 0
    {
      if c.screens[i].grid.width == 0 {
        return Some(EmptyGrid);
      }
      if c.screens[i].grid.height == 0 {
        return Some(EmptyGrid);
      }
      i := i + 1;
    }
    problem := None;
  }

  method ValidateActiveScreenGroupId(c: UiConfiguration) returns (problem: Option<Problem>)
    ensures problem == if ActiveGroupOk(c) then None else Some(UnknownActiveGroup)
  {
    if c.screens == [] {
      return None;
    }
    var i := 0;
    while i < |c.screens|
      invariant 0 <= i <= |c.screens|
      invariant forall j :: 0 <= j < i ==> c.screens[j].groupId != c.activeGroup
    {
      if c.screens[i].groupId == c.activeGroup {
        return None;
      }
      i := i + 1;
    }
    problem := Some(UnknownActiveGroup);
  }

  method ValidateScreens(c: UiConfiguration) returns (problem: Option<Problem>)
    ensures problem == WidgetsProblem(c.screens)
  {
    var i := 0;
    while i < |c.screens|
      invariant 0 <= i <= |c.screens|
      invariant WidgetsProblem(c.screens) == WidgetsProblem(c.screens[i..])
    {
      problem := ValidateWidgets(c.screens[i]);
      if problem.Some? {
        return;
      }
      i := i + 1;
    }
    problem := None;
  }

  method ValidateWidgets(s: ScreenConfiguration) returns (problem: Option<Problem>)
    ensures problem == ScreenProblem(s)
  {
    problem := ValidateWidgetId(s);
    if problem.Some? {
      return;
    }
    problem := ValidateWidgetType(s);
    if problem.Some? {
      return;
    }
    problem := ValidateWidgetSize(s);
    if problem.Some? {
      return;
    }
    problem := ValidateWidgetPosition(s);
    if problem.Some? {
      return;
    }
    problem := ValidateWidgetProperties(s);
    if problem.Some? {
      return;
    }
    problem := ValidateWidgetBindings(s);
  }

  method ValidateWidgetId(s: ScreenConfiguration) returns (problem: Option<Problem>)
    ensures problem == if DistinctWidgets(s.widgets) then None else Some(DuplicateWidgetId)
  {
    var ids: set<Uint32> := {};
    var i := 0;
    while i < |s.widgets|
      invariant 0 <= i <= |s.widgets|
      invariant ids == set j | 0 <= j < i :: s.widgets[j].id
      invariant forall j, k :: 0 <= j < k < i ==> s.widgets[j].id != s.widgets[k].id
    {
      if s.widgets[i].id in ids {
        return Some(DuplicateWidgetId);
      }
      ids := ids + {s.widgets[i].id};
      i := i + 1;
    }
    problem := None;
  }

  method ValidateWidgetType(s: ScreenConfiguration) returns (problem: Option<Problem>)
    ensures problem == if HasBadType(s) then Some(BadWidgetType) else None
  {
    var i := 0;
    while i < |s.widgets|
      invariant 0 <= i <= |s.widgets|
      invariant forall j :: 0 <= j < i ==> WidgetTypeOk(s.widgets[j].kind)
    {
      var kind := s.widgets[i].kind;
      if !(kind in {0x1_0001, 0x1_0002, 0x2_0065, 0x2_0066, 0x2_0067, 0x2_0068, 0x2_0069, 0x2_006a, 0x2_006b,
                    0x3_00c9, 0x3_00ca, 0x3_00cb}) {
        return Some(BadWidgetType);
      }
      i := i + 1;
    }
    problem := None;
  }

  method ValidateWidgetSize(s: ScreenConfiguration) returns (problem: Option<Problem>)
    ensures problem == if HasBadSize(s) then Some(BadWidgetSize) else None
  {
    var i := 0;
    while i < |s.widgets|
      invariant 0 <= i <= |s.widgets|
      invariant forall j :: 0 <= j < i ==> SizeOk(s.widgets[j], s.grid)
    {
      var size := s.widgets[i].size;
      if size.width == 0 || size.height == 0 || size.width > s.grid.width || size.height > s.grid.height {
        return Some(BadWidgetSize);
      }
      i := i + 1;
    }
    problem := None;
  }

  method ValidateWidgetPosition(s: ScreenConfiguration) returns (problem: Option<Problem>)
    ensures problem == if HasBadPosition(s) then Some(BadWidgetPosition) else None
  {
    var i := 0;
    while i < |s.widgets|
      invariant 0 <= i <= |s.widgets|
      invariant forall j :: 0 <= j < i ==> PositionOk(s.widgets[j], s.grid)
    {
      var at := s.widgets[i].position;
      if at.x < 0 || at.y < 0 {
        return Some(BadWidgetPosition);
      }
      if at.x >= s.grid.width || at.y >= s.grid.height {
        return Some(BadWidgetPosition);
      }
      i := i + 1;
    }
    problem := None;
  }

  /** The type of the name, or nothing for a name that is none. */
  method GetType(key: Text) returns (t: Option<nat>)
    ensures t == if TypeFrom(key, 0) < |PROPERTY_NAMES| then Some(TypeFrom(key, 0)) else None
  {
    var i := 0;
    while i < |PROPERTY_NAMES|
      invariant 0 <= i <= |PROPERTY_NAMES| && TypeFrom(key, 0) == TypeFrom(key, i)
    {
      if Spells(key, PROPERTY_NAMES[i]) {
        return Some(i);
      }
      i := i + 1;
    }
    t := None;
  }

  method ValidateWidgetProperties(s: ScreenConfiguration) returns (problem: Option<Problem>)
    ensures problem == if HasBadProperty(s) then Some(BadWidgetProperty) else None
  {
    var i := 0;
    while i < |s.widgets|
      invariant 0 <= i <= |s.widgets|
      invariant forall j :: 0 <= j < i ==> PropertiesOk(s.widgets[j])
    {
      var ok := CheckProperties(s.widgets[i]);
      if !ok {
        return Some(BadWidgetProperty);
      }
      i := i + 1;
    }
    problem := None;
  }

  /** The properties in whatever order the map gives them. */
  method CheckProperties(w: WidgetConfiguration) returns (ok: bool)
    ensures ok == PropertiesOk(w)
  {
    var left := w.properties.Keys;
    while left != {}
      invariant left <= w.properties.Keys
      invariant forall key :: key in w.properties && key !in left ==> PropertyOk(key, w.properties[key])
      decreases |left|
    {
      var key :| key in left;
      var t := GetType(key);
      if t.None? || t.value == NONE || !HoldsKind(w.properties[key], KindOf(t.value)) {
        return false;
      }
      left := left - {key};
    }
    ok := true;
  }

  method ValidateWidgetBindings(s: ScreenConfiguration) returns (problem: Option<Problem>)
    ensures problem == if HasBadBinding(s) then Some(BadBinding) else None
  {
    var i := 0;
    while i < |s.widgets|
      invariant 0 <= i <= |s.widgets|
      invariant forall j :: 0 <= j < i ==> BindingsOk(s.widgets[j])
    {
      var ok := CheckBindings(s.widgets[i].bindings);
      if !ok {
        return Some(BadBinding);
      }
      i := i + 1;
    }
    problem := None;
  }

  method CheckBindings(bindings: seq<PropertyBinding>) returns (ok: bool)
    ensures ok <==> forall i :: 0 <= i < |bindings| ==> BindingOk(bindings[i])
  {
    var i := 0;
    while i < |bindings|
      invariant 0 <= i <= |bindings|
      invariant forall j :: 0 <= j < i ==> BindingOk(bindings[j])
    {
      var b := bindings[i];
      if !(b.channel == 1 || b.channel == 2 || b.channel == 3 || b.channel == 4) {
        return false;
      }
      if !(b.direction == 0 || b.direction == 1 || b.direction == 2) {
        return false;
      }
      if b.target == NONE || |PROPERTY_NAMES| <= b.target {
        return false;
      }
      if !b.selectorValue.Unset? && !b.selectorValue.TextValue? && !b.selectorValue.IntValue? {
        return false;
      }
      i := i + 1;
    }
    ok := true;
  }
}
