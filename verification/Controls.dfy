/** The display's controls, derived from an entity's capabilities, and the validation of their commands. */
module Controls {
  import opened Options

  /** A number attribute that has a default: absent, or present with the finite number it holds, if any. */
  datatype NumberField = Absent | Present(number: Option<real>)

  /** The capabilities and state the controls are derived from; a number is none unless it is finite. An entity of
      another domain, or whose state is unknown or unavailable, is an OtherEntity. */
  datatype Entity =
    | Light(dimmable: bool, tunable: bool, colored: bool, minKelvin: Option<real>, maxKelvin: Option<real>,
            hs: Option<(Option<real>, Option<real>)>)
    | Cover(opens: bool, stops: bool, closes: bool, positioned: bool, tilted: bool)
    | Climate(single: bool, ranged: bool, preset: bool, minTemp: Option<real>, maxTemp: Option<real>,
              tempStep: NumberField, low: Option<real>, high: Option<real>,
              hvacModes: Option<seq<Option<string>>>, presetModes: Option<seq<Option<string>>>)
    | NumberEntity(min: Option<real>, max: Option<real>, step: NumberField)
    | SelectEntity(choices: Option<seq<Option<string>>>)
    | OtherEntity

  datatype Command =
    | Toggle | Brightness | ColorTemp | Hue | Saturation | OpenCover | StopCover | CloseCover | Position | TiltPosition
    | Temperature | TargetLow | TargetHigh | HvacMode | PresetMode | SetValue | SelectOption | Unknown(name: string)

  datatype Control =
    | Button(command: Command)
    | Number(command: Command, min: real, max: real, step: real)
    | Choice(command: Command, options: seq<string>)

  function Or(f: NumberField, otherwise: real): Option<real> { if f.Absent? then Some(otherwise) else f.number }

  /** A range and step that make a control. */
  predicate IsSpan(min: Option<real>, max: Option<real>, step: Option<real>) {
    min.Some? && max.Some? && step.Some? && min.value < max.value && step.value > 0.0
  }

  /** `_number`, as a list of at most one control. */
  function NumberControl(command: Command, min: Option<real>, max: Option<real>, step: Option<real>)
    : (r: seq<Control>)
    ensures forall c :: c in r <==> IsSpan(min, max, step) && c == Number(command, min.value, max.value, step.value)
  {
    if min.None? || max.None? || step.None? || min.value >= max.value || step.value <= 0.0 then []
    else [Number(command, min.value, max.value, step.value)]
  }

  function Texts(items: seq<Option<string>>): seq<string> {
    if items == [] then []
    else (if items[0].Some? && items[0].value != "" then [items[0].value] else []) + Texts(items[1..])
  }

  /** `_choice`, as a list of at most one control. */
  function ChoiceControl(command: Command, options: Option<seq<Option<string>>>): (r: seq<Control>)
    ensures forall c :: c in r ==> c.Choice? && c.command == command
  {
    if options.None? || Texts(options.value) == [] then [] else [Choice(command, Texts(options.value))]
  }

  /** The list with more controls appended under a condition. */
  function Add(controls: seq<Control>, condition: bool, more: seq<Control>): (r: seq<Control>)
    ensures forall c :: c in r <==> c in controls || (condition && c in more)
  {
    if condition then controls + more else controls
  }

  function Percent(command: Command): seq<Control> { NumberControl(command, Some(0.0), Some(100.0), Some(1.0)) }

  /** `entity_controls` of an available entity. */
  function ControlsOf(e: Entity): seq<Control> {
    match e
    case Light(dimmable, tunable, colored, minKelvin, maxKelvin, _) =>
      var c := Add([], true, [Button(Toggle)]);
      var c := Add(c, dimmable, Percent(Brightness));
      var c := Add(c, tunable, NumberControl(ColorTemp, minKelvin, maxKelvin, Some(1.0)));
      Add(c, colored, NumberControl(Hue, Some(0.0), Some(360.0), Some(1.0)) + Percent(Saturation))
    case Cover(opens, stops, closes, positioned, tilted) =>
      var c := Add([], opens, [Button(OpenCover)]);
      var c := Add(c, stops, [Button(StopCover)]);
      var c := Add(c, closes, [Button(CloseCover)]);
      Add(Add(c, positioned, Percent(Position)), tilted, Percent(TiltPosition))
    case Climate(single, ranged, preset, minTemp, maxTemp, tempStep, _, _, hvacModes, presetModes) =>
      var c := Add([], single, NumberControl(Temperature, minTemp, maxTemp, Or(tempStep, 0.5)));
      var c := Add(c, ranged, NumberControl(TargetLow, minTemp, maxTemp, Or(tempStep, 0.5)));
      var c := Add(c, ranged, NumberControl(TargetHigh, minTemp, maxTemp, Or(tempStep, 0.5)));
      Add(Add(c, true, ChoiceControl(HvacMode, hvacModes)), preset, ChoiceControl(PresetMode, presetModes))
    case NumberEntity(min, max, step) => Add([], true, NumberControl(SetValue, min, max, Or(step, 1.0)))
    case SelectEntity(choices) => Add([], true, ChoiceControl(SelectOption, choices))
    case OtherEntity => []
  }

  method EntityControls(e: Entity) returns (controls: seq<Control>)
    ensures controls == ControlsOf(e)
    ensures forall c :: c in controls <==> Offers(e, c.command) && c == ControlFor(e, c.command)
    ensures InOrder(controls)
  {
    hide NumberControl, ChoiceControl, Texts, Percent, InOrder;
    ListedInOrder(e);
    forall c ensures c in ControlsOf(e) <==> Offers(e, c.command) && c == ControlFor(e, c.command) {
      OfferedExactly(e, c);
    }
    controls := [];
    match e {
      case Light(dimmable, tunable, colored, minKelvin, maxKelvin, _) =>
        controls := controls + [Button(Toggle)];
        if dimmable { controls := controls + Percent(Brightness); }
        if tunable { controls := controls + NumberControl(ColorTemp, minKelvin, maxKelvin, Some(1.0)); }
        if colored {
          controls := controls + (NumberControl(Hue, Some(0.0), Some(360.0), Some(1.0)) + Percent(Saturation));
        }
      case Cover(opens, stops, closes, positioned, tilted) =>
        if opens { controls := controls + [Button(OpenCover)]; }
        if stops { controls := controls + [Button(StopCover)]; }
        if closes { controls := controls + [Button(CloseCover)]; }
        if positioned { controls := controls + Percent(Position); }
        if tilted { controls := controls + Percent(TiltPosition); }
      case Climate(single, ranged, preset, minTemp, maxTemp, tempStep, _, _, hvacModes, presetModes) =>
        if single { controls := controls + NumberControl(Temperature, minTemp, maxTemp, Or(tempStep, 0.5)); }
        if ranged {
          controls := controls + NumberControl(TargetLow, minTemp, maxTemp, Or(tempStep, 0.5));
          controls := controls + NumberControl(TargetHigh, minTemp, maxTemp, Or(tempStep, 0.5));
        }
        controls := controls + ChoiceControl(HvacMode, hvacModes);
        if preset { controls := controls + ChoiceControl(PresetMode, presetModes); }
      case NumberEntity(min, max, step) =>
        controls := controls + NumberControl(SetValue, min, max, Or(step, 1.0));
      case SelectEntity(choices) =>
        controls := controls + ChoiceControl(SelectOption, choices);
      case OtherEntity =>
    }
  }

  // ---------------------------------------------------------------- steps

  function Abs(x: real): real { if x < 0.0 then -x else x }

  function Max(x: real, y: real): real { if x < y then y else x }

  const REL_TOL := 0.000000001
  const ABS_TOL := 0.000001

  /** `math.isclose` with the default relative and the given absolute tolerance. */
  predicate IsClose(a: real, b: real) { Abs(a - b) <= Max(REL_TOL * Max(Abs(a), Abs(b)), ABS_TOL) }

  /** `round`: to the nearest integer, ties to the even one. */
  function Round(x: real): (n: int)
    ensures Abs(x - n as real) <= 0.5
    ensures Abs(x - n as real) == 0.5 ==> n % 2 == 0
  {
    var f := x.Floor;
    var d := x - f as real;
    if d < 0.5 || (d == 0.5 && f % 2 == 0) then f else f + 1
  }

  predicate Near(x: real, k: int) { IsClose(x, k as real) }

  /** A step count on the grid, within the tolerance. */
  ghost predicate OnGrid(x: real) { exists k: int :: Near(x, k) }

  /** It is enough to try the rounded step count: if any integer is close enough, that one is. */
  lemma RoundedIsEnough(x: real)
    requires x >= 0.0
    ensures OnGrid(x) <==> Near(x, Round(x))
  {
    if OnGrid(x) {
      var k: int :| Near(x, k);
      CloserIsClose(x, k, Round(x));
    }
  }

  /** Up to a hundred steps, a step count is accepted exactly within a millionth of a whole one. */
  lemma ToleranceIsAMillionth(x: real)
    requires 0.0 <= x <= 100.0
    ensures OnGrid(x) <==> -0.000001 <= x - Round(x) as real <= 0.000001
  {
    RoundedIsEnough(x);
    assert -1.0 <= Round(x) as real <= 101.0;
  }

  lemma CloserIsClose(x: real, k: int, r: int)
    requires x >= 0.0 && Near(x, k)
    requires Abs(x - r as real) <= 0.5 && (Abs(x - r as real) == 0.5 ==> r % 2 == 0)
    ensures Near(x, r)
  {
    if k <= r {
      var n := r - k;
      assert k as real == r as real - n as real;
    } else {
      var n := k - r;
      assert n >= 1 && k as real == r as real + n as real;
      if r as real <= x && r <= 499999999 {
        assert r as real <= 499999999.0;
      }
    }
  }

  lemma StepsAreCounted(min: real, value: real, step: real)
    requires min <= value && step > 0.0
    ensures (value - min) / step >= 0.0
  {
    var x := (value - min) / step;
    assert x * step == value - min;
  }

  /** Every grid point is accepted. */
  lemma GridPointsAreOnGrid(min: real, step: real, k: nat)
    requires step > 0.0
    ensures ((min + k as real * step) - min) / step == k as real
    ensures OnGrid(((min + k as real * step) - min) / step)
  {
    var x := ((min + k as real * step) - min) / step;
    assert x * step == k as real * step;
    assert Near(k as real, k);
  }

  // ---------------------------------------------------------------- commands

  /** A command's value as sent: its text, and the finite number the text denotes, if any. */
  datatype Payload = Payload(text: Option<string>, number: Option<real>)

  datatype Error =
    | EntityUnavailable | UnsupportedControl | InvalidValue | InvalidStep | InvalidOption | InvalidColor
    | InvalidTemperatureRange

  datatype Service =
    | ToggleLight | TurnOn | OpenTheCover | StopTheCover | CloseTheCover | SetCoverPosition | SetCoverTiltPosition
    | SetHvacMode | SetPresetMode | SetTemperature | SetNumber | SelectFrom

  datatype Data =
    | NoData
    | BrightnessPct(percent: real)
    | Kelvin(kelvin: int)
    | HueSaturation(hue: real, saturation: real)
    | CoverPosition(position: int)
    | CoverTilt(position: int)
    | TargetTemperature(temperature: real)
    | TargetRange(low: real, high: real)
    | Named(name: string)
    | NumberSet(number: real)

  datatype Outcome = Called(service: Service, data: Data) | Refused(error: Error)

  /** The first control with the command. */
  function Find(controls: seq<Control>, command: Command): Option<Control>
    decreases |controls|
  {
    if controls == [] then None
    else if controls[0].command == command then Some(controls[0])
    else Find(controls[1..], command)
  }

  lemma {:induction false} FoundIsOffered(controls: seq<Control>, command: Command)
    ensures var c := Find(controls, command);
      (c.Some? <==> exists i :: 0 <= i < |controls| && controls[i].command == command) &&
      (c.Some? ==> c.value in controls && c.value.command == command)
    decreases |controls|
  {
    if controls != [] {
      FoundIsOffered(controls[1..], command);
      if exists i :: 0 <= i < |controls| && controls[i].command == command {
        var i :| 0 <= i < |controls| && controls[i].command == command;
        if i > 0 { assert controls[1..][i - 1].command == command; }
      }
    }
  }

  /** What a control accepts: a number in its range and on its grid, one of its options, or nothing. */
  ghost predicate Accepts(c: Control, p: Payload) {
    match c
    case Number(_, min, max, step) =>
      p.number.Some? && min <= p.number.value <= max && step > 0.0 && OnGrid((p.number.value - min) / step)
    case Choice(_, options) => p.text.Some? && p.text.value in options
    case Button(_) => p.text.None? || p.text.value == ""
  }

  /** What each kind of control accepts. */
  lemma AcceptsExactly(command: Command, min: real, max: real, step: real, options: seq<string>, p: Payload)
    requires step > 0.0
    ensures Accepts(Button(command), p) <==> p.text in {None, Some("")}
    ensures Accepts(Choice(command, options), p) <==> exists x :: x in options && p.text == Some(x)
    ensures Accepts(Number(command, min, max, step), p) <==>
      exists v :: p.number == Some(v) && v >= min && v <= max && OnGrid((v - min) / step)
  {
    hide OnGrid;
    if p.number.Some? { assert p.number == Some(p.number.value); }
    if p.text.Some? { assert p.text == Some(p.text.value); }
  }

  /** The colour a hue or saturation command asks for, the other part being the current one. */
  function Color(e: Entity, command: Command, value: real): (Option<real>, Option<real>)
    requires e.Light?
  {
    var hs := if e.hs.Some? then e.hs.value else (Some(0.0), Some(100.0));
    if command == Hue then (Some(value), hs.1) else (hs.0, Some(value))
  }

  predicate IsColor(c: (Option<real>, Option<real>)) {
    c.0.Some? && c.1.Some? && 0.0 <= c.0.value <= 360.0 && 0.0 <= c.1.value <= 100.0
  }

  /** The range a low or high command asks for, the other end being the current one. */
  function Ends(e: Entity, command: Command, value: real): (Option<real>, Option<real>)
    requires e.Climate?
  {
    if command == TargetLow then (Some(value), e.high) else (e.low, Some(value))
  }

  predicate IsRange(c: (Option<real>, Option<real>)) { c.0.Some? && c.1.Some? && c.0.value <= c.1.value }

  /** What a command needs of the rest of the entity's state. */
  predicate Fits(e: Entity, command: Command, p: Payload) {
    (e.Light? && (command == Hue || command == Saturation) ==>
      p.number.Some? && IsColor(Color(e, command, p.number.value))) &&
    (e.Climate? && (command == TargetLow || command == TargetHigh) ==>
      p.number.Some? && IsRange(Ends(e, command, p.number.value)))
  }

  /** `int` of a number: towards zero. */
  function Truncate(x: real): int { if x >= 0.0 then x.Floor else -(-x).Floor }

  /** Every service call stays within its domain. */
  predicate InBounds(d: Data) {
    match d
    case BrightnessPct(percent) => 0.0 <= percent <= 100.0
    case HueSaturation(h, s) => 0.0 <= h <= 360.0 && 0.0 <= s <= 100.0
    case CoverPosition(n) => 0 <= n <= 100
    case CoverTilt(n) => 0 <= n <= 100
    case TargetRange(low, high) => low <= high
    case _ => true
  }

  function NumberIn(p: Payload): real { if p.number.Some? then p.number.value else 0.0 }

  function TextIn(p: Payload): string { if p.text.Some? then p.text.value else "" }

  /** The part of a pair, or zero. */
  function Pair(c: (Option<real>, Option<real>)): (real, real) {
    (if c.0.Some? then c.0.value else 0.0, if c.1.Some? then c.1.value else 0.0)
  }

  /** The service call an accepted command stands for. */
  function CallFor(e: Entity, command: Command, p: Payload): Outcome {
    var v := NumberIn(p);
    match e
    case Light(_, _, _, _, _, _) =>
      (match command
       case Toggle => Called(ToggleLight, NoData)
       case Brightness => Called(TurnOn, BrightnessPct(v))
       case ColorTemp => Called(TurnOn, Kelvin(Truncate(v)))
       case _ => var c := Pair(Color(e, command, v)); Called(TurnOn, HueSaturation(c.0, c.1)))
    case Cover(_, _, _, _, _) =>
      (match command
       case Position => Called(SetCoverPosition, CoverPosition(Truncate(v)))
       case TiltPosition => Called(SetCoverTiltPosition, CoverTilt(Truncate(v)))
       case OpenCover => Called(OpenTheCover, NoData)
       case StopCover => Called(StopTheCover, NoData)
       case _ => Called(CloseTheCover, NoData))
    case Climate(_, _, _, _, _, _, _, _, _, _) =>
      (match command
       case HvacMode => Called(SetHvacMode, Named(TextIn(p)))
       case PresetMode => Called(SetPresetMode, Named(TextIn(p)))
       case Temperature => Called(SetTemperature, TargetTemperature(v))
       case _ => var c := Pair(Ends(e, command, v)); Called(SetTemperature, TargetRange(c.0, c.1)))
    case NumberEntity(_, _, _) => Called(SetNumber, NumberSet(v))
    case _ => Called(SelectFrom, Named(TextIn(p)))
  }

  predicate HasText(items: Option<seq<Option<string>>>) {
    items.Some? && exists i :: 0 <= i < |items.value| && items.value[i].Some? && items.value[i].value != ""
  }

  /** Which commands an entity of these capabilities offers. */
  predicate Offers(e: Entity, command: Command) {
    match command
    case Toggle => e.Light?
    case Brightness => e.Light? && e.dimmable
    case ColorTemp => e.Light? && e.tunable && IsSpan(e.minKelvin, e.maxKelvin, Some(1.0))
    case Hue => e.Light? && e.colored
    case Saturation => e.Light? && e.colored
    case OpenCover => e.Cover? && e.opens
    case StopCover => e.Cover? && e.stops
    case CloseCover => e.Cover? && e.closes
    case Position => e.Cover? && e.positioned
    case TiltPosition => e.Cover? && e.tilted
    case Temperature => e.Climate? && e.single && IsSpan(e.minTemp, e.maxTemp, Or(e.tempStep, 0.5))
    case TargetLow => e.Climate? && e.ranged && IsSpan(e.minTemp, e.maxTemp, Or(e.tempStep, 0.5))
    case TargetHigh => e.Climate? && e.ranged && IsSpan(e.minTemp, e.maxTemp, Or(e.tempStep, 0.5))
    case HvacMode => e.Climate? && HasText(e.hvacModes)
    case PresetMode => e.Climate? && e.preset && HasText(e.presetModes)
    case SetValue => e.NumberEntity? && IsSpan(e.min, e.max, Or(e.step, 1.0))
    case SelectOption => e.SelectEntity? && HasText(e.choices)
    case Unknown(_) => false
  }

  /** The control offered for a command: its range and step, or its options. */
  function ControlFor(e: Entity, command: Command): Control
    requires Offers(e, command)
  {
    match command
    case Brightness => Number(Brightness, 0.0, 100.0, 1.0)
    case Saturation => Number(Saturation, 0.0, 100.0, 1.0)
    case Hue => Number(Hue, 0.0, 360.0, 1.0)
    case Position => Number(Position, 0.0, 100.0, 1.0)
    case TiltPosition => Number(TiltPosition, 0.0, 100.0, 1.0)
    case ColorTemp => Number(ColorTemp, e.minKelvin.value, e.maxKelvin.value, 1.0)
    case Temperature => Number(command, e.minTemp.value, e.maxTemp.value, Or(e.tempStep, 0.5).value)
    case TargetLow => Number(command, e.minTemp.value, e.maxTemp.value, Or(e.tempStep, 0.5).value)
    case TargetHigh => Number(command, e.minTemp.value, e.maxTemp.value, Or(e.tempStep, 0.5).value)
    case SetValue => Number(SetValue, e.min.value, e.max.value, Or(e.step, 1.0).value)
    case HvacMode => Choice(HvacMode, Texts(e.hvacModes.value))
    case PresetMode => Choice(PresetMode, Texts(e.presetModes.value))
    case SelectOption => Choice(SelectOption, Texts(e.choices.value))
    case _ => Button(command)
  }

  /** The listed options are exactly the non-empty texts of the attribute. */
  lemma {:induction false} TextsExactly(items: seq<Option<string>>, x: string)
    ensures x in Texts(items) <==> x != "" && Some(x) in items
  {
    if items == [] {
    } else {
      TextsExactly(items[1..], x);
      assert items == [items[0]] + items[1..];
    }
  }

  /** The options keep the order of the attribute. */
  lemma {:induction false} TextsKeepOrder(a: seq<Option<string>>, b: seq<Option<string>>)
    ensures Texts(a + b) == Texts(a) + Texts(b)
    ensures forall x :: x != "" ==> Texts([Some(x)]) == [x]
    decreases |a|
  {
    if a == [] {
      assert a + b == b;
    } else {
      assert (a + b)[1..] == a[1..] + b;
      TextsKeepOrder(a[1..], b);
    }
    forall x | x != "" ensures Texts([Some(x)]) == [x] { TextOfOne(x); }
    hide Texts;
  }

  lemma TextOfOne(x: string)
    requires x != ""
    ensures Texts([Some(x)]) == [x]
  {
    assert [Some(x)][1..] == [];
  }

  lemma {:induction false} TextsAreSome(items: seq<Option<string>>)
    ensures Texts(items) != [] <==> HasText(Some(items))
  {
    if items == [] {
    } else {
      TextsAreSome(items[1..]);
      if HasText(Some(items)) && !(items[0].Some? && items[0].value != "") {
        var i :| 0 <= i < |items| && items[i].Some? && items[i].value != "";
        assert items[1..][i - 1] == items[i];
      }
      if HasText(Some(items[1..])) {
        var i :| 0 <= i < |items| - 1 && items[1..][i].Some? && items[1..][i].value != "";
        assert items[i + 1] == items[1..][i];
      }
    }
  }

  lemma ChoiceIsOffered(command: Command, options: Option<seq<Option<string>>>, c: Control)
    ensures c in ChoiceControl(command, options) <==> HasText(options) && c == Choice(command, Texts(options.value))
  {
    if options.Some? { TextsAreSome(options.value); }
    hide Texts;
  }

  lemma ClimateOffers(e: Entity, c: Control)
    requires e.Climate?
    ensures c in ControlsOf(e) <==> Offers(e, c.command) && c == ControlFor(e, c.command)
  {
    hide Texts, NumberControl, ChoiceControl, Add, HasText, IsSpan;
    ChoiceIsOffered(HvacMode, e.hvacModes, c);
    ChoiceIsOffered(PresetMode, e.presetModes, c);
  }

  /** The items of the attribute that a choice is made from. */
  function ItemsFor(e: Entity, command: Command): seq<Option<string>> {
    match e
    case Climate(_, _, _, _, _, _, _, _, hvacModes, presetModes) =>
      if command == HvacMode && hvacModes.Some? then hvacModes.value
      else if command == PresetMode && presetModes.Some? then presetModes.value
      else []
    case SelectEntity(choices) => if command == SelectOption && choices.Some? then choices.value else []
    case _ => []
  }

  lemma ChoiceOf(e: Entity, command: Command)
    requires Offers(e, command) && ControlFor(e, command).Choice?
    ensures ControlFor(e, command).options == Texts(ItemsFor(e, command))
  {
    hide Texts, IsSpan;
  }

  /** Exactly which controls are offered: one for each command the capabilities stand for, with its own range and
      step or as options exactly the non-empty texts of its attribute, and no other. */
  lemma OfferedExactly(e: Entity, c: Control)
    ensures c in ControlsOf(e) <==> Offers(e, c.command) && c == ControlFor(e, c.command)
    ensures c in ControlsOf(e) && c.Choice? ==>
      forall x :: x in c.options <==> x != "" && Some(x) in ItemsFor(e, c.command)
  {
    hide Texts, NumberControl, ChoiceControl, Add, HasText, ItemsFor;
    if e.Climate? { ClimateOffers(e, c); }
    else if e.SelectEntity? { ChoiceIsOffered(SelectOption, e.choices, c); }
    if c in ControlsOf(e) && c.Choice? {
      ChoiceOf(e, c.command);
      hide ControlsOf, Offers, ControlFor;
      forall x ensures x in c.options <==> x != "" && Some(x) in ItemsFor(e, c.command) {
        TextsExactly(ItemsFor(e, c.command), x);
      }
    }
  }

  /** The place of a command in every list of controls. */
  function Rank(c: Command): nat {
    match c
    case Toggle => 0
    case Brightness => 1
    case ColorTemp => 2
    case Hue => 3
    case Saturation => 4
    case OpenCover => 0
    case StopCover => 1
    case CloseCover => 2
    case Position => 3
    case TiltPosition => 4
    case Temperature => 0
    case TargetLow => 1
    case TargetHigh => 2
    case HvacMode => 3
    case PresetMode => 4
    case _ => 0
  }

  predicate InOrder(cs: seq<Control>) {
    forall i, j :: 0 <= i < j < |cs| ==> Rank(cs[i].command) < Rank(cs[j].command)
  }

  predicate Below(cs: seq<Control>, k: nat) { forall c :: c in cs ==> Rank(c.command) < k }

  lemma AddKeepsOrder(cs: seq<Control>, condition: bool, more: seq<Control>, k: nat)
    requires InOrder(cs) && Below(cs, k) && OneAt(more, k)
    ensures InOrder(Add(cs, condition, more)) && Below(Add(cs, condition, more), k + 1)
  {
    forall i | 0 <= i < |cs| ensures cs[i] in cs {}
  }

  /** At most one control, of the given rank. */
  predicate OneAt(cs: seq<Control>, k: nat) { |cs| <= 1 && forall c :: c in cs ==> Rank(c.command) == k }

  lemma NumberIsOne(command: Command, min: Option<real>, max: Option<real>, step: Option<real>)
    ensures OneAt(NumberControl(command, min, max, step), Rank(command))
  {
  }

  lemma ChoiceIsOne(command: Command, options: Option<seq<Option<string>>>)
    ensures OneAt(ChoiceControl(command, options), Rank(command))
  {
  }

  function AddFive(on: seq<bool>, more: seq<seq<Control>>): seq<Control>
    requires |on| == 5 && |more| == 5
  {
    Add(Add(Add(Add(Add([], on[0], more[0]), on[1], more[1]), on[2], more[2]), on[3], more[3]), on[4], more[4])
  }

  lemma FiveInOrder(on: seq<bool>, more: seq<seq<Control>>)
    requires |on| == 5 && |more| == 5 && forall k :: 0 <= k < 5 ==> OneAt(more[k], k)
    ensures InOrder(AddFive(on, more))
  {
    hide Add, InOrder, Below, OneAt;
    NothingInOrder();
    AddKeepsOrder([], on[0], more[0], 0);
    var a := Add([], on[0], more[0]);
    AddKeepsOrder(a, on[1], more[1], 1);
    var b := Add(a, on[1], more[1]);
    AddKeepsOrder(b, on[2], more[2], 2);
    var c := Add(b, on[2], more[2]);
    AddKeepsOrder(c, on[3], more[3], 3);
    AddKeepsOrder(Add(c, on[3], more[3]), on[4], more[4], 4);
  }

  lemma NothingInOrder()
    ensures InOrder([]) && Below([], 0)
  {
  }

  lemma LightInOrder(e: Entity)
    requires e.Light?
    ensures InOrder(ControlsOf(e))
  {
    hide Add, InOrder, OneAt, NumberControl;
    var toggle, temp := [Button(Toggle)], NumberControl(ColorTemp, e.minKelvin, e.maxKelvin, Some(1.0));
    var hue := NumberControl(Hue, Some(0.0), Some(360.0), Some(1.0));
    ButtonIsOne(Toggle);
    NumberIsOne(ColorTemp, e.minKelvin, e.maxKelvin, Some(1.0));
    NumberIsOne(Hue, Some(0.0), Some(360.0), Some(1.0));
    NumberIsOne(Brightness, Some(0.0), Some(100.0), Some(1.0));
    NumberIsOne(Saturation, Some(0.0), Some(100.0), Some(1.0));
    FiveInOrder([true, e.dimmable, e.tunable, e.colored, e.colored], [toggle, Percent(Brightness), temp, hue, Percent(Saturation)]);
    AddTwice(Add(Add(Add([], true, toggle), e.dimmable, Percent(Brightness)), e.tunable, temp), e.colored, hue, Percent(Saturation));
  }

  lemma CoverInOrder(e: Entity)
    requires e.Cover?
    ensures InOrder(ControlsOf(e))
  {
    hide Add, InOrder, OneAt, NumberControl;
    ButtonIsOne(OpenCover);
    ButtonIsOne(StopCover);
    ButtonIsOne(CloseCover);
    NumberIsOne(Position, Some(0.0), Some(100.0), Some(1.0));
    NumberIsOne(TiltPosition, Some(0.0), Some(100.0), Some(1.0));
    FiveInOrder([e.opens, e.stops, e.closes, e.positioned, e.tilted],
      [[Button(OpenCover)], [Button(StopCover)], [Button(CloseCover)], Percent(Position), Percent(TiltPosition)]);
  }

  lemma ClimateInOrder(e: Entity)
    requires e.Climate?
    ensures InOrder(ControlsOf(e))
  {
    hide Add, InOrder, OneAt, NumberControl, ChoiceControl;
    var step := Or(e.tempStep, 0.5);
    NumberIsOne(Temperature, e.minTemp, e.maxTemp, step);
    NumberIsOne(TargetLow, e.minTemp, e.maxTemp, step);
    NumberIsOne(TargetHigh, e.minTemp, e.maxTemp, step);
    ChoiceIsOne(HvacMode, e.hvacModes);
    ChoiceIsOne(PresetMode, e.presetModes);
    FiveInOrder([e.single, e.ranged, e.ranged, true, e.preset],
      [NumberControl(Temperature, e.minTemp, e.maxTemp, step), NumberControl(TargetLow, e.minTemp, e.maxTemp, step),
       NumberControl(TargetHigh, e.minTemp, e.maxTemp, step), ChoiceControl(HvacMode, e.hvacModes),
       ChoiceControl(PresetMode, e.presetModes)]);
  }

  lemma ButtonIsOne(command: Command)
    ensures OneAt([Button(command)], Rank(command))
  {
  }

  /** With `OfferedExactly` this leaves one list only: each control at most once, in the fixed order. */
  lemma ListedInOrder(e: Entity)
    ensures InOrder(ControlsOf(e))
  {
    match e
    case Light(_, _, _, _, _, _) => LightInOrder(e);
    case Cover(_, _, _, _, _) => CoverInOrder(e);
    case Climate(_, _, _, _, _, _, _, _, _, _) => ClimateInOrder(e);
    case _ => hide Texts;
  }

  lemma AddTwice(cs: seq<Control>, condition: bool, some: seq<Control>, more: seq<Control>)
    ensures Add(Add(cs, condition, some), condition, more) == Add(cs, condition, some + more)
  {
    assert cs + some + more == cs + (some + more);
  }

  /** So a command finds its control exactly when it is offered. */
  lemma FindsExactly(e: Entity, command: Command)
    ensures Find(ControlsOf(e), command) == if Offers(e, command) then Some(ControlFor(e, command)) else None
  {
    FoundIsOffered(ControlsOf(e), command);
    var found := Find(ControlsOf(e), command);
    if found.Some? { OfferedExactly(e, found.value); }
    if Offers(e, command) { OfferedExactly(e, ControlFor(e, command)); }
    hide ControlsOf, Find, Texts;
  }

  lemma PercentIsOffered(e: Entity, c: Control)
    requires c in ControlsOf(e)
    ensures c.command in {Brightness, Saturation, Position, TiltPosition} ==> c == Number(c.command, 0.0, 100.0, 1.0)
    ensures c.command == Hue ==> c == Number(Hue, 0.0, 360.0, 1.0)
    ensures c.command == TargetLow || c.command == TargetHigh ==> c.Number? && e.Climate?
    ensures c.command == Hue || c.command == Saturation ==> e.Light?
    ensures c.command == HvacMode || c.command == PresetMode ==> c.Choice? && e.Climate?
    ensures c.Number? ==> c.step > 0.0 && c.min < c.max
    ensures e.Light? ==> c.command in {Toggle, Brightness, ColorTemp, Hue, Saturation}
    ensures e.Climate? ==> c.command in {Temperature, TargetLow, TargetHigh, HvacMode, PresetMode}
    ensures c.command == Brightness ==> e.Light?
    ensures c.command == Position || c.command == TiltPosition ==> e.Cover?
  {
    hide Texts, NumberControl, ChoiceControl, Add;
  }

  /** Whatever an accepted command asks for, the call stays in bounds. */
  lemma CallsStayInBounds(e: Entity, command: Command, p: Payload, c: Control)
    requires Find(ControlsOf(e), command) == Some(c) && Accepts(c, p) && Fits(e, command, p)
    ensures CallFor(e, command, p).Called? && InBounds(CallFor(e, command, p).data)
  {
    hide ControlsOf, Find, OnGrid;
    FoundIsOffered(ControlsOf(e), command);
    PercentIsOffered(e, c);
  }

  /** `async_execute_control`: a call is made exactly when the fresh controls offer the command, the control
      accepts the value, and the rest of the state fits; otherwise the error says which of these failed first. */
  method ExecuteControl(state: Option<Entity>, command: Command, p: Payload) returns (r: Outcome)
    ensures state.None? ==> r == Refused(EntityUnavailable)
    ensures state.Some? ==>
      var c := Find(ControlsOf(state.value), command);
      (c.None? ==> r == Refused(UnsupportedControl)) &&
      (c.Some? ==> (r.Called? <==> Accepts(c.value, p) && Fits(state.value, command, p))) &&
      (c.Some? && r.Called? ==> r == CallFor(state.value, command, p) && InBounds(r.data)) &&
      (c.Some? && c.value.Number? && !Accepts(c.value, p) ==>
        r == Refused(if p.number.Some? && c.value.min <= p.number.value <= c.value.max then InvalidStep else InvalidValue)) &&
      (c.Some? && c.value.Choice? && !Accepts(c.value, p) ==> r == Refused(InvalidOption)) &&
      (c.Some? && c.value.Button? && !Accepts(c.value, p) ==> r == Refused(InvalidValue)) &&
      (c.Some? && Accepts(c.value, p) && !Fits(state.value, command, p) ==>
        r == Refused(if state.value.Light? then InvalidColor else InvalidTemperatureRange))
  {
    hide ControlsOf, Find, OnGrid, CallFor, Round, InBounds, Offers, ControlFor, InOrder;
    if state.None? { return Refused(EntityUnavailable); }
    var e := state.value;
    var controls := EntityControls(e);
    var found := Find(controls, command);
    if found.None? { return Refused(UnsupportedControl); }
    var control := found.value;
    FoundIsOffered(ControlsOf(e), command);
    PercentIsOffered(e, control);
    match control {
      case Number(_, min, max, step) =>
        if p.number.None? || !(min <= p.number.value <= max) { return Refused(InvalidValue); }
        var steps := (p.number.value - min) / step;
        StepsAreCounted(min, p.number.value, step);
        RoundedIsEnough(steps);
        if !IsClose(steps, Round(steps) as real) { return Refused(InvalidStep); }
      case Choice(_, options) =>
        if p.text.None? || p.text.value !in options { return Refused(InvalidOption); }
      case Button(_) =>
        if p.text.Some? && p.text.value != "" { return Refused(InvalidValue); }
    }
    if e.Light? && (command == Hue || command == Saturation) {
      if !IsColor(Color(e, command, p.number.value)) { return Refused(InvalidColor); }
    }
    if e.Climate? && (command == TargetLow || command == TargetHigh) {
      if !IsRange(Ends(e, command, p.number.value)) { return Refused(InvalidTemperatureRange); }
    }
    r := CallFor(e, command, p);
    CallsStayInBounds(e, command, p, control);
  }

  /** An accepted position between two whole ones, within the step tolerance of the next, is cut down instead of
      rounded: the call has the nearest whole position exactly when the value is not below it. */
  lemma PositionsAreTruncated(v: real)
    requires 0.0 <= v <= 100.0 && OnGrid((v - 0.0) / 1.0)
    ensures Truncate(v) == Round(v) <==> v >= Round(v) as real
  {
  }

  /** Such a value: 49.9999995 is accepted as a position and sent as 49. */
  lemma AcceptedPositionOffByOne(e: Entity, p: Payload)
    requires e == Cover(false, false, false, true, false) && p == Payload(Some("49.9999995"), Some(49.9999995))
    ensures Find(ControlsOf(e), Position) == Some(Number(Position, 0.0, 100.0, 1.0))
    ensures Accepts(Number(Position, 0.0, 100.0, 1.0), p) && Fits(e, Position, p)
    ensures CallFor(e, Position, p) == Called(SetCoverPosition, CoverPosition(49)) && Round(49.9999995) == 50
  {
    assert ControlsOf(e) == [Number(Position, 0.0, 100.0, 1.0)];
    assert Near(49.9999995, 50);
  }

  /** The number without its fraction. */
  predicate IsWholePart(v: real, n: int) {
    Abs(v - n as real) < 1.0 && if v >= 0.0 then 0.0 <= n as real <= v else v <= n as real <= 0.0
  }

  lemma TruncateIsWholePart(v: real)
    ensures IsWholePart(v, Truncate(v))
  {
  }

  /** Which service a command calls. */
  function ServiceOf(command: Command): Service {
    match command
    case Toggle => ToggleLight
    case OpenCover => OpenTheCover
    case StopCover => StopTheCover
    case CloseCover => CloseTheCover
    case Position => SetCoverPosition
    case TiltPosition => SetCoverTiltPosition
    case HvacMode => SetHvacMode
    case PresetMode => SetPresetMode
    case SetValue => SetNumber
    case SelectOption => SelectFrom
    case _ => if command in {Temperature, TargetLow, TargetHigh} then SetTemperature else TurnOn
  }

  /** A command the fresh controls offer calls its own service, and a button sends nothing with it. */
  lemma CallsTheService(e: Entity, command: Command, p: Payload)
    requires Offers(e, command)
    ensures CallFor(e, command, p).Called? && CallFor(e, command, p).service == ServiceOf(command)
    ensures command in {Toggle, OpenCover, StopCover, CloseCover} <==> CallFor(e, command, p).data == NoData
  {
    hide HasText, IsSpan, Truncate;
  }

  /** What else an accepted command needs: a colour whose other half is known and in its box, and a range whose other end
      is known and not on the wrong side. */
  lemma FitsExactly(e: Entity, command: Command, p: Payload, v: real)
    requires Offers(e, command) && p.number == Some(v)
    ensures Fits(e, command, p) <==>
      match command
      case Hue => 0.0 <= v <= 360.0 && (e.hs.None? || (e.hs.value.1.Some? && 0.0 <= e.hs.value.1.value <= 100.0))
      case Saturation => 0.0 <= v <= 100.0 && (e.hs.None? || (e.hs.value.0.Some? && 0.0 <= e.hs.value.0.value <= 360.0))
      case TargetLow => e.high.Some? && v <= e.high.value
      case TargetHigh => e.low.Some? && e.low.value <= v
      case _ => true
  {
    hide HasText, IsSpan;
  }

  /** What was asked for reaches the call in its own place, colour temperatures and positions without their fraction,
      and the other half of a pair keeps its current value. */
  lemma CallsCarryTheValue(e: Entity, command: Command, p: Payload, c: Control)
    requires Find(ControlsOf(e), command) == Some(c) && Accepts(c, p) && Fits(e, command, p)
    ensures CallFor(e, command, p).Called?
    ensures var d := CallFor(e, command, p).data;
      (command == Hue ==>
        e.Light? && d.HueSaturation? && p.number == Some(d.hue) &&
        if e.hs.Some? then e.hs.value.1 == Some(d.saturation) else d.saturation == 100.0) &&
      (command == Saturation ==>
        e.Light? && d.HueSaturation? && p.number == Some(d.saturation) &&
        if e.hs.Some? then e.hs.value.0 == Some(d.hue) else d.hue == 0.0) &&
      (command == TargetLow ==> e.Climate? && d.TargetRange? && p.number == Some(d.low) && e.high == Some(d.high)) &&
      (command == TargetHigh ==> e.Climate? && d.TargetRange? && p.number == Some(d.high) && e.low == Some(d.low)) &&
      (command == Brightness ==> d.BrightnessPct? && p.number == Some(d.percent)) &&
      (command == Temperature ==> d.TargetTemperature? && p.number == Some(d.temperature)) &&
      (command == SetValue ==> d.NumberSet? && p.number == Some(d.number)) &&
      (command == ColorTemp ==> d.Kelvin? && p.number.Some? && IsWholePart(p.number.value, d.kelvin)) &&
      (command == Position ==> d.CoverPosition? && p.number.Some? && IsWholePart(p.number.value, d.position)) &&
      (command == TiltPosition ==> d.CoverTilt? && p.number.Some? && IsWholePart(p.number.value, d.position)) &&
      (command == HvacMode || command == PresetMode || command == SelectOption ==> d.Named? && p.text == Some(d.name))
  {
    hide ControlsOf, Find, OnGrid, Truncate, IsWholePart, Texts, HasText;
    FindsExactly(e, command);
    TruncateIsWholePart(NumberIn(p));
  }

  function Ceiling(x: real): int { -((-x).Floor) }

  /** A colour temperature that is sent without its fraction can leave the range its control offers: it stays in it
      exactly when the value is not between a fractional end of the range and the whole number inside. */
  lemma ColorTempStaysInRangeExactly(e: Entity, p: Payload, c: Control)
    requires Find(ControlsOf(e), ColorTemp) == Some(c) && Accepts(c, p)
    ensures c.Number? && CallFor(e, ColorTemp, p).Called? && CallFor(e, ColorTemp, p).data.Kelvin?
    ensures var v, sent := p.number.value, CallFor(e, ColorTemp, p).data.kelvin as real;
      c.min <= sent <= c.max <==> if v >= 0.0 then Ceiling(c.min) as real <= v else v <= c.max.Floor as real
  {
    FindsExactly(e, ColorTemp);
    hide ControlsOf, Find, OnGrid, Truncate, Ceiling;
    TruncateStaysInExactly(c.min, c.max, p.number.value);
  }

  lemma TruncateStaysInExactly(min: real, max: real, v: real)
    requires min <= v <= max
    ensures min <= Truncate(v) as real <= max <==> if v >= 0.0 then Ceiling(min) as real <= v else v <= max.Floor as real
  {
    var n := Truncate(v);
    assert n == if v >= 0.0 then v.Floor else Ceiling(v);
    if v >= 0.0 {
      WholeBelow(n, v);
      WholeBelow(Ceiling(min), v);
      CeilingBelow(min, n);
    } else {
      CeilingBelow(v, n);
      CeilingBelow(v, max.Floor);
      WholeBelow(n, max);
    }
    hide Truncate, Ceiling;
  }

  lemma WholeBelow(n: int, x: real)
    ensures n as real <= x <==> n <= x.Floor
  {
  }

  lemma CeilingBelow(x: real, n: int)
    ensures x <= n as real <==> Ceiling(x) <= n
  {
    WholeBelow(-n, -x);
  }

  /** Such a value: the minimum 2000.5 of a light is accepted and sent as 2000. */
  lemma AcceptedColorTempBelowMinimum(e: Entity, p: Payload)
    requires e == Light(false, true, false, Some(2000.5), Some(6500.0), None) && p == Payload(Some("2000.5"), Some(2000.5))
    ensures Find(ControlsOf(e), ColorTemp) == Some(Number(ColorTemp, 2000.5, 6500.0, 1.0))
    ensures Accepts(Number(ColorTemp, 2000.5, 6500.0, 1.0), p) && Fits(e, ColorTemp, p)
    ensures CallFor(e, ColorTemp, p) == Called(TurnOn, Kelvin(2000))
  {
    FindsExactly(e, ColorTemp);
    hide ControlsOf, Find;
    assert Near((2000.5 - 2000.5) / 1.0, 0);
  }
}
