/** The form-driven flow that edits the activation list during setup. */
module ActivationFlow {
  import opened Options
  import opened Text
  import opened Activations

  const MODES: set<string> := {"automatic", "manual"}

  datatype Settings = Settings(mode: string, p: string, n: string)

  /** The settings and the action of one submission of the manage form. */
  datatype ManageInput = ManageInput(mode: Field, p: Field, n: Field, action: Option<string>, target: string)

  datatype ItemInput = ItemInput(id: string, name: string, kind: Option<string>, address: string)

  datatype Place = Manage | EditItem | Finished

  datatype Complaint = Fine | InvalidActivations | ActionRequired | TargetRequired

  datatype Step = Step(next: Place, items: seq<Item>, editId: Option<string>, complaint: Complaint)

  // ---------------------------------------------------------------- settings

  /** A field of the form, or the stored value when the form has none. */
  function FormOr(f: Field, stored: string): Field { if f.Absent? then TextField(stored) else f }

  function GivenMode(t: Settings, input: ManageInput): string {
    Strip(TextOr(FormOr(input.mode, t.mode), "automatic"))
  }

  /** `_stair_light_part_default` */
  function PartDefault(stored: string, otherwise: string): (r: string)
    requires IsPart(otherwise)
    ensures IsPart(r)
  {
    match NormalizePart(TextField(stored), otherwise)
    case Some(part) => part
    case None => otherwise
  }

  /** A part of the address after the form: the submitted one, else the stored one, else the default. */
  function PartAfter(f: Field, stored: string, otherwise: string): (r: string)
    requires IsPart(otherwise)
    ensures IsPart(r)
  {
    match NormalizePart(FormOr(f, stored), otherwise)
    case Some(part) => part
    case None => PartDefault(stored, otherwise)
  }

  predicate SettingsRefused(t: Settings, input: ManageInput) {
    GivenMode(t, input) !in MODES || NormalizePart(FormOr(input.p, t.p), DEFAULT_P).None? ||
    NormalizePart(FormOr(input.n, t.n), DEFAULT_N).None?
  }

  function SettingsAfter(t: Settings, input: ManageInput): Settings {
    Settings(if GivenMode(t, input) in MODES then GivenMode(t, input) else t.mode,
      PartAfter(input.p, t.p, DEFAULT_P), PartAfter(input.n, t.n, DEFAULT_N))
  }

  method ActivationSettingsStep(input: Option<ManageInput>, t: Settings) returns (data: Settings, refused: bool)
    ensures input.None? ==> data == t && !refused
    ensures input.Some? ==> data == SettingsAfter(t, input.value) && refused == SettingsRefused(t, input.value)
  {
    data, refused := t, false;
    if input.None? { return; }
    var form := input.value;
    var mode := Strip(TextOr(FormOr(form.mode, data.mode), "automatic"));
    if mode !in MODES {
      refused := true;
      mode := data.mode;
    }
    var p := NormalizePart(FormOr(form.p, data.p), DEFAULT_P);
    if p.None? {
      refused := true;
      p := Some(PartDefault(data.p, DEFAULT_P));
    }
    var n := NormalizePart(FormOr(form.n, data.n), DEFAULT_N);
    if n.None? {
      refused := true;
      n := Some(PartDefault(data.n, DEFAULT_N));
    }
    data := Settings(mode, p.value, n.value);
  }

  // ---------------------------------------------------------------- the manage and item forms

  function ItemLimit(t: Settings): int { if t.mode == "manual" then MAX_ITEMS - 1 else MAX_ITEMS }

  function Bounded(limit: int): int { if limit < 0 then 0 else if limit > MAX_ITEMS then MAX_ITEMS else limit }

  predicate Has(items: seq<Item>, id: string) { exists i :: 0 <= i < |items| && items[i].id == id }

  /** `activation_remove` */
  function Remove(items: seq<Item>, id: string): seq<Item> {
    if items == [] then [] else (if items[0].id == id then [] else [items[0]]) + Remove(items[1..], id)
  }

  /** `activation_upsert` */
  function Upsert(items: seq<Item>, x: Item, editId: Option<string>): seq<Item> {
    if editId.None? then items + [x]
    else seq(|items|, i requires 0 <= i < |items| => if items[i].id == editId.value then x else items[i])
  }

  /** `activation_manage_step` */
  function ManageStep(input: Option<ManageInput>, items: seq<Item>, limit: int): Step {
    if input.None? then Step(Manage, items, None, Fine)
    else
      var action := if input.value.action.Some? then input.value.action.value else "done";
      var target := Strip(input.value.target);
      if action == "done" then
        if |items| > Bounded(limit) then Step(Manage, items, None, InvalidActivations)
        else Step(Finished, items, None, Fine)
      else if action == "add" then
        if |items| >= Bounded(limit) then Step(Manage, items, None, InvalidActivations)
        else Step(EditItem, items, None, Fine)
      else if action != "edit" && action != "remove" then Step(Manage, items, None, ActionRequired)
      else if target == "" || !Has(items, target) then Step(Manage, items, None, TargetRequired)
      else if action == "remove" then Step(Manage, Remove(items, target), None, Fine)
      else Step(EditItem, items, Some(target), Fine)
  }

  /** `_activation_reserved_ids` */
  function ReservedIds(items: seq<Item>, editId: Option<string>): set<string> {
    (set x | x in items && x.id != "" && Some(x.id) != editId :: x.id) + {STAIR_LIGHT}
  }

  function FormRecord(input: ItemInput): RawItem {
    var kind := Strip(if input.kind.Some? then input.kind.value else "lock");
    Record(TextField(Strip(input.id)), TextField(Strip(input.name)), TextField(kind), TextField("manual"), Absent,
      TextField(Strip(input.address)))
  }

  /** `_activation_from_form` */
  function FromForm(input: ItemInput, reserved: set<string>): Result<Item> {
    var raws := [FormRecord(input)];
    NormalizedExactly(raws, reserved);
    match Normalize(List(raws), reserved)
    case Err(e) => Err(e)
    case Ok(made) => Ok(made[0])
  }

  /** `activation_item_step` */
  function ItemStep(input: ItemInput, items: seq<Item>, editId: Option<string>, t: Settings): Step {
    if editId.None? && |items| >= ItemLimit(t) then Step(Manage, items, None, InvalidActivations)
    else
      match FromForm(input, ReservedIds(items, editId))
      case Err(_) => Step(EditItem, items, editId, InvalidActivations)
      case Ok(made) => Step(Manage, Upsert(items, made, editId), None, Fine)
  }

  // ---------------------------------------------------------------- the flow

  datatype Flow = Flow(settings: Settings, items: seq<Item>, editId: Option<string>, place: Place)

  datatype Event = SubmitManage(manage: ManageInput) | SubmitItem(item: ItemInput)

  function AfterManage(f: Flow, input: ManageInput): Flow {
    var settings := SettingsAfter(f.settings, input);
    if SettingsRefused(f.settings, input) then f.(settings := settings, place := Manage)
    else
      var s := ManageStep(Some(input), f.items, ItemLimit(settings));
      Flow(settings, s.items, s.editId, s.next)
  }

  function AfterItem(f: Flow, input: ItemInput): Flow {
    var s := ItemStep(input, f.items, f.editId, f.settings);
    Flow(f.settings, s.items, s.editId, s.next)
  }

  /** A finished flow takes no more input; before that either form may be submitted. */
  function Next(f: Flow, e: Event): Flow {
    if f.place == Finished then f
    else match e
      case SubmitManage(input) => AfterManage(f, input)
      case SubmitItem(input) => AfterItem(f, input)
  }

  class SetupFlow {
    var featureData: Settings
    var deviceActivations: seq<Item>
    var activationEditId: Option<string>
    var place: Place

    ghost function Now(): Flow
      reads this
    {
      Flow(featureData, deviceActivations, activationEditId, place)
    }

    constructor (settings: Settings, items: seq<Item>)
      ensures Now() == Flow(settings, items, None, Manage)
    {
      featureData, deviceActivations, activationEditId, place := settings, items, None, Manage;
    }

    method StepUserDeviceActivations(input: Option<ManageInput>)
      modifies this
      ensures Now() ==
        if input.None? then old(Now()).(editId := None, place := Manage) else AfterManage(old(Now()), input.value)
    {
      var refused;
      featureData, refused := ActivationSettingsStep(input, featureData);
      if refused {
        place := Manage;
        return;
      }
      var result := ManageStep(input, deviceActivations, ItemLimit(featureData));
      deviceActivations := result.items;
      activationEditId := result.editId;
      place := result.next;
    }

    method StepUserDeviceActivationItem(input: ItemInput)
      modifies this
      ensures Now() == AfterItem(old(Now()), input)
    {
      var result := ItemStep(input, deviceActivations, activationEditId, featureData);
      deviceActivations := result.items;
      activationEditId := result.editId;
      if result.next != EditItem {
        StepUserDeviceActivations(None);
      } else {
        place := EditItem;
      }
    }
  }

  // ---------------------------------------------------------------- every run keeps the list buildable

  predicate ValidSettings(t: Settings) { t.mode in MODES && IsPart(t.p) && IsPart(t.n) }

  predicate Good(items: seq<Item>) { ValidItems(items) && Avoids(items, {STAIR_LIGHT}) }

  predicate Inv(f: Flow) {
    ValidSettings(f.settings) && Good(f.items) && (f.place == Finished ==> |f.items| <= ItemLimit(f.settings))
  }

  lemma {:induction false} RemovedMembers(items: seq<Item>, id: string)
    ensures var r := Remove(items, id); |r| <= |items| && forall x :: x in r <==> x in items && x.id != id
  {
    if items != [] {
      RemovedMembers(items[1..], id);
      assert items == [items[0]] + items[1..];
    }
  }

  lemma {:induction false} RemoveKeepsDistinct(items: seq<Item>, id: string)
    requires DistinctIds(items)
    ensures DistinctIds(Remove(items, id))
  {
    if items != [] {
      RemovedMembers(items[1..], id);
      RemoveKeepsDistinct(items[1..], id);
      var rest := Remove(items[1..], id);
      forall i | 0 <= i < |rest| ensures rest[i].id != items[0].id { assert rest[i] in rest && rest[i] in items[1..]; }
    }
  }

  lemma RemoveKeepsGood(items: seq<Item>, id: string)
    requires Good(items)
    ensures Good(Remove(items, id)) && |Remove(items, id)| <= |items|
  {
    RemovedMembers(items, id);
    RemoveKeepsDistinct(items, id);
    var r := Remove(items, id);
    hide Remove, ValidItem, DistinctIds;
    forall i | 0 <= i < |r| ensures ValidItem(r[i]) && r[i].id != STAIR_LIGHT { assert r[i] in r && r[i] in items; }
  }

  lemma UpsertKeepsGood(items: seq<Item>, x: Item, editId: Option<string>)
    requires Good(items) && ValidItem(x) && x.id != STAIR_LIGHT
    requires forall i :: 0 <= i < |items| && Some(items[i].id) != editId ==> items[i].id != x.id
    requires editId.None? ==> |items| < MAX_ITEMS
    ensures Good(Upsert(items, x, editId))
    ensures |Upsert(items, x, editId)| == |items| + if editId.None? then 1 else 0
  {
    hide ValidItem;
  }

  lemma FormItemIsNew(input: ItemInput, items: seq<Item>, editId: Option<string>)
    requires Good(items) && FromForm(input, ReservedIds(items, editId)).Ok?
    ensures var made := FromForm(input, ReservedIds(items, editId)).value;
      ValidItem(made) && made.id != STAIR_LIGHT &&
      forall i :: 0 <= i < |items| && Some(items[i].id) != editId ==> items[i].id != made.id
  {
    var reserved := ReservedIds(items, editId);
    NormalizedExactly([FormRecord(input)], reserved);
    NormalizedIsValid([FormRecord(input)], reserved);
    hide FormRecord, NormalizeItem, NormalizeFrom;
    assert STAIR_LIGHT in Reserved(reserved) by { assert Strip(STAIR_LIGHT) == STAIR_LIGHT && STAIR_LIGHT in reserved; }
    forall i | 0 <= i < |items| && Some(items[i].id) != editId ensures items[i].id in Reserved(reserved) {
      AcceptedTextsAreStripped(items[i].id);
      assert items[i] in items && items[i].id in reserved && Strip(items[i].id) == items[i].id;
    }
  }

  lemma ManageKeepsInv(f: Flow, input: ManageInput)
    requires Inv(f)
    ensures Inv(AfterManage(f, input))
  {
    SettingsStayValid(f.settings, input);
    ManageStepKeepsGood(input, f.items, ItemLimit(SettingsAfter(f.settings, input)));
    hide Good, SettingsAfter, SettingsRefused, ValidSettings, ManageStep;
  }

  lemma ManageStepKeepsGood(input: ManageInput, items: seq<Item>, limit: int)
    requires Good(items) && 0 <= limit <= MAX_ITEMS
    ensures var s := ManageStep(Some(input), items, limit); Good(s.items) && (s.next == Finished ==> |s.items| <= limit)
  {
    RemoveKeepsGood(items, Strip(input.target));
    hide Good, Strip, Remove, Has;
  }

  lemma SettingsStayValid(t: Settings, input: ManageInput)
    requires ValidSettings(t)
    ensures ValidSettings(SettingsAfter(t, input))
  {
  }

  lemma ItemKeepsInv(f: Flow, input: ItemInput)
    requires Inv(f)
    ensures Inv(AfterItem(f, input))
  {
    var r := FromForm(input, ReservedIds(f.items, f.editId));
    if r.Ok? && !(f.editId.None? && |f.items| >= ItemLimit(f.settings)) {
      FormItemIsNew(input, f.items, f.editId);
      UpsertKeepsGood(f.items, r.value, f.editId);
    }
    hide Good, FromForm, Upsert, ReservedIds, ValidSettings;
  }

  lemma NextKeepsInv(f: Flow, e: Event)
    requires Inv(f)
    ensures Inv(Next(f, e))
  {
    hide Inv, AfterManage, AfterItem;
    match e
    case SubmitManage(input) => ManageKeepsInv(f, input);
    case SubmitItem(input) => ItemKeepsInv(f, input);
  }

  function Run(f: Flow, events: seq<Event>): Flow
    decreases |events|
  {
    if events == [] then f else Run(Next(f, events[0]), events[1..])
  }

  lemma {:induction false} RunKeepsInv(f: Flow, events: seq<Event>)
    requires Inv(f)
    ensures Inv(Run(f, events))
    decreases |events|
  {
    if events == [] {
    } else {
      NextKeepsInv(f, events[0]);
      RunKeepsInv(Next(f, events[0]), events[1..]);
    }
  }

  /** What any accepted DONE leaves can be built for the agent, for the configured stair-light address and
      whatever was submitted before it: the stored list renormalises to itself, and the builder returns it,
      preceded by the generated stair light exactly in manual mode. */
  lemma FinishedFlowIsBuildable(settings: Settings, raws: seq<RawItem>, events: seq<Event>)
    requires ValidSettings(settings) && Normalize(List(raws), {STAIR_LIGHT}).Ok?
    ensures
      var f := Run(Flow(settings, Normalize(List(raws), {STAIR_LIGHT}).value, None, Manage), events);
      ValidSettings(f.settings) && Good(f.items) &&
      (f.place == Finished ==>
        var built := Desired(f.settings.mode, Where(f.settings.p, f.settings.n), List(ToRaws(f.items)));
        Normalize(List(ToRaws(f.items)), {STAIR_LIGHT}) == Ok(f.items) &&
        built.Ok? && ValidItems(built.value) &&
        built.value == (if f.settings.mode == "manual" then [StairLight(Where(f.settings.p, f.settings.n)).value] else []) + f.items)
  {
    var items := Normalize(List(raws), {STAIR_LIGHT}).value;
    var start := Flow(settings, items, None, Manage);
    ReservedStairLight();
    NormalizedIsValid(raws, {STAIR_LIGHT});
    RunKeepsInv(start, events);
    var f := Run(start, events);
    hide Run, Normalize, Desired, ValidItem, Where, StairLight, Reserved;
    if f.place == Finished {
      Buildable(f.settings, f.items);
    }
  }

  lemma Buildable(t: Settings, items: seq<Item>)
    requires ValidSettings(t) && Good(items) && |items| <= ItemLimit(t)
    ensures Normalize(List(ToRaws(items)), {STAIR_LIGHT}) == Ok(items)
    ensures var built := Desired(t.mode, Where(t.p, t.n), List(ToRaws(items)));
      built.Ok? && ValidItems(built.value) &&
      built.value == (if t.mode == "manual" then [StairLight(Where(t.p, t.n)).value] else []) + items
  {
    ReservedStairLight();
    NormalizeRoundTrip(items, {STAIR_LIGHT});
    WhereIsAnAddress(t.p, t.n);
    DesiredExactly(t.mode, Where(t.p, t.n), items);
    DesiredIsValid(t.mode, Where(t.p, t.n), List(ToRaws(items)));
    hide Normalize, Desired, ValidItem, Where, Reserved;
  }

  // ---------------------------------------------------------------- what the forms do to the list

  lemma {:induction false} NothingToRemove(items: seq<Item>, id: string)
    requires !Has(items, id)
    ensures Remove(items, id) == items
  {
    if items != [] {
      assert items[0].id != id;
      assert !Has(items[1..], id) by { assert forall i :: 0 <= i < |items| - 1 ==> items[1..][i] == items[i + 1]; }
      NothingToRemove(items[1..], id);
    }
  }

  /** Removing takes out exactly the item with the id and keeps the order of the others. */
  lemma {:induction false} RemoveExactly(items: seq<Item>, i: nat)
    requires DistinctIds(items) && i < |items|
    ensures Remove(items, items[i].id) == items[..i] + items[i + 1..]
  {
    if i == 0 {
      assert !Has(items[1..], items[0].id) by { assert forall k :: 0 <= k < |items| - 1 ==> items[1..][k] == items[k + 1]; }
      NothingToRemove(items[1..], items[0].id);
    } else {
      assert DistinctIds(items[1..]) by { assert forall k :: 0 <= k < |items| - 1 ==> items[1..][k] == items[k + 1]; }
      RemoveExactly(items[1..], i - 1);
      assert items[..i] == [items[0]] + items[1..][..i - 1] && items[1..][i..] == items[i + 1..];
    }
  }

  /** Removing an item that was just added gives the list back. */
  lemma RemoveUndoesAdd(items: seq<Item>, x: Item)
    requires DistinctIds(items) && !Has(items, x.id)
    ensures Remove(Upsert(items, x, None), x.id) == items
  {
    RemoveExactly(items + [x], |items|);
    assert (items + [x])[..|items|] == items && (items + [x])[|items| + 1..] == [];
  }

  /** An accepted item form stores the normal form of what was typed: at the end when adding, and in place of
      exactly the edited item when editing. */
  lemma AcceptedFormIsStored(f: Flow, input: ItemInput)
    requires Good(f.items) && ItemStep(input, f.items, f.editId, f.settings).complaint.Fine?
    ensures NormalizeItem(FormRecord(input)).Ok?
    ensures var x, after := NormalizeItem(FormRecord(input)).value, AfterItem(f, input);
      after.place == Manage && after.editId == None &&
      (f.editId.None? ==> after.items == f.items + [x]) &&
      forall i :: 0 <= i < |f.items| && f.editId == Some(f.items[i].id) ==> after.items == f.items[i := x]
  {
    NormalizedExactly([FormRecord(input)], ReservedIds(f.items, f.editId));
    hide NormalizeItem, FormRecord, Normalize, ReservedIds, ValidItem;
  }

  /** Submitting the stored settings, or none, changes no setting and is not refused. */
  lemma StoredSettingsAreKept(t: Settings, input: ManageInput)
    requires ValidSettings(t)
    requires input.mode in {Absent, Given(t.mode)} && input.p in {Absent, Given(t.p)} && input.n in {Absent, Given(t.n)}
    ensures SettingsAfter(t, input) == t && !SettingsRefused(t, input)
  {
    PartRoundTrip(t.p, DEFAULT_P);
    PartRoundTrip(t.n, DEFAULT_N);
    assert Strip(t.mode) == t.mode;
    hide NormalizePart;
  }

  // ---------------------------------------------------------------- what every submission does

  /** The most items the user may keep: one place is left for the generated stair light in manual mode. */
  function Places(t: Settings): nat { if t.mode == "manual" then 15 else 16 }

  /** What each action of an accepted manage form does to the list, and where the flow goes next. The target is the
      submitted one without the white space around it. */
  lemma ActionsExactly(f: Flow, input: ManageInput, target: string)
    requires DistinctIds(f.items) && IsStripOf(target, input.target) && !SettingsRefused(f.settings, input)
    ensures
      var g, found := AfterManage(f, input), target != "" && exists i :: 0 <= i < |f.items| && f.items[i].id == target;
      (input.action == None || input.action == Some("done") ==>
        g == f.(settings := g.settings, editId := None, place := if |f.items| <= Places(g.settings) then Finished else Manage)) &&
      (input.action == Some("add") ==>
        g == f.(settings := g.settings, editId := None, place := if |f.items| < Places(g.settings) then EditItem else Manage)) &&
      (input.action == Some("edit") ==>
        g == f.(settings := g.settings, editId := if found then Some(target) else None,
                place := if found then EditItem else Manage)) &&
      (input.action == Some("remove") ==>
        g == f.(settings := g.settings, items := g.items, editId := None, place := Manage) &&
        (!found ==> g.items == f.items) &&
        forall i :: 0 <= i < |f.items| && f.items[i].id == target && found ==> g.items == f.items[..i] + f.items[i + 1..]) &&
      (input.action.Some? && input.action.value !in {"done", "add", "edit", "remove"} ==>
        g == f.(settings := g.settings, editId := None, place := Manage))
  {
    hide Strip, Remove, SettingsAfter, SettingsRefused, IsStripOf, DistinctIds;
    StripIsUnique(target, input.target);
    forall i | 0 <= i < |f.items| && f.items[i].id == target ensures Remove(f.items, target) == f.items[..i] + f.items[i + 1..] {
      RemoveExactly(f.items, i);
    }
  }

  /** Which complaint the manage form shows. */
  lemma ComplaintsExactly(input: ManageInput, items: seq<Item>, t: Settings, target: string)
    requires IsStripOf(target, input.target)
    ensures
      var c := ManageStep(Some(input), items, ItemLimit(t)).complaint;
      (c.InvalidActivations? <==>
        (input.action in {None, Some("done")} && |items| > Places(t)) || (input.action == Some("add") && |items| >= Places(t))) &&
      (c.ActionRequired? <==> input.action.Some? && input.action.value !in {"done", "add", "edit", "remove"}) &&
      (c.TargetRequired? <==>
        input.action in {Some("edit"), Some("remove")} &&
        (target == "" || forall i :: 0 <= i < |items| ==> items[i].id != target))
  {
    StripIsUnique(target, input.target);
    hide Strip, Remove, IsStripOf;
  }

  /** A refused manage form keeps the list and the edited item and stays where it is, with the settings that are good. */
  lemma RefusedFormIsShownAgain(f: Flow, input: ManageInput)
    requires SettingsRefused(f.settings, input)
    ensures AfterManage(f, input) == f.(settings := AfterManage(f, input).settings, place := Manage)
  {
    hide SettingsAfter;
  }

  /** The mode that was submitted, else the stored one, else the default. */
  ghost predicate IsModeOf(m: string, t: Settings, input: ManageInput) {
    match input.mode
    case Given(text) => IsStripOf(m, text)
    case Blank => m == "automatic"
    case Absent => if t.mode == "" then m == "automatic" else IsStripOf(m, t.mode)
  }

  /** A part of the address as submitted, else the stored one, else the default. */
  ghost predicate IsPartOf(s: string, f: Field, stored: string, otherwise: string) {
    match f
    case Given(text) => IsStripOf(s, text)
    case Blank => s == otherwise
    case Absent => if stored == "" then s == otherwise else IsStripOf(s, stored)
  }

  predicate IsNumeral(s: string) { 1 <= |s| <= 2 && AllDigits(s) }

  /** A part after the form: the number that was submitted, in two digits, or when that is no part the stored one. */
  predicate PartIsKept(after: string, s: string, stored: string) {
    IsPart(after) && if IsNumeral(s) then Number(after) == Number(s) else IsPart(stored) ==> after == stored
  }

  lemma PartAfterExactly(f: Field, stored: string, otherwise: string) returns (s: string)
    requires IsPart(otherwise)
    ensures IsPartOf(s, f, stored, otherwise)
    ensures NormalizePart(FormOr(f, stored), otherwise).None? <==> !IsNumeral(s)
    ensures PartIsKept(PartAfter(f, stored, otherwise), s, stored)
  {
    assert Stripped(otherwise);
    s := PartExactly(FormOr(f, stored), otherwise);
    if IsPart(stored) { PartRoundTrip(stored, otherwise); }
    hide NormalizePart, IsStripOf;
  }

  /** Which settings a submission leaves: mode and parts that are good are taken over, the parts as numbers in two
      digits; a bad one refuses the form and keeps the stored one. */
  lemma SettingsExactly(t: Settings, input: ManageInput) returns (m: string, p: string, n: string)
    ensures IsModeOf(m, t, input) && IsPartOf(p, input.p, t.p, "01") && IsPartOf(n, input.n, t.n, "00")
    ensures SettingsRefused(t, input) <==> !(m in {"automatic", "manual"} && IsNumeral(p) && IsNumeral(n))
    ensures var after := SettingsAfter(t, input);
      after.mode == (if m in {"automatic", "manual"} then m else t.mode) &&
      PartIsKept(after.p, p, t.p) && PartIsKept(after.n, n, t.n)
  {
    hide NormalizePart, PartAfter, IsStripOf, Strip, IsModeOf, GivenMode, IsPartOf, PartIsKept, FormOr;
    m := GivenMode(t, input);
    ModeIsGiven(t, input);
    p := PartAfterExactly(input.p, t.p, DEFAULT_P);
    n := PartAfterExactly(input.n, t.n, DEFAULT_N);
  }

  lemma ModeIsGiven(t: Settings, input: ManageInput)
    ensures IsModeOf(GivenMode(t, input), t, input)
  {
    StripIsStrip(TextOr(FormOr(input.mode, t.mode), "automatic"));
    assert Strip("automatic") == "automatic";
    hide Strip, IsStripOf;
  }

  /** What an item form does: it is not opened for a new item when the list is full; it is shown again, with nothing
      changed, unless what was typed is an acceptable item whose id is free; and then that item is stored. */
  lemma ItemFormExactly(f: Flow, input: ItemInput)
    requires Good(f.items)
    ensures
      var g, s, raw := AfterItem(f, input), ItemStep(input, f.items, f.editId, f.settings), NormalizeItem(FormRecord(input));
      var full := f.editId == None && |f.items| >= Places(f.settings);
      var free := raw.Ok? && raw.value.id != "stair_light" &&
        forall i :: 0 <= i < |f.items| && f.items[i].id == raw.value.id ==> f.editId == Some(raw.value.id);
      (s.complaint.Fine? <==> !full && free) && (!s.complaint.Fine? ==> s.complaint.InvalidActivations?) &&
      (full ==> g == f.(editId := None, place := Manage)) && (!full && !free ==> g == f.(place := EditItem))
  {
    var reserved := ReservedIds(f.items, f.editId);
    NormalizedExactly([FormRecord(input)], reserved);
    var raw := NormalizeItem(FormRecord(input));
    if raw.Ok? { FormIdIsFree(f.items, f.editId, raw.value.id); }
    hide NormalizeItem, FormRecord, Normalize, ReservedIds, Reserved, Upsert, ValidItem;
  }

  lemma FormIdIsFree(items: seq<Item>, editId: Option<string>, id: string)
    requires Good(items) && IsId(id)
    ensures id !in Reserved(ReservedIds(items, editId)) <==>
      id != "stair_light" && forall i :: 0 <= i < |items| && items[i].id == id ==> editId == Some(id)
  {
    var reserved := ReservedIds(items, editId);
    forall s | s in reserved ensures Strip(s) == s {
      if s == STAIR_LIGHT { AcceptedTextsAreStripped(STAIR_LIGHT); }
      else {
        var x :| x in items && x.id == s;
        var i :| 0 <= i < |items| && items[i] == x;
        AcceptedTextsAreStripped(items[i].id);
      }
    }
    assert id in Reserved(reserved) <==> id in reserved;
    if i :| 0 <= i < |items| && items[i].id == id { assert items[i] in items; }
    hide Strip;
  }

  lemma StrippedTwice(s: string, x: string, otherwise: string)
    requires IsTextOf(x, TextField(Strip(s)), otherwise)
    ensures x == if Strip(s) == "" then otherwise else Strip(s)
    ensures IsStripOf(Strip(s), s)
  {
    StripIsStrip(s);
    if Strip(s) != "" { StripIsUnique(x, Strip(s)); }
    hide IsStripOf;
  }

  /** What is read from an item form: the texts without white space around them, a lock unless another type is given,
      and always with a manual address. */
  lemma TypedItem(input: ItemInput) returns (x: Item, kind: string)
    ensures IsStripOf(x.id, input.id) && IsStripOf(x.name, input.name) && IsStripOf(x.address, input.address)
    ensures IsStripOf(kind, if input.kind.Some? then input.kind.value else "lock")
    ensures x.kind == (if kind == "" then "lock" else kind) && x.addressMode == "manual"
    ensures NormalizeItem(FormRecord(input)).Ok? <==> ValidItem(x)
    ensures ValidItem(x) ==> NormalizeItem(FormRecord(input)).value == x
  {
    hide NormalizeItem, IsStripOf, Strip, ValidItem, IsId, IsName, IsTextOf;
    x := ItemExactly(FormRecord(input));
    kind := Strip(if input.kind.Some? then input.kind.value else "lock");
    StrippedTwice(input.id, x.id, "");
    StrippedTwice(input.name, x.name, "");
    StrippedTwice(if input.kind.Some? then input.kind.value else "lock", x.kind, "lock");
    StrippedTwice(input.address, x.address, "");
    StrippedTwice("manual", x.addressMode, "manual");
    ValidParts(x);
  }

  lemma ValidParts(x: Item)
    ensures ValidItem(x) ==>
      IsId(x.id) && IsName(x.name) && x.kind in {"lock", "light", "stair_light", "generic", "scenario"} &&
      x.addressMode in {"manual", "auto"}
  {
  }
}
