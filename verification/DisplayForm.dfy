/** The per-entity display form: rendering stored overrides, reading the posted form back, normalising. */
module DisplayForm {
  import opened Options
  import opened Text

  const FRIENDLY := "friendly_name"
  const CUSTOM := "custom"
  const STATE := "state"

  const NAME_MODES: set<string> := {"friendly_name", "entity_id", "custom"}
  const SECONDARY_MODES: set<string> := {"state", "entity_id", "last_changed", "last_updated", "none"}

  type EntityId = string

  /** The stored options of one entity; each may be missing. */
  datatype Display = Display(
    page: Option<string>, order: Option<string>, name: Option<string>, customName: Option<string>, secondary: Option<string>)

  const NOTHING := Display(None, None, None, None, None)

  type Overrides = map<EntityId, Display>

  // ---------------------------------------------------------------- normalising

  /** The whole number an order text denotes, written as an integer or as an integral float. */
  function OrderOf(s: string): Option<nat> {
    if s != "" && AllDigits(s) then Some(Number(s))
    else if |s| > 2 && s[|s| - 2..] == ".0" && AllDigits(s[..|s| - 2]) then Some(Number(s[..|s| - 2]))
    else None
  }

  predicate GoodOrder(s: string) { OrderOf(s).Some? && OrderOf(s).value <= 10000 }

  predicate GoodPage(s: string) { |s| <= 60 && forall i :: 0 <= i < |s| ==> s[i] >= ' ' }

  function TextOf(f: Option<string>): string { if f.Some? then Strip(f.value) else "" }

  function TextOption(condition: bool, s: string): Option<string> { if condition then Some(s) else None }

  /** `normalize_dashboard_entity_display_overrides` on one entity, not strict: what is not acceptable is dropped. */
  function NormalizeDisplay(d: Display): (r: Display)
    ensures Normal(r)
  {
    var page, name, custom, secondary :=
      TextOf(d.page), TextOf(d.name), TextOf(d.customName), TextOf(d.secondary);
    var ordered := d.order.Some? && GoodOrder(d.order.value);
    var order := if ordered then OrderOf(d.order.value).value else 0;
    NumberOfDecimal(order);
    Display(
      TextOption(page != "" && GoodPage(page), page),
      TextOption(ordered, Decimal(order)),
      TextOption(name in NAME_MODES, name),
      TextOption(name == CUSTOM && custom != "", custom),
      TextOption(secondary in SECONDARY_MODES, secondary))
  }

  /** Whether the strict normaliser raises no error. */
  predicate StrictlyFine(d: Display) {
    var name := TextOf(d.name);
    GoodPage(TextOf(d.page)) && (d.order.Some? ==> GoodOrder(d.order.value)) &&
    (name == "" || name in NAME_MODES) && (name == CUSTOM ==> TextOf(d.customName) != "") &&
    (TextOf(d.secondary) == "" || TextOf(d.secondary) in SECONDARY_MODES)
  }

  predicate Normal(d: Display) {
    (d.page.Some? ==> d.page.value != "" && Stripped(d.page.value) && GoodPage(d.page.value)) &&
    (d.order.Some? ==> Canonical(d.order.value) && Number(d.order.value) <= 10000) &&
    (d.name.Some? ==> d.name.value in NAME_MODES) &&
    (d.customName.Some? ==> d.name == Some(CUSTOM) && d.customName.value != "" && Stripped(d.customName.value)) &&
    (d.secondary.Some? ==> d.secondary.value in SECONDARY_MODES)
  }

  ghost predicate AllNormal(m: Overrides) { forall e :: e in m ==> Normal(m[e]) }

  function NormalizeAll(m: Overrides): (r: Overrides)
    ensures AllNormal(r)
  {
    map e | e in m && NormalizeDisplay(m[e]) != NOTHING :: NormalizeDisplay(m[e])
  }

  // ---------------------------------------------------------------- what the display shows

  /** What the dashboard shows of the entity at the given place: every option or its default. */
  datatype Shown = Shown(page: string, order: nat, name: string, customName: string, secondary: string)

  function Or(f: Option<string>, otherwise: string): string { if f.Some? then f.value else otherwise }

  function OrderOr(d: Display, place: nat): nat
    requires Normal(d)
  {
    if d.order.Some? then Number(d.order.value) else 10 * place
  }

  function Get(m: Overrides, e: EntityId): (d: Display)
    ensures AllNormal(m) ==> Normal(d)
  {
    if e in m then m[e] else NOTHING
  }

  /** Places count from one; an entity without an order comes at ten times its place. */
  function Effective(d: Display, place: nat): Shown
    requires Normal(d)
  {
    var name := Or(d.name, FRIENDLY);
    Shown(Or(d.page, ""), OrderOr(d, place), name,
      if name == CUSTOM then Or(d.customName, "") else "", Or(d.secondary, STATE))
  }

  // ---------------------------------------------------------------- the form

  datatype Kind = Page | Position | Name | CustomName | Secondary

  function Suffix(k: Kind): string {
    match k
    case Page => " - Page"
    case Position => " - Position"
    case Name => " - Name"
    case CustomName => " - Custom name"
    case Secondary => " - Secondary line"
  }

  /** A field's name; `title` stands for the readable form of an entity id. */
  function FieldName(title: (nat, EntityId) -> string, place: nat, e: EntityId, k: Kind): string {
    Decimal(place) + (". " + title(place, e) + Suffix(k))
  }

  /** Field names of different places, or of different kinds for one entity, differ, whatever the titles are. */
  lemma FieldNamesAreDistinct(title: (nat, EntityId) -> string, i: nat, d: EntityId, k: Kind, j: nat, e: EntityId, l: Kind)
    requires FieldName(title, i, d, k) == FieldName(title, j, e, l)
    ensures i == j && (d == e ==> k == l)
  {
    var x, y := ". " + title(i, d) + Suffix(k), ". " + title(j, e) + Suffix(l);
    RunOfDigits(Decimal(i), x);
    RunOfDigits(Decimal(j), y);
    var n := |Decimal(i)|;
    assert (Decimal(i) + x)[..n] == Decimal(i) && (Decimal(j) + y)[..n] == Decimal(j);
    NumberOfDecimal(i);
    NumberOfDecimal(j);
    if d == e { SuffixesDiffer(". " + title(i, d), k, l, Decimal(i)); }
  }

  lemma SuffixesDiffer(head: string, k: Kind, l: Kind, digits: string)
    requires digits + (head + Suffix(k)) == digits + (head + Suffix(l))
    ensures k == l
  {
    var a, b := digits + (head + Suffix(k)), digits + (head + Suffix(l));
    var n := |digits| + |head|;
    assert a[n..] == Suffix(k) && b[n..] == Suffix(l);
    if |Suffix(k)| == |Suffix(l)| { assert Suffix(k)[3] == Suffix(l)[3]; }
  }

  /** A posted value: text, or a number written as an integer or as an integral float. */
  datatype Value = Text(s: string) | Whole(n: nat) | Integral(n: nat)

  /** `str` of a posted value. */
  function TextOfValue(v: Value): string {
    match v
    case Text(s) => s
    case Whole(n) => Decimal(n)
    case Integral(n) => Decimal(n) + ".0"
  }

  type Form = map<string, Value>

  /** The layout fields are rendered for some of the entities only. */
  predicate Included(layout: Option<set<EntityId>>, e: EntityId, k: Kind) {
    (k == Page || k == Position) && layout.Some? ==> e in layout.value
  }

  function Default(d: Display, place: nat, k: Kind): Value
    requires Normal(d)
  {
    match k
    case Page => Text(Or(d.page, ""))
    case Position => Whole(OrderOr(d, place))
    case Name => Text(Or(d.name, FRIENDLY))
    case CustomName => Text(Or(d.customName, ""))
    case Secondary => Text(Or(d.secondary, STATE))
  }

  function AddField(
    form: Form, title: (nat, EntityId) -> string, layout: Option<set<EntityId>>, e: EntityId, d: Display, place: nat, k: Kind)
    : Form
    requires Normal(d)
  {
    if Included(layout, e, k) then form[FieldName(title, place, e, k) := Default(d, place, k)] else form
  }

  function AddFields(
    form: Form, title: (nat, EntityId) -> string, layout: Option<set<EntityId>>, e: EntityId, d: Display, place: nat): Form
    requires Normal(d)
  {
    var form := AddField(form, title, layout, e, d, place, Page);
    var form := AddField(form, title, layout, e, d, place, Position);
    var form := AddField(form, title, layout, e, d, place, Name);
    var form := AddField(form, title, layout, e, d, place, CustomName);
    AddField(form, title, layout, e, d, place, Secondary)
  }

  /** The rendered form of the first entities. */
  function Rendered(
    title: (nat, EntityId) -> string, layout: Option<set<EntityId>>, entities: seq<EntityId>, m: Overrides, n: nat): Form
    requires n <= |entities| && AllNormal(m)
  {
    if n == 0 then map[]
    else AddFields(Rendered(title, layout, entities, m, n - 1), title, layout, entities[n - 1], Get(m, entities[n - 1]), n)
  }

  /** `dashboard_entity_display_schema`, as the defaults it renders. */
  method RenderDisplayForm(
    title: (nat, EntityId) -> string, layout: Option<set<EntityId>>, entities: seq<EntityId>, overrides: Overrides)
    returns (fields: Form)
    ensures fields == Rendered(title, layout, entities, NormalizeAll(overrides), |entities|)
  {
    hide FieldName, AddFields, NormalizeAll;
    var m := NormalizeAll(overrides);
    fields := map[];
    for n := 0 to |entities|
      invariant fields == Rendered(title, layout, entities, m, n)
    {
      var e := entities[n];
      var d := Get(m, e);
      var place := n + 1;
      AddFieldsSpelled(fields, title, layout, e, d, place);
      if layout.None? || e in layout.value {
        fields := fields[FieldName(title, place, e, Page) := Text(Or(d.page, ""))];
        fields := fields[FieldName(title, place, e, Position) := Whole(OrderOr(d, place))];
      }
      fields := fields[FieldName(title, place, e, Name) := Text(Or(d.name, FRIENDLY))];
      fields := fields[FieldName(title, place, e, CustomName) := Text(Or(d.customName, ""))];
      fields := fields[FieldName(title, place, e, Secondary) := Text(Or(d.secondary, STATE))];
    }
  }

  lemma AddFieldsSpelled(
    form: Form, title: (nat, EntityId) -> string, layout: Option<set<EntityId>>, e: EntityId, d: Display, place: nat)
    requires Normal(d)
    ensures AddFields(form, title, layout, e, d, place) ==
      var first :=
        if layout.None? || e in layout.value then
          form[FieldName(title, place, e, Page) := Text(Or(d.page, ""))]
              [FieldName(title, place, e, Position) := Whole(OrderOr(d, place))]
        else form;
      first[FieldName(title, place, e, Name) := Text(Or(d.name, FRIENDLY))]
           [FieldName(title, place, e, CustomName) := Text(Or(d.customName, ""))]
           [FieldName(title, place, e, Secondary) := Text(Or(d.secondary, STATE))]
  {
    hide FieldName;
  }

  lemma AddedField(
    form: Form, title: (nat, EntityId) -> string, layout: Option<set<EntityId>>, e: EntityId, d: Display, place: nat, k: Kind,
    j: nat, other: EntityId, l: Kind)
    requires Normal(d) && (j == place ==> other == e)
    ensures Lookup(AddField(form, title, layout, e, d, place, k), FieldName(title, j, other, l)) ==
      if j == place && k == l && Included(layout, e, k) then Some(Default(d, place, k))
      else Lookup(form, FieldName(title, j, other, l))
  {
    if FieldName(title, place, e, k) == FieldName(title, j, other, l) {
      FieldNamesAreDistinct(title, place, e, k, j, other, l);
    }
    hide FieldName, Default;
  }

  lemma AddedFields(
    form: Form, title: (nat, EntityId) -> string, layout: Option<set<EntityId>>, e: EntityId, d: Display, place: nat,
    j: nat, other: EntityId, l: Kind)
    requires Normal(d) && (j == place ==> other == e)
    ensures Lookup(AddFields(form, title, layout, e, d, place), FieldName(title, j, other, l)) ==
      if j == place && Included(layout, e, l) then Some(Default(d, place, l))
      else Lookup(form, FieldName(title, j, other, l))
  {
    hide FieldName, Default, AddField, Lookup, Normal, Included;
    var a := AddField(form, title, layout, e, d, place, Page);
    AddedField(form, title, layout, e, d, place, Page, j, other, l);
    var b := AddField(a, title, layout, e, d, place, Position);
    AddedField(a, title, layout, e, d, place, Position, j, other, l);
    var c := AddField(b, title, layout, e, d, place, Name);
    AddedField(b, title, layout, e, d, place, Name, j, other, l);
    var f := AddField(c, title, layout, e, d, place, CustomName);
    AddedField(c, title, layout, e, d, place, CustomName, j, other, l);
    AddedField(f, title, layout, e, d, place, Secondary, j, other, l);
  }

  /** Every rendered field holds its entity's default; a field that is not rendered is absent. */
  lemma {:induction false} RenderedField(
    title: (nat, EntityId) -> string, layout: Option<set<EntityId>>, entities: seq<EntityId>, m: Overrides, n: nat,
    i: nat, k: Kind)
    requires n <= |entities| && AllNormal(m) && i < |entities|
    ensures Lookup(Rendered(title, layout, entities, m, n), FieldName(title, i + 1, entities[i], k)) ==
      if i < n && (layout.Some? && k in {Page, Position} ==> entities[i] in layout.value) then
        Some(Default(Get(m, entities[i]), i + 1, k))
      else None
    decreases n
  {
    hide FieldName, Default, AddFields, Normal, Get, AllNormal;
    if n > 0 {
      RenderedField(title, layout, entities, m, n - 1, i, k);
      AddedFields(Rendered(title, layout, entities, m, n - 1), title, layout, entities[n - 1], Get(m, entities[n - 1]), n,
        i + 1, entities[i], k);
    }
  }

  // ---------------------------------------------------------------- reading the form back

  function Posted(form: Form, name: string, otherwise: Value): Value { if name in form then form[name] else otherwise }

  function OneOf(s: string, modes: set<string>, otherwise: string): string {
    var s := Strip(if s == "" then otherwise else s);
    if s in modes then s else otherwise
  }

  /** The options read for one entity; `d` supplies the fields the form lacks. */
  function OptionsRead(form: Form, title: (nat, EntityId) -> string, e: EntityId, d: Display, place: nat): Display {
    var name := OneOf(TextOfValue(Posted(form, FieldName(title, place, e, Name), Text(Or(d.name, FRIENDLY)))),
      NAME_MODES, FRIENDLY);
    var secondary := OneOf(TextOfValue(Posted(form, FieldName(title, place, e, Secondary), Text(Or(d.secondary, STATE)))),
      SECONDARY_MODES, STATE);
    var custom := Strip(TextOfValue(Posted(form, FieldName(title, place, e, CustomName), Text(Or(d.customName, "")))));
    var page := Strip(TextOfValue(Posted(form, FieldName(title, place, e, Page), Text(Or(d.page, "")))));
    var order := TextOfValue(Posted(form, FieldName(title, place, e, Position), Text(Or(d.order, Decimal(10 * place)))));
    Display(
      TextOption(page != "", page),
      TextOption(order != Decimal(10 * place) && order != Decimal(10 * place) + ".0", order),
      TextOption(name != FRIENDLY, name),
      TextOption(name == CUSTOM && custom != "", custom),
      TextOption(secondary != STATE, secondary))
  }

  predicate DistinctIds(entities: seq<EntityId>) { forall i, j :: 0 <= i < j < |entities| ==> entities[i] != entities[j] }

  /** What is read for all entities: the non-empty options of each, and nothing else. */
  predicate IsRead(
    result: Overrides, form: Form, title: (nat, EntityId) -> string, entities: seq<EntityId>, m: Overrides, n: nat)
    requires n <= |entities|
  {
    (forall i :: 0 <= i < n ==> Get(result, entities[i]) == OptionsRead(form, title, entities[i], Get(m, entities[i]), i + 1)) &&
    (forall e :: e in result ==> result[e] != NOTHING && e in entities[..n])
  }

  lemma NothingRead(form: Form, title: (nat, EntityId) -> string, entities: seq<EntityId>, m: Overrides)
    ensures IsRead(map[], form, title, entities, m, 0)
  {
  }

  lemma ReadOne(
    result: Overrides, form: Form, title: (nat, EntityId) -> string, entities: seq<EntityId>, m: Overrides, n: nat)
    requires DistinctIds(entities) && n < |entities| && IsRead(result, form, title, entities, m, n)
    ensures
      var options := OptionsRead(form, title, entities[n], Get(m, entities[n]), n + 1);
      IsRead(if options != NOTHING then result[entities[n] := options] else result, form, title, entities, m, n + 1)
  {
    hide OptionsRead;
    var e := entities[n];
    assert entities[..n + 1] == entities[..n] + [e];
    assert e !in entities[..n];
  }

  /** `dashboard_entity_display_overrides_from_fields` */
  method OverridesFromFields(
    form: Form, title: (nat, EntityId) -> string, entities: seq<EntityId>, defaults: Overrides)
    returns (result: Overrides)
    requires DistinctIds(entities)
    ensures IsRead(result, form, title, entities, NormalizeAll(defaults), |entities|)
  {
    hide OptionsRead, IsRead, NormalizeAll;
    var existing := NormalizeAll(defaults);
    NothingRead(form, title, entities, existing);
    result := map[];
    for n := 0 to |entities|
      invariant IsRead(result, form, title, entities, existing, n)
    {
      var e := entities[n];
      var options := OptionsRead(form, title, e, Get(existing, e), n + 1);
      ReadOne(result, form, title, entities, existing, n);
      if options != NOTHING { result := result[e := options]; }
    }
  }

  /** The rendered defaults posted unchanged, numbers as integers or as integral floats. */
  predicate Unchanged(rendered: Form, posted: Form) {
    rendered.Keys == posted.Keys &&
    forall name :: name in rendered ==>
      posted[name] == rendered[name] || (rendered[name].Whole? && posted[name] == Integral(rendered[name].n))
  }

  /** The fields of one entity as posted: its defaults, or what reading falls back to. */
  predicate Kept(form: Form, title: (nat, EntityId) -> string, e: EntityId, d: Display, place: nat)
    requires Normal(d)
  {
    forall k :: FieldName(title, place, e, k) in form ==>
      var v := form[FieldName(title, place, e, k)];
      v == Default(d, place, k) || (k == Position && v == Integral(OrderOr(d, place)))
  }

  lemma ModesAreStripped(s: string)
    requires s in NAME_MODES || s in SECONDARY_MODES
    ensures Strip(s) == s && s != ""
  {
  }

  /** What is read from the kept fields, option by option. */
  lemma ReadsTheDefaults(form: Form, title: (nat, EntityId) -> string, e: EntityId, d: Display, place: nat)
    requires Normal(d) && Kept(form, title, e, d, place)
    ensures var r := OptionsRead(form, title, e, d, place);
      var order := TextOfValue(Posted(form, FieldName(title, place, e, Position), Text(Or(d.order, Decimal(10 * place)))));
      r.name == TextOption(Or(d.name, FRIENDLY) != FRIENDLY, Or(d.name, FRIENDLY)) &&
      r.secondary == TextOption(Or(d.secondary, STATE) != STATE, Or(d.secondary, STATE)) &&
      r.page == d.page && r.customName == d.customName &&
      r.order == TextOption(order != Decimal(10 * place) && order != Decimal(10 * place) + ".0", order)
  {
    hide FieldName, Kept, Posted;
    TextKept(form, title, e, d, place, Name, Or(d.name, FRIENDLY));
    TextKept(form, title, e, d, place, Secondary, Or(d.secondary, STATE));
    TextKept(form, title, e, d, place, Page, Or(d.page, ""));
    TextKept(form, title, e, d, place, CustomName, Or(d.customName, ""));
    ModesAreStripped(Or(d.name, FRIENDLY));
    ModesAreStripped(Or(d.secondary, STATE));
  }

  lemma TextKept(form: Form, title: (nat, EntityId) -> string, e: EntityId, d: Display, place: nat, k: Kind, s: string)
    requires Normal(d) && Kept(form, title, e, d, place) && k != Position && Default(d, place, k) == Text(s)
    ensures TextOfValue(Posted(form, FieldName(title, place, e, k), Text(s))) == s
  {
    hide FieldName;
  }

  lemma ReadsTheOrder(form: Form, title: (nat, EntityId) -> string, e: EntityId, d: Display, place: nat)
    requires Normal(d) && Kept(form, title, e, d, place)
    ensures var order := TextOfValue(Posted(form, FieldName(title, place, e, Position), Text(Or(d.order, Decimal(10 * place)))));
      order == Decimal(OrderOr(d, place)) || order == Decimal(OrderOr(d, place)) + ".0"
  {
    if d.order.Some? { DecimalOfNumber(d.order.value); }
    hide FieldName;
  }

  /** A number reads the same as an integer and as an integral float. */
  lemma OrderText(n: nat)
    ensures OrderOf(Decimal(n)) == Some(n) && OrderOf(Decimal(n) + ".0") == Some(n)
    ensures TextOfValue(Whole(n)) == Decimal(n) && TextOfValue(Integral(n)) == TextOfValue(Whole(n)) + ".0"
  {
    NumberOfDecimal(n);
    var s := Decimal(n) + ".0";
    assert s[..|s| - 2] == Decimal(n) && s[|s| - 2..] == ".0";
    assert !IsDigit(s[|s| - 2]);
  }

  /** Reading back one entity's kept fields and normalising shows the same; the strict normaliser refuses it
      exactly when the name is to be a custom one that is missing. */
  lemma OptionsRoundTrip(form: Form, title: (nat, EntityId) -> string, e: EntityId, d: Display, place: nat)
    requires Normal(d) && Kept(form, title, e, d, place)
    ensures var r := OptionsRead(form, title, e, d, place);
      Effective(NormalizeDisplay(r), place) == Effective(d, place) &&
      (StrictlyFine(r) <==> (d.name == Some(CUSTOM) ==> d.customName.Some?))
  {
    ReadsTheDefaults(form, title, e, d, place);
    ReadsTheOrder(form, title, e, d, place);
    var n := OrderOr(d, place);
    OrderText(n);
    OrderText(10 * place);
    NumberOfDecimal(n);
    var r := OptionsRead(form, title, e, d, place);
    if r.name.Some? { ModesAreStripped(r.name.value); }
    if r.secondary.Some? { ModesAreStripped(r.secondary.value); }
    hide OptionsRead, Kept, FieldName, Posted;
    NormalizedRead(r, d, place);
    StrictRead(r, d, place);
  }

  /** The options read from kept fields of `d`, whatever text the order was posted as. */
  predicate ReadFrom(r: Display, d: Display, place: nat)
    requires Normal(d)
  {
    r.page == d.page && r.customName == d.customName &&
    r.name == TextOption(Or(d.name, FRIENDLY) != FRIENDLY, Or(d.name, FRIENDLY)) &&
    r.secondary == TextOption(Or(d.secondary, STATE) != STATE, Or(d.secondary, STATE)) &&
    (r.order.Some? ==> d.order.Some? && OrderOf(r.order.value) == Some(OrderOr(d, place))) &&
    (r.order.None? ==> OrderOr(d, place) == 10 * place)
  }

  lemma NormalizedTexts(r: Display, d: Display, place: nat)
    requires Normal(d) && ReadFrom(r, d, place)
    ensures var n := NormalizeDisplay(r);
      n.page == d.page && n.name == r.name && n.customName == d.customName && n.secondary == r.secondary
  {
    hide OrderOf, Number, Decimal, GoodOrder;
    if r.name.Some? { ModesAreStripped(r.name.value); }
    if r.secondary.Some? { ModesAreStripped(r.secondary.value); }
  }

  lemma NormalizedOrder(r: Display, d: Display, place: nat)
    requires Normal(d) && ReadFrom(r, d, place)
    ensures OrderOr(NormalizeDisplay(r), place) == OrderOr(d, place)
  {
    hide OrderOf, Number, Decimal, Strip, GoodPage;
    NumberOfDecimal(OrderOr(d, place));
  }

  lemma NormalizedRead(r: Display, d: Display, place: nat)
    requires Normal(d) && ReadFrom(r, d, place)
    ensures Effective(NormalizeDisplay(r), place) == Effective(d, place)
  {
    hide NormalizeDisplay, OrderOr, GoodPage;
    NormalizedTexts(r, d, place);
    NormalizedOrder(r, d, place);
  }

  lemma StrictRead(r: Display, d: Display, place: nat)
    requires Normal(d) && ReadFrom(r, d, place)
    ensures StrictlyFine(r) <==> (d.name == Some(CUSTOM) ==> d.customName.Some?)
  {
    if r.name.Some? { ModesAreStripped(r.name.value); }
    if r.secondary.Some? { ModesAreStripped(r.secondary.value); }
  }

  /** For every entity list, every stored override map and every choice of layout entities: posting the rendered
      defaults unchanged and normalising again leaves what the dashboard shows of each selected entity as it was. */
  lemma FormRoundTrip(
    title: (nat, EntityId) -> string, layout: Option<set<EntityId>>, entities: seq<EntityId>, m: Overrides,
    posted: Form, result: Overrides, i: nat)
    requires AllNormal(m) && i < |entities|
    requires Unchanged(Rendered(title, layout, entities, m, |entities|), posted)
    requires IsRead(result, posted, title, entities, m, |entities|)
    ensures Effective(Get(NormalizeAll(result), entities[i]), i + 1) == Effective(Get(m, entities[i]), i + 1)
    ensures var d := Get(m, entities[i]);
      StrictlyFine(Get(result, entities[i])) <==> (d.name == Some(CUSTOM) ==> d.customName.Some?)
  {
    var e, d, place := entities[i], Get(m, entities[i]), i + 1;
    KeptFields(title, layout, entities, m, posted, i);
    OptionsRoundTrip(posted, title, e, d, place);
    NormalizedGet(result, e);
    hide Rendered, Kept, OptionsRead, NormalizeDisplay, NormalizeAll, Effective, StrictlyFine, FieldName;
  }

  lemma NormalizedGet(m: Overrides, e: EntityId)
    ensures Get(NormalizeAll(m), e) == NormalizeDisplay(Get(m, e))
  {
    assert NormalizeDisplay(NOTHING) == NOTHING;
    NormalizedEntities(m, e);
    hide NormalizeDisplay, NormalizeAll;
  }

  lemma KeptFields(
    title: (nat, EntityId) -> string, layout: Option<set<EntityId>>, entities: seq<EntityId>, m: Overrides, posted: Form, i: nat)
    requires AllNormal(m) && i < |entities| && Unchanged(Rendered(title, layout, entities, m, |entities|), posted)
    ensures Kept(posted, title, entities[i], Get(m, entities[i]), i + 1)
  {
    var rendered, e, place := Rendered(title, layout, entities, m, |entities|), entities[i], i + 1;
    forall k | FieldName(title, place, e, k) in posted
      ensures Lookup(rendered, FieldName(title, place, e, k)) == Some(Default(Get(m, e), place, k))
    {
      RenderedField(title, layout, entities, m, |entities|, i, k);
    }
    hide Rendered, FieldName;
  }

  /** Such an override: the strict normaliser refuses what its own form gives back. */
  lemma MissingCustomNameIsRefused(title: (nat, EntityId) -> string, e: EntityId) returns (d: Display, posted: Form)
    ensures Normal(d) && posted == Rendered(title, None, [e], map[e := d], 1)
    ensures !StrictlyFine(OptionsRead(posted, title, e, d, 1))
  {
    d := Display(None, None, Some(CUSTOM), None, None);
    var m: Overrides := map[e := d];
    assert AllNormal(m) && Get(m, e) == d;
    posted := Rendered(title, None, [e], m, 1);
    KeptFields(title, None, [e], m, posted, 0);
    OptionsRoundTrip(posted, title, e, d, 1);
  }

  // ---------------------------------------------------------------- a form the user has changed

  /** The text that stands for an option: what is given without the white space around it, or nothing. */
  ghost predicate IsTextOf(s: string, f: Option<string>) {
    if f.Some? then IsStripOf(s, f.value) else s == ""
  }

  lemma TextIsText(f: Option<string>)
    ensures IsTextOf(TextOf(f), f)
  {
    if f.Some? { StripIsStrip(f.value); }
    hide Strip, IsStripOf;
  }

  /** What the lenient normaliser keeps of one entity: each option that is acceptable, as it is but for the white space
      around it and the order as a plain numeral. The strict one raises no error exactly when nothing is dropped. */
  lemma NormalizesExactly(d: Display) returns (page: string, name: string, custom: string, secondary: string)
    ensures IsTextOf(page, d.page) && IsTextOf(name, d.name) && IsTextOf(custom, d.customName) && IsTextOf(secondary, d.secondary)
    ensures
      var r := NormalizeDisplay(d);
      r.page == (if page != "" && |page| <= 60 && (forall i :: 0 <= i < |page| ==> page[i] >= ' ') then Some(page) else None) &&
      r.name == (if name in {"friendly_name", "entity_id", "custom"} then Some(name) else None) &&
      r.customName == (if name == "custom" && custom != "" then Some(custom) else None) &&
      r.secondary ==
        (if secondary in {"state", "entity_id", "last_changed", "last_updated", "none"} then Some(secondary) else None) &&
      (r.order.Some? <==> d.order.Some? && OrderOf(d.order.value).Some? && OrderOf(d.order.value).value <= 10000) &&
      (r.order.Some? ==> Canonical(r.order.value) && Number(r.order.value) == OrderOf(d.order.value).value)
    ensures
      var r := NormalizeDisplay(d);
      StrictlyFine(d) <==>
        (page != "" ==> r.page.Some?) && (d.order.Some? ==> r.order.Some?) && (name != "" ==> r.name.Some?) &&
        (secondary != "" ==> r.secondary.Some?) && (name == "custom" ==> r.customName.Some?)
  {
    page, name, custom, secondary := TextOf(d.page), TextOf(d.name), TextOf(d.customName), TextOf(d.secondary);
    TextIsText(d.page);
    TextIsText(d.name);
    TextIsText(d.customName);
    TextIsText(d.secondary);
    hide TextOf, IsTextOf, OrderOf;
    if d.order.Some? && GoodOrder(d.order.value) { NumberOfDecimal(OrderOf(d.order.value).value); }
  }

  /** The text of a field as it is read: as posted, or as stored where the form lacks it. */
  function FieldText(form: Form, title: (nat, EntityId) -> string, e: EntityId, d: Display, place: nat, k: Kind): string {
    var field := FieldName(title, place, e, k);
    if field in form then TextOfValue(form[field])
    else match k
      case Page => if d.page.Some? then d.page.value else ""
      case Position => if d.order.Some? then d.order.value else Decimal(10 * place)
      case Name => if d.name.Some? then d.name.value else "friendly_name"
      case CustomName => if d.customName.Some? then d.customName.value else ""
      case Secondary => if d.secondary.Some? then d.secondary.value else "state"
  }

  lemma ModeRead(text: string, modes: set<string>, otherwise: string)
    requires forall m :: m in modes ==> Strip(m) == m && m != ""
    requires otherwise in modes
    ensures Strip(OneOf(text, modes, otherwise)) == OneOf(text, modes, otherwise) && OneOf(text, modes, otherwise) in modes
    ensures OneOf(text, modes, otherwise) == if Strip(text) in modes then Strip(text) else otherwise
  {
    assert text == "" ==> Strip(text) == "";
    hide Strip;
  }

  /** The texts as they are shown: each where it is acceptable, else its default. */
  predicate Shows(s: Shown, page: string, name: string, custom: string, secondary: string, order: string, place: nat) {
    s.page == (if GoodPage(page) then page else "") &&
    s.name == (if name in {"friendly_name", "entity_id", "custom"} then name else "friendly_name") &&
    s.customName == (if name == "custom" then custom else "") &&
    s.secondary == (if secondary in {"state", "entity_id", "last_changed", "last_updated", "none"} then secondary else "state") &&
    s.order == (if GoodOrder(order) then OrderOf(order).value else 10 * place)
  }

  /** For any form, also one the user has changed: what is read and normalised shows each entity as the form says, as far
      as that is acceptable, and with the default where it is not. */
  lemma PostedIsShown(form: Form, title: (nat, EntityId) -> string, e: EntityId, d: Display, place: nat)
    returns (page: string, name: string, custom: string, secondary: string)
    ensures IsStripOf(page, FieldText(form, title, e, d, place, Page)) && IsStripOf(name, FieldText(form, title, e, d, place, Name))
    ensures IsStripOf(custom, FieldText(form, title, e, d, place, CustomName))
    ensures IsStripOf(secondary, FieldText(form, title, e, d, place, Secondary))
    ensures Shows(Effective(NormalizeDisplay(OptionsRead(form, title, e, d, place)), place),
      page, name, custom, secondary, FieldText(form, title, e, d, place, Position), place)
  {
    hide IsStripOf, OptionsRead, FieldText, ReadsTexts, ReadsOrder, Strip, NormalizeDisplay, Shows, Effective;
    var a, b := FieldText(form, title, e, d, place, Page), FieldText(form, title, e, d, place, Name);
    var c, f := FieldText(form, title, e, d, place, CustomName), FieldText(form, title, e, d, place, Secondary);
    page, name, custom, secondary := Strip(a), Strip(b), Strip(c), Strip(f);
    StripIsStrip(a);
    StripIsStrip(b);
    StripIsStrip(c);
    StripIsStrip(f);
    ReadsTheTexts(form, title, e, d, place);
    ReadIsShown(OptionsRead(form, title, e, d, place), a, b, c, f, FieldText(form, title, e, d, place, Position), place);
  }

  lemma ReadIsShown(
    r: Display, page: string, name: string, custom: string, secondary: string, order: string, place: nat)
    requires ReadsTexts(r, page, name, custom, secondary) && ReadsOrder(r, order, place)
    ensures Shows(Effective(NormalizeDisplay(r), place), Strip(page), Strip(name), Strip(custom), Strip(secondary), order, place)
  {
    hide ReadsTexts, ReadsOrder, Strip, NormalizeDisplay, GoodPage, OrderOf;
    ShownTexts(r, page, name, custom, secondary, place);
    ShownOrder(r, order, place);
  }

  /** The options read, by the texts of the fields. */
  predicate ReadsTexts(r: Display, page: string, name: string, custom: string, secondary: string) {
    r.page == TextOption(Strip(page) != "", Strip(page)) &&
    (var n := OneOf(name, NAME_MODES, FRIENDLY);
     r.name == TextOption(n != FRIENDLY, n) &&
     r.customName == TextOption(n == CUSTOM && Strip(custom) != "", Strip(custom))) &&
    var s := OneOf(secondary, SECONDARY_MODES, STATE); r.secondary == TextOption(s != STATE, s)
  }

  predicate ReadsOrder(r: Display, order: string, place: nat) {
    r.order == TextOption(order != Decimal(10 * place) && order != Decimal(10 * place) + ".0", order)
  }

  lemma ReadsTheTexts(form: Form, title: (nat, EntityId) -> string, e: EntityId, d: Display, place: nat)
    ensures var r := OptionsRead(form, title, e, d, place);
      ReadsTexts(r, FieldText(form, title, e, d, place, Page), FieldText(form, title, e, d, place, Name),
        FieldText(form, title, e, d, place, CustomName), FieldText(form, title, e, d, place, Secondary)) &&
      ReadsOrder(r, FieldText(form, title, e, d, place, Position), place)
  {
    PostedText(form, title, e, d, place, Page, Or(d.page, ""));
    PostedText(form, title, e, d, place, Position, Or(d.order, Decimal(10 * place)));
    PostedText(form, title, e, d, place, Name, Or(d.name, FRIENDLY));
    PostedText(form, title, e, d, place, CustomName, Or(d.customName, ""));
    PostedText(form, title, e, d, place, Secondary, Or(d.secondary, STATE));
    hide FieldName, Strip, FieldText, Posted, TextOfValue, OneOf, Or;
  }

  lemma PostedText(form: Form, title: (nat, EntityId) -> string, e: EntityId, d: Display, place: nat, k: Kind, stored: string)
    requires stored ==
      match k
      case Page => Or(d.page, "")
      case Position => Or(d.order, Decimal(10 * place))
      case Name => Or(d.name, FRIENDLY)
      case CustomName => Or(d.customName, "")
      case Secondary => Or(d.secondary, STATE)
    ensures TextOfValue(Posted(form, FieldName(title, place, e, k), Text(stored))) == FieldText(form, title, e, d, place, k)
  {
    hide FieldName;
  }

  lemma ShownTexts(r: Display, page: string, name: string, custom: string, secondary: string, place: nat)
    requires ReadsTexts(r, page, name, custom, secondary)
    ensures
      var s := Effective(NormalizeDisplay(r), place);
      s.page == (if GoodPage(Strip(page)) then Strip(page) else "") &&
      s.name == (if Strip(name) in NAME_MODES then Strip(name) else FRIENDLY) &&
      s.customName == (if Strip(name) == CUSTOM then Strip(custom) else "") &&
      s.secondary == (if Strip(secondary) in SECONDARY_MODES then Strip(secondary) else STATE)
  {
    forall m | m in NAME_MODES || m in SECONDARY_MODES ensures Strip(m) == m && m != "" { ModesAreStripped(m); }
    ModeRead(name, NAME_MODES, FRIENDLY);
    ModeRead(secondary, SECONDARY_MODES, STATE);
    hide OneOf, OrderOf, OrderOr, GoodPage, Strip;
  }

  lemma ShownOrder(r: Display, order: string, place: nat)
    requires ReadsOrder(r, order, place)
    ensures Effective(NormalizeDisplay(r), place).order == if GoodOrder(order) then OrderOf(order).value else 10 * place
  {
    OrderText(10 * place);
    if GoodOrder(order) { NumberOfDecimal(OrderOf(order).value); }
    hide OrderOf, Strip, GoodPage;
  }

  /** Exactly the entities of which something is kept stay in the stored overrides. */
  lemma NormalizedEntities(m: Overrides, e: EntityId)
    ensures Lookup(NormalizeAll(m), e) ==
      if e in m && NormalizeDisplay(m[e]) != Display(None, None, None, None, None) then Some(NormalizeDisplay(m[e])) else None
  {
    hide NormalizeDisplay;
  }
}
