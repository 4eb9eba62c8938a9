/** Normalising configured device activations and building the list the agent is sent. */
module Activations {
  import opened Options
  import opened Text

  const MAX_ITEMS := 16
  const MAX_NAME := 63
  const STAIR_LIGHT := "stair_light"

  const KINDS: set<string> := {"lock", "light", "stair_light", "generic", "scenario"}
  const ADDRESSED_KINDS: set<string> := {"lock", "light", "stair_light"}
  const ADDRESS_MODES: set<string> := {"manual", "auto"}

  datatype Error =
    | TooMany | NotAList | NotAnItem | DuplicateId | InvalidId | InvalidName | InvalidKind | InvalidAddressMode
    | InvalidAddress

  datatype Result<T> = Ok(value: T) | Err(error: Error)

  /** A field of an untyped record: absent, a value the reader replaces by its default, or a value with its text. */
  datatype Field = Absent | Blank | Given(text: string)

  function TextField(s: string): Field { if s == "" then Blank else Given(s) }

  /** `str(value or default)` */
  function TextOr(f: Field, otherwise: string): string { if f.Given? then f.text else otherwise }

  datatype RawItem = NotARecord | Record(
    id: Field, name: Field, kind: Field, addressMode: Field, legacyAddressMode: Field, address: Field)

  /** The configured value: nothing, a list (given or decoded from JSON text), or something else. */
  datatype RawItems = Nothing | List(items: seq<RawItem>) | SomethingElse

  /** `address == ""` stands for an item without an address. */
  datatype Item = Item(id: string, name: string, kind: string, addressMode: string, address: string)

  predicate IsIdChar(c: char) { 'A' <= c <= 'Z' || 'a' <= c <= 'z' || IsDigit(c) || c == '_' || c == '-' }

  predicate IsId(s: string) { 1 <= |s| <= 32 && forall i :: 0 <= i < |s| ==> IsIdChar(s[i]) }

  predicate IsAddress(s: string) { 1 <= |s| <= 31 && forall i :: 0 <= i < |s| ==> IsDigit(s[i]) || s[i] == '#' }

  predicate IsName(s: string) { 1 <= |s| <= 63 && Stripped(s) }

  /** The patterns for ids and addresses, by their lengths and characters. */
  lemma PatternsExactly(s: string)
    ensures IsId(s) <==>
      |s| >= 1 && |s| < 33 && forall c :: c in s ==> c in "_-" || 'A' <= c <= 'Z' || 'a' <= c <= 'z' || '0' <= c <= '9'
    ensures IsAddress(s) <==> |s| >= 1 && |s| < 32 && forall c :: c in s ==> c in "0123456789#"
  {
    forall c: char ensures (IsDigit(c) || c == '#') <==> c in "0123456789#" { AddressChar(c); }
    forall c: char ensures IsIdChar(c) <==> c in "_-" || 'A' <= c <= 'Z' || 'a' <= c <= 'z' || '0' <= c <= '9' { IdChar(c); }
    hide IsIdChar, IsDigit;
    assert forall i :: 0 <= i < |s| ==> s[i] in s;
  }

  lemma IdChar(c: char)
    ensures IsIdChar(c) <==> c in "_-" || 'A' <= c <= 'Z' || 'a' <= c <= 'z' || '0' <= c <= '9'
  {
    var others := "_-";
    assert others[0] == '_' && others[1] == '-';
  }

  lemma AddressChar(c: char)
    ensures (IsDigit(c) || c == '#') <==> c in "0123456789#"
  {
    var digits := "0123456789#";
    if IsDigit(c) { assert digits[(c - '0') as int] == c; }
    assert digits[10] == '#';
  }

  /** What the agent accepts as one item. */
  predicate ValidItem(x: Item) {
    IsId(x.id) && IsName(x.name) && x.kind in {"lock", "light", "stair_light", "generic", "scenario"} &&
    x.addressMode in {"manual", "auto"} && (x.address == "" || IsAddress(x.address)) &&
    (x.addressMode == "auto" || (x.kind in {"lock", "light", "stair_light"} && x.address != ""))
  }

  /** The tests of `_normalize_activation_item`, in its order. */
  function Checked(x: Item): (r: Result<Item>)
    requires Stripped(x.name)
    ensures r.Ok? ==> ValidItem(r.value)
  {
    if !IsId(x.id) then Err(InvalidId)
    else if x.name == "" || |x.name| > MAX_NAME then Err(InvalidName)
    else if x.kind !in KINDS then Err(InvalidKind)
    else if x.addressMode !in ADDRESS_MODES then Err(InvalidAddressMode)
    else if x.address != "" && !IsAddress(x.address) then Err(InvalidAddress)
    else if x.addressMode != "auto" && !(x.kind in ADDRESSED_KINDS && x.address != "") then Err(InvalidAddress)
    else Ok(x)
  }

  /** `_normalize_activation_item` */
  function NormalizeItem(raw: RawItem): (r: Result<Item>)
    ensures r.Ok? ==> ValidItem(r.value)
  {
    if raw.NotARecord? then Err(NotAnItem)
    else
      var mode := if raw.addressMode.Absent? then raw.legacyAddressMode else raw.addressMode;
      Checked(Item(Strip(TextOr(raw.id, "")), Strip(TextOr(raw.name, "")), Strip(TextOr(raw.kind, "lock")),
        Strip(TextOr(mode, "manual")), Strip(TextOr(raw.address, ""))))
  }

  /** The texts of x are those of the record without white space around them, and the defaults where it has none. */
  ghost predicate Reads(raw: RawItem, x: Item)
    requires raw.Record?
  {
    IsTextOf(x.id, raw.id, "") && IsTextOf(x.name, raw.name, "") && IsTextOf(x.kind, raw.kind, "lock") &&
    IsTextOf(x.addressMode, if raw.addressMode == Absent then raw.legacyAddressMode else raw.addressMode, "manual") &&
    IsTextOf(x.address, raw.address, "")
  }

  ghost predicate IsTextOf(s: string, f: Field, otherwise: string) {
    match f
    case Given(text) => IsStripOf(s, text)
    case _ => s == otherwise
  }

  lemma TextIsText(f: Field, otherwise: string)
    requires Stripped(otherwise)
    ensures IsTextOf(Strip(TextOr(f, otherwise)), f, otherwise)
  {
    StripIsStrip(TextOr(f, otherwise));
    hide Strip, IsStripOf;
  }

  /** Which records are acceptable, as what, and what is wrong with the others: the first complaint about the id, the
      name, the type, the mode and the address. */
  lemma ItemExactly(raw: RawItem) returns (x: Item)
    requires raw.Record?
    ensures Reads(raw, x)
    ensures NormalizeItem(raw) ==
      if !IsId(x.id) then Err(InvalidId)
      else if !IsName(x.name) then Err(InvalidName)
      else if x.kind !in {"lock", "light", "stair_light", "generic", "scenario"} then Err(InvalidKind)
      else if x.addressMode !in {"manual", "auto"} then Err(InvalidAddressMode)
      else if ValidItem(x) then Ok(x)
      else Err(InvalidAddress)
  {
    var mode := if raw.addressMode.Absent? then raw.legacyAddressMode else raw.addressMode;
    x := Item(Strip(TextOr(raw.id, "")), Strip(TextOr(raw.name, "")), Strip(TextOr(raw.kind, "lock")),
      Strip(TextOr(mode, "manual")), Strip(TextOr(raw.address, "")));
    TextIsText(raw.id, "");
    TextIsText(raw.name, "");
    TextIsText(raw.kind, "lock");
    TextIsText(mode, "manual");
    TextIsText(raw.address, "");
    hide Strip, IsTextOf, NormalizeItem, ValidItem, IsId, IsName;
    NormalizedRead(raw, x);
  }

  lemma NormalizedRead(raw: RawItem, x: Item)
    requires raw.Record? && x.id == Strip(TextOr(raw.id, "")) && x.name == Strip(TextOr(raw.name, ""))
    requires x.kind == Strip(TextOr(raw.kind, "lock")) && x.address == Strip(TextOr(raw.address, ""))
    requires
      x.addressMode == Strip(TextOr(if raw.addressMode.Absent? then raw.legacyAddressMode else raw.addressMode, "manual"))
    ensures NormalizeItem(raw) ==
      if !IsId(x.id) then Err(InvalidId)
      else if !IsName(x.name) then Err(InvalidName)
      else if x.kind !in {"lock", "light", "stair_light", "generic", "scenario"} then Err(InvalidKind)
      else if x.addressMode !in {"manual", "auto"} then Err(InvalidAddressMode)
      else if ValidItem(x) then Ok(x)
      else Err(InvalidAddress)
  {
    hide Strip, TextOr, IsId, IsAddress;
  }

  /** An item as it is stored and read back. */
  function ToRaw(x: Item): RawItem {
    Record(TextField(x.id), TextField(x.name), TextField(x.kind), TextField(x.addressMode), Absent,
      if x.address == "" then Absent else Given(x.address))
  }

  function ToRaws(items: seq<Item>): seq<RawItem> { seq(|items|, i requires 0 <= i < |items| => ToRaw(items[i])) }

  lemma AcceptedTextsAreStripped(s: string)
    requires IsId(s) || IsAddress(s) || s in KINDS || s in ADDRESS_MODES
    ensures Stripped(s)
  {
  }

  /** Normalising a valid item gives it back. */
  lemma ItemRoundTrip(x: Item)
    requires ValidItem(x)
    ensures NormalizeItem(ToRaw(x)) == Ok(x)
  {
    AcceptedTextsAreStripped(x.id);
    AcceptedTextsAreStripped(x.kind);
    AcceptedTextsAreStripped(x.addressMode);
    if x.address != "" { AcceptedTextsAreStripped(x.address); }
    hide Strip, IsId, IsAddress;
  }

  predicate DistinctIds(items: seq<Item>) {
    forall i, j :: 0 <= i < j < |items| ==> items[i].id != items[j].id
  }

  predicate Avoids(items: seq<Item>, ids: set<string>) { forall i :: 0 <= i < |items| ==> items[i].id !in ids }

  /** The normaliser's loop from item `i`, with what it has kept and the ids it may not meet again. */
  function NormalizeFrom(raws: seq<RawItem>, i: nat, seen: set<string>, kept: seq<Item>): Result<seq<Item>>
    requires i <= |raws|
    decreases |raws| - i
  {
    if i == |raws| then Ok(kept)
    else
      var r := NormalizeItem(raws[i]);
      if r.Err? then Err(r.error)
      else if r.value.id in seen then Err(DuplicateId)
      else NormalizeFrom(raws, i + 1, seen + {r.value.id}, kept + [r.value])
  }

  /** The reserved ids as they are compared: stripped, and none empty. */
  function Reserved(ids: set<string>): set<string> { set s | s in ids && Strip(s) != "" :: Strip(s) }

  /** `normalize_device_activations` */
  function Normalize(raw: RawItems, reserved: set<string>): Result<seq<Item>> {
    match raw
    case SomethingElse => Err(NotAList)
    case Nothing => Ok([])
    case List(items) => if |items| > MAX_ITEMS then Err(TooMany) else NormalizeFrom(items, 0, Reserved(reserved), [])
  }

  method NormalizeDeviceActivations(raw: RawItems, reserved: set<string>) returns (r: Result<seq<Item>>)
    ensures r == Normalize(raw, reserved)
  {
    if raw.SomethingElse? { return Err(NotAList); }
    var items := if raw.Nothing? then [] else raw.items;
    if |items| > MAX_ITEMS { return Err(TooMany); }
    var seen := Reserved(reserved);
    var normalized: seq<Item> := [];
    for i := 0 to |items|
      invariant NormalizeFrom(items, 0, Reserved(reserved), []) == NormalizeFrom(items, i, seen, normalized)
    {
      var item := NormalizeItem(items[i]);
      if item.Err? { return Err(item.error); }
      if item.value.id in seen { return Err(DuplicateId); }
      seen := seen + {item.value.id};
      normalized := normalized + [item.value];
    }
    r := Ok(normalized);
  }

  predicate Fits(raws: seq<RawItem>, i: nat, seen: set<string>)
    requires i <= |raws|
  {
    (forall k :: i <= k < |raws| ==> NormalizeItem(raws[k]).Ok?) &&
    (forall k :: i <= k < |raws| ==> NormalizeItem(raws[k]).value.id !in seen) &&
    (forall k, l :: i <= k < l < |raws| ==> NormalizeItem(raws[k]).value.id != NormalizeItem(raws[l]).value.id)
  }

  lemma FitsStep(raws: seq<RawItem>, i: nat, seen: set<string>)
    requires i < |raws|
    ensures Fits(raws, i, seen) <==>
      var r := NormalizeItem(raws[i]); r.Ok? && r.value.id !in seen && Fits(raws, i + 1, seen + {r.value.id})
  {
    hide NormalizeItem;
  }

  lemma {:induction false} NormalizedFits(raws: seq<RawItem>, i: nat, seen: set<string>, kept: seq<Item>)
    requires i <= |raws|
    ensures NormalizeFrom(raws, i, seen, kept).Ok? <==> Fits(raws, i, seen)
    decreases |raws| - i
  {
    if i < |raws| {
      var r := NormalizeItem(raws[i]);
      FitsStep(raws, i, seen);
      if r.Ok? { NormalizedFits(raws, i + 1, seen + {r.value.id}, kept + [r.value]); }
      hide NormalizeItem, Fits;
    }
  }

  lemma {:induction false} NormalizedAt(raws: seq<RawItem>, i: nat, seen: set<string>, kept: seq<Item>, k: nat)
    requires i <= |raws| && NormalizeFrom(raws, i, seen, kept).Ok?
    ensures var items := NormalizeFrom(raws, i, seen, kept).value;
      |items| == |kept| + |raws| - i &&
      (k < |kept| ==> items[k] == kept[k]) &&
      (|kept| <= k < |items| ==> NormalizeItem(raws[i + k - |kept|]) == Ok(items[k]))
    decreases |raws| - i
  {
    hide NormalizeItem;
    if i < |raws| {
      var r := NormalizeItem(raws[i]);
      NormalizedAt(raws, i + 1, seen + {r.value.id}, kept + [r.value], k);
    }
  }

  /** The first item that is not acceptable, or whose id is taken, gives the error. */
  lemma {:induction false} FirstErrorFrom(raws: seq<RawItem>, i: nat, seen: set<string>, kept: seq<Item>, j: nat)
    requires i <= j < |raws| && Fits(raws[..j], i, seen) && !Fits(raws[..j + 1], i, seen)
    ensures NormalizeFrom(raws, i, seen, kept) ==
      Err(if NormalizeItem(raws[j]).Err? then NormalizeItem(raws[j]).error else DuplicateId)
    decreases |raws| - i
  {
    hide NormalizeItem, Fits;
    var r := NormalizeItem(raws[i]);
    FitsStep(raws[..j + 1], i, seen);
    assert raws[..j + 1][i] == raws[i];
    if i == j {
      FitsNothing(raws[..j + 1], seen + {if r.Ok? then r.value.id else ""});
    } else {
      FitsStep(raws[..j], i, seen);
      assert raws[..j][i] == raws[i];
      FirstErrorFrom(raws, i + 1, seen + {r.value.id}, kept + [r.value], j);
    }
  }

  lemma FitsNothing(raws: seq<RawItem>, seen: set<string>)
    ensures Fits(raws, |raws|, seen)
  {
  }

  /** The normaliser's errors: too many items, else the first item's that is not acceptable or whose id is taken. */
  lemma NormalizeFails(raws: seq<RawItem>, reserved: set<string>, j: nat)
    ensures Normalize(Nothing, reserved) == Ok([]) && Normalize(SomethingElse, reserved) == Err(NotAList)
    ensures |raws| > 16 ==> Normalize(List(raws), reserved) == Err(TooMany)
    ensures
      j < |raws| <= 16 && Fits(raws[..j], 0, Reserved(reserved)) && !Fits(raws[..j + 1], 0, Reserved(reserved)) ==>
      Normalize(List(raws), reserved) ==
        Err(if NormalizeItem(raws[j]).Err? then NormalizeItem(raws[j]).error else DuplicateId)
  {
    if j < |raws| <= 16 && Fits(raws[..j], 0, Reserved(reserved)) && !Fits(raws[..j + 1], 0, Reserved(reserved)) {
      FirstErrorFrom(raws, 0, Reserved(reserved), [], j);
    }
    hide NormalizeItem, Fits, Reserved;
  }

  /** The reserved ids are the given ones without white space around them, but for blank ones. */
  lemma ReservedExactly(ids: set<string>, x: string)
    ensures x in Reserved(ids) <==> x != "" && exists s :: s in ids && IsStripOf(x, s)
  {
    if x in Reserved(ids) {
      var s :| s in ids && x == Strip(s);
      StripIsStrip(s);
      hide Strip, IsStripOf;
      assert IsStripOf(x, s);
    } else if exists s :: s in ids && IsStripOf(x, s) {
      var s :| s in ids && IsStripOf(x, s);
      StripIsUnique(x, s);
    }
    hide Strip, IsStripOf;
  }

  /** The normaliser accepts exactly the lists of at most sixteen acceptable items with distinct ids, none of
      them reserved, and returns their normal forms in order. */
  lemma NormalizedExactly(raws: seq<RawItem>, reserved: set<string>)
    ensures var r := Normalize(List(raws), reserved);
      (r.Ok? <==> |raws| <= 16 && Fits(raws, 0, Reserved(reserved))) &&
      (r.Ok? ==> |r.value| == |raws| && forall k :: 0 <= k < |raws| ==> NormalizeItem(raws[k]) == Ok(r.value[k]))
  {
    var r := Normalize(List(raws), reserved);
    NormalizedFits(raws, 0, Reserved(reserved), []);
    if r.Ok? {
      forall k | 0 <= k < |raws| ensures |r.value| == |raws| && NormalizeItem(raws[k]) == Ok(r.value[k]) {
        NormalizedAt(raws, 0, Reserved(reserved), [], k);
      }
      NormalizedAt(raws, 0, Reserved(reserved), [], 0);
    }
    hide NormalizeFrom, Reserved, NormalizeItem, Fits;
  }

  /** What the normaliser returns is acceptable to the agent and avoids the reserved ids. */
  lemma NormalizedIsValid(raws: seq<RawItem>, reserved: set<string>)
    requires Normalize(List(raws), reserved).Ok?
    ensures var items := Normalize(List(raws), reserved).value; ValidItems(items) && Avoids(items, Reserved(reserved))
  {
    NormalizedExactly(raws, reserved);
    hide Normalize, Reserved, NormalizeItem, ValidItem;
  }

  /** A list the agent accepts: at most sixteen valid items with distinct ids. */
  predicate ValidItems(items: seq<Item>) {
    |items| <= 16 && (forall i :: 0 <= i < |items| ==> ValidItem(items[i])) && DistinctIds(items)
  }

  /** Renormalising a valid list gives it back, and fails exactly when it uses a reserved id. */
  lemma NormalizeRoundTrip(items: seq<Item>, reserved: set<string>)
    requires ValidItems(items)
    ensures Normalize(List(ToRaws(items)), reserved) ==
      if Avoids(items, Reserved(reserved)) then Ok(items) else Err(DuplicateId)
  {
    var raws := ToRaws(items);
    RoundTripFrom(items, 0, Reserved(reserved), []);
    NormalizedExactly(raws, reserved);
    FitsExactly(items, Reserved(reserved));
    hide NormalizeFrom, Reserved, ValidItem, Fits;
    var r := Normalize(List(raws), reserved);
    if r.Ok? {
      forall k | 0 <= k < |items| ensures r.value[k] == items[k] { ItemRoundTrip(items[k]); }
      hide NormalizeItem;
      assert r.value == items;
    }
  }

  lemma FitsExactly(items: seq<Item>, seen: set<string>)
    requires ValidItems(items)
    ensures Fits(ToRaws(items), 0, seen) <==> Avoids(items, seen)
  {
    var raws := ToRaws(items);
    forall i | 0 <= i < |raws| ensures NormalizeItem(raws[i]) == Ok(items[i]) { ItemRoundTrip(items[i]); }
    hide NormalizeItem, ToRaw, ToRaws, ValidItem;
  }

  /** Valid items can only be refused for their ids. */
  lemma {:induction false} RoundTripFrom(items: seq<Item>, i: nat, seen: set<string>, kept: seq<Item>)
    requires ValidItems(items) && i <= |items|
    ensures var r := NormalizeFrom(ToRaws(items), i, seen, kept); r.Err? ==> r.error == DuplicateId
    decreases |items| - i
  {
    if i < |items| {
      ItemRoundTrip(items[i]);
      RoundTripFrom(items, i + 1, seen + {items[i].id}, kept + [items[i]]);
    }
  }

  // ---------------------------------------------------------------- the list sent to the agent

  /** `stair_light_activation` */
  function StairLight(address: string): (r: Result<Item>)
    ensures r.Ok? ==> ValidItem(r.value) && r.value.id == STAIR_LIGHT
  {
    var address := Strip(address);
    if IsAddress(address) then Ok(Item(STAIR_LIGHT, "Stair light", "stair_light", "manual", address))
    else Err(InvalidAddress)
  }

  /** `desired_activation_items` */
  function Desired(mode: string, stairLightAddress: string, raw: RawItems): Result<seq<Item>> {
    if mode == "manual" && StairLight(stairLightAddress).Err? then Err(InvalidAddress)
    else
      var items := if mode == "manual" then [StairLight(stairLightAddress).value] else [];
      var more := Normalize(raw, if mode == "manual" then {STAIR_LIGHT} else {});
      if more.Err? then more
      else if |items| + |more.value| > MAX_ITEMS then Err(TooMany)
      else Ok(items + more.value)
  }

  method DesiredActivationItems(mode: string, stairLightAddress: string, raw: RawItems) returns (r: Result<seq<Item>>)
    ensures r == Desired(mode, stairLightAddress, raw)
  {
    var items: seq<Item> := [];
    var reserved: set<string> := {};
    if mode == "manual" {
      var light := StairLight(stairLightAddress);
      if light.Err? { return Err(light.error); }
      items := items + [light.value];
      assert items == [light.value];
      reserved := reserved + {STAIR_LIGHT};
      assert reserved == {STAIR_LIGHT};
    }
    var additional := NormalizeDeviceActivations(raw, reserved);
    if additional.Err? { return additional; }
    if |items| + |additional.value| > MAX_ITEMS { return Err(TooMany); }
    r := Ok(items + additional.value);
  }

  lemma ReservedStairLight()
    ensures Reserved({STAIR_LIGHT}) == {STAIR_LIGHT} && Reserved({}) == {}
  {
    assert Strip(STAIR_LIGHT) == STAIR_LIGHT;
    assert STAIR_LIGHT in Reserved({STAIR_LIGHT});
  }

  lemma StairLightFirst(light: Item, items: seq<Item>)
    requires ValidItem(light) && light.id == STAIR_LIGHT && ValidItems(items) && Avoids(items, {STAIR_LIGHT})
    ensures |items| < MAX_ITEMS ==> ValidItems([light] + items)
  {
    hide ValidItem;
  }

  /** Whatever is built is acceptable to the agent. */
  lemma DesiredIsValid(mode: string, address: string, raw: RawItems)
    ensures var r := Desired(mode, address, raw);
      r.Ok? ==> ValidItems(r.value) && (mode == "manual" ==> |r.value| > 0 && StairLight(address) == Ok(r.value[0]))
  {
    hide NormalizeFrom, Reserved, Avoids, ValidItem, ValidItems, DistinctIds;
    ReservedStairLight();
    var reserved := if mode == "manual" then {STAIR_LIGHT} else {};
    NothingIsValid();
    var more := Normalize(raw, reserved);
    if raw.List? && more.Ok? { NormalizedIsValid(raw.items, reserved); }
    if mode == "manual" && Desired(mode, address, raw).Ok? { StairLightFirst(StairLight(address).value, more.value); }
  }

  lemma NothingIsValid()
    ensures ValidItems([]) && Avoids([], {STAIR_LIGHT})
    ensures forall items: seq<Item> :: [] + items == items
  {
  }

  /** The generated stair light. */
  ghost predicate IsStairLight(x: Item, address: string) {
    x.id == "stair_light" && x.name == "Stair light" && x.kind == "stair_light" && x.addressMode == "manual" &&
    IsStripOf(x.address, address)
  }

  lemma StairLightExactly(address: string)
    ensures StairLight(address).Ok? <==> exists a :: IsStripOf(a, address) && IsAddress(a)
    ensures StairLight(address).Ok? ==> IsStairLight(StairLight(address).value, address)
  {
    StripIsStrip(address);
    if StairLight(address).Ok? { assert IsAddress(Strip(address)); }
    forall a | IsStripOf(a, address) ensures a == Strip(address) { StripIsUnique(a, address); }
    hide Strip, IsStripOf;
  }

  /** From a valid list of further items the builder succeeds exactly when the mode is not manual, or the stair
      light's address is good, no further item takes its id and one place is left for it; it then returns the
      list, preceded by the generated stair light exactly in manual mode. Otherwise the first of these three that
      fails is the error. */
  lemma DesiredExactly(mode: string, address: string, items: seq<Item>)
    requires ValidItems(items)
    ensures var r := Desired(mode, address, List(ToRaws(items)));
      if mode != "manual" then r == Ok(items)
      else if !StairLight(address).Ok? then r == Err(InvalidAddress)
      else if !Avoids(items, {"stair_light"}) then r == Err(DuplicateId)
      else if |items| == 16 then r == Err(TooMany)
      else r.Ok? && r.value != [] && IsStairLight(r.value[0], address) && r.value[1..] == items
  {
    ReservedStairLight();
    NormalizeRoundTrip(items, if mode == "manual" then {STAIR_LIGHT} else {});
    StairLightExactly(address);
    hide Normalize, Reserved, IsStairLight, StairLight;
    if mode != "manual" { assert [] + items == items; }
  }

  // ---------------------------------------------------------------- the stair light's address from its two parts

  const DEFAULT_P := "01"
  const DEFAULT_N := "00"

  function TwoDigits(n: nat): (s: string)
    requires n < 100
    ensures IsPart(s)
  {
    [DigitOf(n / 10), DigitOf(n % 10)]
  }

  predicate IsPart(s: string) { |s| == 2 && AllDigits(s) }

  /** `normalize_stair_light_part`; here `Blank` stands for None or the empty text. */
  function NormalizePart(value: Field, otherwise: string): (r: Option<string>)
    ensures r.Some? ==> IsPart(r.value)
  {
    var raw := Strip(TextOr(value, otherwise));
    if raw != "" && AllDigits(raw) && |raw| <= 2 then
      SmallNumber(raw);
      Some(TwoDigits(Number(raw)))
    else None
  }

  lemma SmallNumber(s: string)
    requires AllDigits(s) && |s| <= 2
    ensures Number(s) < 100 && (|s| == 2 ==> Number(s) == 10 * Value(s[0]) + Value(s[1]))
    ensures |s| == 1 ==> Number(s) == Value(s[0])
  {
    if |s| == 2 {
      assert s[..1][..0] == "";
      assert Number(s[..1]) == Value(s[0]);
    } else if |s| == 1 {
      assert s[..0] == "";
    }
  }

  /** A part is accepted exactly when it is one or two digits without the white space around it, or is left to a
      default that is; the result is the same number in two digits. */
  lemma PartExactly(value: Field, otherwise: string) returns (s: string)
    requires Stripped(otherwise)
    ensures IsTextOf(s, value, otherwise)
    ensures NormalizePart(value, otherwise).Some? <==> 1 <= |s| <= 2 && AllDigits(s)
    ensures NormalizePart(value, otherwise).Some? ==>
      IsPart(NormalizePart(value, otherwise).value) && Number(NormalizePart(value, otherwise).value) == Number(s)
  {
    s := Strip(TextOr(value, otherwise));
    TextIsText(value, otherwise);
    if s != "" && AllDigits(s) && |s| <= 2 {
      SmallNumber(s);
      SmallNumber(TwoDigits(Number(s)));
    }
    hide Strip, IsTextOf;
  }

  /** Normalising a part again changes nothing. */
  lemma PartRoundTrip(s: string, otherwise: string)
    requires IsPart(s)
    ensures NormalizePart(Given(s), otherwise) == Some(s)
  {
    SmallNumber(s);
    var n := Number(s);
    assert n / 10 == Value(s[0]) && n % 10 == Value(s[1]);
    assert TwoDigits(n) == s;
  }

  /** `stair_light_where_from_parts` on parts that are in normal form. */
  function Where(p: string, n: string): string
    requires IsPart(p) && IsPart(n)
  {
    Decimal(Number(p)) + Decimal(Number(n))
  }

  /** The address is the two numbers written one after the other, without leading zeros. */
  lemma WhereIsTheNumbers(p: string, n: string) returns (a: string, b: string)
    requires IsPart(p) && IsPart(n)
    ensures Where(p, n) == a + b && Canonical(a) && Canonical(b) && Number(a) == Number(p) && Number(b) == Number(n)
  {
    a, b := Decimal(Number(p)), Decimal(Number(n));
    NumberOfDecimal(Number(p));
    NumberOfDecimal(Number(n));
  }

  lemma WhereIsAnAddress(p: string, n: string)
    requires IsPart(p) && IsPart(n)
    ensures IsAddress(Where(p, n)) && Strip(Where(p, n)) == Where(p, n) && 2 <= |Where(p, n)| <= 4
  {
    SmallNumber(p);
    SmallNumber(n);
    AcceptedTextsAreStripped(Where(p, n));
  }
}
