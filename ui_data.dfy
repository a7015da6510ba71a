/** Display names for nodes, guessed from what the item identifier reports, with a strict
    fallback order. The identifier's answers are passed in as ordered lists. */
module UiData {
  import opened Wrappers
  import opened Formatting
  import opened Host
  import opened PathMatcher

  /** A node's icon: unknown, the category icon of an identified item, or a slot's icon. */
  datatype Icon = UnknownIcon | ItemIcon(name: string, item: nat) | SlotIcon(slot: EquipSlot)

  /** `ResourceNode.UiData`: a display name (`None` for null) and an icon. */
  datatype UiData = UiData(name: Option<string>, icon: Icon)

  /** One answer of identifying a path: its name and an opaque id of the object it maps to. */
  datatype Identified = Identified(key: string, item: nat)

  /** One item found when identifying by equipment set, variant and slot. */
  datatype EquipItem = EquipItem(name: string, item: nat)

  const CustomizationPrefix: string := "Customization:"

  /** The name shown for an identified key: a "Customization:" prefix is dropped and the rest trimmed. */
  function DisplayName(key: string): (r: string)
    ensures !StartsWith(key, CustomizationPrefix) ==> r == key
    ensures StartsWith(key, CustomizationPrefix) ==> r == Trim(key[|CustomizationPrefix|..])
  {
    if StartsWith(key, CustomizationPrefix) then Trim(key[14..]) else key
  }

  predicate Named(o: Identified) {
    DisplayName(o.key) != "Unknown"
  }

  /** A customization key shows the text after the prefix without the white space around it. */
  lemma DisplayNameStripsPadding(ws1: string, m: string, ws2: string)
    requires forall i | 0 <= i < |ws1| :: IsWhiteSpace(ws1[i])
    requires forall i | 0 <= i < |ws2| :: IsWhiteSpace(ws2[i])
    requires m != [] && !IsWhiteSpace(m[0]) && !IsWhiteSpace(m[|m| - 1])
    ensures DisplayName(CustomizationPrefix + ws1 + m + ws2) == m
  {
    var key := CustomizationPrefix + ws1 + m + ws2;
    assert key[..|CustomizationPrefix|] == CustomizationPrefix;
    assert key[|CustomizationPrefix|..] == ws1 + m + ws2;
    TrimExact(ws1, m, ws2);
  }

  /** "Customization: Unknown", however padded, does not name a node. */
  lemma CustomizationUnknownIsUnnamed(ws1: string, ws2: string, item: nat)
    requires forall i | 0 <= i < |ws1| :: IsWhiteSpace(ws1[i])
    requires forall i | 0 <= i < |ws2| :: IsWhiteSpace(ws2[i])
    ensures !Named(Identified(CustomizationPrefix + ws1 + "Unknown" + ws2, item))
  {
    DisplayNameStripsPadding(ws1, "Unknown", ws2);
  }

  /** `GuessUIDataFromPath`: the first answer whose display name is not "Unknown"; otherwise
      no name and the unknown icon. */
  function GuessUIDataFromPath(results: seq<Identified>): (r: UiData)
    ensures r.name.Some? ==> exists i | 0 <= i < |results| ::
      (Named(results[i]) && r == UiData(Some(DisplayName(results[i].key)), ItemIcon(results[i].key, results[i].item))
       && forall j | 0 <= j < i :: !Named(results[j]))
    ensures r.name.None? <==> forall i | 0 <= i < |results| :: !Named(results[i])
    ensures r.name.None? ==> r.icon == UnknownIcon
    ensures r.name.Some? ==> r.name.value != "Unknown"
  {
    match FindFirst(results, Named)
    case None => UiData(None, UnknownIcon)
    case Some(i) => UiData(Some(DisplayName(results[i].key)), ItemIcon(results[i].key, results[i].item))
  }

  /** Ring slots are told apart by a prefix. */
  function SlotPrefix(slot: EquipSlot): (r: string)
    ensures r != "" <==> slot == RFinger || slot == LFinger
    ensures r != "" ==> |r| == 3 && r[1..] == ": "
  {
    match slot
    case RFinger => "R: "
    case LFinger => "L: "
    case _ => ""
  }

  /** `chara/accessory/...` and `chara/equipment/...`; weapons are left out on purpose. */
  predicate IsEquipmentPath(gamePath: string) {
    var path := Split(gamePath);
    SafeGet(path, 0) == Some("chara") && (SafeGet(path, 1) == Some("accessory") || SafeGet(path, 1) == Some("equipment"))
  }

  /** Among well-formed paths under `chara/`, exactly the accessory and equipment directories
      count as equipment paths. */
  lemma EquipmentPathKinds(path: seq<string>)
    requires forall i | 0 <= i < |path| :: IsSegment(path[i])
    requires |path| >= 2 && path[0] == "chara"
    ensures IsEquipmentPath(Join(path)) <==> path[1] == "accessory" || path[1] == "equipment"
  {
    SplitJoin(path);
    assert Split(Join(path)) == path;
  }

  /** `GuessModelUIData`: for an equipment path, the first item identified for the slot's set
      and variant (prefixed for rings); then the path-based guess; then, for an equipment
      path, the slot's own name (`slotName`, what `Slot.ToName()` gives); otherwise no name. */
  function GuessModelUIData(gamePath: string, slot: EquipSlot, slotName: string,
                            equipment: seq<EquipItem>, fromPath: seq<Identified>): (r: UiData)
    ensures IsEquipmentPath(gamePath) ==> r.name.Some?
    ensures IsEquipmentPath(gamePath) && equipment != [] ==>
      r == UiData(Some(SlotPrefix(slot) + equipment[0].name), ItemIcon(equipment[0].name, equipment[0].item))
    ensures IsEquipmentPath(gamePath) && equipment == [] && GuessUIDataFromPath(fromPath).name.Some? ==>
      r == GuessUIDataFromPath(fromPath)
    ensures IsEquipmentPath(gamePath) && equipment == [] && GuessUIDataFromPath(fromPath).name.None? ==>
      r == UiData(Some(slotName), SlotIcon(slot))
    ensures !IsEquipmentPath(gamePath) ==> r == GuessUIDataFromPath(fromPath)
  {
    var isEquipment := IsEquipmentPath(gamePath);
    if isEquipment && equipment != [] then
      var item := equipment[0];
      UiData(Some(SlotPrefix(slot) + item.name), ItemIcon(item.name, item.item))
    else
      var dataFromPath := GuessUIDataFromPath(fromPath);
      if dataFromPath.name.Some? then dataFromPath
      else if isEquipment then UiData(Some(slotName), SlotIcon(slot))
      else UiData(None, UnknownIcon)
  }

  /** Weapon paths never consult the equipment identification: whatever it answers, the
      result is the path-based guess. */
  lemma WeaponNamesIgnoreEquipmentIdentification(gamePath: string, slot: EquipSlot, slotName: string,
                                                 e1: seq<EquipItem>, e2: seq<EquipItem>, fromPath: seq<Identified>)
    requires |Split(gamePath)| >= 2 && Split(gamePath)[1] == "weapon"
    ensures GuessModelUIData(gamePath, slot, slotName, e1, fromPath) == GuessModelUIData(gamePath, slot, slotName, e2, fromPath)
    ensures GuessModelUIData(gamePath, slot, slotName, e1, fromPath) == GuessUIDataFromPath(fromPath)
  {
    assert SafeGet(Split(gamePath), 1) == Some("weapon");
  }
}
