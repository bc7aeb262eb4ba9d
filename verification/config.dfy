/** The configuration tree and its decoders: hardware identity, user
    preferences with the embedded mouse settings, and the four-level
    keymap -> layer -> module -> key action tree.

    Every entity has a specification function `XAt(d, p)` (the entity decoded
    from buffer `d` at position `p`) and a `DeserializeX` method that reads it
    from a `UhkCursor` field by field, as the program does, proved to return
    what the function describes and to leave the cursor where it says. */
module Config {
  import opened Bytes
  import opened Utf8
  import opened Cursor
  import opened Counted
  import Consts

  datatype HardwareConfig = HardwareConfig(
    signature: Text,
    major: u8,
    minor: u8,
    patch: u8,
    brandId: u8,
    deviceId: u8,
    uniqueId: u32,
    vendorMode: bool,
    isoMode: bool)

  datatype MouseConfig = MouseConfig(
    moveInitialSpeed: u8,
    moveAcceleration: u8,
    moveDeceleratedSpeed: u8,
    moveBaseSpeed: u8,
    moveAcceleratedSpeed: u8,
    scrollInitialSpeed: u8,
    scrollAcceleration: u8,
    scrollDeceleratedSpeed: u8,
    scrollBaseSpeed: u8,
    scrollAcceleratedSpeed: u8)

  datatype UserConfig = UserConfig(
    major: u16,
    minor: u16,
    patch: u16,
    length: u16,
    name: Text,
    doubleTapSwitchLayerTimeout: u16,
    iconsAndLayerTextsBrightness: u8,
    alphanumericSegmentsBrightness: u8,
    keyBacklightBrightness: u8,
    mouseConfig: MouseConfig)

  datatype KeymapConfig = KeymapConfig(abbr: Text, isDefault: bool, name: Text, desc: Text, layers: seq<LayerConfig>)

  datatype LayerConfig = LayerConfig(id: u8, modules: seq<ModuleConfig>)

  datatype ModuleConfig = ModuleConfig(id: u8, keyActions: seq<KeyAction>)

  /** `PlayMacroAction` is a variant of the type, but no tag decodes to it. */
  datatype KeyAction =
    | NoneAction
    | Keystroke(scancode: Option<u16>, modifierMask: Option<u8>, secondaryRole: Option<u8>)
    | SwitchLayer(layer: u8, mode: u8)
    | SwitchKeymap(keymap: u8)
    | MouseAction(mouse: u8)
    | PlayMacroAction

  // ---------------------------------------------------------------------
  // Specification functions

  function HardwareConfigAt(d: seq<u8>, p: nat): Decoded<HardwareConfig> {
    var signature :- StringAt(d, p);
    var major :- U8At(d, signature.next);
    var minor :- U8At(d, major.next);
    var patch :- U8At(d, minor.next);
    var brandId :- U8At(d, patch.next);
    var deviceId :- U8At(d, brandId.next);
    var uniqueId :- U32At(d, deviceId.next);
    var vendorMode :- BoolAt(d, uniqueId.next);
    var isoMode :- BoolAt(d, vendorMode.next);
    Done(HardwareConfig(signature.value, major.value, minor.value, patch.value, brandId.value,
                        deviceId.value, uniqueId.value, vendorMode.value, isoMode.value),
         isoMode.next)
  }

  function MouseConfigAt(d: seq<u8>, p: nat): Decoded<MouseConfig> {
    var moveInitialSpeed :- U8At(d, p);
    var moveAcceleration :- U8At(d, moveInitialSpeed.next);
    var moveDeceleratedSpeed :- U8At(d, moveAcceleration.next);
    var moveBaseSpeed :- U8At(d, moveDeceleratedSpeed.next);
    var moveAcceleratedSpeed :- U8At(d, moveBaseSpeed.next);
    var scrollInitialSpeed :- U8At(d, moveAcceleratedSpeed.next);
    var scrollAcceleration :- U8At(d, scrollInitialSpeed.next);
    var scrollDeceleratedSpeed :- U8At(d, scrollAcceleration.next);
    var scrollBaseSpeed :- U8At(d, scrollDeceleratedSpeed.next);
    var scrollAcceleratedSpeed :- U8At(d, scrollBaseSpeed.next);
    Done(MouseConfig(moveInitialSpeed.value, moveAcceleration.value, moveDeceleratedSpeed.value,
                     moveBaseSpeed.value, moveAcceleratedSpeed.value, scrollInitialSpeed.value,
                     scrollAcceleration.value, scrollDeceleratedSpeed.value, scrollBaseSpeed.value,
                     scrollAcceleratedSpeed.value),
         scrollAcceleratedSpeed.next)
  }

  function UserConfigAt(d: seq<u8>, p: nat): Decoded<UserConfig> {
    var major :- U16At(d, p);
    var minor :- U16At(d, major.next);
    var patch :- U16At(d, minor.next);
    var length :- U16At(d, patch.next);
    var name :- StringAt(d, length.next);
    var timeout :- U16At(d, name.next);
    var icons :- U8At(d, timeout.next);
    var segments :- U8At(d, icons.next);
    var backlight :- U8At(d, segments.next);
    var mouse :- MouseConfigAt(d, backlight.next);
    Done(UserConfig(major.value, minor.value, patch.value, length.value, name.value, timeout.value,
                    icons.value, segments.value, backlight.value, mouse.value),
         mouse.next)
  }

  function KeymapConfigAt(d: seq<u8>, p: nat): Decoded<KeymapConfig> {
    var abbr :- StringAt(d, p);
    var isDefault :- BoolAt(d, abbr.next);
    var name :- StringAt(d, isDefault.next);
    var desc :- StringAt(d, name.next);
    var n :- CompactLengthAt(d, desc.next);
    var layers :- Repeat(LayerConfigAt, d, n.next, n.value);
    Done(KeymapConfig(abbr.value, isDefault.value, name.value, desc.value, layers.value), layers.next)
  }

  function LayerConfigAt(d: seq<u8>, p: nat): Decoded<LayerConfig> {
    var id :- U8At(d, p);
    var n :- CompactLengthAt(d, id.next);
    var modules :- Repeat(ModuleConfigAt, d, n.next, n.value);
    Done(LayerConfig(id.value, modules.value), modules.next)
  }

  function ModuleConfigAt(d: seq<u8>, p: nat): Decoded<ModuleConfig> {
    var id :- U8At(d, p);
    var n :- CompactLengthAt(d, id.next);
    var keyActions :- Repeat(KeyActionAt, d, n.next, n.value);
    Done(ModuleConfig(id.value, keyActions.value), keyActions.next)
  }

  /** Bits 3 and 4 of a keystroke tag, `flags >> 3 & 0b11`. */
  function KeystrokeKind(flags: u8): (k: u8)
    ensures k < 4
  {
    (((flags as bv8) >> 3) & 3) as u8
  }

  predicate IsLongMedia(flags: u8) {
    KeystrokeKind(flags) == Consts.KeystrokeType.LongMedia.ToByte()
  }

  /** The scancode of a keystroke, present when the scancode flag is set:
      two little-endian bytes for long media keys, otherwise one byte. */
  function ScancodeAt(d: seq<u8>, p: nat, flags: u8): Decoded<Option<u16>> {
    if HasBits(flags, Consts.SCANCODE_FLAG) then
      if IsLongMedia(flags) then
        var s :- U16At(d, p);
        Done(Some(s.value), s.next)
      else
        var s :- U8At(d, p);
        Done(Some(s.value as u16), s.next)
    else Done(None, p)
  }

  /** One byte when `present`, nothing otherwise. */
  function OptionalU8At(d: seq<u8>, p: nat, present: bool): Decoded<Option<u8>> {
    if present then
      var b :- U8At(d, p);
      Done(Some(b.value), b.next)
    else Done(None, p)
  }

  /** The fields of a keystroke after its tag, in order scancode, modifier
      mask, secondary role. */
  function KeystrokeAt(d: seq<u8>, p: nat, flags: u8): Decoded<KeyAction> {
    var scancode :- ScancodeAt(d, p, flags);
    var mask :- OptionalU8At(d, scancode.next, HasBits(flags, Consts.MODIFIER_MASK_FLAG));
    var role :- OptionalU8At(d, mask.next, HasBits(flags, Consts.SECONDARY_ROLE_FLAG));
    Done(Keystroke(scancode.value, mask.value, role.value), role.next)
  }

  function KeyActionAt(d: seq<u8>, p: nat): Decoded<KeyAction> {
    var id :- U8At(d, p);
    var actionId := id.value;
    if actionId == Consts.NONE_ACTION then
      Done(NoneAction, id.next)
    else if actionId >= Consts.KEYSTROKE_ACTION && actionId < Consts.LAST_KEYSTROKE_ACTION then
      KeystrokeAt(d, id.next, actionId - Consts.NONE_ACTION)
    else if actionId == Consts.SWITCH_LAYER_ACTION then
      var layer :- U8At(d, id.next);
      var mode :- U8At(d, layer.next);
      Done(SwitchLayer(layer.value, mode.value), mode.next)
    else if actionId == Consts.SWITCH_KEYMAP_ACTION then
      var keymap :- U8At(d, id.next);
      Done(SwitchKeymap(keymap.value), keymap.next)
    else if actionId == Consts.MOUSE_ACTION then
      var mouse :- U8At(d, id.next);
      Done(MouseAction(mouse.value), mouse.next)
    else
      Failed(Unimplemented(actionId), id.next)
  }

  // ---------------------------------------------------------------------
  // Deserializers over the shared cursor

  method DeserializeHardwareConfig(c: UhkCursor) returns (r: Result<HardwareConfig>)
    modifies c
    ensures r == HardwareConfigAt(c.data, old(c.pos)).Result()
    ensures c.pos == HardwareConfigAt(c.data, old(c.pos)).next
  {
    var signature :- c.ReadString();
    var major :- c.ReadU8();
    var minor :- c.ReadU8();
    var patch :- c.ReadU8();
    var brandId :- c.ReadU8();
    var deviceId :- c.ReadU8();
    var uniqueId :- c.ReadU32();
    var vendorMode :- c.ReadBool();
    var isoMode :- c.ReadBool();
    r := Ok(HardwareConfig(signature, major, minor, patch, brandId, deviceId, uniqueId, vendorMode, isoMode));
  }

  method DeserializeMouseConfig(c: UhkCursor) returns (r: Result<MouseConfig>)
    modifies c
    ensures r == MouseConfigAt(c.data, old(c.pos)).Result()
    ensures c.pos == MouseConfigAt(c.data, old(c.pos)).next
  {
    var moveInitialSpeed :- c.ReadU8();
    var moveAcceleration :- c.ReadU8();
    var moveDeceleratedSpeed :- c.ReadU8();
    var moveBaseSpeed :- c.ReadU8();
    var moveAcceleratedSpeed :- c.ReadU8();
    var scrollInitialSpeed :- c.ReadU8();
    var scrollAcceleration :- c.ReadU8();
    var scrollDeceleratedSpeed :- c.ReadU8();
    var scrollBaseSpeed :- c.ReadU8();
    var scrollAcceleratedSpeed :- c.ReadU8();
    r := Ok(MouseConfig(moveInitialSpeed, moveAcceleration, moveDeceleratedSpeed, moveBaseSpeed,
                        moveAcceleratedSpeed, scrollInitialSpeed, scrollAcceleration,
                        scrollDeceleratedSpeed, scrollBaseSpeed, scrollAcceleratedSpeed));
  }

  method DeserializeUserConfig(c: UhkCursor) returns (r: Result<UserConfig>)
    modifies c
    ensures r == UserConfigAt(c.data, old(c.pos)).Result()
    ensures c.pos == UserConfigAt(c.data, old(c.pos)).next
  {
    var major :- c.ReadU16();
    var minor :- c.ReadU16();
    var patch :- c.ReadU16();
    var length :- c.ReadU16();
    var name :- c.ReadString();
    var timeout :- c.ReadU16();
    var icons :- c.ReadU8();
    var segments :- c.ReadU8();
    var backlight :- c.ReadU8();
    var mouse :- DeserializeMouseConfig(c);
    r := Ok(UserConfig(major, minor, patch, length, name, timeout, icons, segments, backlight, mouse));
  }

  method DeserializeKeymapConfig(c: UhkCursor) returns (r: Result<KeymapConfig>)
    modifies c
    ensures r == KeymapConfigAt(c.data, old(c.pos)).Result()
    ensures c.pos == KeymapConfigAt(c.data, old(c.pos)).next
  {
    var abbr :- c.ReadString();
    var isDefault :- c.ReadBool();
    var name :- c.ReadString();
    var desc :- c.ReadString();
    var n :- c.ReadCompactLength();
    var layers :- CollectLayers(c, n);
    r := Ok(KeymapConfig(abbr, isDefault, name, desc, layers));
  }

  /** The keymap's `(0..n).map(..).try_collect()`: `n` layers in order,
      stopping at the first failure. */
  method CollectLayers(c: UhkCursor, n: nat) returns (r: Result<seq<LayerConfig>>)
    modifies c
    ensures r == Repeat(LayerConfigAt, c.data, old(c.pos), n).Result()
    ensures c.pos == Repeat(LayerConfigAt, c.data, old(c.pos), n).next
  {
    ghost var start := c.pos;
    var layers := [];
    var i := 0;
    while i < n
      invariant i <= n
      invariant Repeat(LayerConfigAt, c.data, start, i) == Done(layers, c.pos)
    {
      ghost var item := LayerConfigAt(c.data, c.pos);
      RepeatStep(LayerConfigAt, c.data, start, i, n, layers, c.pos);
      var layer := DeserializeLayerConfig(c);
      if layer.Err? {
        assert item.Failed? && item.error == layer.error;
        return Err(layer.error);
      }
      assert item.Done? && item.value == layer.value;
      layers := layers + [layer.value];
      i := i + 1;
    }
    r := Ok(layers);
  }

  method DeserializeLayerConfig(c: UhkCursor) returns (r: Result<LayerConfig>)
    modifies c
    ensures r == LayerConfigAt(c.data, old(c.pos)).Result()
    ensures c.pos == LayerConfigAt(c.data, old(c.pos)).next
  {
    var id :- c.ReadU8();
    var n :- c.ReadCompactLength();
    ghost var start := c.pos;
    var modules := [];
    var i := 0;
    while i < n
      invariant i <= n
      invariant Repeat(ModuleConfigAt, c.data, start, i) == Done(modules, c.pos)
    {
      ghost var item := ModuleConfigAt(c.data, c.pos);
      RepeatStep(ModuleConfigAt, c.data, start, i, n, modules, c.pos);
      var moduleConfig := DeserializeModuleConfig(c);
      if moduleConfig.Err? {
        assert item.Failed? && item.error == moduleConfig.error;
        return Err(moduleConfig.error);
      }
      assert item.Done? && item.value == moduleConfig.value;
      modules := modules + [moduleConfig.value];
      i := i + 1;
    }
    r := Ok(LayerConfig(id, modules));
  }

  method DeserializeModuleConfig(c: UhkCursor) returns (r: Result<ModuleConfig>)
    modifies c
    ensures r == ModuleConfigAt(c.data, old(c.pos)).Result()
    ensures c.pos == ModuleConfigAt(c.data, old(c.pos)).next
  {
    var id :- c.ReadU8();
    var n :- c.ReadCompactLength();
    ghost var start := c.pos;
    var keyActions := [];
    var i := 0;
    while i < n
      invariant i <= n
      invariant Repeat(KeyActionAt, c.data, start, i) == Done(keyActions, c.pos)
    {
      ghost var item := KeyActionAt(c.data, c.pos);
      RepeatStep(KeyActionAt, c.data, start, i, n, keyActions, c.pos);
      var action := DeserializeKeyAction(c);
      if action.Err? {
        assert item.Failed? && item.error == action.error;
        return Err(action.error);
      }
      assert item.Done? && item.value == action.value;
      keyActions := keyActions + [action.value];
      i := i + 1;
    }
    r := Ok(ModuleConfig(id, keyActions));
  }

  method DeserializeKeyAction(c: UhkCursor) returns (r: Result<KeyAction>)
    modifies c
    ensures r == KeyActionAt(c.data, old(c.pos)).Result()
    ensures c.pos == KeyActionAt(c.data, old(c.pos)).next
  {
    var actionId :- c.ReadU8();
    if actionId == Consts.NONE_ACTION {
      r := Ok(NoneAction);
    } else if actionId >= Consts.KEYSTROKE_ACTION && actionId < Consts.LAST_KEYSTROKE_ACTION {
      var flags := actionId - Consts.NONE_ACTION;
      var scancode := None;
      if HasBits(flags, Consts.SCANCODE_FLAG) {
        if IsLongMedia(flags) {
          var s :- c.ReadU16();
          scancode := Some(s);
        } else {
          var s :- c.ReadU8();
          scancode := Some(s as u16);
        }
      }
      var mask := None;
      if HasBits(flags, Consts.MODIFIER_MASK_FLAG) {
        var m :- c.ReadU8();
        mask := Some(m);
      }
      var role := None;
      if HasBits(flags, Consts.SECONDARY_ROLE_FLAG) {
        var s :- c.ReadU8();
        role := Some(s);
      }
      r := Ok(Keystroke(scancode, mask, role));
    } else if actionId == Consts.SWITCH_LAYER_ACTION {
      var layer :- c.ReadU8();
      var mode :- c.ReadU8();
      r := Ok(SwitchLayer(layer, mode));
    } else if actionId == Consts.SWITCH_KEYMAP_ACTION {
      var keymap :- c.ReadU8();
      r := Ok(SwitchKeymap(keymap));
    } else if actionId == Consts.MOUSE_ACTION {
      var mouse :- c.ReadU8();
      r := Ok(MouseAction(mouse));
    } else {
      r := Err(Unimplemented(actionId));
    }
  }

  // ---------------------------------------------------------------------
  // Key actions: which tags decode, how many bytes each takes, what it holds

  /** The bit tests and the kind extraction on a tag, in arithmetic terms. */
  lemma FlagBits(flags: u8)
    ensures HasBits(flags, Consts.SCANCODE_FLAG) <==> flags % 2 == 1
    ensures HasBits(flags, Consts.MODIFIER_MASK_FLAG) <==> (flags / 2) % 2 == 1
    ensures HasBits(flags, Consts.SECONDARY_ROLE_FLAG) <==> (flags / 4) % 2 == 1
    ensures KeystrokeKind(flags) == (flags / 8) % 4
  {
    BitOf(flags, 1);
    BitOf(flags, 2);
    BitOf(flags, 4);
    KindOf(flags);
  }

  /** A single-bit mask tests the matching binary digit. */
  lemma BitOf(flags: u8, mask: u8)
    requires mask == 1 || mask == 2 || mask == 4 || mask == 8 || mask == 16
    ensures HasBits(flags, mask) <==> (flags / mask) % 2 == 1
  {
    var x := flags as bv8;
    if mask == 1 {
      assert HasBits(flags, mask) <==> x & 1 != 0;
    } else if mask == 2 {
      assert HasBits(flags, mask) <==> x & 2 != 0;
    } else if mask == 4 {
      assert HasBits(flags, mask) <==> x & 4 != 0;
    } else if mask == 8 {
      assert HasBits(flags, mask) <==> x & 8 != 0;
    } else {
      assert HasBits(flags, mask) <==> x & 16 != 0;
    }
  }

  /** The kind is the binary digits 3 and 4. */
  lemma KindOf(flags: u8)
    ensures KeystrokeKind(flags) == (flags / 8) % 4
  {
    KindBits(flags);
    BitOf(flags, 8);
    BitOf(flags, 16);
    TwoDigits(flags / 8);
    assert flags / 16 == (flags / 8) / 2;
  }

  /** The kind in terms of two single-bit tests. */
  lemma KindBits(flags: u8)
    ensures KeystrokeKind(flags) == (if HasBits(flags, 8) then 1 else 0) + (if HasBits(flags, 16) then 2 else 0)
  {
    var x := flags as bv8;
    if x & 8 == 0 && x & 16 == 0 {
      assert (x >> 3) & 3 == 0;
    } else if x & 8 != 0 && x & 16 == 0 {
      assert (x >> 3) & 3 == 1;
    } else if x & 8 == 0 {
      assert (x >> 3) & 3 == 2;
    } else {
      assert (x >> 3) & 3 == 3;
    }
  }

  /** The two low binary digits of `q`. */
  lemma TwoDigits(q: nat)
    ensures q % 4 == q % 2 + 2 * ((q / 2) % 2)
  {
    var h := q / 2;
    assert q == 2 * h + q % 2;
    assert h == 2 * (h / 2) + h % 2;
    assert q == 4 * (h / 2) + (2 * (h % 2) + q % 2);
  }

  /** The tags the decoder accepts: none, the keystroke range 1..30, switch
      layer, switch keymap and mouse. */
  predicate DecodableKeyActionId(id: u8) {
    id == 0 || 1 <= id <= 30 || 32 <= id <= 34
  }

  /** The bytes a keystroke's fields take after its tag: the scancode (two
      bytes for the long media kind 2, else one) if bit 0 is set, one byte
      for bit 1 and one byte for bit 2. */
  function KeystrokeFieldsWidth(flags: u8): nat {
    (if flags % 2 == 1 then (if (flags / 8) % 4 == 2 then 2 else 1) else 0)
    + (if (flags / 2) % 2 == 1 then 1 else 0)
    + (if (flags / 4) % 2 == 1 then 1 else 0)
  }

  /** The bytes a key action with a decodable tag takes, tag included. */
  function KeyActionWidth(id: u8): nat
    requires DecodableKeyActionId(id)
  {
    if id == 0 then 1
    else if id <= 30 then 1 + KeystrokeFieldsWidth(id)
    else if id == 32 then 3
    else 2
  }

  /** A key action decodes exactly when its tag is decodable and all the
      bytes that tag calls for are present; it then takes exactly that many
      bytes. Any other tag stops the decode right after the tag. */
  lemma KeyActionConsumes(d: seq<u8>, p: nat)
    ensures KeyActionAt(d, p).Done? <==>
              p < |d| && DecodableKeyActionId(d[p]) && p + KeyActionWidth(d[p]) <= |d|
    ensures KeyActionAt(d, p).Done? ==> KeyActionAt(d, p).next == p + KeyActionWidth(d[p])
    ensures p < |d| && !DecodableKeyActionId(d[p]) ==>
              KeyActionAt(d, p) == Failed(Unimplemented(d[p]), p + 1)
    ensures KeyActionAt(d, p).Failed? && (p >= |d| || DecodableKeyActionId(d[p])) ==>
              KeyActionAt(d, p).error == UnexpectedEof
  {
    if p < |d| && 1 <= d[p] <= 30 {
      FlagBits(d[p]);
    }
  }

  /** A keystroke tag is its own flag byte: each field is present exactly
      when its bit is set, and the fields are read in the order scancode,
      modifier mask, secondary role. */
  lemma KeystrokeFields(d: seq<u8>, p: nat)
    requires p < |d| && 1 <= d[p] <= 30 && KeyActionAt(d, p).Done?
    ensures var a := KeyActionAt(d, p).value;
      var flags := d[p];
      var scanWidth := if flags % 2 == 0 then 0 else if (flags / 8) % 4 == 2 then 2 else 1;
      var maskWidth := if (flags / 2) % 2 == 1 then 1 else 0;
      && a.Keystroke?
      && (a.scancode.Some? <==> flags % 2 == 1)
      && (a.modifierMask.Some? <==> (flags / 2) % 2 == 1)
      && (a.secondaryRole.Some? <==> (flags / 4) % 2 == 1)
      && (scanWidth == 2 ==> p + 2 < |d| && a.scancode.value == Le16(d[p + 1], d[p + 2]))
      && (scanWidth == 1 ==> p + 1 < |d| && a.scancode.value == d[p + 1])
      && (a.modifierMask.Some? ==> p + 1 + scanWidth < |d| && a.modifierMask.value == d[p + 1 + scanWidth])
      && (a.secondaryRole.Some? ==>
            p + 1 + scanWidth + maskWidth < |d| && a.secondaryRole.value == d[p + 1 + scanWidth + maskWidth])
  {
    FlagBits(d[p]);
  }

  /** No tag decodes to `PlayMacroAction`: tag 35 is rejected. */
  lemma NeverPlayMacro(d: seq<u8>, p: nat)
    ensures KeyActionAt(d, p).Done? ==> !KeyActionAt(d, p).value.PlayMacroAction?
    ensures p < |d| && d[p] == Consts.PLAY_MACRO_ACTION ==>
              KeyActionAt(d, p) == Failed(Unimplemented(Consts.PLAY_MACRO_ACTION), p + 1)
  {
  }

  /** The tag of a keystroke of the given kind, with one flag bit per field
      that is present. */
  function KeystrokeTag(kind: Consts.KeystrokeType, a: KeyAction): int
    requires a.Keystroke?
  {
    kind.ToByte() * 8
    + (if a.scancode.Some? then 1 else 0)
    + (if a.modifierMask.Some? then 2 else 0)
    + (if a.secondaryRole.Some? then 4 else 0)
  }

  /** A key action that has an encoding with the given keystroke kind: the
      keystroke tag must fall in 1..30, and only the long media kind has
      room for a scancode above 255. */
  predicate Encodable(a: KeyAction, kind: Consts.KeystrokeType) {
    match a
    case Keystroke(scancode, _, _) =>
      1 <= KeystrokeTag(kind, a) <= 30
      && (scancode.Some? && kind != Consts.LongMedia ==> scancode.value < 0x100)
    case PlayMacroAction => false
    case _ => true
  }

  function OptionalByte(b: Option<u8>): seq<u8> {
    if b.Some? then [b.value] else []
  }

  /** A scancode takes two little-endian bytes for long media keys, one byte
      otherwise. */
  function ScancodeBytes(scancode: Option<u16>, kind: Consts.KeystrokeType): seq<u8>
    requires scancode.Some? && kind != Consts.LongMedia ==> scancode.value < 0x100
  {
    if scancode.None? then []
    else if kind == Consts.LongMedia then Le16Bytes(scancode.value)
    else [scancode.value]
  }

  /** The bytes of a key action (the inverse of `KeyActionAt`). */
  function KeyActionBytes(a: KeyAction, kind: Consts.KeystrokeType): (e: seq<u8>)
    requires Encodable(a, kind)
    ensures |e| >= 1
  {
    match a
    case NoneAction => [Consts.NONE_ACTION]
    case Keystroke(scancode, mask, role) =>
      [KeystrokeTag(kind, a)] + ScancodeBytes(scancode, kind) + OptionalByte(mask) + OptionalByte(role)
    case SwitchLayer(layer, mode) => [Consts.SWITCH_LAYER_ACTION, layer, mode]
    case SwitchKeymap(keymap) => [Consts.SWITCH_KEYMAP_ACTION, keymap]
    case MouseAction(mouse) => [Consts.MOUSE_ACTION, mouse]
  }

  /** Decoding the bytes of an encodable key action gives it back, and
      consumes exactly those bytes, whatever surrounds them. */
  lemma KeyActionRoundTrip(d: seq<u8>, p: nat, a: KeyAction, kind: Consts.KeystrokeType)
    requires Encodable(a, kind) && Placed(d, p, KeyActionBytes(a, kind))
    ensures KeyActionAt(d, p) == Done(a, p + |KeyActionBytes(a, kind)|)
  {
    var e := KeyActionBytes(a, kind);
    PlacedSplit(d, p, e[..1], e[1..]);
    assert d[p] == e[0] by { assert d[p..p + 1][0] == e[..1][0]; }
    if a.Keystroke? {
      KeystrokeRoundTrip(d, p, a, kind);
    } else {
      FixedActionRoundTrip(d, p, a, kind);
    }
  }

  /** A keystroke decodes back from its tag and its field bytes. */
  lemma KeystrokeRoundTrip(d: seq<u8>, p: nat, a: KeyAction, kind: Consts.KeystrokeType)
    requires a.Keystroke? && Encodable(a, kind)
    requires var e := KeyActionBytes(a, kind); Placed(d, p + 1, e[1..]) && p < |d| && d[p] == e[0]
    ensures KeyActionAt(d, p) == Done(a, p + |KeyActionBytes(a, kind)|)
  {
    var e := KeyActionBytes(a, kind);
    var f := ScancodeBytes(a.scancode, kind) + OptionalByte(a.modifierMask) + OptionalByte(a.secondaryRole);
    assert e == [KeystrokeTag(kind, a)] + f;
    assert e[1..] == f;
    KeystrokeTagged(d, p);
    KeystrokeFieldsRoundTrip(d, p + 1, a, kind);
  }

  /** A tag in 1..30 hands the rest of the action to the keystroke decoder. */
  lemma KeystrokeTagged(d: seq<u8>, p: nat)
    requires p < |d| && 1 <= d[p] <= 30
    ensures KeyActionAt(d, p) == KeystrokeAt(d, p + 1, d[p])
  {
  }

  /** The actions of one, two or three fixed bytes decode back from them. */
  lemma FixedActionRoundTrip(d: seq<u8>, p: nat, a: KeyAction, kind: Consts.KeystrokeType)
    requires !a.Keystroke? && Encodable(a, kind)
    requires var e := KeyActionBytes(a, kind); Placed(d, p + 1, e[1..]) && p < |d| && d[p] == e[0]
    ensures KeyActionAt(d, p) == Done(a, p + |KeyActionBytes(a, kind)|)
  {
    var e := KeyActionBytes(a, kind);
    match a
    case NoneAction =>
    case SwitchLayer(_, _) =>
      assert d[p + 1] == e[1] && d[p + 2] == e[2] by {
        assert d[p + 1..p + 3][0] == e[1..][0] && d[p + 1..p + 3][1] == e[1..][1];
      }
    case SwitchKeymap(_) =>
      assert d[p + 1] == e[1] by { assert d[p + 1..p + 2][0] == e[1..][0]; }
    case MouseAction(_) =>
      assert d[p + 1] == e[1] by { assert d[p + 1..p + 2][0] == e[1..][0]; }
  }

  /** The fields of an encodable keystroke decode back under its own tag. */
  lemma KeystrokeFieldsRoundTrip(d: seq<u8>, q: nat, a: KeyAction, kind: Consts.KeystrokeType)
    requires a.Keystroke? && Encodable(a, kind)
    requires Placed(d, q, ScancodeBytes(a.scancode, kind) + OptionalByte(a.modifierMask) + OptionalByte(a.secondaryRole))
    ensures var f := ScancodeBytes(a.scancode, kind) + OptionalByte(a.modifierMask) + OptionalByte(a.secondaryRole);
      KeystrokeAt(d, q, KeystrokeTag(kind, a)) == Done(a, q + |f|)
  {
    KeystrokeTagFlags(kind, a);
    KeystrokeFieldsUnderFlags(d, q, KeystrokeTag(kind, a), a, kind);
  }

  /** The fields of a keystroke decode back under any tag whose flags say
      which of them are present and whose kind is the encoding's kind. */
  lemma KeystrokeFieldsUnderFlags(d: seq<u8>, q: nat, t: u8, a: KeyAction, kind: Consts.KeystrokeType)
    requires a.Keystroke?
    requires HasBits(t, Consts.SCANCODE_FLAG) <==> a.scancode.Some?
    requires HasBits(t, Consts.MODIFIER_MASK_FLAG) <==> a.modifierMask.Some?
    requires HasBits(t, Consts.SECONDARY_ROLE_FLAG) <==> a.secondaryRole.Some?
    requires Consts.KeystrokeTypeFrom(KeystrokeKind(t)) == kind
    requires a.scancode.Some? && kind != Consts.LongMedia ==> a.scancode.value < 0x100
    requires Placed(d, q, ScancodeBytes(a.scancode, kind) + OptionalByte(a.modifierMask) + OptionalByte(a.secondaryRole))
    ensures var f := ScancodeBytes(a.scancode, kind) + OptionalByte(a.modifierMask) + OptionalByte(a.secondaryRole);
      KeystrokeAt(d, q, t) == Done(a, q + |f|)
  {
    var sc := ScancodeBytes(a.scancode, kind);
    var m := OptionalByte(a.modifierMask);
    var r := OptionalByte(a.secondaryRole);
    FieldsDecode(d, q, t, a, kind, sc, m, r);
    KeystrokeOfFields(d, q, t, a, q + |sc|, q + |sc| + |m|, q + |sc| + |m| + |r|);
    assert |sc + m + r| == |sc| + |m| + |r|;
  }

  /** Each of the three placed fields decodes back, one after the other. */
  lemma FieldsDecode(d: seq<u8>, q: nat, t: u8, a: KeyAction, kind: Consts.KeystrokeType,
                     sc: seq<u8>, m: seq<u8>, r: seq<u8>)
    requires a.Keystroke?
    requires HasBits(t, Consts.SCANCODE_FLAG) <==> a.scancode.Some?
    requires HasBits(t, Consts.MODIFIER_MASK_FLAG) <==> a.modifierMask.Some?
    requires HasBits(t, Consts.SECONDARY_ROLE_FLAG) <==> a.secondaryRole.Some?
    requires Consts.KeystrokeTypeFrom(KeystrokeKind(t)) == kind
    requires a.scancode.Some? && kind != Consts.LongMedia ==> a.scancode.value < 0x100
    requires sc == ScancodeBytes(a.scancode, kind) && m == OptionalByte(a.modifierMask)
    requires r == OptionalByte(a.secondaryRole)
    requires Placed(d, q, sc + m + r)
    ensures ScancodeAt(d, q, t) == Done(a.scancode, q + |sc|)
    ensures OptionalU8At(d, q + |sc|, HasBits(t, Consts.MODIFIER_MASK_FLAG)) == Done(a.modifierMask, q + |sc| + |m|)
    ensures OptionalU8At(d, q + |sc| + |m|, HasBits(t, Consts.SECONDARY_ROLE_FLAG))
            == Done(a.secondaryRole, q + |sc| + |m| + |r|)
  {
    ScancodePlaced(d, q, t, a.scancode, kind, m, r);
    OptionalFieldsPlaced(d, q + |sc|, t, a, m, r);
  }

  /** The modifier mask and the secondary role decode back from the bytes
      placed after the scancode. */
  lemma OptionalFieldsPlaced(d: seq<u8>, n: nat, t: u8, a: KeyAction, m: seq<u8>, r: seq<u8>)
    requires a.Keystroke? && m == OptionalByte(a.modifierMask) && r == OptionalByte(a.secondaryRole)
    requires HasBits(t, Consts.MODIFIER_MASK_FLAG) <==> a.modifierMask.Some?
    requires HasBits(t, Consts.SECONDARY_ROLE_FLAG) <==> a.secondaryRole.Some?
    requires Placed(d, n, m) && Placed(d, n + |m|, r)
    ensures OptionalU8At(d, n, HasBits(t, Consts.MODIFIER_MASK_FLAG)) == Done(a.modifierMask, n + |m|)
    ensures OptionalU8At(d, n + |m|, HasBits(t, Consts.SECONDARY_ROLE_FLAG)) == Done(a.secondaryRole, n + |m| + |r|)
  {
    OptionalRoundTrip(d, n, a.modifierMask, HasBits(t, Consts.MODIFIER_MASK_FLAG));
    OptionalRoundTrip(d, n + |m|, a.secondaryRole, HasBits(t, Consts.SECONDARY_ROLE_FLAG));
  }

  /** The scancode leads the field bytes: it decodes back, and the two
      optional bytes are placed right after it. */
  lemma ScancodePlaced(d: seq<u8>, q: nat, t: u8, scancode: Option<u16>, kind: Consts.KeystrokeType,
                       m: seq<u8>, r: seq<u8>)
    requires HasBits(t, Consts.SCANCODE_FLAG) <==> scancode.Some?
    requires Consts.KeystrokeTypeFrom(KeystrokeKind(t)) == kind
    requires scancode.Some? && kind != Consts.LongMedia ==> scancode.value < 0x100
    requires Placed(d, q, ScancodeBytes(scancode, kind) + m + r)
    ensures ScancodeAt(d, q, t) == Done(scancode, q + |ScancodeBytes(scancode, kind)|)
    ensures Placed(d, q + |ScancodeBytes(scancode, kind)|, m)
    ensures Placed(d, q + |ScancodeBytes(scancode, kind)| + |m|, r)
  {
    var sc := ScancodeBytes(scancode, kind);
    PlacedSplit(d, q, sc + m, r);
    PlacedSplit(d, q, sc, m);
    ScancodeRoundTrip(d, q, scancode, kind, t);
  }

  /** Three decoded fields make a decoded keystroke. */
  lemma KeystrokeOfFields(d: seq<u8>, q: nat, t: u8, a: KeyAction, n1: nat, n2: nat, n3: nat)
    requires a.Keystroke?
    requires ScancodeAt(d, q, t) == Done(a.scancode, n1)
    requires OptionalU8At(d, n1, HasBits(t, Consts.MODIFIER_MASK_FLAG)) == Done(a.modifierMask, n2)
    requires OptionalU8At(d, n2, HasBits(t, Consts.SECONDARY_ROLE_FLAG)) == Done(a.secondaryRole, n3)
    ensures KeystrokeAt(d, q, t) == Done(a, n3)
  {
  }

  /** The tag of an encodable keystroke sets exactly the bits of its present
      fields and names its kind. */
  lemma KeystrokeTagFlags(kind: Consts.KeystrokeType, a: KeyAction)
    requires a.Keystroke? && Encodable(a, kind)
    ensures var t := KeystrokeTag(kind, a);
      && (HasBits(t, Consts.SCANCODE_FLAG) <==> a.scancode.Some?)
      && (HasBits(t, Consts.MODIFIER_MASK_FLAG) <==> a.modifierMask.Some?)
      && (HasBits(t, Consts.SECONDARY_ROLE_FLAG) <==> a.secondaryRole.Some?)
      && Consts.KeystrokeTypeFrom(KeystrokeKind(t)) == kind
  {
    var t := KeystrokeTag(kind, a);
    FlagBits(t);
    TagOfDigits(kind.ToByte(), if a.scancode.Some? then 1 else 0, if a.modifierMask.Some? then 1 else 0,
                if a.secondaryRole.Some? then 1 else 0);
  }

  lemma ScancodeRoundTrip(d: seq<u8>, q: nat, scancode: Option<u16>, kind: Consts.KeystrokeType, flags: u8)
    requires HasBits(flags, Consts.SCANCODE_FLAG) <==> scancode.Some?
    requires Consts.KeystrokeTypeFrom(KeystrokeKind(flags)) == kind
    requires scancode.Some? && kind != Consts.LongMedia ==> scancode.value < 0x100
    requires Placed(d, q, ScancodeBytes(scancode, kind))
    ensures ScancodeAt(d, q, flags) == Done(scancode, q + |ScancodeBytes(scancode, kind)|)
  {
    assert kind == Consts.LongMedia <==> IsLongMedia(flags);
    var e := ScancodeBytes(scancode, kind);
    if scancode.Some? {
      assert d[q] == d[q..q + |e|][0] == e[0];
      if kind == Consts.LongMedia {
        assert d[q + 1] == d[q..q + |e|][1] == e[1];
      }
    }
  }

  lemma OptionalRoundTrip(d: seq<u8>, q: nat, b: Option<u8>, present: bool)
    requires present <==> b.Some?
    requires Placed(d, q, OptionalByte(b))
    ensures OptionalU8At(d, q, present) == Done(b, q + |OptionalByte(b)|)
  {
    if present {
      assert d[q] == d[q..q + 1][0];
    }
  }

  /** Conversely, every decoded key action is encodable with the kind its
      tag names, and encoding it gives back exactly the bytes consumed. */
  lemma KeyActionBytesOfDecoded(d: seq<u8>, p: nat)
    requires KeyActionAt(d, p).Done?
    ensures p < |d|
    ensures var kind := Consts.KeystrokeTypeFrom(KeystrokeKind(d[p]));
      var r := KeyActionAt(d, p);
      && Encodable(r.value, kind)
      && KeyActionBytes(r.value, kind) == d[p..r.next]
  {
    KeyActionConsumes(d, p);
    if 1 <= d[p] <= 30 {
      KeystrokeBytesOfDecoded(d, p);
    } else {
      var r := KeyActionAt(d, p);
      var kind := Consts.KeystrokeTypeFrom(KeystrokeKind(d[p]));
      assert KeyActionBytes(r.value, kind) == d[p..r.next];
    }
  }

  lemma KeystrokeBytesOfDecoded(d: seq<u8>, p: nat)
    requires p < |d| && 1 <= d[p] <= 30 && KeyActionAt(d, p).Done?
    ensures var kind := Consts.KeystrokeTypeFrom(KeystrokeKind(d[p]));
      var r := KeyActionAt(d, p);
      && Encodable(r.value, kind)
      && KeyActionBytes(r.value, kind) == d[p..r.next]
  {
    var flags := d[p];
    var r := KeyActionAt(d, p);
    KeystrokeTagged(d, p);
    KeystrokeBytesAt(d, p + 1, flags);
    assert d[p..r.next] == [flags] + d[p + 1..r.next];
  }

  /** The bytes a keystroke decodes from, behind its tag, are the encoding
      of the decoded keystroke under the kind the tag names. */
  lemma KeystrokeBytesAt(d: seq<u8>, q: nat, flags: u8)
    requires q <= |d| && 1 <= flags <= 30 && KeystrokeAt(d, q, flags).Done?
    ensures var kind := Consts.KeystrokeTypeFrom(KeystrokeKind(flags));
      var r := KeystrokeAt(d, q, flags);
      && q <= r.next <= |d|
      && Encodable(r.value, kind)
      && KeyActionBytes(r.value, kind) == [flags] + d[q..r.next]
  {
    KeystrokeTagOfDecoded(d, q, flags);
    KeystrokeFieldBytes(d, q, flags);
  }

  /** A keystroke tag in 1..30 is rebuilt from the kind it names and the
      fields it makes present. */
  lemma KeystrokeTagOfDecoded(d: seq<u8>, q: nat, flags: u8)
    requires 1 <= flags <= 30 && KeystrokeAt(d, q, flags).Done?
    ensures var a := KeystrokeAt(d, q, flags).value;
      a.Keystroke? && KeystrokeTag(Consts.KeystrokeTypeFrom(KeystrokeKind(flags)), a) == flags
  {
    var a := KeystrokeAt(d, q, flags).value;
    KeystrokePresence(d, q, flags);
    FlagBits(flags);
    TagDigits(flags);
  }

  /** Which fields a decoded keystroke holds is what its flag bits say. */
  lemma KeystrokePresence(d: seq<u8>, q: nat, flags: u8)
    requires KeystrokeAt(d, q, flags).Done?
    ensures var a := KeystrokeAt(d, q, flags).value;
      && a.Keystroke?
      && (a.scancode.Some? <==> HasBits(flags, Consts.SCANCODE_FLAG))
      && (a.modifierMask.Some? <==> HasBits(flags, Consts.MODIFIER_MASK_FLAG))
      && (a.secondaryRole.Some? <==> HasBits(flags, Consts.SECONDARY_ROLE_FLAG))
  {
  }

  /** A number below 32 is its kind digits and its three flag digits. */
  lemma TagDigits(t: nat)
    requires t < 32
    ensures t == (t / 8) % 4 * 8 + (t / 4) % 2 * 4 + (t / 2) % 2 * 2 + t % 2
  {
    var h := t / 2;
    var f := h / 2;
    assert t == 2 * h + t % 2 && h == 2 * f + h % 2;
    assert f == 2 * (f / 2) + f % 2 && f / 2 == t / 8;
  }

  /** The digits of a tag built from a kind and three flag digits. */
  lemma TagOfDigits(k: nat, b0: nat, b1: nat, b2: nat)
    requires k < 4 && b0 < 2 && b1 < 2 && b2 < 2
    ensures var t := k * 8 + b0 + 2 * b1 + 4 * b2;
      t % 2 == b0 && (t / 2) % 2 == b1 && (t / 4) % 2 == b2 && (t / 8) % 4 == k
  {
  }

  /** The fields of a decoded keystroke, encoded again, are the bytes they
      were decoded from. */
  lemma KeystrokeFieldBytes(d: seq<u8>, q: nat, flags: u8)
    requires q <= |d| && KeystrokeAt(d, q, flags).Done?
    ensures var r := KeystrokeAt(d, q, flags);
      var kind := Consts.KeystrokeTypeFrom(KeystrokeKind(flags));
      && q <= r.next <= |d|
      && r.value.Keystroke?
      && (r.value.scancode.Some? && kind != Consts.LongMedia ==> r.value.scancode.value < 0x100)
      && ScancodeBytes(r.value.scancode, kind) + OptionalByte(r.value.modifierMask)
         + OptionalByte(r.value.secondaryRole) == d[q..r.next]
  {
    var scancode := ScancodeAt(d, q, flags);
    var mask := OptionalU8At(d, scancode.next, HasBits(flags, Consts.MODIFIER_MASK_FLAG));
    var role := OptionalU8At(d, mask.next, HasBits(flags, Consts.SECONDARY_ROLE_FLAG));
    ScancodeBytesOfDecoded(d, q, flags);
    OptionalBytesOfDecoded(d, scancode.next, HasBits(flags, Consts.MODIFIER_MASK_FLAG));
    OptionalBytesOfDecoded(d, mask.next, HasBits(flags, Consts.SECONDARY_ROLE_FLAG));
    assert d[q..role.next] == d[q..scancode.next] + d[scancode.next..mask.next] + d[mask.next..role.next];
  }

  lemma ScancodeBytesOfDecoded(d: seq<u8>, q: nat, flags: u8)
    requires q <= |d| && ScancodeAt(d, q, flags).Done?
    ensures var s := ScancodeAt(d, q, flags);
      var kind := Consts.KeystrokeTypeFrom(KeystrokeKind(flags));
      && q <= s.next <= |d|
      && (s.value.Some? && kind != Consts.LongMedia ==> s.value.value < 0x100)
      && ScancodeBytes(s.value, kind) == d[q..s.next]
  {
    var kind := Consts.KeystrokeTypeFrom(KeystrokeKind(flags));
    assert kind == Consts.LongMedia <==> IsLongMedia(flags);
    if HasBits(flags, Consts.SCANCODE_FLAG) {
      if IsLongMedia(flags) {
        Le16Injective(d[q], d[q + 1]);
        assert d[q..q + 2] == [d[q], d[q + 1]];
      } else {
        assert d[q..q + 1] == [d[q]];
      }
    }
  }

  lemma OptionalBytesOfDecoded(d: seq<u8>, q: nat, present: bool)
    requires q <= |d| && OptionalU8At(d, q, present).Done?
    ensures var b := OptionalU8At(d, q, present);
      && q <= b.next <= |d|
      && OptionalByte(b.value) == d[q..b.next]
  {
    if present {
      assert d[q..q + 1] == [d[q]];
    }
  }

  /** Examples: a basic keystroke, a long media keystroke, a mouse action
      and an unknown tag. */
  lemma KeyActionExamples(x: u8)
    ensures KeyActionAt([1, 4], 0) == Done(Keystroke(Some(4), None, None), 2)
    ensures KeyActionAt([17, 0x34, 0x12], 0) == Done(Keystroke(Some(0x1234), None, None), 3)
    ensures KeyActionAt([34, x], 0) == Done(MouseAction(x), 2)
    ensures KeyActionAt([200], 0) == Failed(Unimplemented(200), 1)
  {
    assert KeystrokeKind(17) == 2;
  }

  // ---------------------------------------------------------------------
  // Fixed layouts: what the flat records take and hold

  /** A mouse configuration is ten bytes, one per field in declaration
      order; with fewer bytes left the decode runs out at the end. */
  lemma MouseConfigConsumes(d: seq<u8>, p: nat)
    ensures MouseConfigAt(d, p).Done? <==> p + 10 <= |d|
    ensures MouseConfigAt(d, p).Done? ==>
              MouseConfigAt(d, p) == Done(MouseConfig(d[p], d[p + 1], d[p + 2], d[p + 3], d[p + 4],
                                                      d[p + 5], d[p + 6], d[p + 7], d[p + 8], d[p + 9]),
                                          p + 10)
    ensures MouseConfigAt(d, p).Failed? ==>
              MouseConfigAt(d, p) == Failed(UnexpectedEof, if p <= |d| then |d| else p)
  {
  }

  /** A hardware configuration is its signature string followed by eleven
      bytes: five single-byte fields, the little-endian unique id and the
      two flags. */
  lemma HardwareConfigConsumes(d: seq<u8>, p: nat)
    ensures var s := StringAt(d, p);
      && (s.Failed? ==> HardwareConfigAt(d, p) == s.PropagateFailure())
      && (s.Done? ==> (HardwareConfigAt(d, p).Done? <==> s.next + 11 <= |d|))
      && (s.Done? && s.next + 11 <= |d| ==>
            var q := s.next;
            HardwareConfigAt(d, p) == Done(HardwareConfig(s.value, d[q], d[q + 1], d[q + 2], d[q + 3], d[q + 4],
                                                          Le32(d[q + 5], d[q + 6], d[q + 7], d[q + 8]),
                                                          d[q + 9] != 0, d[q + 10] != 0),
                                           q + 11))
      && (HardwareConfigAt(d, p).Failed? && s.Done? ==> HardwareConfigAt(d, p).error == UnexpectedEof)
  {
  }

  /** A user configuration is four u16 version and length fields, the name
      string, then fifteen bytes: the u16 timeout, three brightness bytes and
      the ten-byte mouse configuration. The length field is decoded but
      nothing depends on it. */
  lemma UserConfigConsumes(d: seq<u8>, p: nat)
    ensures p + 8 > |d| ==> UserConfigAt(d, p).Failed? && UserConfigAt(d, p).error == UnexpectedEof
    ensures p + 8 <= |d| ==>
      var s := StringAt(d, p + 8);
      && (s.Failed? ==> UserConfigAt(d, p) == s.PropagateFailure())
      && (s.Done? ==> (UserConfigAt(d, p).Done? <==> s.next + 15 <= |d|))
      && (s.Done? && s.next + 15 <= |d| ==>
            var q := s.next;
            && UserConfigAt(d, p).next == q + 15
            && UserConfigAt(d, p).value
               == UserConfig(Le16(d[p], d[p + 1]), Le16(d[p + 2], d[p + 3]), Le16(d[p + 4], d[p + 5]),
                             Le16(d[p + 6], d[p + 7]), s.value, Le16(d[q], d[q + 1]),
                             d[q + 2], d[q + 3], d[q + 4], MouseConfigAt(d, q + 5).value))
      && (UserConfigAt(d, p).Failed? && s.Done? ==> UserConfigAt(d, p).error == UnexpectedEof)
  {
    if p + 8 <= |d| {
      var s := StringAt(d, p + 8);
      if s.Failed? {
        UserConfigNameFails(d, p);
      } else if s.next + 15 <= |d| {
        UserConfigDecodes(d, p);
      } else {
        UserConfigTruncated(d, p);
      }
    }
  }

  /** The four u16 fields before the name take eight bytes. */
  lemma UserConfigHeader(d: seq<u8>, p: nat)
    requires p + 8 <= |d|
    ensures U16At(d, p) == Done(Le16(d[p], d[p + 1]), p + 2)
    ensures U16At(d, p + 2) == Done(Le16(d[p + 2], d[p + 3]), p + 4)
    ensures U16At(d, p + 4) == Done(Le16(d[p + 4], d[p + 5]), p + 6)
    ensures U16At(d, p + 6) == Done(Le16(d[p + 6], d[p + 7]), p + 8)
  {
  }

  lemma UserConfigNameFails(d: seq<u8>, p: nat)
    requires p + 8 <= |d| && StringAt(d, p + 8).Failed?
    ensures UserConfigAt(d, p) == StringAt(d, p + 8).PropagateFailure()
  {
    UserConfigHeader(d, p);
  }

  lemma UserConfigDecodes(d: seq<u8>, p: nat)
    requires p + 8 <= |d| && StringAt(d, p + 8).Done? && StringAt(d, p + 8).next + 15 <= |d|
    ensures var s := StringAt(d, p + 8);
      var q := s.next;
      && UserConfigAt(d, p).Done?
      && UserConfigAt(d, p).next == q + 15
      && UserConfigAt(d, p).value
         == UserConfig(Le16(d[p], d[p + 1]), Le16(d[p + 2], d[p + 3]), Le16(d[p + 4], d[p + 5]),
                       Le16(d[p + 6], d[p + 7]), s.value, Le16(d[q], d[q + 1]),
                       d[q + 2], d[q + 3], d[q + 4], MouseConfigAt(d, q + 5).value)
  {
    UserConfigHeader(d, p);
    UserConfigTail(d, StringAt(d, p + 8).next);
  }

  lemma UserConfigTruncated(d: seq<u8>, p: nat)
    requires p + 8 <= |d| && StringAt(d, p + 8).Done? && StringAt(d, p + 8).next + 15 > |d|
    ensures UserConfigAt(d, p).Failed? && UserConfigAt(d, p).error == UnexpectedEof
  {
    UserConfigHeader(d, p);
    UserConfigTail(d, StringAt(d, p + 8).next);
  }

  /** The fifteen bytes after the name: the fields read in order, failing
      with end of data exactly when they are not all there. */
  lemma UserConfigTail(d: seq<u8>, q: nat)
    ensures q + 15 <= |d| ==>
      && U16At(d, q) == Done(Le16(d[q], d[q + 1]), q + 2)
      && U8At(d, q + 2) == Done(d[q + 2], q + 3)
      && U8At(d, q + 3) == Done(d[q + 3], q + 4)
      && U8At(d, q + 4) == Done(d[q + 4], q + 5)
      && MouseConfigAt(d, q + 5).Done? && MouseConfigAt(d, q + 5).next == q + 15
    ensures q + 15 > |d| ==>
      || U16At(d, q).Failed? || U8At(d, q + 2).Failed? || U8At(d, q + 3).Failed? || U8At(d, q + 4).Failed?
      || (MouseConfigAt(d, q + 5).Failed? && MouseConfigAt(d, q + 5).error == UnexpectedEof)
    ensures U16At(d, q).Failed? ==> U16At(d, q).error == UnexpectedEof
  {
    MouseConfigConsumes(d, q + 5);
  }

  // ---------------------------------------------------------------------
  // Count-prefixed levels: exactly the declared number of children

  /** A module configuration holds exactly the declared number of key
      actions, each decoded where the previous one ended, and fails exactly
      when one of them fails. */
  lemma ModuleConfigChildren(d: seq<u8>, p: nat)
    ensures ModuleConfigAt(d, p).Done? ==> p < |d| && CompactLengthAt(d, p + 1).Done?
    ensures p < |d| && CompactLengthAt(d, p + 1).Done? ==>
      var n := CompactLengthAt(d, p + 1);
      var m := ModuleConfigAt(d, p);
      && (m.Done? ==> m.value.id == d[p] && |m.value.keyActions| == n.value
                      && Repeat(KeyActionAt, d, n.next, n.value) == Done(m.value.keyActions, m.next))
      && (m.Failed? <==> exists i :: 0 <= i < n.value && Repeat(KeyActionAt, d, n.next, i).Done?
                                     && KeyActionAt(d, Repeat(KeyActionAt, d, n.next, i).next).Failed?)
  {
    if p < |d| && CompactLengthAt(d, p + 1).Done? {
      var n := CompactLengthAt(d, p + 1);
      FailsAtFirstFailingItem(KeyActionAt, d, n.next, n.value);
    }
  }

  /** A layer configuration holds exactly the declared number of modules
      and fails exactly when one of them fails. */
  lemma LayerConfigChildren(d: seq<u8>, p: nat)
    ensures LayerConfigAt(d, p).Done? ==> p < |d| && CompactLengthAt(d, p + 1).Done?
    ensures p < |d| && CompactLengthAt(d, p + 1).Done? ==>
      var n := CompactLengthAt(d, p + 1);
      var l := LayerConfigAt(d, p);
      && (l.Done? ==> l.value.id == d[p] && |l.value.modules| == n.value
                      && Repeat(ModuleConfigAt, d, n.next, n.value) == Done(l.value.modules, l.next))
      && (l.Failed? <==> exists i :: 0 <= i < n.value && Repeat(ModuleConfigAt, d, n.next, i).Done?
                                     && ModuleConfigAt(d, Repeat(ModuleConfigAt, d, n.next, i).next).Failed?)
  {
    if p < |d| && CompactLengthAt(d, p + 1).Done? {
      var n := CompactLengthAt(d, p + 1);
      FailsAtFirstFailingItem(ModuleConfigAt, d, n.next, n.value);
    }
  }

  /** A keymap holds its three strings and flag, then exactly the declared
      number of layers, and fails exactly when one of them fails once the
      header has been read. */
  lemma KeymapConfigChildren(d: seq<u8>, p: nat)
    ensures var abbr := StringAt(d, p);
      var isDefault := BoolAt(d, abbr.next);
      var name := StringAt(d, isDefault.next);
      var desc := StringAt(d, name.next);
      var n := CompactLengthAt(d, desc.next);
      var k := KeymapConfigAt(d, p);
      && (k.Done? ==> abbr.Done? && isDefault.Done? && name.Done? && desc.Done? && n.Done?
                      && k.value.abbr == abbr.value && k.value.isDefault == isDefault.value
                      && k.value.name == name.value && k.value.desc == desc.value
                      && |k.value.layers| == n.value
                      && Repeat(LayerConfigAt, d, n.next, n.value) == Done(k.value.layers, k.next))
      && (abbr.Done? && isDefault.Done? && name.Done? && desc.Done? && n.Done? ==>
            (k.Failed? <==> exists i :: 0 <= i < n.value && Repeat(LayerConfigAt, d, n.next, i).Done?
                                       && LayerConfigAt(d, Repeat(LayerConfigAt, d, n.next, i).next).Failed?))
  {
    var abbr := StringAt(d, p);
    var isDefault := BoolAt(d, abbr.next);
    var name := StringAt(d, isDefault.next);
    var desc := StringAt(d, name.next);
    var n := CompactLengthAt(d, desc.next);
    if abbr.Done? && isDefault.Done? && name.Done? && desc.Done? && n.Done? {
      FailsAtFirstFailingItem(LayerConfigAt, d, n.next, n.value);
    }
  }
}
