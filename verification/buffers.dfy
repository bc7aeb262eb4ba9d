/** Decoding the two configuration buffers the program reads: the hardware
    buffer is one hardware configuration from offset 0; the validated user
    buffer is the user configuration followed by three count-prefixed
    sections read inline by the program: module pointer settings, macros
    and keymaps.

    Every `unwrap` of a failed read ends the program; here it ends the
    decode with the failure instead. */
module Buffers {
  import opened Bytes
  import opened Utf8
  import opened Cursor
  import opened Counted
  import opened Config
  import Consts

  /** The pointer settings of one module, nine fields in ten bytes. */
  datatype ModulePointerConfig = ModulePointerConfig(
    id: u8,
    pointerMode: u8,
    deceleratedPointerSpeedMultiplier: u8,
    basePointerSpeedMultiplier: u8,
    acceleratedPointerSpeedMultiplier: u8,
    angularShift: u16,
    modLayerPointerFunction: u8,
    fnLayerPointerFunction: u8,
    mouseLayerPointerFunction: u8)

  /** The only macro action the program decodes is the command action. */
  datatype MacroAction = CommandMacroAction(command: Text)

  datatype Macro = Macro(isLooped: bool, isPrivate: bool, name: Text, actions: seq<MacroAction>)

  datatype UserBuffer = UserBuffer(
    userConfig: UserConfig,
    modulePointers: seq<ModulePointerConfig>,
    macros: seq<Macro>,
    keymaps: seq<KeymapConfig>)

  // ---------------------------------------------------------------------
  // Specification functions

  function ModulePointerAt(d: seq<u8>, p: nat): Decoded<ModulePointerConfig> {
    var id :- U8At(d, p);
    var pointerMode :- U8At(d, id.next);
    var decelerated :- U8At(d, pointerMode.next);
    var base :- U8At(d, decelerated.next);
    var accelerated :- U8At(d, base.next);
    var angularShift :- U16At(d, accelerated.next);
    var modLayer :- U8At(d, angularShift.next);
    var fnLayer :- U8At(d, modLayer.next);
    var mouseLayer :- U8At(d, fnLayer.next);
    Done(ModulePointerConfig(id.value, pointerMode.value, decelerated.value, base.value, accelerated.value,
                             angularShift.value, modLayer.value, fnLayer.value, mouseLayer.value),
         mouseLayer.next)
  }

  /** A macro action: the key and mouse button ranges and every tag but the
      command tag are not decoded; the command tag is followed by a string. */
  function MacroActionAt(d: seq<u8>, p: nat): Decoded<MacroAction> {
    var id :- U8At(d, p);
    if Consts.KEY_MACRO_ACTION <= id.value <= Consts.LAST_KEY_MACRO_ACTION then
      Failed(Unimplemented(id.value), id.next)
    else if Consts.MOUSE_BUTTON_MACRO_ACTION <= id.value <= Consts.LAST_MOUSE_BUTTON_MACRO_ACTION then
      Failed(Unimplemented(id.value), id.next)
    else if id.value == Consts.COMMAND_MACRO_ACTION then
      var command :- StringAt(d, id.next);
      Done(CommandMacroAction(command.value), command.next)
    else
      Failed(Unimplemented(id.value), id.next)
  }

  function MacroAt(d: seq<u8>, p: nat): Decoded<Macro> {
    var isLooped :- BoolAt(d, p);
    var isPrivate :- BoolAt(d, isLooped.next);
    var name :- StringAt(d, isPrivate.next);
    var n :- CompactLengthAt(d, name.next);
    var actions :- Repeat(MacroActionAt, d, n.next, n.value);
    Done(Macro(isLooped.value, isPrivate.value, name.value, actions.value), actions.next)
  }

  /** The hardware buffer holds one hardware configuration from its start. */
  function HardwareBufferAt(d: seq<u8>): Decoded<HardwareConfig> {
    HardwareConfigAt(d, 0)
  }

  /** The user buffer: the user configuration, then the module pointer,
      macro and keymap sections, each a compact count and that many items. */
  function UserBufferAt(d: seq<u8>): Decoded<UserBuffer> {
    var user :- UserConfigAt(d, 0);
    var modules :- CountedAt(ModulePointerAt, d, user.next);
    var macros :- CountedAt(MacroAt, d, modules.next);
    var keymaps :- CountedAt(KeymapConfigAt, d, macros.next);
    Done(UserBuffer(user.value, modules.value, macros.value, keymaps.value), keymaps.next)
  }

  // ---------------------------------------------------------------------
  // The decode sequence over a cursor

  method DecodeHardwareBuffer(cfg: seq<u8>) returns (r: Result<HardwareConfig>)
    ensures r == HardwareBufferAt(cfg).Result()
  {
    var cursor := new UhkCursor(cfg);
    r := DeserializeHardwareConfig(cursor);
  }

  method DecodeUserBuffer(cfg: seq<u8>) returns (r: Result<UserBuffer>)
    ensures r == UserBufferAt(cfg).Result()
  {
    var cursor := new UhkCursor(cfg);
    var user :- DeserializeUserConfig(cursor);
    var numModules :- cursor.ReadCompactLength();
    var modules :- ReadModulePointers(cursor, numModules);
    var numMacros :- cursor.ReadCompactLength();
    var macros :- ReadMacros(cursor, numMacros);
    var numKeymaps :- cursor.ReadCompactLength();
    var keymaps :- ReadKeymaps(cursor, numKeymaps);
    r := Ok(UserBuffer(user, modules, macros, keymaps));
  }

  /** The module pointer loop: `n` entries in order. */
  method ReadModulePointers(c: UhkCursor, n: nat) returns (r: Result<seq<ModulePointerConfig>>)
    modifies c
    ensures r == Repeat(ModulePointerAt, c.data, old(c.pos), n).Result()
    ensures c.pos == Repeat(ModulePointerAt, c.data, old(c.pos), n).next
  {
    ghost var start := c.pos;
    var modules := [];
    var i := 0;
    while i < n
      invariant i <= n
      invariant Repeat(ModulePointerAt, c.data, start, i) == Done(modules, c.pos)
    {
      ghost var item := ModulePointerAt(c.data, c.pos);
      RepeatStep(ModulePointerAt, c.data, start, i, n, modules, c.pos);
      var m := ReadModulePointer(c);
      if m.Err? {
        assert item.Failed? && item.error == m.error;
        return Err(m.error);
      }
      assert item.Done? && item.value == m.value;
      modules := modules + [m.value];
      i := i + 1;
    }
    r := Ok(modules);
  }

  /** The macro loop: `n` macros in order. */
  method ReadMacros(c: UhkCursor, n: nat) returns (r: Result<seq<Macro>>)
    modifies c
    ensures r == Repeat(MacroAt, c.data, old(c.pos), n).Result()
    ensures c.pos == Repeat(MacroAt, c.data, old(c.pos), n).next
  {
    ghost var start := c.pos;
    var macros := [];
    var i := 0;
    while i < n
      invariant i <= n
      invariant Repeat(MacroAt, c.data, start, i) == Done(macros, c.pos)
    {
      ghost var item := MacroAt(c.data, c.pos);
      RepeatStep(MacroAt, c.data, start, i, n, macros, c.pos);
      var m := ReadMacro(c);
      if m.Err? {
        assert item.Failed? && item.error == m.error;
        return Err(m.error);
      }
      assert item.Done? && item.value == m.value;
      macros := macros + [m.value];
      i := i + 1;
    }
    r := Ok(macros);
  }

  /** The keymap loop: `n` keymaps in order. */
  method ReadKeymaps(c: UhkCursor, n: nat) returns (r: Result<seq<KeymapConfig>>)
    modifies c
    ensures r == Repeat(KeymapConfigAt, c.data, old(c.pos), n).Result()
    ensures c.pos == Repeat(KeymapConfigAt, c.data, old(c.pos), n).next
  {
    ghost var start := c.pos;
    var keymaps := [];
    var i := 0;
    while i < n
      invariant i <= n
      invariant Repeat(KeymapConfigAt, c.data, start, i) == Done(keymaps, c.pos)
    {
      ghost var item := KeymapConfigAt(c.data, c.pos);
      RepeatStep(KeymapConfigAt, c.data, start, i, n, keymaps, c.pos);
      var k := DeserializeKeymapConfig(c);
      if k.Err? {
        assert item.Failed? && item.error == k.error;
        return Err(k.error);
      }
      assert item.Done? && item.value == k.value;
      keymaps := keymaps + [k.value];
      i := i + 1;
    }
    r := Ok(keymaps);
  }

  /** One iteration of the module pointer loop. */
  method ReadModulePointer(c: UhkCursor) returns (r: Result<ModulePointerConfig>)
    modifies c
    ensures r == ModulePointerAt(c.data, old(c.pos)).Result()
    ensures c.pos == ModulePointerAt(c.data, old(c.pos)).next
  {
    var id :- c.ReadU8();
    var pointerMode :- c.ReadU8();
    var decelerated :- c.ReadU8();
    var base :- c.ReadU8();
    var accelerated :- c.ReadU8();
    var angularShift :- c.ReadU16();
    var modLayer :- c.ReadU8();
    var fnLayer :- c.ReadU8();
    var mouseLayer :- c.ReadU8();
    r := Ok(ModulePointerConfig(id, pointerMode, decelerated, base, accelerated,
                                angularShift, modLayer, fnLayer, mouseLayer));
  }

  /** One iteration of the macro loop: the header, then the inner loop. */
  method ReadMacro(c: UhkCursor) returns (r: Result<Macro>)
    modifies c
    ensures r == MacroAt(c.data, old(c.pos)).Result()
    ensures c.pos == MacroAt(c.data, old(c.pos)).next
  {
    var isLooped :- c.ReadBool();
    var isPrivate :- c.ReadBool();
    var name :- c.ReadString();
    var actionLength :- c.ReadCompactLength();
    var actions :- ReadMacroActions(c, actionLength);
    r := Ok(Macro(isLooped, isPrivate, name, actions));
  }

  /** The inner loop over the actions of one macro. */
  method ReadMacroActions(c: UhkCursor, n: nat) returns (r: Result<seq<MacroAction>>)
    modifies c
    ensures r == Repeat(MacroActionAt, c.data, old(c.pos), n).Result()
    ensures c.pos == Repeat(MacroActionAt, c.data, old(c.pos), n).next
  {
    ghost var start := c.pos;
    var actions := [];
    var j := 0;
    while j < n
      invariant j <= n
      invariant Repeat(MacroActionAt, c.data, start, j) == Done(actions, c.pos)
    {
      ghost var item := MacroActionAt(c.data, c.pos);
      RepeatStep(MacroActionAt, c.data, start, j, n, actions, c.pos);
      var a := ReadMacroAction(c);
      if a.Err? {
        assert item.Failed? && item.error == a.error;
        return Err(a.error);
      }
      assert item.Done? && item.value == a.value;
      actions := actions + [a.value];
      j := j + 1;
    }
    r := Ok(actions);
  }

  /** The `match` on a macro action id. */
  method ReadMacroAction(c: UhkCursor) returns (r: Result<MacroAction>)
    modifies c
    ensures r == MacroActionAt(c.data, old(c.pos)).Result()
    ensures c.pos == MacroActionAt(c.data, old(c.pos)).next
  {
    var id :- c.ReadU8();
    if id >= Consts.KEY_MACRO_ACTION && id <= Consts.LAST_KEY_MACRO_ACTION {
      r := Err(Unimplemented(id));
    } else if id >= Consts.MOUSE_BUTTON_MACRO_ACTION && id <= Consts.LAST_MOUSE_BUTTON_MACRO_ACTION {
      r := Err(Unimplemented(id));
    } else if id == Consts.COMMAND_MACRO_ACTION {
      var command :- c.ReadString();
      r := Ok(CommandMacroAction(command));
    } else {
      r := Err(Unimplemented(id));
    }
  }

  // ---------------------------------------------------------------------
  // Module pointer settings: ten bytes each

  /** One module pointer entry is exactly ten bytes, the angular shift
      little-endian at offsets 5 and 6. */
  lemma ModulePointerConsumes(d: seq<u8>, p: nat)
    ensures ModulePointerAt(d, p).Done? <==> p + 10 <= |d|
    ensures ModulePointerAt(d, p).Done? ==>
              ModulePointerAt(d, p) == Done(ModulePointerConfig(d[p], d[p + 1], d[p + 2], d[p + 3], d[p + 4],
                                                                Le16(d[p + 5], d[p + 6]), d[p + 7], d[p + 8], d[p + 9]),
                                            p + 10)
    ensures ModulePointerAt(d, p).Failed? ==> ModulePointerAt(d, p).error == UnexpectedEof
  {
  }

  /** The module pointer section of `n` entries takes exactly `10 * n` bytes
      and fails only for want of them. */
  lemma ModulePointersTakeTenEach(d: seq<u8>, p: nat, n: nat)
    ensures Repeat(ModulePointerAt, d, p, n).Done? <==> n == 0 || p + 10 * n <= |d|
    ensures Repeat(ModulePointerAt, d, p, n).Done? ==> Repeat(ModulePointerAt, d, p, n).next == p + 10 * n
    ensures Repeat(ModulePointerAt, d, p, n).Failed? ==> Repeat(ModulePointerAt, d, p, n).error == UnexpectedEof
  {
    forall q: nat ensures ModulePointerAt(d, q).Done? <==> q + 10 <= |d|
      ensures ModulePointerAt(d, q).Done? ==> ModulePointerAt(d, q).next == q + 10
      ensures ModulePointerAt(d, q).Failed? ==> ModulePointerAt(d, q).error == UnexpectedEof
    {
      ModulePointerConsumes(d, q);
    }
    FixedWidthItems(ModulePointerAt, 10, d, p, n);
    assert n * 10 == 10 * n;
  }

  /** The bytes of a module pointer entry (the inverse of `ModulePointerAt`). */
  function ModulePointerBytes(m: ModulePointerConfig): (e: seq<u8>)
    ensures |e| == 10
  {
    [m.id, m.pointerMode, m.deceleratedPointerSpeedMultiplier, m.basePointerSpeedMultiplier,
     m.acceleratedPointerSpeedMultiplier]
    + Le16Bytes(m.angularShift)
    + [m.modLayerPointerFunction, m.fnLayerPointerFunction, m.mouseLayerPointerFunction]
  }

  lemma ModulePointerRoundTrip(d: seq<u8>, p: nat, m: ModulePointerConfig)
    requires Placed(d, p, ModulePointerBytes(m))
    ensures ModulePointerAt(d, p) == Done(m, p + 10)
  {
    var e := ModulePointerBytes(m);
    forall i | 0 <= i < 10 ensures d[p + i] == e[i] {
      assert d[p..p + 10][i] == e[i];
    }
    ModulePointerConsumes(d, p);
  }

  // ---------------------------------------------------------------------
  // Macros: only the command action decodes

  /** A macro action decodes exactly when its tag is the command tag and a
      string follows; it then takes the tag and the string. Every other tag
      stops the decode right after it. */
  lemma MacroActionConsumes(d: seq<u8>, p: nat)
    ensures MacroActionAt(d, p).Done? <==>
              p < |d| && d[p] == Consts.COMMAND_MACRO_ACTION && StringAt(d, p + 1).Done?
    ensures MacroActionAt(d, p).Done? ==>
              MacroActionAt(d, p) == Done(CommandMacroAction(StringAt(d, p + 1).value), StringAt(d, p + 1).next)
    ensures p < |d| && d[p] != Consts.COMMAND_MACRO_ACTION ==>
              MacroActionAt(d, p) == Failed(Unimplemented(d[p]), p + 1)
    ensures p >= |d| ==> MacroActionAt(d, p) == Failed(UnexpectedEof, p)
  {
  }

  /** The bytes of a command macro action (the inverse of `MacroActionAt`). */
  function MacroActionBytes(a: MacroAction): (e: seq<u8>)
    requires |a.command| < 0x1_0000
    ensures |e| == 1 + |StringBytes(a.command)|
  {
    [Consts.COMMAND_MACRO_ACTION] + StringBytes(a.command)
  }

  lemma MacroActionRoundTrip(d: seq<u8>, p: nat, a: MacroAction)
    requires |a.command| < 0x1_0000 && Placed(d, p, MacroActionBytes(a))
    ensures MacroActionAt(d, p) == Done(a, p + |MacroActionBytes(a)|)
  {
    PlacedSplit(d, p, [Consts.COMMAND_MACRO_ACTION], StringBytes(a.command));
    assert d[p] == d[p..p + 1][0];
    StringRoundTrip(d, p + 1, a.command);
  }

  /** A macro holds its two flags and name, then exactly the declared number
      of actions, and fails exactly when one of them fails once the header
      has been read. */
  lemma MacroChildren(d: seq<u8>, p: nat)
    ensures var name := StringAt(d, p + 2);
      var n := CompactLengthAt(d, name.next);
      var m := MacroAt(d, p);
      && (m.Done? ==> p + 2 <= |d| && name.Done? && n.Done?
                      && m.value.isLooped == (d[p] != 0) && m.value.isPrivate == (d[p + 1] != 0)
                      && m.value.name == name.value && |m.value.actions| == n.value
                      && Repeat(MacroActionAt, d, n.next, n.value) == Done(m.value.actions, m.next))
      && (p + 2 <= |d| && name.Done? && n.Done? ==>
            (m.Failed? <==> exists i :: 0 <= i < n.value && Repeat(MacroActionAt, d, n.next, i).Done?
                                       && MacroActionAt(d, Repeat(MacroActionAt, d, n.next, i).next).Failed?))
  {
    var name := StringAt(d, p + 2);
    var n := CompactLengthAt(d, name.next);
    if p + 2 <= |d| && name.Done? && n.Done? {
      FailsAtFirstFailingItem(MacroActionAt, d, n.next, n.value);
    }
  }

  // ---------------------------------------------------------------------
  // Section order of the user buffer

  /** A decoded user buffer is its user configuration from offset 0, then
      the module pointer section, which spans its one- or three-byte count
      and exactly ten bytes per entry, then the macro section, then the keymap section,
      each section starting where the previous one ended. */
  lemma UserBufferSections(d: seq<u8>)
    requires UserBufferAt(d).Done?
    ensures var b := UserBufferAt(d).value;
      var user := UserConfigAt(d, 0);
      && user.Done? && b.userConfig == user.value
      && var modules := CountedAt(ModulePointerAt, d, user.next);
      && modules.Done? && modules.value == b.modulePointers
      && modules.next == CompactLengthAt(d, user.next).next + 10 * |b.modulePointers|
      && modules.next == user.next + (if d[user.next] == 0xFF then 3 else 1) + 10 * |b.modulePointers|
      && var macros := CountedAt(MacroAt, d, modules.next);
      && macros.Done? && macros.value == b.macros
      && CountedAt(KeymapConfigAt, d, macros.next) == Done(b.keymaps, UserBufferAt(d).next)
  {
    var n := CompactLengthAt(d, UserConfigAt(d, 0).next);
    CompactLengthForms(d, UserConfigAt(d, 0).next);
    ModulePointersTakeTenEach(d, n.next, n.value);
  }

  /** A macro whose first action carries any tag but the command tag
      fails with that tag right after reading it. */
  lemma MacroRejectsOtherActions(d: seq<u8>, p: nat)
    requires p + 2 <= |d| && StringAt(d, p + 2).Done?
    requires var n := CompactLengthAt(d, StringAt(d, p + 2).next);
      n.Done? && n.value > 0 && n.next < |d| && d[n.next] != Consts.COMMAND_MACRO_ACTION
    ensures var n := CompactLengthAt(d, StringAt(d, p + 2).next);
      MacroAt(d, p) == Failed(Unimplemented(d[n.next]), n.next + 1)
  {
    var n := CompactLengthAt(d, StringAt(d, p + 2).next);
    FirstActionRejected(d, n.next, n.value);
  }

  /** Actions whose first tag is not the command tag fail on that tag. */
  lemma FirstActionRejected(d: seq<u8>, q: nat, n: nat)
    requires n > 0 && q < |d| && d[q] != Consts.COMMAND_MACRO_ACTION
    ensures Repeat(MacroActionAt, d, q, n) == Failed(Unimplemented(d[q]), q + 1)
  {
    MacroActionConsumes(d, q);
    RepeatStep(MacroActionAt, d, q, 0, n, [], q);
  }
}
