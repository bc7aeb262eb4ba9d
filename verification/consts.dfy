/** The numeric tables of the protocol: command opcodes, buffer and property
    identifiers, module slots, and the tag ranges of key actions and macro
    actions. Enumerations that the code converts to or from a byte are
    datatypes with `ToByte`; tables used only as bounds are constants. */
module Consts {
  import opened Bytes

  /** Size of every HID report exchanged with the keyboard. */
  const MAX_PAYLOAD_SIZE: nat := 64

  /** Module slots; the byte conversion is fallible in the other direction. */
  datatype ModuleSlots =
    | NoModule
    | LeftKeyboardHalf
    | KeyClusterLeft
    | TrackballRight
    | TrackpointRight
    | TouchpadRight
  {
    function ToByte(): (b: u8)
      ensures b <= 5
    {
      match this
      case NoModule => 0
      case LeftKeyboardHalf => 1
      case KeyClusterLeft => 2
      case TrackballRight => 3
      case TrackpointRight => 4
      case TouchpadRight => 5
    }
  }

  /** `ModuleSlots::try_from(u8)`: defined exactly for the discriminants. */
  function ModuleSlotsFrom(b: u8): (r: Option<ModuleSlots>)
    ensures r.Some? <==> b <= 5
    ensures r.Some? ==> r.value.ToByte() == b
  {
    if b == 0 then Some(NoModule)
    else if b == 1 then Some(LeftKeyboardHalf)
    else if b == 2 then Some(KeyClusterLeft)
    else if b == 3 then Some(TrackballRight)
    else if b == 4 then Some(TrackpointRight)
    else if b == 5 then Some(TouchpadRight)
    else None
  }

  /** Converting a slot to its byte and back gives the slot again. */
  lemma ModuleSlotsRoundTrip(s: ModuleSlots)
    ensures ModuleSlotsFrom(s.ToByte()) == Some(s)
  {
  }

  datatype UsbCommand =
    | GetProperty
    | Reenumerate
    | JumpToModuleBootloader
    | SendKbootCommandToModule
    | ReadConfig
    | WriteHardwareConfig
    | WriteStagingUserConfig
    | ApplyConfig
    | LaunchEepromTransfer
    | GetDeviceState
    | SetTestLed
    | GetDebugBuffer
    | GetAdcValue
    | SetLedPwmBrightness
    | GetModuleProperty
    | GetSlaveI2cErrors
    | SetI2cBaudRate
    | SwitchKeymap
    | GetVariable
    | SetVariable
    | ExecMacroCommand
  {
    function ToByte(): (b: u8)
      ensures b <= 0x14
    {
      match this
      case GetProperty => 0x00
      case Reenumerate => 0x01
      case JumpToModuleBootloader => 0x02
      case SendKbootCommandToModule => 0x03
      case ReadConfig => 0x04
      case WriteHardwareConfig => 0x05
      case WriteStagingUserConfig => 0x06
      case ApplyConfig => 0x07
      case LaunchEepromTransfer => 0x08
      case GetDeviceState => 0x09
      case SetTestLed => 0x0a
      case GetDebugBuffer => 0x0b
      case GetAdcValue => 0x0c
      case SetLedPwmBrightness => 0x0d
      case GetModuleProperty => 0x0e
      case GetSlaveI2cErrors => 0x0f
      case SetI2cBaudRate => 0x10
      case SwitchKeymap => 0x11
      case GetVariable => 0x12
      case SetVariable => 0x13
      case ExecMacroCommand => 0x14
    }
  }

  /** Distinct commands are sent as distinct opcodes. */
  lemma UsbCommandInjective(a: UsbCommand, b: UsbCommand)
    ensures a.ToByte() == b.ToByte() ==> a == b
  {
  }

  datatype ConfigBufferId = HardwareConfig | StagingUserConfig | ValidatedUserConfig {
    function ToByte(): (b: u8)
      ensures b <= 2
    {
      match this
      case HardwareConfig => 0
      case StagingUserConfig => 1
      case ValidatedUserConfig => 2
    }
  }

  datatype DevicePropertyIds =
    | DeviceProtocolVersion
    | ProtocolVersions
    | ConfigSizes
    | CurrentKbootCommand
    | I2cBaudRate
    | Uptime
    | GitTag
    | GitRepo
  {
    function ToByte(): (b: u8)
      ensures b <= 7
    {
      match this
      case DeviceProtocolVersion => 0
      case ProtocolVersions => 1
      case ConfigSizes => 2
      case CurrentKbootCommand => 3
      case I2cBaudRate => 4
      case Uptime => 5
      case GitTag => 6
      case GitRepo => 7
    }
  }

  datatype UsbVariables =
    | TestSwitches
    | TestUsbStack
    | DebounceTimePress
    | DebounceTimeRelease
    | UsbReportSemaphore
  {
    function ToByte(): (b: u8)
      ensures b <= 4
    {
      match this
      case TestSwitches => 0
      case TestUsbStack => 1
      case DebounceTimePress => 2
      case DebounceTimeRelease => 3
      case UsbReportSemaphore => 4
    }
  }

  /** Macro action tags: 0..63 key actions, 64..66 mouse buttons, then one
      tag each for move, scroll, delay, text and command. */
  const KEY_MACRO_ACTION: u8 := 0
  const LAST_KEY_MACRO_ACTION: u8 := 63
  const MOUSE_BUTTON_MACRO_ACTION: u8 := 64
  const LAST_MOUSE_BUTTON_MACRO_ACTION: u8 := 66
  const MOVE_MOUSE_MACRO_ACTION: u8 := 67
  const SCROLL_MOUSE_MACRO_ACTION: u8 := 68
  const DELAY_MACRO_ACTION: u8 := 69
  const TEXT_MACRO_ACTION: u8 := 70
  const COMMAND_MACRO_ACTION: u8 := 71

  /** Key action tags: 0 is "none", 1 up to (excluding) 31 keystrokes whose
      tag doubles as a flag byte, then one tag per other action kind. */
  const NONE_ACTION: u8 := 0
  const KEYSTROKE_ACTION: u8 := 1
  const LAST_KEYSTROKE_ACTION: u8 := 31
  const SWITCH_LAYER_ACTION: u8 := 32
  const SWITCH_KEYMAP_ACTION: u8 := 33
  const MOUSE_ACTION: u8 := 34
  const PLAY_MACRO_ACTION: u8 := 35

  /** The flag bits of a keystroke tag. */
  const SCANCODE_FLAG: u8 := 1
  const MODIFIER_MASK_FLAG: u8 := 2
  const SECONDARY_ROLE_FLAG: u8 := 4

  datatype KeystrokeType = Basic | ShortMedia | LongMedia | System {
    function ToByte(): (b: u8)
      ensures b < 4
    {
      match this
      case Basic => 0
      case ShortMedia => 1
      case LongMedia => 2
      case System => 3
    }
  }

  /** The keystroke type with a given 2-bit code; every code has one. */
  function KeystrokeTypeFrom(code: u8): (t: KeystrokeType)
    requires code < 4
    ensures t.ToByte() == code
  {
    if code == 0 then Basic
    else if code == 1 then ShortMedia
    else if code == 2 then LongMedia
    else System
  }

  /** Which key action tags the keystroke range holds. */
  predicate IsKeystrokeId(id: u8) {
    KEYSTROKE_ACTION <= id < LAST_KEYSTROKE_ACTION
  }

  /** The key action tags are pairwise different and none of the single tags
      falls inside the keystroke range. */
  lemma KeyActionIdsDisjoint()
    ensures !IsKeystrokeId(NONE_ACTION)
    ensures forall id: u8 :: id in {SWITCH_LAYER_ACTION, SWITCH_KEYMAP_ACTION, MOUSE_ACTION, PLAY_MACRO_ACTION}
              ==> !IsKeystrokeId(id) && id != NONE_ACTION
    ensures |{NONE_ACTION, SWITCH_LAYER_ACTION, SWITCH_KEYMAP_ACTION, MOUSE_ACTION, PLAY_MACRO_ACTION}| == 5
  {
  }

  /** The macro action tag ranges do not overlap, and the command tag lies
      outside both ranges. */
  lemma MacroActionIdsDisjoint(id: u8)
    ensures !(KEY_MACRO_ACTION <= id <= LAST_KEY_MACRO_ACTION
              && MOUSE_BUTTON_MACRO_ACTION <= id <= LAST_MOUSE_BUTTON_MACRO_ACTION)
    ensures COMMAND_MACRO_ACTION > LAST_MOUSE_BUTTON_MACRO_ACTION
    ensures LAST_MOUSE_BUTTON_MACRO_ACTION < MOVE_MOUSE_MACRO_ACTION < SCROLL_MOUSE_MACRO_ACTION
            < DELAY_MACRO_ACTION < TEXT_MACRO_ACTION < COMMAND_MACRO_ACTION
  {
  }

  /** The three keystroke flags are distinct single bits. */
  lemma KeystrokeFlagsSingleBits()
    ensures SCANCODE_FLAG == 1 && MODIFIER_MASK_FLAG == 2 && SECONDARY_ROLE_FLAG == 4
    ensures !HasBits(SCANCODE_FLAG, MODIFIER_MASK_FLAG) && !HasBits(SCANCODE_FLAG, SECONDARY_ROLE_FLAG)
    ensures !HasBits(MODIFIER_MASK_FLAG, SECONDARY_ROLE_FLAG)
  {
  }
}
