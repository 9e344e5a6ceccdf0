/** Version 1 of the hub's serial protocol: the command byte that opens
    every frame sent to the hub. */
module HubProtocol {
  import opened Text

  /** `HubCommand`, in declaration order. */
  datatype HubCommand =
    // set values
    | SetDialRawSingle | SetDialRawMultiple | SetDialPercSingle | SetDialPercMultiple
    | SetDialCalibrateMax | SetDialCalibrateHalf
    // hub commands
    | GetDevicesMap | ProvisionDevice | ResetAllDevices | DialPower | GetDeviceUid | RescanBus
    // display commands
    | DisplayClear | DisplayGotoXy | DisplayImgData | DisplayShowImg | RxBufferSize | ResetCfg
    | SetRgbBacklight
    // easing
    | SetDialEasingStep | SetDialEasingPeriod | SetBacklightEasingStep
    | SetBacklightEasingPeriod | GetEasingConfig
    // metadata
    | GetBuildInfo | GetFwInfo | GetHwInfo | GetProtocolInfo | DebugI2cScan
    // bootloader commands
    | HubBtlJumpToBootloader | DialBtlJumpToBootloader | DialBtlGetInfo | DialBtlGetCrc
    | DialBtlEraseApp | DialBtlFwupSendPackage | DialBtlFwupFinished | DialBtlExit
    | DialBtlRestartFwupload | DialBtlReadLastStatus

  /** The byte each command is sent as (its `#[repr(u8)]` discriminant).  The
      codes form three runs of consecutive bytes in declaration order. */
  function Code(c: HubCommand): (b: U8)
    ensures b == Layout(Position(c))
  {
    match c
    case SetDialRawSingle => 0x01
    case SetDialRawMultiple => 0x02
    case SetDialPercSingle => 0x03
    case SetDialPercMultiple => 0x04
    case SetDialCalibrateMax => 0x05
    case SetDialCalibrateHalf => 0x06
    case GetDevicesMap => 0x07
    case ProvisionDevice => 0x08
    case ResetAllDevices => 0x09
    case DialPower => 0x0A
    case GetDeviceUid => 0x0B
    case RescanBus => 0x0C
    case DisplayClear => 0x0D
    case DisplayGotoXy => 0x0E
    case DisplayImgData => 0x0F
    case DisplayShowImg => 0x10
    case RxBufferSize => 0x11
    case ResetCfg => 0x12
    case SetRgbBacklight => 0x13
    case SetDialEasingStep => 0x14
    case SetDialEasingPeriod => 0x15
    case SetBacklightEasingStep => 0x16
    case SetBacklightEasingPeriod => 0x17
    case GetEasingConfig => 0x18
    case GetBuildInfo => 0x19
    case GetFwInfo => 0x20
    case GetHwInfo => 0x21
    case GetProtocolInfo => 0x22
    case DebugI2cScan => 0xF3
    case HubBtlJumpToBootloader => 0xF4
    case DialBtlJumpToBootloader => 0xF5
    case DialBtlGetInfo => 0xF6
    case DialBtlGetCrc => 0xF7
    case DialBtlEraseApp => 0xF8
    case DialBtlFwupSendPackage => 0xF9
    case DialBtlFwupFinished => 0xFA
    case DialBtlExit => 0xFB
    case DialBtlRestartFwupload => 0xFC
    case DialBtlReadLastStatus => 0xFD
  }

  /** Every command, in declaration order. */
  const AllCommands: seq<HubCommand> := [
    SetDialRawSingle, SetDialRawMultiple, SetDialPercSingle, SetDialPercMultiple,
    SetDialCalibrateMax, SetDialCalibrateHalf,
    GetDevicesMap, ProvisionDevice, ResetAllDevices, DialPower, GetDeviceUid, RescanBus,
    DisplayClear, DisplayGotoXy, DisplayImgData, DisplayShowImg, RxBufferSize, ResetCfg,
    SetRgbBacklight,
    SetDialEasingStep, SetDialEasingPeriod, SetBacklightEasingStep,
    SetBacklightEasingPeriod, GetEasingConfig,
    GetBuildInfo, GetFwInfo, GetHwInfo, GetProtocolInfo, DebugI2cScan,
    HubBtlJumpToBootloader, DialBtlJumpToBootloader, DialBtlGetInfo, DialBtlGetCrc,
    DialBtlEraseApp, DialBtlFwupSendPackage, DialBtlFwupFinished, DialBtlExit,
    DialBtlRestartFwupload, DialBtlReadLastStatus
  ]

  /** A command's position in the declaration. */
  function Position(c: HubCommand): (i: nat)
    ensures i < |AllCommands| && AllCommands[i] == c
  {
    match c
    case SetDialRawSingle => 0
    case SetDialRawMultiple => 1
    case SetDialPercSingle => 2
    case SetDialPercMultiple => 3
    case SetDialCalibrateMax => 4
    case SetDialCalibrateHalf => 5
    case GetDevicesMap => 6
    case ProvisionDevice => 7
    case ResetAllDevices => 8
    case DialPower => 9
    case GetDeviceUid => 10
    case RescanBus => 11
    case DisplayClear => 12
    case DisplayGotoXy => 13
    case DisplayImgData => 14
    case DisplayShowImg => 15
    case RxBufferSize => 16
    case ResetCfg => 17
    case SetRgbBacklight => 18
    case SetDialEasingStep => 19
    case SetDialEasingPeriod => 20
    case SetBacklightEasingStep => 21
    case SetBacklightEasingPeriod => 22
    case GetEasingConfig => 23
    case GetBuildInfo => 24
    case GetFwInfo => 25
    case GetHwInfo => 26
    case GetProtocolInfo => 27
    case DebugI2cScan => 28
    case HubBtlJumpToBootloader => 29
    case DialBtlJumpToBootloader => 30
    case DialBtlGetInfo => 31
    case DialBtlGetCrc => 32
    case DialBtlEraseApp => 33
    case DialBtlFwupSendPackage => 34
    case DialBtlFwupFinished => 35
    case DialBtlExit => 36
    case DialBtlRestartFwupload => 37
    case DialBtlReadLastStatus => 38
  }

  /** The three runs: 0x01-0x19 (`SetDialRawSingle` to `GetBuildInfo`),
      0x20-0x22 (`GetFwInfo` to `GetProtocolInfo`) and 0xF3-0xFD
      (`DebugI2cScan` to `DialBtlReadLastStatus`). */
  function Layout(i: nat): int {
    if i <= 24 then i + 1
    else if i <= 27 then 0x20 + (i - 25)
    else 0xF3 + (i - 28)
  }

  /** A command declared before another has a smaller code. */
  lemma CodeOrdered(a: HubCommand, b: HubCommand)
    requires Position(a) < Position(b)
    ensures Code(a) < Code(b)
  {
    assert Code(a) == Layout(Position(a)) && Code(b) == Layout(Position(b));
  }

  /** No two commands share a byte. */
  lemma CodeInjective(a: HubCommand, b: HubCommand)
    requires Code(a) == Code(b)
    ensures a == b
  {
    if Position(a) < Position(b) {
      CodeOrdered(a, b);
    } else if Position(b) < Position(a) {
      CodeOrdered(b, a);
    }
  }

  /** The groups the declaration is divided into. */
  datatype CommandGroup = SetValues | Hub | Display | Easing | Metadata | Bootloader

  function Group(c: HubCommand): CommandGroup {
    var i := Position(c);
    if i < 6 then SetValues
    else if i < 12 then Hub
    else if i < 19 then Display
    else if i < 24 then Easing
    else if i < 29 then Metadata
    else Bootloader
  }

  /** Each of the first four groups is exactly one contiguous range of codes:
      set values 0x01-0x06, hub 0x07-0x0C, display 0x0D-0x13, easing 0x14-0x18. */
  lemma GroupRanges(c: HubCommand)
    ensures Group(c) == SetValues <==> 0x01 <= Code(c) <= 0x06
    ensures Group(c) == Hub <==> 0x07 <= Code(c) <= 0x0C
    ensures Group(c) == Display <==> 0x0D <= Code(c) <= 0x13
    ensures Group(c) == Easing <==> 0x14 <= Code(c) <= 0x18
  {
    var i := Position(c);
    assert i < |AllCommands| && Code(c) == Layout(i);
  }

  /** No command uses the bytes 0x1A to 0x1F, nor 0x00. */
  lemma UnusedCodes(c: HubCommand)
    ensures Code(c) != 0x00
    ensures !(0x1A <= Code(c) <= 0x1F)
  {
    var i := Position(c);
    assert i < |AllCommands| && Code(c) == Layout(i);
  }

  /** The bootloader commands occupy 0xF4-0xFD, one after another. */
  lemma BootloaderRange(c: HubCommand)
    ensures Group(c) == Bootloader <==> 0xF4 <= Code(c) <= 0xFD
    ensures Group(c) == Bootloader ==> Code(c) == 0xF4 + (Position(c) - 29)
  {
    var i := Position(c);
    assert i < |AllCommands| && Code(c) == Layout(i);
  }
}
