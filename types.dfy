/** The records and enumerations the Freestyle client is built on: lock states,
    volume levels, a lock snapshot, a home, a property and a session.
    A lock snapshot's 17 fields are also addressed generically, through `Field`
    and `Get`, in the order in which the record declares them. */
module Types {

  datatype Option<+T> = None | Some(value: T)

  /** The three states a lock reports or is asked to take. */
  datatype LockState = Unlocked | LockedPrivacy | LockedDeadlock

  /** The string each lock state stands for on the wire: its own name. */
  function LockStateValue(s: LockState): string {
    match s
    case Unlocked => "UNLOCKED"
    case LockedPrivacy => "LOCKED_PRIVACY"
    case LockedDeadlock => "LOCKED_DEADLOCK"
  }

  /** Distinct lock states are sent as distinct strings. */
  lemma LockStateValueInjective(s: LockState, t: LockState)
    requires LockStateValue(s) == LockStateValue(t)
    ensures s == t
  {
  }

  /** The three audio volume levels of a lock. */
  datatype Volume = Low | Medium | High

  /** The string each volume level stands for on the wire: its own name. */
  function VolumeValue(v: Volume): string {
    match v
    case Low => "LOW"
    case Medium => "MEDIUM"
    case High => "HIGH"
  }

  /** Distinct volume levels are sent as distinct strings. */
  lemma VolumeValueInjective(v: Volume, w: Volume)
    requires VolumeValue(v) == VolumeValue(w)
    ensures v == w
  {
  }

  /** One snapshot of a lock. `desiredState` may be null; `reportedState` may not.
      JavaScript numbers are modelled as unbounded integers. */
  datatype Lock = Lock(
    bleMac: string,
    serial: string,
    displayName: string,
    reportedState: LockState,
    desiredState: Option<LockState>,
    doorSensorDetected: bool,
    autoRelockTimeSeconds: int,
    audioVolume: Volume,
    resyncRequested: bool,
    doorClosed: bool,
    tamperActive: bool,
    keypadLockoutActive: bool,
    batteryLow: bool,
    batteryPercent: int,
    lastSyncUnixTimestamp: int,
    diagnosticEnabled: bool,
    firmwareVersion: string)

  /** An element of the `users` or `gateways` lists of a home, which the client
      never looks into; kept as its raw JSON text. */
  datatype Opaque = Opaque(json: string)

  datatype Home = Home(
    propertyId: string,
    displayName: string,
    timezoneName: string,
    locks: seq<Lock>,
    users: seq<Opaque>,
    gateways: seq<Opaque>,
    createdTimestamp: int,
    updatedTimestamp: int)

  datatype Property = Property(propertyId: string, displayName: string)

  /** The credential the exchange service hands out; `expiresIn` is an absolute
      time in milliseconds, compared against the wall clock. */
  datatype Session = Session(idToken: string, refreshToken: string, expiresIn: int)

  /** The fields of a lock snapshot, in declaration order. */
  datatype Field =
    | BleMac | Serial | DisplayName | ReportedState | DesiredState
    | DoorSensorDetected | AutoRelockTimeSeconds | AudioVolume | ResyncRequested
    | DoorClosed | TamperActive | KeypadLockoutActive | BatteryLow
    | BatteryPercent | LastSyncUnixTimestamp | DiagnosticEnabled | FirmwareVersion

  const FieldCount: nat := 17

  /** Position of a field in the declaration order. */
  function Index(f: Field): (i: nat)
    ensures i < FieldCount
  {
    match f
    case BleMac => 0
    case Serial => 1
    case DisplayName => 2
    case ReportedState => 3
    case DesiredState => 4
    case DoorSensorDetected => 5
    case AutoRelockTimeSeconds => 6
    case AudioVolume => 7
    case ResyncRequested => 8
    case DoorClosed => 9
    case TamperActive => 10
    case KeypadLockoutActive => 11
    case BatteryLow => 12
    case BatteryPercent => 13
    case LastSyncUnixTimestamp => 14
    case DiagnosticEnabled => 15
    case FirmwareVersion => 16
  }

  /** The field at a position of the declaration order; the inverse of `Index`. */
  function FieldAt(i: nat): (f: Field)
    requires i < FieldCount
    ensures Index(f) == i
  {
    if i == 0 then BleMac
    else if i == 1 then Serial
    else if i == 2 then DisplayName
    else if i == 3 then ReportedState
    else if i == 4 then DesiredState
    else if i == 5 then DoorSensorDetected
    else if i == 6 then AutoRelockTimeSeconds
    else if i == 7 then AudioVolume
    else if i == 8 then ResyncRequested
    else if i == 9 then DoorClosed
    else if i == 10 then TamperActive
    else if i == 11 then KeypadLockoutActive
    else if i == 12 then BatteryLow
    else if i == 13 then BatteryPercent
    else if i == 14 then LastSyncUnixTimestamp
    else if i == 15 then DiagnosticEnabled
    else FirmwareVersion
  }

  /** `Index` is one-to-one: the order is a permutation of the 17 fields. */
  lemma FieldAtIndex(f: Field)
    ensures FieldAt(Index(f)) == f
  {
  }

  /** The position of each field in the declaration order. */
  lemma FieldPositions()
    ensures Index(BleMac) == 0 && Index(Serial) == 1 && Index(DisplayName) == 2 && Index(ReportedState) == 3
    ensures Index(DesiredState) == 4 && Index(DoorSensorDetected) == 5 && Index(AutoRelockTimeSeconds) == 6
    ensures Index(AudioVolume) == 7 && Index(ResyncRequested) == 8 && Index(DoorClosed) == 9
    ensures Index(TamperActive) == 10 && Index(KeypadLockoutActive) == 11 && Index(BatteryLow) == 12
    ensures Index(BatteryPercent) == 13 && Index(LastSyncUnixTimestamp) == 14
    ensures Index(DiagnosticEnabled) == 15 && Index(FirmwareVersion) == 16
  {
  }

  /** The JSON key under which the record carries a field. */
  function FieldName(f: Field): string {
    match f
    case BleMac => "bleMac"
    case Serial => "serial"
    case DisplayName => "displayName"
    case ReportedState => "reportedState"
    case DesiredState => "desiredState"
    case DoorSensorDetected => "doorSensorDetected"
    case AutoRelockTimeSeconds => "autoRelockTimeSeconds"
    case AudioVolume => "audioVolume"
    case ResyncRequested => "resyncRequested"
    case DoorClosed => "doorClosed"
    case TamperActive => "tamperActive"
    case KeypadLockoutActive => "keypadLockoutActive"
    case BatteryLow => "batteryLow"
    case BatteryPercent => "batteryPercent"
    case LastSyncUnixTimestamp => "lastSyncUnixTimestamp"
    case DiagnosticEnabled => "diagnosticEnabled"
    case FirmwareVersion => "firmwareVersion"
  }

  /** The value of one field, tagged with its type. */
  datatype Value =
    | Text(text: string)
    | Flag(flag: bool)
    | Number(number: int)
    | State(state: LockState)
    | NullableState(nullable: Option<LockState>)
    | Level(level: Volume)

  datatype Kind = TextKind | FlagKind | NumberKind | StateKind | NullableStateKind | LevelKind

  function KindOfValue(v: Value): Kind {
    match v
    case Text(_) => TextKind
    case Flag(_) => FlagKind
    case Number(_) => NumberKind
    case State(_) => StateKind
    case NullableState(_) => NullableStateKind
    case Level(_) => LevelKind
  }

  /** The declared type of each field. */
  function KindOf(f: Field): Kind {
    match f
    case BleMac | Serial | DisplayName | FirmwareVersion => TextKind
    case ReportedState => StateKind
    case DesiredState => NullableStateKind
    case AudioVolume => LevelKind
    case AutoRelockTimeSeconds | BatteryPercent | LastSyncUnixTimestamp => NumberKind
    case DoorSensorDetected | ResyncRequested | DoorClosed | TamperActive
      | KeypadLockoutActive | BatteryLow | DiagnosticEnabled => FlagKind
  }

  /** Reads one field of a snapshot; the value has the field's declared type. */
  function Get(l: Lock, f: Field): (v: Value)
    ensures KindOfValue(v) == KindOf(f)
  {
    match f
    case BleMac => Text(l.bleMac)
    case Serial => Text(l.serial)
    case DisplayName => Text(l.displayName)
    case ReportedState => State(l.reportedState)
    case DesiredState => NullableState(l.desiredState)
    case DoorSensorDetected => Flag(l.doorSensorDetected)
    case AutoRelockTimeSeconds => Number(l.autoRelockTimeSeconds)
    case AudioVolume => Level(l.audioVolume)
    case ResyncRequested => Flag(l.resyncRequested)
    case DoorClosed => Flag(l.doorClosed)
    case TamperActive => Flag(l.tamperActive)
    case KeypadLockoutActive => Flag(l.keypadLockoutActive)
    case BatteryLow => Flag(l.batteryLow)
    case BatteryPercent => Number(l.batteryPercent)
    case LastSyncUnixTimestamp => Number(l.lastSyncUnixTimestamp)
    case DiagnosticEnabled => Flag(l.diagnosticEnabled)
    case FirmwareVersion => Text(l.firmwareVersion)
  }

  /** The 17 fields are all a snapshot holds: two snapshots that agree on
      every field are the same snapshot. */
  lemma SnapshotDeterminedByFields(a: Lock, b: Lock)
    requires forall f :: Get(a, f) == Get(b, f)
    ensures a == b
  {
    assert Get(a, BleMac) == Get(b, BleMac) && Get(a, Serial) == Get(b, Serial);
    assert Get(a, DisplayName) == Get(b, DisplayName);
    assert Get(a, ReportedState) == Get(b, ReportedState);
    assert Get(a, DesiredState) == Get(b, DesiredState);
    assert Get(a, DoorSensorDetected) == Get(b, DoorSensorDetected);
    assert Get(a, AutoRelockTimeSeconds) == Get(b, AutoRelockTimeSeconds);
    assert Get(a, AudioVolume) == Get(b, AudioVolume);
    assert Get(a, ResyncRequested) == Get(b, ResyncRequested);
    assert Get(a, DoorClosed) == Get(b, DoorClosed);
    assert Get(a, TamperActive) == Get(b, TamperActive);
    assert Get(a, KeypadLockoutActive) == Get(b, KeypadLockoutActive);
    assert Get(a, BatteryLow) == Get(b, BatteryLow);
    assert Get(a, BatteryPercent) == Get(b, BatteryPercent);
    assert Get(a, LastSyncUnixTimestamp) == Get(b, LastSyncUnixTimestamp);
    assert Get(a, DiagnosticEnabled) == Get(b, DiagnosticEnabled);
    assert Get(a, FirmwareVersion) == Get(b, FirmwareVersion);
  }
}
