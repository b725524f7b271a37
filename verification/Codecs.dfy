/** A text encoding of hardware snapshots and timelines, and with it codecs and a configuration
    that meet what the producers ask of theirs: those hypotheses can be met, all at once. */
module Codecs {
  import opened Common
  import opened Protocol
  import opened Hardware
  import opened Difference
  import opened ChangeHistory
  import opened Signing
  import InventoryEngine
  import SoftwareEngine
  import NormalLists
  import opened Counterexamples
  import HeartbeatEngine
  import opened Software

  // ---------------------------------------------------------------- packing fields

  /** Every character after a dot, and a semicolon at the end. */
  function Quote(s: string): string {
    if s == "" then [';'] else ['.', s[0]] + Quote(s[1..])
  }

  function Pack(fields: seq<string>): string {
    if fields == [] then "" else Quote(fields[0]) + Pack(fields[1..])
  }

  /** A quoted field shows where it ends. */
  lemma {:induction false} QuoteDelimits(a: string, b: string, x: string, y: string)
    requires Quote(a) + x == Quote(b) + y
    ensures a == b && x == y
  {
    var u, v := Quote(a) + x, Quote(b) + y;
    assert u[0] == v[0];
    if a == "" || b == "" {
      assert a == b;
      assert u[1..] == x && v[1..] == y;
    } else {
      assert u[1] == v[1];
      assert u[2..] == Quote(a[1..]) + x && v[2..] == Quote(b[1..]) + y;
      QuoteDelimits(a[1..], b[1..], x, y);
      assert a == [a[0]] + a[1..] && b == [b[0]] + b[1..];
    }
  }

  /** A packed text determines its fields, whatever they contain and however many they are. */
  lemma {:induction false} PackInjective(a: seq<string>, b: seq<string>)
    requires Pack(a) == Pack(b)
    ensures a == b
  {
    if a != [] && b != [] {
      QuoteDelimits(a[0], b[0], Pack(a[1..]), Pack(b[1..]));
      PackInjective(a[1..], b[1..]);
      assert a == [a[0]] + a[1..] && b == [b[0]] + b[1..];
    }
  }

  function ListText<T>(text: T -> string, s: seq<T>): string { Pack(NormalLists.Map(text, s)) }

  lemma ListTextInjective<T(!new)>(text: T -> string, a: seq<T>, b: seq<T>)
    requires forall x, y :: text(x) == text(y) ==> x == y
    requires ListText(text, a) == ListText(text, b)
    ensures a == b
  {
    var u, v := NormalLists.Map(text, a), NormalLists.Map(text, b);
    PackInjective(u, v);
    assert |a| == |b|;
    forall i | 0 <= i < |a| ensures a[i] == b[i] { assert u[i] == v[i]; }
  }

  function Flag(b: bool): string { if b then "t" else "f" }

  function SectionNumber(s: Section): nat {
    match s
    case WholeHardware => 0
    case GeneralSection => 1
    case SystemSection => 2
    case CpuSection => 3
    case MemorySection => 4
    case StorageSection => 5
    case NetworkSection => 6
    case MotherboardSection => 7
    case BiosSection => 8
    case SecuritySection => 9
    case DisplaySection => 10
    case GpuSection => 11
  }

  function SectionText(s: Section): string { Decimal(SectionNumber(s)) }

  // ---------------------------------------------------------------- records

  function DateText(d: Option<int>): string { if d.None? then Pack([]) else Pack([Decimal(d.value)]) }

  lemma DateTextInjective(a: Option<int>, b: Option<int>)
    requires DateText(a) == DateText(b)
    ensures a == b
  {
    var u, v := if a.None? then [] else [Decimal(a.value)], if b.None? then [] else [Decimal(b.value)];
    PackInjective(u, v);
    assert a.Some? && b.Some? ==> u[0] == v[0];
    if a.Some? && b.Some? { DecimalInjective(a.value, b.value); }
  }

  function GeneralFields(x: General): seq<string> {
    [x.computerName, x.machineUuid, x.serialNumber, x.assetTag, x.manufacturer, x.model, x.productName]
  }

  function GeneralText(x: General): string { Pack(GeneralFields(x)) }

  lemma GeneralTextInjective(a: General, b: General)
    requires GeneralText(a) == GeneralText(b)
    ensures a == b
  {
    var u, v := GeneralFields(a), GeneralFields(b);
    PackInjective(u, v);
    assert u[0] == v[0] && u[1] == v[1] && u[2] == v[2] && u[3] == v[3] && u[4] == v[4] && u[5] == v[5] &&
           u[6] == v[6];
  }

  function SystemFields(x: OperatingSystem): seq<string> {
    [x.edition, x.version, x.buildNumber, x.architecture, x.installDate, x.lastBootTime, x.domain, x.workgroup,
     x.timezone]
  }

  function SystemText(x: OperatingSystem): string { Pack(SystemFields(x)) }

  lemma SystemTextInjective(a: OperatingSystem, b: OperatingSystem)
    requires SystemText(a) == SystemText(b)
    ensures a == b
  {
    var u, v := SystemFields(a), SystemFields(b);
    PackInjective(u, v);
    assert u[0] == v[0] && u[1] == v[1] && u[2] == v[2] && u[3] == v[3] && u[4] == v[4] && u[5] == v[5] &&
           u[6] == v[6] && u[7] == v[7] && u[8] == v[8];
  }

  function CpuFields(x: Cpu): seq<string> {
    [x.model, x.manufacturer, x.socket, Decimal(x.logicalCores), Decimal(x.physicalCores), Decimal(x.threads),
     Decimal(x.clockMHz)]
  }

  function CpuText(x: Cpu): string { Pack(CpuFields(x)) }

  lemma CpuTextInjective(a: Cpu, b: Cpu)
    requires CpuText(a) == CpuText(b)
    ensures a == b
  {
    var u, v := CpuFields(a), CpuFields(b);
    PackInjective(u, v);
    assert u[0] == v[0] && u[1] == v[1] && u[2] == v[2] && u[3] == v[3] && u[4] == v[4] && u[5] == v[5] &&
           u[6] == v[6];
    DecimalInjective(a.logicalCores, b.logicalCores);
    DecimalInjective(a.physicalCores, b.physicalCores);
    DecimalInjective(a.threads, b.threads);
    DecimalInjective(a.clockMHz, b.clockMHz);
  }

  function ModuleFields(x: MemoryModule): seq<string> {
    [x.locator, x.manufacturer, x.partNumber, Decimal(x.capacity), Decimal(x.speedMHz)]
  }

  function ModuleText(x: MemoryModule): string { Pack(ModuleFields(x)) }

  lemma ModuleTextInjective(a: MemoryModule, b: MemoryModule)
    requires ModuleText(a) == ModuleText(b)
    ensures a == b
  {
    var u, v := ModuleFields(a), ModuleFields(b);
    PackInjective(u, v);
    assert u[0] == v[0] && u[1] == v[1] && u[2] == v[2] && u[3] == v[3] && u[4] == v[4];
    DecimalInjective(a.capacity, b.capacity);
    DecimalInjective(a.speedMHz, b.speedMHz);
  }

  lemma ModuleTextsInjective(a: seq<MemoryModule>, b: seq<MemoryModule>)
    requires ListText(ModuleText, a) == ListText(ModuleText, b)
    ensures a == b
  {
    forall x, y | ModuleText(x) == ModuleText(y) ensures x == y { ModuleTextInjective(x, y); }
    ListTextInjective(ModuleText, a, b);
  }

  function MemoryFields(x: Memory<seq<MemoryModule>>): seq<string> {
    [Decimal(x.totalBytes), Decimal(x.usedBytes), Decimal(x.availableBytes), Decimal(x.totalGB),
     Decimal(x.usedGB), Decimal(x.availableGB), Decimal(x.usagePercent), Decimal(x.slots),
     ListText(ModuleText, x.modules)]
  }

  function MemoryText(x: Memory<seq<MemoryModule>>): string { Pack(MemoryFields(x)) }

  lemma MemoryTextInjective(a: Memory<seq<MemoryModule>>, b: Memory<seq<MemoryModule>>)
    requires MemoryText(a) == MemoryText(b)
    ensures a == b
  {
    var u, v := MemoryFields(a), MemoryFields(b);
    PackInjective(u, v);
    assert u[0] == v[0] && u[1] == v[1] && u[2] == v[2] && u[3] == v[3] && u[4] == v[4] && u[5] == v[5] &&
           u[6] == v[6] && u[7] == v[7] && u[8] == v[8];
    DecimalInjective(a.totalBytes, b.totalBytes);
    DecimalInjective(a.usedBytes, b.usedBytes);
    DecimalInjective(a.availableBytes, b.availableBytes);
    DecimalInjective(a.totalGB, b.totalGB);
    DecimalInjective(a.usedGB, b.usedGB);
    DecimalInjective(a.availableGB, b.availableGB);
    DecimalInjective(a.usagePercent, b.usagePercent);
    DecimalInjective(a.slots, b.slots);
    ModuleTextsInjective(a.modules, b.modules);
  }

  function DeviceFields(x: StorageDevice): seq<string> {
    [x.deviceId, x.kind, x.model, x.serialNumber, x.health, x.smartStatus, Decimal(x.totalBytes),
     Decimal(x.freeBytes), Decimal(x.usedBytes), Decimal(x.capacityGB), Decimal(x.usedGB), Decimal(x.freeGB),
     x.filesystem, x.driveType]
  }

  function DeviceText(x: StorageDevice): string { Pack(DeviceFields(x)) }

  lemma DeviceTextInjective(a: StorageDevice, b: StorageDevice)
    requires DeviceText(a) == DeviceText(b)
    ensures a == b
  {
    var u, v := DeviceFields(a), DeviceFields(b);
    PackInjective(u, v);
    assert u[0] == v[0] && u[1] == v[1] && u[2] == v[2] && u[3] == v[3] && u[4] == v[4] && u[5] == v[5] &&
           u[6] == v[6] && u[7] == v[7] && u[8] == v[8] && u[9] == v[9] && u[10] == v[10] && u[11] == v[11] &&
           u[12] == v[12] && u[13] == v[13];
    DecimalInjective(a.totalBytes, b.totalBytes);
    DecimalInjective(a.freeBytes, b.freeBytes);
    DecimalInjective(a.usedBytes, b.usedBytes);
    DecimalInjective(a.capacityGB, b.capacityGB);
    DecimalInjective(a.usedGB, b.usedGB);
    DecimalInjective(a.freeGB, b.freeGB);
  }

  lemma DeviceTextsInjective(a: seq<StorageDevice>, b: seq<StorageDevice>)
    requires ListText(DeviceText, a) == ListText(DeviceText, b)
    ensures a == b
  {
    forall x, y | DeviceText(x) == DeviceText(y) ensures x == y { DeviceTextInjective(x, y); }
    ListTextInjective(DeviceText, a, b);
  }

  function DiskFields(x: DiskInventory<seq<StorageDevice>>): seq<string> {
    [Decimal(x.totalBytes), Decimal(x.usedBytes), Decimal(x.freeBytes), Decimal(x.totalGB), Decimal(x.usedGB),
     Decimal(x.freeGB), x.model, x.kind, x.serialNumber, x.health, x.smartStatus,
     ListText(DeviceText, x.devices)]
  }

  function DiskText(x: DiskInventory<seq<StorageDevice>>): string { Pack(DiskFields(x)) }

  lemma DiskTextInjective(a: DiskInventory<seq<StorageDevice>>, b: DiskInventory<seq<StorageDevice>>)
    requires DiskText(a) == DiskText(b)
    ensures a == b
  {
    var u, v := DiskFields(a), DiskFields(b);
    PackInjective(u, v);
    assert u[0] == v[0] && u[1] == v[1] && u[2] == v[2] && u[3] == v[3] && u[4] == v[4] && u[5] == v[5] &&
           u[6] == v[6] && u[7] == v[7] && u[8] == v[8] && u[9] == v[9] && u[10] == v[10] && u[11] == v[11];
    DecimalInjective(a.totalBytes, b.totalBytes);
    DecimalInjective(a.usedBytes, b.usedBytes);
    DecimalInjective(a.freeBytes, b.freeBytes);
    DecimalInjective(a.totalGB, b.totalGB);
    DecimalInjective(a.usedGB, b.usedGB);
    DecimalInjective(a.freeGB, b.freeGB);
    DeviceTextsInjective(a.devices, b.devices);
  }

  function AdapterFields(x: NetworkAdapter): seq<string> {
    [x.name, x.description, Pack(x.ipAddress), x.macAddress, Pack(x.gateway), Pack(x.dns), Flag(x.dhcp),
     x.dhcpServer, Decimal(x.linkSpeed), x.status]
  }

  function AdapterText(x: NetworkAdapter): string { Pack(AdapterFields(x)) }

  lemma AdapterTextInjective(a: NetworkAdapter, b: NetworkAdapter)
    requires AdapterText(a) == AdapterText(b)
    ensures a == b
  {
    var u, v := AdapterFields(a), AdapterFields(b);
    PackInjective(u, v);
    assert u[0] == v[0] && u[1] == v[1] && u[2] == v[2] && u[3] == v[3] && u[4] == v[4] && u[5] == v[5] &&
           u[6] == v[6] && u[7] == v[7] && u[8] == v[8] && u[9] == v[9];
    PackInjective(a.ipAddress, b.ipAddress);
    PackInjective(a.gateway, b.gateway);
    PackInjective(a.dns, b.dns);
    DecimalInjective(a.linkSpeed, b.linkSpeed);
  }

  lemma AdapterTextsInjective(a: seq<NetworkAdapter>, b: seq<NetworkAdapter>)
    requires ListText(AdapterText, a) == ListText(AdapterText, b)
    ensures a == b
  {
    forall x, y | AdapterText(x) == AdapterText(y) ensures x == y { AdapterTextInjective(x, y); }
    ListTextInjective(AdapterText, a, b);
  }

  function BoardFields(x: Motherboard): seq<string> {
    [x.manufacturer, x.product, x.serialNumber]
  }

  function BoardText(x: Motherboard): string { Pack(BoardFields(x)) }

  lemma BoardTextInjective(a: Motherboard, b: Motherboard)
    requires BoardText(a) == BoardText(b)
    ensures a == b
  {
    var u, v := BoardFields(a), BoardFields(b);
    PackInjective(u, v);
    assert u[0] == v[0] && u[1] == v[1] && u[2] == v[2];
  }

  function BiosFields(x: Bios): seq<string> {
    [x.manufacturer, x.version, x.serialNumber, x.releaseDate]
  }

  function BiosText(x: Bios): string { Pack(BiosFields(x)) }

  lemma BiosTextInjective(a: Bios, b: Bios)
    requires BiosText(a) == BiosText(b)
    ensures a == b
  {
    var u, v := BiosFields(a), BiosFields(b);
    PackInjective(u, v);
    assert u[0] == v[0] && u[1] == v[1] && u[2] == v[2] && u[3] == v[3];
  }

  function StateFields(x: SecurityState): seq<string> {
    [Flag(x.available), Flag(x.enabled), x.status]
  }

  function StateText(x: SecurityState): string { Pack(StateFields(x)) }

  lemma StateTextInjective(a: SecurityState, b: SecurityState)
    requires StateText(a) == StateText(b)
    ensures a == b
  {
    var u, v := StateFields(a), StateFields(b);
    PackInjective(u, v);
    assert u[0] == v[0] && u[1] == v[1] && u[2] == v[2];
  }

  function SecurityFields(x: Security): seq<string> {
    [StateText(x.tpm), StateText(x.secureBoot), StateText(x.bitLocker), StateText(x.defender),
     StateText(x.firewall)]
  }

  function SecurityText(x: Security): string { Pack(SecurityFields(x)) }

  lemma SecurityTextInjective(a: Security, b: Security)
    requires SecurityText(a) == SecurityText(b)
    ensures a == b
  {
    var u, v := SecurityFields(a), SecurityFields(b);
    PackInjective(u, v);
    assert u[0] == v[0] && u[1] == v[1] && u[2] == v[2] && u[3] == v[3] && u[4] == v[4];
    StateTextInjective(a.tpm, b.tpm);
    StateTextInjective(a.secureBoot, b.secureBoot);
    StateTextInjective(a.bitLocker, b.bitLocker);
    StateTextInjective(a.defender, b.defender);
    StateTextInjective(a.firewall, b.firewall);
  }

  function MonitorFields(x: Monitor): seq<string> {
    [x.name, x.manufacturer, x.serialNumber, Decimal(x.width), Decimal(x.height)]
  }

  function MonitorText(x: Monitor): string { Pack(MonitorFields(x)) }

  lemma MonitorTextInjective(a: Monitor, b: Monitor)
    requires MonitorText(a) == MonitorText(b)
    ensures a == b
  {
    var u, v := MonitorFields(a), MonitorFields(b);
    PackInjective(u, v);
    assert u[0] == v[0] && u[1] == v[1] && u[2] == v[2] && u[3] == v[3] && u[4] == v[4];
    DecimalInjective(a.width, b.width);
    DecimalInjective(a.height, b.height);
  }

  lemma MonitorTextsInjective(a: seq<Monitor>, b: seq<Monitor>)
    requires ListText(MonitorText, a) == ListText(MonitorText, b)
    ensures a == b
  {
    forall x, y | MonitorText(x) == MonitorText(y) ensures x == y { MonitorTextInjective(x, y); }
    ListTextInjective(MonitorText, a, b);
  }

  function GpuFields(x: Gpu): seq<string> {
    [x.name, x.driverVersion, Decimal(x.width), Decimal(x.height)]
  }

  function GpuText(x: Gpu): string { Pack(GpuFields(x)) }

  lemma GpuTextInjective(a: Gpu, b: Gpu)
    requires GpuText(a) == GpuText(b)
    ensures a == b
  {
    var u, v := GpuFields(a), GpuFields(b);
    PackInjective(u, v);
    assert u[0] == v[0] && u[1] == v[1] && u[2] == v[2] && u[3] == v[3];
    DecimalInjective(a.width, b.width);
    DecimalInjective(a.height, b.height);
  }

  lemma GpuTextsInjective(a: seq<Gpu>, b: seq<Gpu>)
    requires ListText(GpuText, a) == ListText(GpuText, b)
    ensures a == b
  {
    forall x, y | GpuText(x) == GpuText(y) ensures x == y { GpuTextInjective(x, y); }
    ListTextInjective(GpuText, a, b);
  }

  function UsersFields(x: Users): seq<string> {
    [x.current, x.last]
  }

  function UsersText(x: Users): string { Pack(UsersFields(x)) }

  lemma UsersTextInjective(a: Users, b: Users)
    requires UsersText(a) == UsersText(b)
    ensures a == b
  {
    var u, v := UsersFields(a), UsersFields(b);
    PackInjective(u, v);
    assert u[0] == v[0] && u[1] == v[1];
  }

  function SnapshotFields(x: Snapshot): seq<string> {
    [GeneralText(x.general), SystemText(x.operatingSystem), CpuText(x.cpu), MemoryText(x.ram),
     DiskText(x.disk), ListText(DeviceText, x.storage), ListText(AdapterText, x.nic),
     ListText(AdapterText, x.network), BoardText(x.motherboard), BiosText(x.bios), SecurityText(x.security),
     ListText(MonitorText, x.monitor), ListText(GpuText, x.gpu), UsersText(x.users), x.serialNumber]
  }

  function SnapshotText(x: Snapshot): string { Pack(SnapshotFields(x)) }

  lemma SnapshotTextInjective(a: Snapshot, b: Snapshot)
    requires SnapshotText(a) == SnapshotText(b)
    ensures a == b
  {
    var u, v := SnapshotFields(a), SnapshotFields(b);
    PackInjective(u, v);
    assert u[0] == v[0] && u[1] == v[1] && u[2] == v[2] && u[3] == v[3] && u[4] == v[4] && u[5] == v[5] &&
           u[6] == v[6] && u[7] == v[7] && u[8] == v[8] && u[9] == v[9] && u[10] == v[10] && u[11] == v[11] &&
           u[12] == v[12] && u[13] == v[13] && u[14] == v[14];
    GeneralTextInjective(a.general, b.general);
    SystemTextInjective(a.operatingSystem, b.operatingSystem);
    CpuTextInjective(a.cpu, b.cpu);
    MemoryTextInjective(a.ram, b.ram);
    DiskTextInjective(a.disk, b.disk);
    DeviceTextsInjective(a.storage, b.storage);
    AdapterTextsInjective(a.nic, b.nic);
    AdapterTextsInjective(a.network, b.network);
    BoardTextInjective(a.motherboard, b.motherboard);
    BiosTextInjective(a.bios, b.bios);
    SecurityTextInjective(a.security, b.security);
    MonitorTextsInjective(a.monitor, b.monitor);
    GpuTextsInjective(a.gpu, b.gpu);
    UsersTextInjective(a.users, b.users);
  }

  function ChangeFields(x: Change): seq<string> {
    [SectionText(x.section), Flag(x.initial), x.detail]
  }

  function ChangeText(x: Change): string { Pack(ChangeFields(x)) }

  lemma ChangeTextInjective(a: Change, b: Change)
    requires ChangeText(a) == ChangeText(b)
    ensures a == b
  {
    var u, v := ChangeFields(a), ChangeFields(b);
    PackInjective(u, v);
    assert u[0] == v[0] && u[1] == v[1] && u[2] == v[2];
    DecimalInjective(SectionNumber(a.section), SectionNumber(b.section));
  }

  lemma ChangeTextsInjective(a: seq<Change>, b: seq<Change>)
    requires ListText(ChangeText, a) == ListText(ChangeText, b)
    ensures a == b
  {
    forall x, y | ChangeText(x) == ChangeText(y) ensures x == y { ChangeTextInjective(x, y); }
    ListTextInjective(ChangeText, a, b);
  }

  function InstallationFields(x: Installation): seq<string> {
    [x.name, x.displayName, x.version, x.publisher, x.architecture, DateText(x.installDate), x.installLocation,
     x.uninstallString, x.quietUninstallString, x.registryKey, x.source, x.scope, x.evidence,
     Decimal(x.firstSeen), Decimal(x.lastSeen)]
  }

  function InstallationText(x: Installation): string { Pack(InstallationFields(x)) }

  lemma InstallationTextInjective(a: Installation, b: Installation)
    requires InstallationText(a) == InstallationText(b)
    ensures a == b
  {
    var u, v := InstallationFields(a), InstallationFields(b);
    PackInjective(u, v);
    assert u[0] == v[0] && u[1] == v[1] && u[2] == v[2] && u[3] == v[3] && u[4] == v[4] && u[5] == v[5] &&
           u[6] == v[6] && u[7] == v[7] && u[8] == v[8] && u[9] == v[9] && u[10] == v[10] && u[11] == v[11] &&
           u[12] == v[12] && u[13] == v[13] && u[14] == v[14];
    DateTextInjective(a.installDate, b.installDate);
    DecimalInjective(a.firstSeen, b.firstSeen);
    DecimalInjective(a.lastSeen, b.lastSeen);
  }

  lemma InstallationTextsInjective(a: seq<Installation>, b: seq<Installation>)
    requires ListText(InstallationText, a) == ListText(InstallationText, b)
    ensures a == b
  {
    forall x, y | InstallationText(x) == InstallationText(y) ensures x == y { InstallationTextInjective(x, y); }
    ListTextInjective(InstallationText, a, b);
  }

  function EventFields(x: Event): seq<string> {
    [x.time, x.fingerprint, ListText(ChangeText, x.changes)]
  }

  function EventText(x: Event): string { Pack(EventFields(x)) }

  lemma EventTextInjective(a: Event, b: Event)
    requires EventText(a) == EventText(b)
    ensures a == b
  {
    var u, v := EventFields(a), EventFields(b);
    PackInjective(u, v);
    assert u[0] == v[0] && u[1] == v[1] && u[2] == v[2];
    ChangeTextsInjective(a.changes, b.changes);
  }

  lemma EventTextsInjective(a: seq<Event>, b: seq<Event>)
    requires ListText(EventText, a) == ListText(EventText, b)
    ensures a == b
  {
    forall x, y | EventText(x) == EventText(y) ensures x == y { EventTextInjective(x, y); }
    ListTextInjective(EventText, a, b);
  }


  // ---------------------------------------------------------------- reading back

  ghost function ParseSnapshot(text: string): Option<Snapshot> {
    if exists h :: SnapshotText(h) == text then var h :| SnapshotText(h) == text; Some(h) else None
  }

  lemma ParsesSnapshot(h: Snapshot)
    ensures ParseSnapshot(SnapshotText(h)) == Some(h)
  {
    hide SnapshotText;
    SnapshotTextInjective(ParseSnapshot(SnapshotText(h)).value, h);
  }

  function TimelineText(t: seq<Event>): string { ListText(EventText, t) }

  ghost function ParseTimeline(text: string): Option<seq<Event>> {
    if exists t :: TimelineText(t) == text then var t :| TimelineText(t) == text; Some(t) else None
  }

  lemma ParsesTimeline(t: seq<Event>)
    ensures ParseTimeline(TimelineText(t)) == Some(t)
  {
    hide EventText;
    EventTextsInjective(ParseTimeline(TimelineText(t)).value, t);
  }

  // ---------------------------------------------------------------- the hypotheses can be met

  function Digest(x: string): string { ['#'] + x }

  function InventoryText(p: InventoryEngine.Payload): string {
    Pack([Flag(true), p.fingerprint, p.agentUuid, p.hostname, ListText(ChangeText, p.changes),
          SnapshotText(p.hardware), p.extra])
  }

  ghost function InventoryCodec(): InventoryEngine.Codec {
    InventoryEngine.Codec(
      InventoryText, SnapshotText, (x: string) => ParseSnapshot(x),
      (c: seq<Change>) => ListText(ChangeText, c), TimelineText, (x: string) => ParseTimeline(x), Digest)
  }

  function SoftwareIdentity(agentUuid: string, items: seq<Installation>): string {
    Pack([agentUuid, ListText(InstallationText, items)])
  }

  function SoftwareText(p: SoftwareEngine.Payload): string {
    Pack([Flag(false), p.agentUuid, p.collectedAt, ListText(InstallationText, p.items)])
  }

  ghost function SoftwareCodec(): SoftwareEngine.Codec {
    SoftwareEngine.Codec(SoftwareText, SoftwareIdentity, Digest)
  }

  ghost predicate IsInventory(x: Bytes) {
    exists p: InventoryEngine.Payload :: InventoryEngine.IsOwn(InventoryCodec(), p) && InventoryText(p) == x
  }

  ghost predicate IsSoftware(x: Bytes) { exists p: SoftwareEngine.Payload :: SoftwareText(p) == x }

  /** What each producer makes. */
  ghost predicate Genuine(p: Proc, x: Bytes) {
    match p
    case Heartbeat => true
    case Inventory => IsInventory(x)
    case Software => IsSoftware(x)
  }

  /** The fingerprint of what the bytes carry: of the snapshot, or of agent and list. */
  ghost function Print(x: Bytes): string {
    if IsInventory(x) then
      var p: InventoryEngine.Payload :| InventoryEngine.IsOwn(InventoryCodec(), p) && InventoryText(p) == x;
      InventoryEngine.Fingerprint(InventoryCodec(), p.hardware)
    else if IsSoftware(x) then
      var p: SoftwareEngine.Payload :| SoftwareText(p) == x;
      SoftwareEngine.PayloadFingerprint(SoftwareCodec(), p)
    else ""
  }

  /** One shared engine. */
  ghost function SharedConfig(): Config {
    Config((p: Proc) => 0, (x: Bytes) => Print(x), (p: Proc, x: Bytes) => Genuine(p, x))
  }

  lemma DigestInjective(x: string, y: string)
    requires Digest(x) == Digest(y)
    ensures x == y
  {
    assert Digest(x)[1..] == x && Digest(y)[1..] == y;
  }

  lemma InventoryTextCarries(p: InventoryEngine.Payload, q: InventoryEngine.Payload)
    requires InventoryText(p) == InventoryText(q)
    ensures p.hardware == q.hardware
  {
    var u := [Flag(true), p.fingerprint, p.agentUuid, p.hostname, ListText(ChangeText, p.changes),
              SnapshotText(p.hardware), p.extra];
    var v := [Flag(true), q.fingerprint, q.agentUuid, q.hostname, ListText(ChangeText, q.changes),
              SnapshotText(q.hardware), q.extra];
    PackInjective(u, v);
    assert u[5] == v[5];
    SnapshotTextInjective(p.hardware, q.hardware);
  }

  lemma SoftwareTextCarries(p: SoftwareEngine.Payload, q: SoftwareEngine.Payload)
    requires SoftwareText(p) == SoftwareText(q)
    ensures p.agentUuid == q.agentUuid && p.items == q.items
  {
    var u := [Flag(false), p.agentUuid, p.collectedAt, ListText(InstallationText, p.items)];
    var v := [Flag(false), q.agentUuid, q.collectedAt, ListText(InstallationText, q.items)];
    PackInjective(u, v);
    assert u[1] == v[1] && u[3] == v[3];
    InstallationTextsInjective(p.items, q.items);
  }

  lemma TextsDiffer(p: InventoryEngine.Payload, q: SoftwareEngine.Payload)
    ensures InventoryText(p) != SoftwareText(q)
  {
    var u := [Flag(true), p.fingerprint, p.agentUuid, p.hostname, ListText(ChangeText, p.changes),
              SnapshotText(p.hardware), p.extra];
    var v := [Flag(false), q.agentUuid, q.collectedAt, ListText(InstallationText, q.items)];
    assert |u| != |v|;
    if InventoryText(p) == SoftwareText(q) { PackInjective(u, v); }
  }

  lemma SoftwareIdentityInjective(a: string, s: seq<Installation>, b: string, t: seq<Installation>)
    requires SoftwareIdentity(a, s) == SoftwareIdentity(b, t)
    ensures a == b && s == t
  {
    var u, v := [a, ListText(InstallationText, s)], [b, ListText(InstallationText, t)];
    PackInjective(u, v);
    assert u[0] == v[0] && u[1] == v[1];
    InstallationTextsInjective(s, t);
  }

  lemma PrintOfInventory(p: InventoryEngine.Payload)
    requires InventoryEngine.IsOwn(InventoryCodec(), p)
    ensures IsInventory(InventoryText(p)) && Print(InventoryText(p)) == p.fingerprint
  {
    hide InventoryText, InventoryEngine.Fingerprint;
    assert IsInventory(InventoryText(p));
    forall q | InventoryText(q) == InventoryText(p) ensures q.hardware == p.hardware { InventoryTextCarries(q, p); }
  }

  lemma PrintOfSoftware(p: SoftwareEngine.Payload)
    ensures IsSoftware(SoftwareText(p))
    ensures Print(SoftwareText(p)) == SoftwareEngine.PayloadFingerprint(SoftwareCodec(), p)
  {
    hide SoftwareText, InventoryText, SoftwareIdentity;
    assert IsSoftware(SoftwareText(p));
    forall q ensures InventoryText(q) != SoftwareText(p) { TextsDiffer(q, p); }
    forall q | SoftwareText(q) == SoftwareText(p) ensures q.agentUuid == p.agentUuid && q.items == p.items {
      SoftwareTextCarries(q, p);
    }
  }

  lemma SnapshotTextNotEmpty(h: Snapshot)
    ensures SnapshotText(h) != ""
  {
    var f := SnapshotFields(h);
    assert Quote(f[0]) != "";
  }

  lemma InventoryHypotheses()
    ensures InventoryEngine.Agrees(SharedConfig(), InventoryCodec())
    ensures InventoryEngine.MakesOnlyOwn(SharedConfig(), InventoryCodec())
    ensures InventoryEngine.NoCollision(InventoryCodec())
  {
    hide SnapshotText, TimelineText, ParseSnapshot, ParseTimeline, Print, InventoryText, InventoryEngine.Fingerprint;
    forall h ensures ParseSnapshot(SnapshotText(h)) == Some(h) && SnapshotText(h) != "" {
      ParsesSnapshot(h);
      SnapshotTextNotEmpty(h);
    }
    forall t ensures ParseTimeline(TimelineText(t)) == Some(t) { ParsesTimeline(t); }
    forall p | InventoryEngine.IsOwn(InventoryCodec(), p)
      ensures IsInventory(InventoryText(p)) && Print(InventoryText(p)) == p.fingerprint
    {
      PrintOfInventory(p);
    }
    forall x, y | Digest(x) == Digest(y) ensures x == y { DigestInjective(x, y); }
  }

  lemma SoftwareHypotheses()
    ensures SoftwareEngine.Agrees(SharedConfig(), SoftwareCodec())
    ensures SoftwareEngine.MakesOnlyOwn(SharedConfig(), SoftwareCodec())
    ensures SoftwareEngine.NoCollision(SoftwareCodec())
  {
    hide Print, SoftwareText, SoftwareIdentity;
    forall p: SoftwareEngine.Payload
      ensures IsSoftware(SoftwareText(p))
      ensures Print(SoftwareText(p)) == SoftwareEngine.PayloadFingerprint(SoftwareCodec(), p)
    {
      PrintOfSoftware(p);
    }
    forall x, y | Digest(x) == Digest(y) ensures x == y { DigestInjective(x, y); }
    forall a, s, b, t | SoftwareIdentity(a, s) == SoftwareIdentity(b, t) ensures a == b && s == t {
      SoftwareIdentityInjective(a, s, b, t);
    }
  }

  lemma SomeInventory() returns (x: Bytes)
    ensures IsInventory(x)
  {
    var h: Snapshot := *;
    var p: InventoryEngine.Payload := *;
    hide SnapshotText, InventoryText;
    p := p.(hardware := h, fingerprint := InventoryEngine.Fingerprint(InventoryCodec(), h));
    x := InventoryText(p);
    assert InventoryEngine.IsOwn(InventoryCodec(), p);
  }

  lemma SomeSoftware() returns (x: Bytes)
    ensures IsSoftware(x)
  {
    var p: SoftwareEngine.Payload := *;
    x := SoftwareText(p);
    PrintOfSoftware(p);
  }

  /** Every producer has something to send. */
  lemma AllProductive()
    ensures Productive(SharedConfig())
  {
    hide IsInventory, IsSoftware, Print;
    var x := SomeInventory();
    var y := SomeSoftware();
    forall p: Proc ensures MakesSome(SharedConfig(), p) {
      assert SharedConfig().genuine(p, if p == Inventory then x else y);
    }
  }

  /** What the delivery theorems and the three producers ask of configuration and codecs, including
      freedom from collisions and that every producer makes its own payloads only, is met together. */
  lemma HypothesesCanBeMet(heartbeat: HeartbeatEngine.Payload -> Bytes)
    ensures SingleEngine(SharedConfig()) && Productive(SharedConfig())
    ensures HeartbeatEngine.Agrees(SharedConfig(), heartbeat)
    ensures InventoryEngine.Agrees(SharedConfig(), InventoryCodec())
    ensures InventoryEngine.MakesOnlyOwn(SharedConfig(), InventoryCodec())
    ensures InventoryEngine.NoCollision(InventoryCodec())
    ensures SoftwareEngine.Agrees(SharedConfig(), SoftwareCodec())
    ensures SoftwareEngine.MakesOnlyOwn(SharedConfig(), SoftwareCodec())
    ensures SoftwareEngine.NoCollision(SoftwareCodec())
  {
    hide InventoryEngine.Agrees, InventoryEngine.MakesOnlyOwn, InventoryEngine.NoCollision;
    hide SoftwareEngine.Agrees, SoftwareEngine.MakesOnlyOwn, SoftwareEngine.NoCollision;
    InventoryHypotheses();
    SoftwareHypotheses();
    AllProductive();
  }
}
