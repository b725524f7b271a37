/** The normal form of a hardware snapshot, which the fingerprint hashes. */
module Intelligence {
  import opened Hardware
  import opened NormalLists
  import Sorting
  import Strings

  function MemoryKey(m: MemoryModule): string { Strings.Lower(m.locator + "|" + m.partNumber) }

  function StorageKey(d: StorageDevice): string { Strings.Lower(d.deviceId + "|" + d.serialNumber + "|" + d.model) }

  function NetworkKey(n: NetworkAdapter): string { Strings.Lower(n.macAddress + "|" + n.name) }

  function MonitorKey(m: Monitor): string { m.name }

  function GpuKey(g: Gpu): string { g.name }

  // ---------------------------------------------------------------- specification

  function EraseDevice(d: StorageDevice): StorageDevice {
    d.(freeBytes := 0, usedBytes := 0, usedGB := 0, freeGB := 0, capacityGB := 0)
  }

  function EraseAdapter(n: NetworkAdapter): NetworkAdapter {
    n.(ipAddress := [], gateway := [], dns := [], dhcpServer := "", status := "")
  }

  function EraseSystem(s: OperatingSystem): OperatingSystem { s.(lastBootTime := "") }

  /** The memory section with `modules` for its modules and its volatile figures erased. */
  function EraseMemory<A, B>(m: Memory<A>, modules: B): Memory<B> {
    Memory(m.totalBytes, 0, 0, m.totalGB, 0, 0, 0, m.slots, modules)
  }

  function EraseDisk<A, B>(d: DiskInventory<A>, devices: B): DiskInventory<B> {
    DiskInventory(d.totalBytes, 0, 0, 0, 0, 0, d.model, d.kind, d.serialNumber, d.health, d.smartStatus, devices)
  }

  const NO_USERS := Users("", "")

  /** How each kind of list is sorted. */
  datatype Sorters = Sorters(
    modules: seq<MemoryModule> -> seq<MemoryModule>, devices: seq<StorageDevice> -> seq<StorageDevice>,
    adapters: seq<NetworkAdapter> -> seq<NetworkAdapter>, monitors: seq<Monitor> -> seq<Monitor>,
    gpus: seq<Gpu> -> seq<Gpu>)

  ghost predicate AreSorters(f: Sorters) {
    && SortsBy(f.modules, MemoryKey) && SortsBy(f.devices, StorageKey) && SortsBy(f.adapters, NetworkKey)
    && SortsBy(f.monitors, MonitorKey) && SortsBy(f.gpus, GpuKey)
  }

  const STABLE := Sorters(Stable(MemoryKey), Stable(StorageKey), Stable(NetworkKey), Stable(MonitorKey), Stable(GpuKey))

  lemma StableAreSorters()
    ensures AreSorters(STABLE)
  {
    StableSorts(MemoryKey);
    StableSorts(StorageKey);
    StableSorts(NetworkKey);
    StableSorts(MonitorKey);
    StableSorts(GpuKey);
  }

  function Modules(f: Sorters, s: seq<MemoryModule>): seq<MemoryModule> { f.modules(s) }

  function Devices(f: Sorters, s: seq<StorageDevice>): seq<StorageDevice> { Normal(f.devices, EraseDevice, s) }

  function Adapters(f: Sorters, s: seq<NetworkAdapter>): seq<NetworkAdapter> { Normal(f.adapters, EraseAdapter, s) }

  function Monitors(f: Sorters, s: seq<Monitor>): seq<Monitor> { f.monitors(s) }

  function Gpus(f: Sorters, s: seq<Gpu>): seq<Gpu> { f.gpus(s) }

  /** The normal form, for given sorting algorithms. */
  function Form(f: Sorters, h: Snapshot): Snapshot {
    Machine(
      h.general, EraseSystem(h.operatingSystem), h.cpu,
      EraseMemory(h.ram, Modules(f, h.ram.modules)), EraseDisk(h.disk, Devices(f, h.disk.devices)),
      Devices(f, h.storage), Adapters(f, h.nic), Adapters(f, h.nic), h.motherboard, h.bios, h.security,
      Monitors(f, h.monitor), Gpus(f, h.gpu), NO_USERS, h.serialNumber)
  }

  function Normalized(h: Snapshot): Snapshot { Form(STABLE, h) }

  /** Normalising a normal form changes nothing, whatever the sorting algorithms. */
  lemma FormIsIdempotent(f: Sorters, h: Snapshot)
    requires AreSorters(f)
    ensures Form(f, Form(f, h)) == Form(f, h)
  {
    NormalIsIdempotent(f.devices, EraseDevice, StorageKey, h.disk.devices);
    NormalIsIdempotent(f.devices, EraseDevice, StorageKey, h.storage);
    NormalIsIdempotent(f.adapters, EraseAdapter, NetworkKey, h.nic);
    assert f.modules(f.modules(h.ram.modules)) == f.modules(h.ram.modules);
    assert f.monitors(f.monitors(h.monitor)) == f.monitors(h.monitor);
    assert f.gpus(f.gpus(h.gpu)) == f.gpus(h.gpu);
  }

  // ---------------------------------------------------------------- how its lists are sorted

  /** The strings never decrease. */
  ghost predicate InOrder(keys: seq<string>) {
    forall i, j :: 0 <= i < j < |keys| ==> !Strings.Less(keys[j], keys[i])
  }

  lemma SortedInOrder<T(!new)>(sort: seq<T> -> seq<T>, key: T -> string, s: seq<T>)
    requires SortsBy(sort, key)
    ensures InOrder(Map(key, sort(s)))
  {
    assert Sorting.Sorted(ByKey(key), sort(s));
  }

  /** Whatever the sorting algorithms: modules are in the order of locator and part number, devices of
      device id, serial number and model, adapters of MAC address and name, all in lower case, and
      monitors and graphics adapters in the order of their names as they are. */
  lemma FormIsSorted(f: Sorters, h: Snapshot)
    requires AreSorters(f)
    ensures var byPart := (m: MemoryModule) => Strings.Lower(m.locator + "|" + m.partNumber);
            InOrder(Map(byPart, Form(f, h).ram.modules))
    ensures var byId := (d: StorageDevice) => Strings.Lower(d.deviceId + "|" + d.serialNumber + "|" + d.model);
            InOrder(Map(byId, Form(f, h).disk.devices)) && InOrder(Map(byId, Form(f, h).storage))
    ensures var byMac := (n: NetworkAdapter) => Strings.Lower(n.macAddress + "|" + n.name);
            InOrder(Map(byMac, Form(f, h).nic)) && InOrder(Map(byMac, Form(f, h).network))
    ensures InOrder(Map((m: Monitor) => m.name, Form(f, h).monitor))
    ensures InOrder(Map((g: Gpu) => g.name, Form(f, h).gpu))
  {
    SortedInOrder(f.modules, MemoryKey, h.ram.modules);
    SortedInOrder(f.devices, StorageKey, Map(EraseDevice, h.disk.devices));
    SortedInOrder(f.devices, StorageKey, Map(EraseDevice, h.storage));
    SortedInOrder(f.adapters, NetworkKey, Map(EraseAdapter, h.nic));
    SortedInOrder(f.monitors, MonitorKey, h.monitor);
    SortedInOrder(f.gpus, GpuKey, h.gpu);
  }

  // ---------------------------------------------------------------- what the normal form remembers

  /** What identifies a storage device and its capacity. */
  datatype StableDevice = StableDevice(
    deviceId: string, kind: string, model: string, serialNumber: string, health: string, smartStatus: string,
    totalBytes: nat, filesystem: string, driveType: string)

  datatype StableAdapter = StableAdapter(name: string, description: string, macAddress: string, dhcp: bool,
                                         linkSpeed: nat)

  function DeviceIdentity(d: StorageDevice): StableDevice {
    StableDevice(d.deviceId, d.kind, d.model, d.serialNumber, d.health, d.smartStatus, d.totalBytes, d.filesystem,
                 d.driveType)
  }

  function AdapterIdentity(n: NetworkAdapter): StableAdapter {
    StableAdapter(n.name, n.description, n.macAddress, n.dhcp, n.linkSpeed)
  }

  function UnusedDevice(s: StableDevice): StorageDevice {
    StorageDevice(s.deviceId, s.kind, s.model, s.serialNumber, s.health, s.smartStatus, s.totalBytes,
                  0, 0, 0, 0, 0, s.filesystem, s.driveType)
  }

  function IdleAdapter(s: StableAdapter): NetworkAdapter {
    NetworkAdapter(s.name, s.description, [], s.macAddress, [], [], s.dhcp, "", s.linkSpeed, "")
  }

  ghost predicate SameDevices(a: seq<StorageDevice>, b: seq<StorageDevice>) {
    multiset(Map(DeviceIdentity, a)) == multiset(Map(DeviceIdentity, b))
  }

  ghost predicate SameAdapters(a: seq<NetworkAdapter>, b: seq<NetworkAdapter>) {
    multiset(Map(AdapterIdentity, a)) == multiset(Map(AdapterIdentity, b))
  }

  predicate SameSystem(a: OperatingSystem, b: OperatingSystem) {
    a.edition == b.edition && a.version == b.version && a.buildNumber == b.buildNumber &&
    a.architecture == b.architecture && a.installDate == b.installDate &&
    a.domain == b.domain && a.workgroup == b.workgroup && a.timezone == b.timezone
  }

  predicate SameCapacity<M>(a: Memory<M>, b: Memory<M>) {
    a.totalBytes == b.totalBytes && a.totalGB == b.totalGB && a.slots == b.slots
  }

  predicate SameDisk<D>(a: DiskInventory<D>, b: DiskInventory<D>) {
    a.totalBytes == b.totalBytes && a.model == b.model && a.kind == b.kind &&
    a.serialNumber == b.serialNumber && a.health == b.health && a.smartStatus == b.smartStatus
  }

  /** The sections without lists agree, apart from free space, memory use, users and boot time. */
  predicate SameScalars(a: Snapshot, b: Snapshot) {
    a.general == b.general && SameSystem(a.operatingSystem, b.operatingSystem) && a.cpu == b.cpu &&
    SameCapacity(a.ram, b.ram) && SameDisk(a.disk, b.disk) && a.motherboard == b.motherboard &&
    a.bios == b.bios && a.security == b.security && a.serialNumber == b.serialNumber
  }

  /** The same machine: identities and capacities agree, with each device list in any order. */
  ghost predicate SameMachine(a: Snapshot, b: Snapshot) {
    && SameScalars(a, b)
    && multiset(a.ram.modules) == multiset(b.ram.modules)
    && SameDevices(a.disk.devices, b.disk.devices) && SameDevices(a.storage, b.storage)
    && SameAdapters(a.nic, b.nic)
    && multiset(a.monitor) == multiset(b.monitor) && multiset(a.gpu) == multiset(b.gpu)
  }

  /** Within each list, different entries have different sort keys. */
  ghost predicate DistinctKeys(h: Snapshot) {
    && KeysDistinct(MemoryKey, h.ram.modules)
    && KeysDistinct(StorageKey, Map(EraseDevice, h.disk.devices))
    && KeysDistinct(StorageKey, Map(EraseDevice, h.storage))
    && KeysDistinct(NetworkKey, Map(EraseAdapter, h.nic))
    && KeysDistinct(MonitorKey, h.monitor) && KeysDistinct(GpuKey, h.gpu)
  }

  lemma PlainAgree<T(!new)>(sort: seq<T> -> seq<T>, key: T -> string, a: seq<T>, b: seq<T>)
    requires SortsBy(sort, key)
    ensures sort(a) == sort(b) ==> multiset(a) == multiset(b)
    ensures KeysDistinct(key, a) && multiset(a) == multiset(b) ==> sort(a) == sort(b)
  {
    var id := (x: T) => x;
    assert Map(id, a) == a && Map(id, b) == b;
    SameNormal(sort, id, key, a, b);
  }

  lemma DevicesAgree(f: Sorters, a: seq<StorageDevice>, b: seq<StorageDevice>)
    requires AreSorters(f)
    ensures Devices(f, a) == Devices(f, b) ==> SameDevices(a, b)
    ensures KeysDistinct(StorageKey, Map(EraseDevice, a)) && SameDevices(a, b) ==> Devices(f, a) == Devices(f, b)
  {
    SameUpToOrder(EraseDevice, DeviceIdentity, DeviceIdentity, UnusedDevice, a, b);
    SameNormal(f.devices, EraseDevice, StorageKey, a, b);
  }

  lemma AdaptersAgree(f: Sorters, a: seq<NetworkAdapter>, b: seq<NetworkAdapter>)
    requires AreSorters(f)
    ensures Adapters(f, a) == Adapters(f, b) ==> SameAdapters(a, b)
    ensures KeysDistinct(NetworkKey, Map(EraseAdapter, a)) && SameAdapters(a, b) ==> Adapters(f, a) == Adapters(f, b)
  {
    SameUpToOrder(EraseAdapter, AdapterIdentity, AdapterIdentity, IdleAdapter, a, b);
    SameNormal(f.adapters, EraseAdapter, NetworkKey, a, b);
  }

  lemma ScalarsAgree(f: Sorters, a: Snapshot, b: Snapshot)
    ensures Form(f, a) == Form(f, b) <==>
            && SameScalars(a, b)
            && Modules(f, a.ram.modules) == Modules(f, b.ram.modules)
            && Devices(f, a.disk.devices) == Devices(f, b.disk.devices)
            && Devices(f, a.storage) == Devices(f, b.storage)
            && Adapters(f, a.nic) == Adapters(f, b.nic)
            && Monitors(f, a.monitor) == Monitors(f, b.monitor) && Gpus(f, a.gpu) == Gpus(f, b.gpu)
  {
  }

  /** Snapshots with one normal form are of the same machine: nothing stable is forgotten. With
      distinct keys the converse holds as well. Whatever the sorting algorithms. */
  lemma SameFormIffSameMachine(f: Sorters, a: Snapshot, b: Snapshot)
    requires AreSorters(f)
    ensures Form(f, a) == Form(f, b) ==> SameMachine(a, b)
    ensures DistinctKeys(a) ==> (Form(f, a) == Form(f, b) <==> SameMachine(a, b))
  {
    ScalarsAgree(f, a, b);
    PlainAgree(f.modules, MemoryKey, a.ram.modules, b.ram.modules);
    DevicesAgree(f, a.disk.devices, b.disk.devices);
    DevicesAgree(f, a.storage, b.storage);
    AdaptersAgree(f, a.nic, b.nic);
    PlainAgree(f.monitors, MonitorKey, a.monitor, b.monitor);
    PlainAgree(f.gpus, GpuKey, a.gpu, b.gpu);
  }

  /** Volatile fields never show, with or without distinct keys, as long as lists keep their order,
      for any deterministic treatment of the erased lists; the `network` list of the input and its
      users are ignored altogether. */
  lemma VolatileFieldsIgnored(f: Sorters, a: Snapshot, b: Snapshot)
    requires SameScalars(a, b) && a.ram.modules == b.ram.modules && a.monitor == b.monitor && a.gpu == b.gpu
    requires Map(DeviceIdentity, a.disk.devices) == Map(DeviceIdentity, b.disk.devices)
    requires Map(DeviceIdentity, a.storage) == Map(DeviceIdentity, b.storage)
    requires Map(AdapterIdentity, a.nic) == Map(AdapterIdentity, b.nic)
    ensures Form(f, a) == Form(f, b)
  {
    ScalarsAgree(f, a, b);
    hide Map;
    MapTwice(DeviceIdentity, UnusedDevice, EraseDevice, a.disk.devices);
    MapTwice(DeviceIdentity, UnusedDevice, EraseDevice, b.disk.devices);
    MapTwice(DeviceIdentity, UnusedDevice, EraseDevice, a.storage);
    MapTwice(DeviceIdentity, UnusedDevice, EraseDevice, b.storage);
    MapTwice(AdapterIdentity, IdleAdapter, EraseAdapter, a.nic);
    MapTwice(AdapterIdentity, IdleAdapter, EraseAdapter, b.nic);
  }

  /** In particular for the algorithm modelled. */
  lemma NormalizedIsIdempotent(h: Snapshot)
    ensures Normalized(Normalized(h)) == Normalized(h)
  {
    StableAreSorters();
    FormIsIdempotent(STABLE, h);
  }

  // ---------------------------------------------------------------- the algorithm

  method SortedCopy<T>(key: T -> string, source: array<T>) returns (list: array<T>)
    ensures fresh(list) && list[..] == Stable(key)(source[..])
  {
    list := Copy(source);
    Sorting.InsertionSort(ByKey(key), list);
  }

  method ErasedCopy<T>(erase: T -> T, key: T -> string, source: array<T>) returns (list: array<T>)
    ensures fresh(list) && list[..] == Normal(Stable(key), erase, source[..])
  {
    list := Copy(source);
    EraseAll(erase, list);
    Sorting.InsertionSort(ByKey(key), list);
  }

  /** The adapter list is copied again once erased, and both copies are sorted. */
  method AdapterLists(source: array<NetworkAdapter>)
    returns (nic: array<NetworkAdapter>, network: array<NetworkAdapter>)
    ensures fresh(nic) && fresh(network) && nic != network
    ensures nic[..] == Adapters(STABLE, source[..]) && network[..] == Adapters(STABLE, source[..])
  {
    nic := Copy(source);
    EraseAll(EraseAdapter, nic);
    network := Copy(nic);
    Sorting.InsertionSort(ByKey(NetworkKey), nic);
    Sorting.InsertionSort(ByKey(NetworkKey), network);
  }

  /** Copies every slice, erases fields and sorts in place; the caller's slices are not touched
      and none of them is handed back. */
  method NormalizedHardware(input: Collected) returns (value: Collected)
    ensures View(value) == Normalized(View(input))
    ensures fresh(value.ram.modules) && fresh(value.disk.devices) && fresh(value.storage)
    ensures fresh(value.nic) && fresh(value.network) && fresh(value.monitor) && fresh(value.gpu)
    ensures value.nic != value.network && value.disk.devices != value.storage
  {
    var modules := SortedCopy(MemoryKey, input.ram.modules);
    var devices := ErasedCopy(EraseDevice, StorageKey, input.disk.devices);
    var storage := ErasedCopy(EraseDevice, StorageKey, input.storage);
    var nic, network := AdapterLists(input.nic);
    var monitor := SortedCopy(MonitorKey, input.monitor);
    var gpu := SortedCopy(GpuKey, input.gpu);
    value := Machine(
      input.general, EraseSystem(input.operatingSystem), input.cpu, EraseMemory(input.ram, modules),
      EraseDisk(input.disk, devices), storage, nic, network, input.motherboard, input.bios, input.security,
      monitor, gpu, NO_USERS, input.serialNumber);
  }
}
