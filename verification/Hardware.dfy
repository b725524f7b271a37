/** The hardware snapshot. Collections are a type parameter: a snapshot as the collector hands
    it over holds slices (arrays), a snapshot as a value holds sequences. Machine integers are
    only copied, compared and set to zero, so `nat` stands for them, and for the floating-point
    sizes as bit patterns, where zero is the pattern of 0.0. A nil slice and an empty one are the
    same here: every list of a normalised snapshot is rebuilt by appending to nil, so an empty one
    is always nil. */
module Hardware {

  datatype General = General(
    computerName: string, machineUuid: string, serialNumber: string, assetTag: string,
    manufacturer: string, model: string, productName: string)

  datatype OperatingSystem = OperatingSystem(
    edition: string, version: string, buildNumber: string, architecture: string, installDate: string,
    lastBootTime: string, domain: string, workgroup: string, timezone: string)

  datatype Cpu = Cpu(
    model: string, manufacturer: string, socket: string,
    logicalCores: nat, physicalCores: nat, threads: nat, clockMHz: nat)

  datatype MemoryModule = MemoryModule(
    locator: string, manufacturer: string, partNumber: string, capacity: nat, speedMHz: nat)

  datatype Memory<+M> = Memory(
    totalBytes: nat, usedBytes: nat, availableBytes: nat,
    totalGB: nat, usedGB: nat, availableGB: nat, usagePercent: nat, slots: nat, modules: M)

  datatype StorageDevice = StorageDevice(
    deviceId: string, kind: string, model: string, serialNumber: string, health: string, smartStatus: string,
    totalBytes: nat, freeBytes: nat, usedBytes: nat, capacityGB: nat, usedGB: nat, freeGB: nat,
    filesystem: string, driveType: string)

  datatype DiskInventory<+D> = DiskInventory(
    totalBytes: nat, usedBytes: nat, freeBytes: nat, totalGB: nat, usedGB: nat, freeGB: nat,
    model: string, kind: string, serialNumber: string, health: string, smartStatus: string, devices: D)

  datatype NetworkAdapter = NetworkAdapter(
    name: string, description: string, ipAddress: seq<string>, macAddress: string,
    gateway: seq<string>, dns: seq<string>, dhcp: bool, dhcpServer: string, linkSpeed: nat, status: string)

  datatype Motherboard = Motherboard(manufacturer: string, product: string, serialNumber: string)

  datatype Bios = Bios(manufacturer: string, version: string, serialNumber: string, releaseDate: string)

  datatype SecurityState = SecurityState(available: bool, enabled: bool, status: string)

  datatype Security = Security(
    tpm: SecurityState, secureBoot: SecurityState, bitLocker: SecurityState,
    defender: SecurityState, firewall: SecurityState)

  datatype Monitor = Monitor(name: string, manufacturer: string, serialNumber: string, width: nat, height: nat)

  datatype Gpu = Gpu(name: string, driverVersion: string, width: nat, height: nat)

  datatype Users = Users(current: string, last: string)

  datatype Machine<+M, +D, +N, +O, +G> = Machine(
    general: General, operatingSystem: OperatingSystem, cpu: Cpu, ram: Memory<M>, disk: DiskInventory<D>,
    storage: D, nic: N, network: N, motherboard: Motherboard, bios: Bios, security: Security,
    monitor: O, gpu: G, users: Users, serialNumber: string)

  type Snapshot = Machine<seq<MemoryModule>, seq<StorageDevice>, seq<NetworkAdapter>, seq<Monitor>, seq<Gpu>>

  type Collected = Machine<array<MemoryModule>, array<StorageDevice>, array<NetworkAdapter>, array<Monitor>, array<Gpu>>

  function WithModules<A, B>(m: Memory<A>, modules: B): Memory<B> {
    Memory(m.totalBytes, m.usedBytes, m.availableBytes, m.totalGB, m.usedGB, m.availableGB, m.usagePercent,
           m.slots, modules)
  }

  function WithDevices<A, B>(d: DiskInventory<A>, devices: B): DiskInventory<B> {
    DiskInventory(d.totalBytes, d.usedBytes, d.freeBytes, d.totalGB, d.usedGB, d.freeGB, d.model, d.kind,
                  d.serialNumber, d.health, d.smartStatus, devices)
  }

  /** The value a collected snapshot denotes. */
  function View(h: Collected): Snapshot
    reads h.ram.modules, h.disk.devices, h.storage, h.nic, h.network, h.monitor, h.gpu
  {
    Machine(
      h.general, h.operatingSystem, h.cpu, WithModules(h.ram, h.ram.modules[..]),
      WithDevices(h.disk, h.disk.devices[..]), h.storage[..], h.nic[..], h.network[..], h.motherboard, h.bios,
      h.security, h.monitor[..], h.gpu[..], h.users, h.serialNumber)
  }

  method Slice<T>(list: seq<T>) returns (slice: array<T>)
    ensures fresh(slice) && slice[..] == list
  {
    slice := new T[|list|](i requires 0 <= i < |list| => list[i]);
  }

  /** Decoding builds the slices anew. */
  method Build(h: Snapshot) returns (c: Collected)
    ensures View(c) == h
  {
    var modules := Slice(h.ram.modules);
    var devices := Slice(h.disk.devices);
    var storage := Slice(h.storage);
    var nic := Slice(h.nic);
    var network := Slice(h.network);
    var monitor := Slice(h.monitor);
    var gpu := Slice(h.gpu);
    c := Machine(
      h.general, h.operatingSystem, h.cpu, WithModules(h.ram, modules), WithDevices(h.disk, devices),
      storage, nic, network, h.motherboard, h.bios, h.security, monitor, gpu, h.users, h.serialNumber);
  }
}
