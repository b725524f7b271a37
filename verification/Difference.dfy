/** The section-wise difference of two hardware snapshots, and how it relates to the normal
    form the fingerprint hashes. */
module Difference {
  import opened Common
  import opened Hardware
  import opened Intelligence

  datatype Section =
    | WholeHardware
    | GeneralSection | SystemSection | CpuSection | MemorySection | StorageSection | NetworkSection
    | MotherboardSection | BiosSection | SecuritySection | DisplaySection | GpuSection

  /** What a section compares. */
  datatype Content =
    | OfGeneral(general: General) | OfSystem(system: OperatingSystem) | OfCpu(cpu: Cpu)
    | OfMemory(ram: Memory<seq<MemoryModule>>) | OfStorage(storage: seq<StorageDevice>)
    | OfNetwork(nic: seq<NetworkAdapter>) | OfMotherboard(motherboard: Motherboard) | OfBios(bios: Bios)
    | OfSecurity(security: Security) | OfDisplay(monitor: seq<Monitor>) | OfGpu(gpu: seq<Gpu>)

  /** The sections compared, in the order they are reported. */
  const SECTIONS: seq<Section> := [
    GeneralSection, SystemSection, CpuSection, MemorySection, StorageSection, NetworkSection,
    MotherboardSection, BiosSection, SecuritySection, DisplaySection, GpuSection]

  datatype Change = Change(section: Section, initial: bool, detail: string)

  function Detail(s: Section): string {
    match s
    case WholeHardware => "Initial hardware snapshot"
    case MemorySection => "Memory modules or capacity changed"
    case StorageSection => "Disk inventory changed"
    case BiosSection => "BIOS version or identity changed"
    case SystemSection => "Windows version or build changed"
    case NetworkSection => "Network adapter identity changed"
    case _ => "Section changed"
  }

  function ChangeOf(s: Section): Change { Change(s, s.WholeHardware?, Detail(s)) }

  // ---------------------------------------------------------------- specification

  function ContentOf(s: Section, h: Snapshot): Content
    requires !s.WholeHardware?
  {
    match s
    case GeneralSection => OfGeneral(h.general)
    case SystemSection => OfSystem(h.operatingSystem)
    case CpuSection => OfCpu(h.cpu)
    case MemorySection => OfMemory(h.ram)
    case StorageSection => OfStorage(h.storage)
    case NetworkSection => OfNetwork(h.nic)
    case MotherboardSection => OfMotherboard(h.motherboard)
    case BiosSection => OfBios(h.bios)
    case SecuritySection => OfSecurity(h.security)
    case DisplaySection => OfDisplay(h.monitor)
    case GpuSection => OfGpu(h.gpu)
  }

  /** The section shows a difference between two normal forms. */
  predicate Differs(s: Section, left: Snapshot, right: Snapshot) {
    !s.WholeHardware? && ContentOf(s, left) != ContentOf(s, right)
  }

  function Among(sections: seq<Section>, left: Snapshot, right: Snapshot): seq<Change> {
    if sections == [] then []
    else
      var last := sections[|sections| - 1];
      Among(sections[..|sections| - 1], left, right) + if Differs(last, left, right) then [ChangeOf(last)] else []
  }

  function Diff(previous: Option<Snapshot>, current: Snapshot): seq<Change> {
    if previous.None? then [ChangeOf(WholeHardware)]
    else Among(SECTIONS, Normalized(previous.value), Normalized(current))
  }

  predicate Lists(changes: seq<Change>, s: Section) { ChangeOf(s) in changes }

  lemma {:induction false} AmongLists(sections: seq<Section>, left: Snapshot, right: Snapshot, c: Change)
    ensures c in Among(sections, left, right) <==>
              c.section in sections && Differs(c.section, left, right) && c == ChangeOf(c.section)
  {
    if sections != [] {
      AmongLists(sections[..|sections| - 1], left, right, c);
      assert sections == sections[..|sections| - 1] + [sections[|sections| - 1]];
    }
  }

  lemma AllSections(s: Section)
    requires !s.WholeHardware?
    ensures s in SECTIONS
  {
    var order := SECTIONS;
    assert order[0] == GeneralSection && order[1] == SystemSection && order[2] == CpuSection;
    assert order[3] == MemorySection && order[4] == StorageSection && order[5] == NetworkSection;
    assert order[6] == MotherboardSection && order[7] == BiosSection && order[8] == SecuritySection;
    assert order[9] == DisplaySection && order[10] == GpuSection;
  }

  /** A later snapshot's diff lists exactly the sections whose normal forms differ. */
  lemma DiffListsIffDiffers(previous: Snapshot, current: Snapshot, s: Section)
    ensures Lists(Diff(Some(previous), current), s) <==> Differs(s, Normalized(previous), Normalized(current))
  {
    AmongLists(SECTIONS, Normalized(previous), Normalized(current), ChangeOf(s));
    if !s.WholeHardware? { AllSections(s); }
  }

  lemma Listed(previous: Snapshot, current: Snapshot, s: Section)
    requires !s.WholeHardware?
    ensures Says(Diff(Some(previous), current), s, Detail(s),
                 ContentOf(s, Normalized(previous)) != ContentOf(s, Normalized(current)))
  {
    DiffListsIffDiffers(previous, current, s);
  }

  /** The report says so with these words if and only if there is a difference. */
  predicate Says(changes: seq<Change>, s: Section, words: string, differs: bool) {
    Change(s, false, words) in changes <==> differs
  }

  /** The same section by section, with the words reported, and the report without a stored snapshot. */
  lemma DiffSpelledOut(previous: Snapshot, current: Snapshot, s: Section)
    ensures Diff(None, current) == [Change(WholeHardware, true, "Initial hardware snapshot")]
    ensures var changes, a, b := Diff(Some(previous), current), Normalized(previous), Normalized(current);
            match s
            case WholeHardware => !Lists(changes, WholeHardware)
            case GeneralSection => Says(changes, s, "Section changed", a.general != b.general)
            case SystemSection =>
              Says(changes, s, "Windows version or build changed", a.operatingSystem != b.operatingSystem)
            case CpuSection => Says(changes, s, "Section changed", a.cpu != b.cpu)
            case MemorySection => Says(changes, s, "Memory modules or capacity changed", a.ram != b.ram)
            case StorageSection => Says(changes, s, "Disk inventory changed", a.storage != b.storage)
            case NetworkSection => Says(changes, s, "Network adapter identity changed", a.nic != b.nic)
            case MotherboardSection => Says(changes, s, "Section changed", a.motherboard != b.motherboard)
            case BiosSection => Says(changes, s, "BIOS version or identity changed", a.bios != b.bios)
            case SecuritySection => Says(changes, s, "Section changed", a.security != b.security)
            case DisplaySection => Says(changes, s, "Section changed", a.monitor != b.monitor)
            case GpuSection => Says(changes, s, "Section changed", a.gpu != b.gpu)
  {
    hide Intelligence.Normalized, Says, Among;
    if s.WholeHardware? { DiffListsIffDiffers(previous, current, s); } else { Listed(previous, current, s); }
  }

  /** The place of a section in a report. */
  function Place(s: Section): nat {
    match s
    case WholeHardware => 0
    case GeneralSection => 1
    case SystemSection => 2
    case CpuSection => 3
    case MemorySection => 4
    case StorageSection => 5
    case NetworkSection => 6
    case MotherboardSection => 7
    case BiosSection => 8
    case SecuritySection => 9
    case DisplaySection => 10
    case GpuSection => 11
  }

  ghost predicate Ordered(changes: seq<Change>) {
    forall i, j :: 0 <= i < j < |changes| ==> Place(changes[i].section) < Place(changes[j].section)
  }

  lemma {:induction false} AmongOrdered(n: nat, left: Snapshot, right: Snapshot)
    requires n <= |SECTIONS|
    ensures Ordered(Among(SECTIONS[..n], left, right))
    ensures forall c :: c in Among(SECTIONS[..n], left, right) ==> Place(c.section) <= n
  {
    if n > 0 {
      AmongOrdered(n - 1, left, right);
      assert SECTIONS[..n][..n - 1] == SECTIONS[..n - 1] && SECTIONS[..n][n - 1] == SECTIONS[n - 1];
      PlaceInList(n - 1);
    }
  }

  lemma PlaceInList(i: nat)
    requires i < |SECTIONS|
    ensures Place(SECTIONS[i]) == i + 1
  {
  }

  /** Sections are reported in their order, and each at most once. */
  lemma DiffIsOrdered(previous: Snapshot, current: Snapshot)
    ensures Ordered(Diff(Some(previous), current))
  {
    AmongOrdered(|SECTIONS|, Normalized(previous), Normalized(current));
    assert SECTIONS[..|SECTIONS|] == SECTIONS;
  }

  ghost predicate SectionsAgree(left: Snapshot, right: Snapshot) {
    forall s :: !Differs(s, left, right)
  }

  lemma EmptyIffSectionsAgree(left: Snapshot, right: Snapshot)
    ensures Among(SECTIONS, left, right) == [] <==> SectionsAgree(left, right)
  {
    var changes := Among(SECTIONS, left, right);
    if changes != [] {
      AmongLists(SECTIONS, left, right, changes[0]);
    } else {
      forall s ensures !Differs(s, left, right) {
        AmongLists(SECTIONS, left, right, ChangeOf(s));
        if !s.WholeHardware? { AllSections(s); }
      }
    }
  }

  lemma SectionAgrees(s: Section, left: Snapshot, right: Snapshot)
    requires SectionsAgree(left, right) && !s.WholeHardware?
    ensures ContentOf(s, left) == ContentOf(s, right)
  {
    assert !Differs(s, left, right);
  }

  lemma AgreementIsFieldwise(left: Snapshot, right: Snapshot)
    requires SectionsAgree(left, right)
    ensures left.general == right.general && left.operatingSystem == right.operatingSystem && left.cpu == right.cpu
    ensures left.ram == right.ram && left.storage == right.storage && left.nic == right.nic
    ensures left.motherboard == right.motherboard && left.bios == right.bios && left.security == right.security
    ensures left.monitor == right.monitor && left.gpu == right.gpu
  {
    hide SectionsAgree, Differs;
    assert left.general == right.general by { SectionAgrees(GeneralSection, left, right); }
    assert left.operatingSystem == right.operatingSystem by { SectionAgrees(SystemSection, left, right); }
    assert left.cpu == right.cpu by { SectionAgrees(CpuSection, left, right); }
    assert left.ram == right.ram by { SectionAgrees(MemorySection, left, right); }
    assert left.storage == right.storage by { SectionAgrees(StorageSection, left, right); }
    assert left.nic == right.nic by { SectionAgrees(NetworkSection, left, right); }
    assert left.motherboard == right.motherboard by { SectionAgrees(MotherboardSection, left, right); }
    assert left.bios == right.bios by { SectionAgrees(BiosSection, left, right); }
    assert left.security == right.security by { SectionAgrees(SecuritySection, left, right); }
    assert left.monitor == right.monitor by { SectionAgrees(DisplaySection, left, right); }
    assert left.gpu == right.gpu by { SectionAgrees(GpuSection, left, right); }
  }

  lemma SectionsAgreeIff(left: Snapshot, right: Snapshot)
    requires left.network == left.nic && right.network == right.nic && left.users == right.users
    ensures SectionsAgree(left, right) && left.disk == right.disk && left.serialNumber == right.serialNumber
            <==> left == right
  {
    if SectionsAgree(left, right) { AgreementIsFieldwise(left, right); }
  }

  /** Two snapshots have one normal form exactly when the diff is empty and the two sections it
      does not compare, the disk summary and the top-level serial number, agree. */
  lemma EmptyDiffIffSameForm(previous: Snapshot, current: Snapshot)
    ensures && Diff(Some(previous), current) == []
            && Normalized(previous).disk == Normalized(current).disk
            && previous.serialNumber == current.serialNumber
            <==> Normalized(previous) == Normalized(current)
  {
    var left, right := Normalized(previous), Normalized(current);
    EmptyIffSectionsAgree(left, right);
    SectionsAgreeIff(left, right);
  }

  /** The family the diff misses: whatever is put in the place of a machine's disk section and serial
      number, the diff is empty, and the normal form stays the same only if serial number, disk
      identity and capacity, and the normal form of its devices do. */
  lemma DiskChangeUnreported(h: Snapshot, disk: DiskInventory<seq<StorageDevice>>, serialNumber: string)
    ensures var h' := h.(disk := disk, serialNumber := serialNumber);
            && Diff(Some(h), h') == []
            && (Normalized(h) == Normalized(h') <==>
                  && serialNumber == h.serialNumber && SameDisk(disk, h.disk)
                  && Devices(STABLE, disk.devices) == Devices(STABLE, h.disk.devices))
  {
    var h' := h.(disk := disk, serialNumber := serialNumber);
    assert SectionsAgree(Normalized(h), Normalized(h'));
    EmptyIffSectionsAgree(Normalized(h), Normalized(h'));
    ScalarsAgree(STABLE, h, h');
  }

  // ---------------------------------------------------------------- the algorithm

  datatype Compared = Compared(name: Section, old_: Content, new_: Content)

  ghost predicate Compares(sections: seq<Compared>, left: Snapshot, right: Snapshot) {
    && |sections| == |SECTIONS|
    && forall i :: 0 <= i < |SECTIONS| ==>
         && sections[i].name == SECTIONS[i]
         && (!SECTIONS[i].WholeHardware? ==>
               sections[i].old_ == ContentOf(SECTIONS[i], left)
               && sections[i].new_ == ContentOf(SECTIONS[i], right))
  }

  /** Lays the sections of two normal forms side by side. */
  method SideBySide(left: Collected, right: Collected) returns (sections: seq<Compared>)
    ensures Compares(sections, View(left), View(right))
  {
    sections := [
      Compared(GeneralSection, OfGeneral(left.general), OfGeneral(right.general)),
      Compared(SystemSection, OfSystem(left.operatingSystem), OfSystem(right.operatingSystem)),
      Compared(CpuSection, OfCpu(left.cpu), OfCpu(right.cpu)),
      Compared(MemorySection, OfMemory(WithModules(left.ram, left.ram.modules[..])),
               OfMemory(WithModules(right.ram, right.ram.modules[..]))),
      Compared(StorageSection, OfStorage(left.storage[..]), OfStorage(right.storage[..])),
      Compared(NetworkSection, OfNetwork(left.nic[..]), OfNetwork(right.nic[..])),
      Compared(MotherboardSection, OfMotherboard(left.motherboard), OfMotherboard(right.motherboard)),
      Compared(BiosSection, OfBios(left.bios), OfBios(right.bios)),
      Compared(SecuritySection, OfSecurity(left.security), OfSecurity(right.security)),
      Compared(DisplaySection, OfDisplay(left.monitor[..]), OfDisplay(right.monitor[..])),
      Compared(GpuSection, OfGpu(left.gpu[..]), OfGpu(right.gpu[..]))];
  }

  /** Reports the sections whose contents differ. */
  method Report(sections: seq<Compared>, ghost left: Snapshot, ghost right: Snapshot) returns (changes: seq<Change>)
    requires Compares(sections, left, right)
    ensures changes == Among(SECTIONS, left, right)
  {
    changes := [];
    for i := 0 to |sections|
      invariant changes == Among(SECTIONS[..i], left, right)
    {
      assert SECTIONS[..i + 1][..i] == SECTIONS[..i];
      AllCompared(i);
      if sections[i].old_ == sections[i].new_ { continue; }
      changes := changes + [Change(sections[i].name, false, Detail(sections[i].name))];
    }
    assert SECTIONS[..|sections|] == SECTIONS;
  }

  method DiffHardware(previous: Option<Collected>, current: Collected) returns (changes: seq<Change>)
    ensures previous.None? ==> changes == Diff(None, View(current))
    ensures previous.Some? ==> changes == Diff(Some(View(previous.value)), View(current))
  {
    if previous.None? { return [ChangeOf(WholeHardware)]; }
    var left := NormalizedHardware(previous.value);
    var right := NormalizedHardware(current);
    var sections := SideBySide(left, right);
    changes := Report(sections, View(left), View(right));
  }

  lemma AllCompared(i: nat)
    requires i < |SECTIONS|
    ensures !SECTIONS[i].WholeHardware?
  {
  }
}
