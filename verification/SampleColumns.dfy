/** The columns of the resource sampler: which there are on a machine, in what order, how they are described,
    and what each of their names stands for. */
module SampleColumns {
  import opened Basics
  import opened Decimals
  import opened Fields
  import opened StatsFormat
  import opened StatsHeaders

  const HDD_STATS := 11

  /** Which sources are to be traced. */
  datatype Sources = Sources(
    cpuUtil: bool, cpuUtilX: bool,
    memUsed: bool, memFree: bool, memShared: bool, memBuffer: bool, memCached: bool,
    netInX: bool, netOutX: bool, netInExt: bool, netOutExt: bool, netIn: bool, netOut: bool,
    hddRead: bool, hddWrite: bool, procHddStats: seq<bool>)
  {
    predicate Valid() { |procHddStats| == HDD_STATS }
  }

  /** What the sampler finds on the machine. It stays as it is while sampling goes on. */
  datatype Machine = Machine(cpus: nat, contextSwitches: bool, loopback: seq<bool>, devices: nat)

  /** What its interfaces and block devices are called. */
  datatype Names = Names(interface: nat -> string, device: nat -> string)

  /** The measured bit patterns of one step. */
  datatype Sample = Sample(
    cpuTotal: nat, cpu: nat -> nat, switches: nat,
    used: nat, free: nat, shared: nat, buffer: nat, cached: nat,
    inBytes: nat -> nat, outBytes: nat -> nat,
    read: nat, write: nat, disk: (nat, nat) -> nat)

  const WORD32 := 0x1_0000_0000
  const WORD64 := 0x1_0000_0000_0000_0000

  function Float(bits: nat): Datum { Datum(FLOAT, bits % WORD32) }
  function Long(bits: nat): Datum { Datum(INT64, bits % WORD64) }

  /** The plain sum over the interfaces of one kind. */
  function Sum(bytes: nat -> nat, loopback: seq<bool>, which: bool, n: nat): nat
    requires n <= |loopback|
  {
    if n == 0 then 0
    else Sum(bytes, loopback, which, n - 1) + if loopback[n - 1] == which then bytes(n - 1) else 0
  }

  // ---- What can be a column ----

  datatype Quantity =
    | CpuTotal | Switches | CpuOf(cpu: nat)
    | Used | Free | Shared | Buffer | Cached
    | InOf(interface: nat) | OutOf(interface: nat) | ExternalIn | ExternalOut | AllIn | AllOut
    | DiskRead | DiskWritten | DiskStatistic(device: nat, statistic: nat)

  function Kind(q: Quantity): ValueType { if q.CpuTotal? || q.CpuOf? then FLOAT else INT64 }

  /** What a step measures of it. */
  function Measured(q: Quantity, m: Machine, x: Sample): (d: Datum)
    ensures d.kind == Kind(q)
  {
    var n := |m.loopback|;
    match q
    case CpuTotal => Float(x.cpuTotal)
    case Switches => Long(x.switches)
    case CpuOf(i) => Float(x.cpu(i))
    case Used => Long(x.used)
    case Free => Long(x.free)
    case Shared => Long(x.shared)
    case Buffer => Long(x.buffer)
    case Cached => Long(x.cached)
    case InOf(i) => Long(x.inBytes(i))
    case OutOf(i) => Long(x.outBytes(i))
    case ExternalIn => Long(Sum(x.inBytes, m.loopback, false, n))
    case ExternalOut => Long(Sum(x.outBytes, m.loopback, false, n))
    case AllIn => Long(Sum(x.inBytes, m.loopback, false, n) + Sum(x.inBytes, m.loopback, true, n))
    case AllOut => Long(Sum(x.outBytes, m.loopback, false, n) + Sum(x.outBytes, m.loopback, true, n))
    case DiskRead => Long(x.read)
    case DiskWritten => Long(x.write)
    case DiskStatistic(d, i) => Long(x.disk(d, i))
  }

  // ---- The columns that are registered ----

  function Cpus(n: nat): seq<Quantity> { if n == 0 then [] else Cpus(n - 1) + [CpuOf(n - 1)] }

  function CpuQuantities(src: Sources, m: Machine): seq<Quantity> {
    When(src.cpuUtil, [CpuTotal] + When(m.contextSwitches, [Switches])) + When(src.cpuUtilX, Cpus(m.cpus))
  }

  function MemQuantities(src: Sources): seq<Quantity> {
    When(src.memUsed, [Used]) + When(src.memFree, [Free]) + When(src.memShared, [Shared])
    + When(src.memBuffer, [Buffer]) + When(src.memCached, [Cached])
  }

  function Interfaces(src: Sources, n: nat): seq<Quantity> {
    if n == 0 then []
    else Interfaces(src, n - 1) + (When(src.netInX, [InOf(n - 1)]) + When(src.netOutX, [OutOf(n - 1)]))
  }

  function NetTotals(src: Sources): seq<Quantity> {
    When(src.netInExt, [ExternalIn]) + When(src.netOutExt, [ExternalOut])
    + When(src.netIn, [AllIn]) + When(src.netOut, [AllOut])
  }

  function NetQuantities(src: Sources, m: Machine): seq<Quantity> { Interfaces(src, |m.loopback|) + NetTotals(src) }

  function Statistics(stats: seq<bool>, d: nat, n: nat): seq<Quantity>
    requires n <= |stats|
  {
    if n == 0 then [] else Statistics(stats, d, n - 1) + When(stats[n - 1], [DiskStatistic(d, n - 1)])
  }

  function Devices(stats: seq<bool>, n: nat): seq<Quantity> {
    if n == 0 then [] else Devices(stats, n - 1) + Statistics(stats, n - 1, |stats|)
  }

  function HddQuantities(src: Sources, m: Machine): seq<Quantity> {
    When(src.hddRead, [DiskRead]) + When(src.hddWrite, [DiskWritten]) + Devices(src.procHddStats, m.devices)
  }

  function Quantities(src: Sources, m: Machine): seq<Quantity> {
    CpuQuantities(src, m) + MemQuantities(src) + NetQuantities(src, m) + HddQuantities(src, m)
  }

  function Kinds(qs: seq<Quantity>): seq<ValueType> { seq(|qs|, i requires 0 <= i < |qs| => Kind(qs[i])) }

  function Values(qs: seq<Quantity>, m: Machine, x: Sample): seq<Datum> {
    seq(|qs|, i requires 0 <= i < |qs| => Measured(qs[i], m, x))
  }

  function Registered(src: Sources, m: Machine): seq<ValueType> { Kinds(Quantities(src, m)) }

  // ---- How they are described ----

  /** The name in front of the colon, the unit and the grouping of each statistic of a block device. */
  const STATISTICS: seq<(string, string, string)> := [
    ("READS", "#", "BLOCK_ACCESSED"), ("READS_MERGED", "#", "BLOCK_MERGED"),
    ("READS_SECTORS", "#", "BLOCK_SECTORS"), ("READS_TIME_SPEND", "ms", "BLOCK_TIME"),
    ("WRITES_COMPLETED", "#", "BLOCK_ACCESSED"), ("WRITES_MERGED", "#", "BLOCK_MERGED"),
    ("WRITTEN_SECTORS", "#", "BLOCK_SECTORS"), ("WRITES_TIME_SPEND", "ms", "BLOCK_TIME"),
    ("IOS_INPROGRESS", "#", "BLOCK_INPROGRESS"), ("IOS_TIME_SPEND", "ms", "BLOCK_TIME"),
    ("WEIGHTED_WAITTIME", "ms", "BLOCK_TIME")]

  function CpuColumn(name: string): Column { Column(name, FLOAT, Some("%"), Some("CPU")) }
  function MemColumn(name: string): Column { Column(name, INT64, Some("B"), Some("MEM")) }
  function NetColumn(name: string): Column { Column(name, INT64, Some("B"), Some("NET")) }
  function HddColumn(name: string): Column { Column(name, INT64, Some("Byte"), Some("HDD")) }

  function StatisticColumn(i: nat, device: string): Column
    requires i < HDD_STATS
  {
    Column(STATISTICS[i].0 + ":" + device, INT64, Some(STATISTICS[i].1), Some(STATISTICS[i].2))
  }

  predicate Known(q: Quantity) { q.DiskStatistic? ==> q.statistic < HDD_STATS }

  function Describe(q: Quantity, nm: Names): Column
    requires Known(q)
  {
    match q
    case CpuTotal => CpuColumn("CPU_TOTAL")
    case Switches => Column("CONTEXT_SWITCHES", INT64, None, Some("#"))
    case CpuOf(i) => CpuColumn("CPU_TOTAL_" + Natural(i))
    case Used => MemColumn("MEM_USED")
    case Free => MemColumn("MEM_FREE")
    case Shared => MemColumn("MEM_SHARED")
    case Buffer => MemColumn("MEM_BUFFER")
    case Cached => MemColumn("MEM_CACHED")
    case InOf(i) => NetColumn("NET_IN_" + nm.interface(i))
    case OutOf(i) => NetColumn("NET_OUT_" + nm.interface(i))
    case ExternalIn => NetColumn("NET_IN_EXT")
    case ExternalOut => NetColumn("NET_OUT_EXT")
    case AllIn => NetColumn("NET_IN")
    case AllOut => NetColumn("NET_OUT")
    case DiskRead => HddColumn("HDD_READ")
    case DiskWritten => HddColumn("HDD_WRITE")
    case DiskStatistic(d, i) => StatisticColumn(i, nm.device(d))
  }

  predicate AllKnown(qs: seq<Quantity>) { forall i | 0 <= i < |qs| :: Known(qs[i]) }

  function Described(qs: seq<Quantity>, nm: Names): seq<Column>
    requires AllKnown(qs)
  {
    seq(|qs|, i requires 0 <= i < |qs| => Describe(qs[i], nm))
  }

  // ---- What a name stands for ----

  /** The first of n things with a name. */
  function Find(name: nat -> string, n: nat, s: string): Option<nat> {
    if n == 0 then None
    else if Find(name, n - 1, s).Some? then Find(name, n - 1, s)
    else if name(n - 1) == s then Some(n - 1)
    else None
  }

  /** A column's value, unit and grouping. */
  datatype Legend = Legend(value: Datum, unit: Option<string>, grouping: string)

  function CpuLegend(name: string, x: Sample): Option<Legend> {
    if name == "CPU_TOTAL" then Some(Legend(Float(x.cpuTotal), Some("%"), "CPU"))
    else if name == "CONTEXT_SWITCHES" then Some(Legend(Long(x.switches), None, "#"))
    else if "CPU_TOTAL_" <= name && Digits(name[10..]) == |name| - 10 > 0 then
      assert name[10..][..|name| - 10] == name[10..];
      Some(Legend(Float(x.cpu(Decimals.Value(name[10..]))), Some("%"), "CPU"))
    else None
  }

  function MemLegend(name: string, x: Sample): Option<Legend> {
    if name == "MEM_USED" then Some(Legend(Long(x.used), Some("B"), "MEM"))
    else if name == "MEM_FREE" then Some(Legend(Long(x.free), Some("B"), "MEM"))
    else if name == "MEM_SHARED" then Some(Legend(Long(x.shared), Some("B"), "MEM"))
    else if name == "MEM_BUFFER" then Some(Legend(Long(x.buffer), Some("B"), "MEM"))
    else if name == "MEM_CACHED" then Some(Legend(Long(x.cached), Some("B"), "MEM"))
    else None
  }

  /** Traffic since the last step: of an interface, of all but the loopback devices, of all. */
  function NetLegend(name: string, m: Machine, nm: Names, x: Sample): Option<Legend> {
    var n := |m.loopback|;
    if name == "NET_IN_EXT" then Some(Legend(Long(Sum(x.inBytes, m.loopback, false, n)), Some("B"), "NET"))
    else if name == "NET_OUT_EXT" then Some(Legend(Long(Sum(x.outBytes, m.loopback, false, n)), Some("B"), "NET"))
    else if name == "NET_IN" then
      Some(Legend(Long(Sum(x.inBytes, m.loopback, false, n) + Sum(x.inBytes, m.loopback, true, n)), Some("B"), "NET"))
    else if name == "NET_OUT" then
      Some(Legend(Long(Sum(x.outBytes, m.loopback, false, n) + Sum(x.outBytes, m.loopback, true, n)), Some("B"), "NET"))
    else if "NET_IN_" <= name && Find(nm.interface, n, name[7..]).Some? then
      Some(Legend(Long(x.inBytes(Find(nm.interface, n, name[7..]).value)), Some("B"), "NET"))
    else if "NET_OUT_" <= name && Find(nm.interface, n, name[8..]).Some? then
      Some(Legend(Long(x.outBytes(Find(nm.interface, n, name[8..]).value)), Some("B"), "NET"))
    else None
  }

  /** The number of a statistic in the system's table, its unit and its grouping. */
  function StatisticOf(name: string): Option<(nat, string, string)> {
    if name == "READS" then Some((0, "#", "BLOCK_ACCESSED"))
    else if name == "READS_MERGED" then Some((1, "#", "BLOCK_MERGED"))
    else if name == "READS_SECTORS" then Some((2, "#", "BLOCK_SECTORS"))
    else if name == "READS_TIME_SPEND" then Some((3, "ms", "BLOCK_TIME"))
    else if name == "WRITES_COMPLETED" then Some((4, "#", "BLOCK_ACCESSED"))
    else if name == "WRITES_MERGED" then Some((5, "#", "BLOCK_MERGED"))
    else if name == "WRITTEN_SECTORS" then Some((6, "#", "BLOCK_SECTORS"))
    else if name == "WRITES_TIME_SPEND" then Some((7, "ms", "BLOCK_TIME"))
    else if name == "IOS_INPROGRESS" then Some((8, "#", "BLOCK_INPROGRESS"))
    else if name == "IOS_TIME_SPEND" then Some((9, "ms", "BLOCK_TIME"))
    else if name == "WEIGHTED_WAITTIME" then Some((10, "ms", "BLOCK_TIME"))
    else None
  }

  function HddLegend(name: string, m: Machine, nm: Names, x: Sample): Option<Legend> {
    if name == "HDD_READ" then Some(Legend(Long(x.read), Some("Byte"), "HDD"))
    else if name == "HDD_WRITE" then Some(Legend(Long(x.write), Some("Byte"), "HDD"))
    else
      var n := Until(name, ':');
      if n == |name| then None
      else
        var (i, d) := (StatisticOf(name[..n]), Find(nm.device, m.devices, name[n + 1..]));
        if i.None? || d.None? then None
        else Some(Legend(Long(x.disk(d.value, i.value.0)), Some(i.value.1), i.value.2))
  }

  /** The table from names to measurements. */
  function LegendOf(name: string, m: Machine, nm: Names, x: Sample): Option<Legend> {
    if name == "" then None
    else if name[0] == 'C' then CpuLegend(name, x)
    else if name[0] == 'M' then MemLegend(name, x)
    else if name[0] == 'N' then NetLegend(name, m, nm, x)
    else HddLegend(name, m, nm, x)
  }

  /** Nothing is called like something else, nor an interface like the columns for all external ones. */
  ghost predicate Distinct(m: Machine, nm: Names) {
    && (forall i: nat, j: nat | i < j < |m.loopback| :: nm.interface(i) != nm.interface(j))
    && (forall i: nat | i < |m.loopback| :: nm.interface(i) != "EXT")
    && (forall i: nat, j: nat | i < j < m.devices :: nm.device(i) != nm.device(j))
  }

  /** The machine has it. */
  predicate Present(q: Quantity, m: Machine) {
    && Known(q)
    && (q.InOf? || q.OutOf? ==> q.interface < |m.loopback|)
    && (q.DiskStatistic? ==> q.device < m.devices)
  }

  lemma {:induction false} Found(name: nat -> string, n: nat, i: nat)
    requires i < n && forall j: nat, k: nat | j < k < n :: name(j) != name(k)
    ensures Find(name, n, name(i)) == Some(i)
  {
    if i < n - 1 {
      Found(name, n - 1, i);
    } else {
      NotFound(name, n - 1, name(i));
    }
  }

  lemma {:induction false} NotFound(name: nat -> string, n: nat, s: string)
    requires forall j: nat | j < n :: name(j) != s
    ensures Find(name, n, s) == None
  {
    if n > 0 { NotFound(name, n - 1, s); }
  }

  lemma {:induction false} CpuNamed(q: Quantity, m: Machine, nm: Names, x: Sample)
    requires q.CpuTotal? || q.Switches? || q.CpuOf?
    ensures var c := Describe(q, nm);
      c.grouping.Some? && LegendOf(c.name, m, nm, x) == Some(Legend(Measured(q, m, x), c.unit, c.grouping.value))
  {
    hide Decimals.Value, Natural, Digits;
    if q.CpuOf? {
      var s := Natural(q.cpu);
      var name := "CPU_TOTAL_" + s;
      assert name[10..] == s && name[9] == '_' && name[1] == 'P';
      AllDigits(s);
      ValueOfNatural(q.cpu);
    }
  }

  lemma {:induction false} MemNamed(q: Quantity, m: Machine, nm: Names, x: Sample)
    requires q.Used? || q.Free? || q.Shared? || q.Buffer? || q.Cached?
    ensures var c := Describe(q, nm);
      c.grouping.Some? && LegendOf(c.name, m, nm, x) == Some(Legend(Measured(q, m, x), c.unit, c.grouping.value))
  {
  }

  lemma {:induction false} InterfaceNamed(q: Quantity, m: Machine, nm: Names, x: Sample)
    requires Distinct(m, nm) && Present(q, m) && (q.InOf? || q.OutOf?)
    ensures var c := Describe(q, nm);
      c.grouping.Some? && LegendOf(c.name, m, nm, x) == Some(Legend(Measured(q, m, x), c.unit, c.grouping.value))
  {
    var s := nm.interface(q.interface);
    Found(nm.interface, |m.loopback|, q.interface);
    var name := Describe(q, nm).name;
    if q.InOf? {
      assert name[7..] == s && name[4] == 'I' && |name| >= 7;
      assert "NET_IN_EXT"[7..] == "EXT";
    } else {
      assert name[8..] == s && name[4] == 'O' && |name| >= 8;
      assert "NET_OUT_EXT"[8..] == "EXT";
    }
  }

  lemma {:induction false} NetNamed(q: Quantity, m: Machine, nm: Names, x: Sample)
    requires q.ExternalIn? || q.ExternalOut? || q.AllIn? || q.AllOut?
    ensures var c := Describe(q, nm);
      c.grouping.Some? && LegendOf(c.name, m, nm, x) == Some(Legend(Measured(q, m, x), c.unit, c.grouping.value))
  {
    hide Sum, Long;
  }

  lemma {:induction false} StatisticNamed(i: nat)
    requires i < HDD_STATS
    ensures var (name, unit, grouping) := STATISTICS[i];
      && name != "" && name[0] != 'C' && name[0] != 'M' && name[0] != 'N' && name[0] != 'H' && ':' !in name
      && StatisticOf(name) == Some((i, unit, grouping))
  {
  }

  lemma {:induction false} AtColon(s: string, t: string)
    requires ':' !in s && s != "" && s[0] != 'H'
    ensures var name := s + ":" + t;
      && Until(name, ':') == |s| && name[..|s|] == s && name[|s| + 1..] == t
      && name[0] == s[0] && name != "HDD_READ" && name != "HDD_WRITE"
  {
    UntilStops(s, ':', ":" + t);
    assert s + ":" + t == s + (":" + t);
  }

  lemma {:induction false} HddNamed(q: Quantity, m: Machine, nm: Names, x: Sample)
    requires Distinct(m, nm) && Present(q, m) && (q.DiskRead? || q.DiskWritten? || q.DiskStatistic?)
    ensures var c := Describe(q, nm);
      c.grouping.Some? && LegendOf(c.name, m, nm, x) == Some(Legend(Measured(q, m, x), c.unit, c.grouping.value))
  {
    assert |STATISTICS| == HDD_STATS;
    hide StatisticOf, STATISTICS, Until, Find;
    if q.DiskStatistic? {
      StatisticNamed(q.statistic);
      Found(nm.device, m.devices, q.device);
      AtColon(STATISTICS[q.statistic].0, nm.device(q.device));
    }
  }

  /** Every column's name tells its measurement, its unit and its grouping. */
  lemma {:induction false} NameTells(q: Quantity, m: Machine, nm: Names, x: Sample)
    requires Distinct(m, nm) && Present(q, m)
    ensures var c := Describe(q, nm);
      && c.kind == Kind(q) && c.grouping.Some?
      && LegendOf(c.name, m, nm, x) == Some(Legend(Measured(q, m, x), c.unit, c.grouping.value))
  {
    hide LegendOf, Measured;
    if q.CpuTotal? || q.Switches? || q.CpuOf? {
      CpuNamed(q, m, nm, x);
    } else if q.Used? || q.Free? || q.Shared? || q.Buffer? || q.Cached? {
      MemNamed(q, m, nm, x);
    } else if q.InOf? || q.OutOf? {
      InterfaceNamed(q, m, nm, x);
    } else if q.DiskRead? || q.DiskWritten? || q.DiskStatistic? {
      HddNamed(q, m, nm, x);
    } else {
      NetNamed(q, m, nm, x);
    }
  }

  // ---- Every registered column is there ----

  predicate AllPresent(qs: seq<Quantity>, m: Machine) { forall i | 0 <= i < |qs| :: Present(qs[i], m) }

  lemma {:induction false} PresentBoth(a: seq<Quantity>, b: seq<Quantity>, m: Machine)
    requires AllPresent(a, m) && AllPresent(b, m)
    ensures AllPresent(a + b, m)
  {
    hide Present;
  }

  lemma {:induction false} CpusPresent(m: Machine, n: nat)
    ensures AllPresent(Cpus(n), m)
  {
    if n > 0 { CpusPresent(m, n - 1); }
  }

  lemma {:induction false} InterfacesPresent(src: Sources, m: Machine, n: nat)
    requires n <= |m.loopback|
    ensures AllPresent(Interfaces(src, n), m)
  {
    if n > 0 { InterfacesPresent(src, m, n - 1); }
  }

  lemma {:induction false} StatisticsPresent(stats: seq<bool>, m: Machine, d: nat, n: nat)
    requires d < m.devices && n <= |stats| <= HDD_STATS
    ensures AllPresent(Statistics(stats, d, n), m)
  {
    if n > 0 { StatisticsPresent(stats, m, d, n - 1); }
  }

  lemma {:induction false} DevicesPresent(stats: seq<bool>, m: Machine, n: nat)
    requires n <= m.devices && |stats| <= HDD_STATS
    ensures AllPresent(Devices(stats, n), m)
  {
    if n > 0 {
      DevicesPresent(stats, m, n - 1);
      StatisticsPresent(stats, m, n - 1, |stats|);
      PresentBoth(Devices(stats, n - 1), Statistics(stats, n - 1, |stats|), m);
    }
  }

  lemma {:induction false} OnePresent(b: bool, q: Quantity, m: Machine)
    requires Present(q, m)
    ensures AllPresent(When(b, [q]), m)
  {
  }

  /** Up to four in a row. */
  lemma {:induction false} FourPresent(a: seq<Quantity>, b: seq<Quantity>, c: seq<Quantity>, d: seq<Quantity>, m: Machine)
    requires AllPresent(a, m) && AllPresent(b, m) && AllPresent(c, m) && AllPresent(d, m)
    ensures AllPresent(a + b + c + d, m)
  {
    hide AllPresent;
    PresentBoth(a, b, m);
    PresentBoth(a + b, c, m);
    PresentBoth(a + b + c, d, m);
  }

  lemma {:induction false} CpuPresent(src: Sources, m: Machine)
    ensures AllPresent(CpuQuantities(src, m), m)
  {
    CpusPresent(m, m.cpus);
  }

  lemma {:induction false} MemPresent(src: Sources, m: Machine)
    ensures AllPresent(MemQuantities(src), m)
  {
    OnePresent(src.memUsed, Used, m);
    OnePresent(src.memFree, Free, m);
    OnePresent(src.memShared, Shared, m);
    OnePresent(src.memBuffer, Buffer, m);
    OnePresent(src.memCached, Cached, m);
    hide AllPresent, When;
    var a, b, c, d := When(src.memUsed, [Used]), When(src.memFree, [Free]), When(src.memShared, [Shared]), When(src.memBuffer, [Buffer]);
    FourPresent(a, b, c, d, m);
    PresentBoth(a + b + c + d, When(src.memCached, [Cached]), m);
  }

  lemma {:induction false} NetPresent(src: Sources, m: Machine)
    ensures AllPresent(NetQuantities(src, m), m)
  {
    OnePresent(src.netInExt, ExternalIn, m);
    OnePresent(src.netOutExt, ExternalOut, m);
    OnePresent(src.netIn, AllIn, m);
    OnePresent(src.netOut, AllOut, m);
    hide AllPresent, When;
    FourPresent(When(src.netInExt, [ExternalIn]), When(src.netOutExt, [ExternalOut]), When(src.netIn, [AllIn]), When(src.netOut, [AllOut]), m);
    InterfacesPresent(src, m, |m.loopback|);
    PresentBoth(Interfaces(src, |m.loopback|), NetTotals(src), m);
  }

  lemma {:induction false} HddPresent(src: Sources, m: Machine)
    requires src.Valid()
    ensures AllPresent(HddQuantities(src, m), m)
  {
    OnePresent(src.hddRead, DiskRead, m);
    OnePresent(src.hddWrite, DiskWritten, m);
    hide AllPresent, When;
    DevicesPresent(src.procHddStats, m, m.devices);
    PresentBoth(When(src.hddRead, [DiskRead]), When(src.hddWrite, [DiskWritten]), m);
    PresentBoth(When(src.hddRead, [DiskRead]) + When(src.hddWrite, [DiskWritten]), Devices(src.procHddStats, m.devices), m);
  }

  lemma {:induction false} QuantitiesPresent(src: Sources, m: Machine)
    requires src.Valid()
    ensures AllPresent(Quantities(src, m), m) && AllKnown(Quantities(src, m))
  {
    hide AllPresent, CpuQuantities, MemQuantities, NetQuantities, HddQuantities, AllKnown;
    CpuPresent(src, m);
    MemPresent(src, m);
    NetPresent(src, m);
    HddPresent(src, m);
    FourPresent(CpuQuantities(src, m), MemQuantities(src), NetQuantities(src, m), HddQuantities(src, m), m);
    KnownWhenPresent(Quantities(src, m), m);
  }

  lemma {:induction false} KnownWhenPresent(qs: seq<Quantity>, m: Machine)
    requires AllPresent(qs, m)
    ensures AllKnown(qs)
  {
  }

  /** The columns of a sampler. */
  function Columns(src: Sources, m: Machine, nm: Names): seq<Column>
    requires src.Valid()
  {
    QuantitiesPresent(src, m);
    Described(Quantities(src, m), nm)
  }

  // ---- The registration as the program makes it ----

  lemma {:induction false} InOrder<T>(a: seq<T>, b: seq<T>, c: seq<T>, d: seq<T>, e: seq<T>)
    ensures a + b + c == a + (b + c)
    ensures a + b + c + d == a + (b + c + d)
    ensures a + b + c + d + e == a + (b + c + d + e)
  {
  }

  /** The columns so far. */
  predicate Registering(cs: seq<Column>, qs: seq<Quantity>, nm: Names) { AllKnown(qs) && cs == Described(qs, nm) }

  /** Registers a column when its source is traced. */
  method AddValue(cs: seq<Column>, traced: bool, c: Column, ghost qs: seq<Quantity>, ghost q: Quantity, ghost nm: Names)
      returns (more: seq<Column>)
    requires Registering(cs, qs, nm) && Known(q) && c == Describe(q, nm)
    ensures Registering(more, qs + When(traced, [q]), nm)
  {
    more := if traced then cs + [c] else cs;
    assert qs + [] == qs;
  }

  method RegisterCpus(src: Sources, m: Machine, nm: Names) returns (cs: seq<Column>)
    ensures Registering(cs, CpuQuantities(src, m), nm)
  {
    cs := [];
    ghost var qs: seq<Quantity> := [];
    assert Registering(cs, qs, nm);
    hide Registering, Describe;
    if src.cpuUtil {
      DescribesCpus(nm, 0);
      cs := AddValue(cs, true, Column("CPU_TOTAL", FLOAT, Some("%"), Some("CPU")), qs, CpuTotal, nm);
      cs := AddValue(cs, m.contextSwitches, Column("CONTEXT_SWITCHES", INT64, None, Some("#")), qs + When(true, [CpuTotal]), Switches, nm);
      qs := qs + When(true, [CpuTotal]) + When(m.contextSwitches, [Switches]);
    }
    assert qs == When(src.cpuUtil, [CpuTotal] + When(m.contextSwitches, [Switches]));
    if src.cpuUtilX {
      assert qs + Cpus(0) == qs;
      for i := 0 to m.cpus
        invariant Registering(cs, qs + Cpus(i), nm)
      {
        DescribesCpus(nm, i);
        cs := AddValue(cs, true, Column("CPU_TOTAL_" + Natural(i), FLOAT, Some("%"), Some("CPU")), qs + Cpus(i), CpuOf(i), nm);
        assert qs + Cpus(i) + When(true, [CpuOf(i)]) == qs + Cpus(i + 1);
      }
    }
  }

  lemma {:induction false} DescribesCpus(nm: Names, i: nat)
    ensures Describe(CpuTotal, nm) == Column("CPU_TOTAL", FLOAT, Some("%"), Some("CPU"))
    ensures Describe(Switches, nm) == Column("CONTEXT_SWITCHES", INT64, None, Some("#"))
    ensures Describe(CpuOf(i), nm) == Column("CPU_TOTAL_" + Natural(i), FLOAT, Some("%"), Some("CPU"))
  {
  }

  method RegisterMemory(src: Sources, nm: Names, before: seq<Column>, ghost qs: seq<Quantity>) returns (cs: seq<Column>)
    requires Registering(before, qs, nm)
    ensures Registering(cs, qs + MemQuantities(src), nm)
  {
    hide Registering, When;
    var a, b, c, d := When(src.memUsed, [Used]), When(src.memFree, [Free]), When(src.memShared, [Shared]), When(src.memBuffer, [Buffer]);
    cs := AddValue(before, src.memUsed, Column("MEM_USED", INT64, Some("B"), Some("MEM")), qs, Used, nm);
    cs := AddValue(cs, src.memFree, Column("MEM_FREE", INT64, Some("B"), Some("MEM")), qs + a, Free, nm);
    cs := AddValue(cs, src.memShared, Column("MEM_SHARED", INT64, Some("B"), Some("MEM")), qs + a + b, Shared, nm);
    cs := AddValue(cs, src.memBuffer, Column("MEM_BUFFER", INT64, Some("B"), Some("MEM")), qs + a + b + c, Buffer, nm);
    cs := AddValue(cs, src.memCached, Column("MEM_CACHED", INT64, Some("B"), Some("MEM")), qs + a + b + c + d, Cached, nm);
    InOrder(qs, a, b, c, d);
    InOrder(qs, a + b + c + d, When(src.memCached, [Cached]), [], []);
  }

  method RegisterInterfaces(src: Sources, m: Machine, nm: Names, before: seq<Column>, ghost qs: seq<Quantity>) returns (cs: seq<Column>)
    requires Registering(before, qs, nm)
    ensures Registering(cs, qs + NetQuantities(src, m), nm)
  {
    hide Registering, When;
    cs := before;
    assert qs + Interfaces(src, 0) == qs;
    for i := 0 to |m.loopback|
      invariant Registering(cs, qs + Interfaces(src, i), nm)
    {
      ghost var now := qs + Interfaces(src, i);
      ghost var a, b := When(src.netInX, [InOf(i)]), When(src.netOutX, [OutOf(i)]);
      cs := AddValue(cs, src.netInX, Column("NET_IN_" + nm.interface(i), INT64, Some("B"), Some("NET")), now, InOf(i), nm);
      cs := AddValue(cs, src.netOutX, Column("NET_OUT_" + nm.interface(i), INT64, Some("B"), Some("NET")), now + a, OutOf(i), nm);
      InOrder(now, a, b, [], []);
      InOrder(qs, Interfaces(src, i), a + b, [], []);
    }
    ghost var n := Interfaces(src, |m.loopback|);
    cs := RegisterTotals(src, nm, cs, qs + n);
    InOrder(qs, n, NetTotals(src), [], []);
  }

  method RegisterTotals(src: Sources, nm: Names, before: seq<Column>, ghost qs: seq<Quantity>) returns (cs: seq<Column>)
    requires Registering(before, qs, nm)
    ensures Registering(cs, qs + NetTotals(src), nm)
  {
    hide Registering, When;
    ghost var a, b, c, d :=
      When(src.netInExt, [ExternalIn]), When(src.netOutExt, [ExternalOut]), When(src.netIn, [AllIn]), When(src.netOut, [AllOut]);
    cs := AddValue(before, src.netInExt, Column("NET_IN_EXT", INT64, Some("B"), Some("NET")), qs, ExternalIn, nm);
    cs := AddValue(cs, src.netOutExt, Column("NET_OUT_EXT", INT64, Some("B"), Some("NET")), qs + a, ExternalOut, nm);
    cs := AddValue(cs, src.netIn, Column("NET_IN", INT64, Some("B"), Some("NET")), qs + a + b, AllIn, nm);
    cs := AddValue(cs, src.netOut, Column("NET_OUT", INT64, Some("B"), Some("NET")), qs + a + b + c, AllOut, nm);
    InOrder(qs, a, b, c, d);
  }

  method RegisterDisks(src: Sources, m: Machine, nm: Names, before: seq<Column>, ghost qs: seq<Quantity>) returns (cs: seq<Column>)
    requires src.Valid() && Registering(before, qs, nm)
    ensures Registering(cs, qs + HddQuantities(src, m), nm)
  {
    hide Registering, When;
    ghost var a, b := When(src.hddRead, [DiskRead]), When(src.hddWrite, [DiskWritten]);
    cs := AddValue(before, src.hddRead, Column("HDD_READ", INT64, Some("Byte"), Some("HDD")), qs, DiskRead, nm);
    cs := AddValue(cs, src.hddWrite, Column("HDD_WRITE", INT64, Some("Byte"), Some("HDD")), qs + a, DiskWritten, nm);
    ghost var now := qs + a + b;
    assert now + Devices(src.procHddStats, 0) == now;
    for d := 0 to m.devices
      invariant Registering(cs, now + Devices(src.procHddStats, d), nm)
    {
      cs := RegisterDevice(src.procHddStats, d, nm, cs, now + Devices(src.procHddStats, d));
      InOrder(now, Devices(src.procHddStats, d), Statistics(src.procHddStats, d, HDD_STATS), [], []);
    }
    InOrder(qs, a, b, Devices(src.procHddStats, m.devices), []);
  }

  /** The statistics of one block device. */
  method RegisterDevice(stats: seq<bool>, d: nat, nm: Names, before: seq<Column>, ghost qs: seq<Quantity>) returns (cs: seq<Column>)
    requires |stats| == HDD_STATS && Registering(before, qs, nm)
    ensures Registering(cs, qs + Statistics(stats, d, HDD_STATS), nm)
  {
    hide Registering, When, STATISTICS;
    cs := before;
    assert qs + Statistics(stats, d, 0) == qs;
    for i := 0 to HDD_STATS
      invariant Registering(cs, qs + Statistics(stats, d, i), nm)
    {
      cs := AddValue(cs, stats[i], StatisticColumn(i, nm.device(d)), qs + Statistics(stats, d, i), DiskStatistic(d, i), nm);
      InOrder(qs, Statistics(stats, d, i), When(stats[i], [DiskStatistic(d, i)]), [], []);
    }
  }

  method RegisterColumns(src: Sources, m: Machine, nm: Names) returns (cs: seq<Column>)
    requires src.Valid()
    ensures cs == Columns(src, m, nm)
  {
    var c, e := CpuQuantities(src, m), MemQuantities(src);
    QuantitiesPresent(src, m);
    hide CpuQuantities, MemQuantities, NetQuantities, HddQuantities;
    cs := RegisterCpus(src, m, nm);
    cs := RegisterMemory(src, nm, cs, c);
    cs := RegisterInterfaces(src, m, nm, cs, c + e);
    cs := RegisterDisks(src, m, nm, cs, c + e + NetQuantities(src, m));
  }
}
