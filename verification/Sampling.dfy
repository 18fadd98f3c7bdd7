/** The steps of the resource sampler. One code path registers the columns of the statistics group, another
    writes the values of a step: both walk over the same machine, and they have to agree column by column. */
module Sampling {
  import opened Basics
  import opened SampleColumns
  import opened StatsFormat
  import opened StatsGroups

  // ---- The values that a step writes ----

  function CpuValues(x: Sample, n: nat): seq<Datum> { if n == 0 then [] else CpuValues(x, n - 1) + [Float(x.cpu(n - 1))] }

  function CpuStep(src: Sources, m: Machine, x: Sample): seq<Datum> {
    if !(src.cpuUtil || src.cpuUtilX) then []
    else
      When(src.cpuUtil, [Float(x.cpuTotal)] + When(m.contextSwitches, [Long(x.switches)]))
      + When(src.cpuUtilX, CpuValues(x, m.cpus))
  }

  function MemStep(src: Sources, x: Sample): seq<Datum> {
    if !(src.memUsed || src.memFree || src.memShared || src.memBuffer || src.memCached) then []
    else
      When(src.memUsed, [Long(x.used)]) + When(src.memFree, [Long(x.free)]) + When(src.memShared, [Long(x.shared)])
      + When(src.memBuffer, [Long(x.buffer)]) + When(src.memCached, [Long(x.cached)])
  }

  function InterfaceValues(src: Sources, x: Sample, n: nat): seq<Datum> {
    if n == 0 then []
    else
      InterfaceValues(src, x, n - 1)
      + (When(src.netInX, [Long(x.inBytes(n - 1))]) + When(src.netOutX, [Long(x.outBytes(n - 1))]))
  }

  /** Traffic in 64-bit arithmetic, of all interfaces or of those that are not loopback devices. */
  function Traffic(bytes: nat -> nat, loopback: seq<bool>, external: bool, n: nat): nat
    requires n <= |loopback|
  {
    if n == 0 then 0
    else
      var sum := Traffic(bytes, loopback, external, n - 1);
      if external && loopback[n - 1] then sum else (sum + bytes(n - 1)) % WORD64
  }

  function NetStep(src: Sources, m: Machine, x: Sample): seq<Datum> {
    if !(src.netInX || src.netOutX || src.netInExt || src.netOutExt || src.netIn || src.netOut) then []
    else
      var n := |m.loopback|;
      InterfaceValues(src, x, n)
      + (When(src.netInExt, [Long(Traffic(x.inBytes, m.loopback, true, n))])
         + When(src.netOutExt, [Long(Traffic(x.outBytes, m.loopback, true, n))])
         + When(src.netIn, [Long(Traffic(x.inBytes, m.loopback, false, n))])
         + When(src.netOut, [Long(Traffic(x.outBytes, m.loopback, false, n))]))
  }

  function DeviceValues(stats: seq<bool>, x: Sample, d: nat, n: nat): seq<Datum>
    requires n <= |stats|
  {
    if n == 0 then [] else DeviceValues(stats, x, d, n - 1) + When(stats[n - 1], [Long(x.disk(d, n - 1))])
  }

  function DevicesValues(stats: seq<bool>, x: Sample, n: nat): seq<Datum> {
    if n == 0 then [] else DevicesValues(stats, x, n - 1) + DeviceValues(stats, x, n - 1, |stats|)
  }

  function HddStep(src: Sources, m: Machine, x: Sample): seq<Datum> {
    if !(src.hddRead || src.hddWrite) then []
    else
      When(src.hddRead, [Long(x.read)]) + When(src.hddWrite, [Long(x.write)]) + DevicesValues(src.procHddStats, x, m.devices)
  }

  /** A step writes nothing while there are no old values to compare with. */
  function StepValues(src: Sources, m: Machine, valid: bool, x: Sample): seq<Datum> {
    When(valid, CpuStep(src, m, x) + MemStep(src, x) + NetStep(src, m, x) + HddStep(src, m, x))
  }

  // ---- Agreement ----

  lemma {:induction false} Words()
    ensures Power256(4) == WORD32 && Power256(8) == WORD64
  {
    assert Power256(2) == 0x1_0000 && Power256(4) == 256 * (256 * Power256(2));
    assert Power256(6) == 256 * (256 * Power256(4)) && Power256(8) == 256 * (256 * Power256(6));
  }

  lemma {:induction false} ValuesBoth(a: seq<Quantity>, b: seq<Quantity>, m: Machine, x: Sample)
    ensures Values(a + b, m, x) == Values(a, m, x) + Values(b, m, x) && Values([], m, x) == []
  {
    hide Measured;
  }

  lemma {:induction false} ValuesOne(b: bool, q: Quantity, m: Machine, x: Sample)
    ensures Values(When(b, [q]), m, x) == When(b, [Measured(q, m, x)])
  {
    hide Measured;
  }

  /** Up to four in a row. */
  lemma {:induction false} ValuesFour(a: seq<Quantity>, b: seq<Quantity>, c: seq<Quantity>, d: seq<Quantity>, m: Machine, x: Sample)
    ensures Values(a + b + c + d, m, x) == Values(a, m, x) + Values(b, m, x) + Values(c, m, x) + Values(d, m, x)
  {
    hide Values;
    ValuesBoth(a, b, m, x);
    ValuesBoth(a + b, c, m, x);
    ValuesBoth(a + b + c, d, m, x);
  }

  lemma {:induction false} CpusMeasured(m: Machine, x: Sample, n: nat)
    ensures Values(Cpus(n), m, x) == CpuValues(x, n)
  {
    hide Values, Float;
    if n > 0 {
      CpusMeasured(m, x, n - 1);
      ValuesBoth(Cpus(n - 1), [CpuOf(n - 1)], m, x);
      ValuesOne(true, CpuOf(n - 1), m, x);
    } else {
      ValuesBoth([], [], m, x);
    }
  }

  lemma {:induction false} CpuMeasured(src: Sources, m: Machine, x: Sample)
    ensures CpuStep(src, m, x) == Values(CpuQuantities(src, m), m, x)
  {
    hide Values, Float, Long;
    ValuesBoth([], [], m, x);
    CpusMeasured(m, x, m.cpus);
    ValuesOne(true, CpuTotal, m, x);
    ValuesOne(m.contextSwitches, Switches, m, x);
    ValuesBoth([CpuTotal], When(m.contextSwitches, [Switches]), m, x);
    var a, b := When(src.cpuUtil, [CpuTotal] + When(m.contextSwitches, [Switches])), When(src.cpuUtilX, Cpus(m.cpus));
    ValuesBoth(a, b, m, x);
    assert !(src.cpuUtil || src.cpuUtilX) ==> a + b == [];
  }

  lemma {:induction false} NoMemory(src: Sources)
    requires !(src.memUsed || src.memFree || src.memShared || src.memBuffer || src.memCached)
    ensures MemQuantities(src) == []
  {
  }

  lemma {:induction false} MemMeasured(src: Sources, m: Machine, x: Sample)
    ensures MemStep(src, x) == Values(MemQuantities(src), m, x)
  {
    hide Values, Long, When, MemQuantities;
    if !(src.memUsed || src.memFree || src.memShared || src.memBuffer || src.memCached) {
      NoMemory(src);
      ValuesBoth([], [], m, x);
    } else {
      MemoryInOrder(src, m, x);
    }
  }

  lemma {:induction false} MemoryInOrder(src: Sources, m: Machine, x: Sample)
    ensures Values(MemQuantities(src), m, x)
      == When(src.memUsed, [Long(x.used)]) + When(src.memFree, [Long(x.free)]) + When(src.memShared, [Long(x.shared)])
         + When(src.memBuffer, [Long(x.buffer)]) + When(src.memCached, [Long(x.cached)])
  {
    hide Values, Long, When;
    ValuesOne(src.memUsed, Used, m, x);
    ValuesOne(src.memFree, Free, m, x);
    ValuesOne(src.memShared, Shared, m, x);
    ValuesOne(src.memBuffer, Buffer, m, x);
    ValuesOne(src.memCached, Cached, m, x);
    var a, b, c, d := When(src.memUsed, [Used]), When(src.memFree, [Free]), When(src.memShared, [Shared]), When(src.memBuffer, [Buffer]);
    ValuesFour(a, b, c, d, m, x);
    ValuesBoth(a + b + c + d, When(src.memCached, [Cached]), m, x);
  }

  lemma {:induction false} InterfacesMeasured(src: Sources, m: Machine, x: Sample, n: nat)
    ensures Values(Interfaces(src, n), m, x) == InterfaceValues(src, x, n)
  {
    hide Values, Long, When;
    if n > 0 {
      InterfacesMeasured(src, m, x, n - 1);
      var a, b := When(src.netInX, [InOf(n - 1)]), When(src.netOutX, [OutOf(n - 1)]);
      ValuesOne(src.netInX, InOf(n - 1), m, x);
      ValuesOne(src.netOutX, OutOf(n - 1), m, x);
      ValuesBoth(a, b, m, x);
      ValuesBoth(Interfaces(src, n - 1), a + b, m, x);
    } else {
      ValuesBoth([], [], m, x);
    }
  }

  lemma {:induction false} NoInterfaces(src: Sources, n: nat)
    requires !src.netInX && !src.netOutX
    ensures Interfaces(src, n) == []
  {
    if n > 0 { NoInterfaces(src, n - 1); }
  }

  lemma {:induction false} LongOfRest(k: nat)
    ensures Long(k % WORD64) == Long(k)
  {
  }

  lemma {:induction false} TotalIsLong(bytes: nat -> nat, loopback: seq<bool>)
    ensures var n := |loopback|;
      && Long(Traffic(bytes, loopback, true, n)) == Long(Sum(bytes, loopback, false, n))
      && Long(Traffic(bytes, loopback, false, n)) == Long(Sum(bytes, loopback, false, n) + Sum(bytes, loopback, true, n))
  {
    TotalsAreSums(bytes, loopback, |loopback|);
    hide Long, Sum, Traffic;
    LongOfRest(Sum(bytes, loopback, false, |loopback|));
    LongOfRest(Sum(bytes, loopback, false, |loopback|) + Sum(bytes, loopback, true, |loopback|));
  }

  lemma {:induction false} TotalMeasured(m: Machine, x: Sample)
    ensures var n := |m.loopback|;
      && Measured(ExternalIn, m, x) == Long(Traffic(x.inBytes, m.loopback, true, n))
      && Measured(ExternalOut, m, x) == Long(Traffic(x.outBytes, m.loopback, true, n))
      && Measured(AllIn, m, x) == Long(Traffic(x.inBytes, m.loopback, false, n))
      && Measured(AllOut, m, x) == Long(Traffic(x.outBytes, m.loopback, false, n))
  {
    hide Long, Sum, Traffic;
    TotalIsLong(x.inBytes, m.loopback);
    TotalIsLong(x.outBytes, m.loopback);
  }

  lemma {:induction false} TotalsMeasured(src: Sources, m: Machine, x: Sample)
    ensures var n := |m.loopback|;
      Values(NetTotals(src), m, x)
        == When(src.netInExt, [Long(Traffic(x.inBytes, m.loopback, true, n))])
           + When(src.netOutExt, [Long(Traffic(x.outBytes, m.loopback, true, n))])
           + When(src.netIn, [Long(Traffic(x.inBytes, m.loopback, false, n))])
           + When(src.netOut, [Long(Traffic(x.outBytes, m.loopback, false, n))])
  {
    TotalMeasured(m, x);
    hide Values, Long, When, Traffic, Measured;
    ValuesOne(src.netInExt, ExternalIn, m, x);
    ValuesOne(src.netOutExt, ExternalOut, m, x);
    ValuesOne(src.netIn, AllIn, m, x);
    ValuesOne(src.netOut, AllOut, m, x);
    ValuesFour(When(src.netInExt, [ExternalIn]), When(src.netOutExt, [ExternalOut]), When(src.netIn, [AllIn]), When(src.netOut, [AllOut]), m, x);
  }

  lemma {:induction false} NetMeasured(src: Sources, m: Machine, x: Sample)
    ensures NetStep(src, m, x) == Values(NetQuantities(src, m), m, x)
  {
    var n := |m.loopback|;
    if !(src.netInX || src.netOutX || src.netInExt || src.netOutExt || src.netIn || src.netOut) {
      NoInterfaces(src, n);
      assert NetQuantities(src, m) == [];
    } else {
      hide Values, Long, When, Traffic;
      InterfacesMeasured(src, m, x, n);
      TotalsMeasured(src, m, x);
      ValuesBoth(Interfaces(src, n), NetTotals(src), m, x);
    }
  }

  lemma {:induction false} DeviceMeasured(stats: seq<bool>, m: Machine, x: Sample, d: nat, n: nat)
    requires n <= |stats|
    ensures Values(Statistics(stats, d, n), m, x) == DeviceValues(stats, x, d, n)
  {
    hide Values, Long, When;
    if n > 0 {
      DeviceMeasured(stats, m, x, d, n - 1);
      ValuesOne(stats[n - 1], DiskStatistic(d, n - 1), m, x);
      ValuesBoth(Statistics(stats, d, n - 1), When(stats[n - 1], [DiskStatistic(d, n - 1)]), m, x);
    } else {
      ValuesBoth([], [], m, x);
    }
  }

  lemma {:induction false} DevicesMeasured(stats: seq<bool>, m: Machine, x: Sample, n: nat)
    ensures Values(Devices(stats, n), m, x) == DevicesValues(stats, x, n)
  {
    hide Values, Long;
    if n > 0 {
      DevicesMeasured(stats, m, x, n - 1);
      DeviceMeasured(stats, m, x, n - 1, |stats|);
      ValuesBoth(Devices(stats, n - 1), Statistics(stats, n - 1, |stats|), m, x);
    } else {
      ValuesBoth([], [], m, x);
    }
  }

  /** A device has a column exactly when some of its statistics are traced. */
  lemma {:induction false} DeviceColumns(stats: seq<bool>, d: nat, n: nat)
    requires n <= |stats|
    ensures Statistics(stats, d, n) == [] <==> true !in stats[..n]
  {
    if n > 0 {
      DeviceColumns(stats, d, n - 1);
      assert stats[..n] == stats[..n - 1] + [stats[n - 1]];
    }
  }

  lemma {:induction false} DevicesColumns(stats: seq<bool>, n: nat)
    ensures Devices(stats, n) == [] <==> n == 0 || true !in stats
  {
    hide Statistics;
    if n > 0 {
      DevicesColumns(stats, n - 1);
      DeviceColumns(stats, n - 1, |stats|);
      assert stats[..|stats|] == stats;
    }
  }

  /** The step for disks returns early when neither total is traced, whatever is traced per device. */
  predicate DisksAgree(src: Sources, m: Machine) {
    src.hddRead || src.hddWrite || m.devices == 0 || true !in src.procHddStats
  }

  lemma {:induction false} HddInOrder(src: Sources, m: Machine, x: Sample)
    ensures Values(HddQuantities(src, m), m, x)
      == When(src.hddRead, [Long(x.read)]) + When(src.hddWrite, [Long(x.write)]) + DevicesValues(src.procHddStats, x, m.devices)
  {
    hide Values, Long, When;
    DevicesMeasured(src.procHddStats, m, x, m.devices);
    ValuesOne(src.hddRead, DiskRead, m, x);
    ValuesOne(src.hddWrite, DiskWritten, m, x);
    var a, b, c := When(src.hddRead, [DiskRead]), When(src.hddWrite, [DiskWritten]), Devices(src.procHddStats, m.devices);
    ValuesBoth(a, b, m, x);
    ValuesBoth(a + b, c, m, x);
  }

  lemma {:induction false} HddMeasured(src: Sources, m: Machine, x: Sample)
    ensures DisksAgree(src, m) ==> HddStep(src, m, x) == Values(HddQuantities(src, m), m, x)
    ensures !DisksAgree(src, m) ==> HddStep(src, m, x) == [] && HddQuantities(src, m) != []
  {
    hide Values, Long, Devices, DevicesValues, Measured;
    if src.hddRead || src.hddWrite {
      HddInOrder(src, m, x);
    } else {
      DevicesColumns(src.procHddStats, m.devices);
      ValuesBoth([], [], m, x);
      assert HddQuantities(src, m) == Devices(src.procHddStats, m.devices);
    }
  }

  lemma {:induction false} TooFew(a: seq<Quantity>, b: seq<Quantity>, m: Machine, x: Sample)
    requires b != []
    ensures |Values(a, m, x)| < |Kinds(a + b)|
  {
  }

  /** A step writes the measurements of the registered quantities, in order, exactly when no disk statistics
      are traced without one of the disk totals. Otherwise it writes too few values. */
  lemma {:induction false} StepIsMeasured(src: Sources, m: Machine, x: Sample)
    ensures DisksAgree(src, m) ==> StepValues(src, m, true, x) == Values(Quantities(src, m), m, x)
    ensures !DisksAgree(src, m) ==> |StepValues(src, m, true, x)| < |Registered(src, m)|
  {
    hide CpuStep, MemStep, NetStep, HddStep, CpuQuantities, MemQuantities, NetQuantities, HddQuantities, DisksAgree, Values, Kinds;
    CpuMeasured(src, m, x);
    MemMeasured(src, m, x);
    NetMeasured(src, m, x);
    HddMeasured(src, m, x);
    var c, e, n, h := CpuQuantities(src, m), MemQuantities(src), NetQuantities(src, m), HddQuantities(src, m);
    ValuesFour(c, e, n, h, m, x);
    if !DisksAgree(src, m) {
      ValuesFour(c, e, n, [], m, x);
      ValuesBoth([], [], m, x);
      assert c + e + n + [] == c + e + n;
      NothingBehind(CpuStep(src, m, x) + MemStep(src, x) + NetStep(src, m, x));
      TooFew(c + e + n, h, m, x);
    }
  }

  lemma {:induction false} NothingBehind(vs: seq<Datum>)
    ensures vs + [] == vs
  {
  }

  lemma {:induction false} MeasuredFits(q: Quantity, m: Machine, x: Sample)
    ensures Measured(q, m, x).Valid() && Measured(q, m, x).kind == Kind(q)
    ensures Kind(q) == INT64 || Kind(q) == FLOAT
  {
    Words();
    hide Sum;
  }

  lemma {:induction false} ValuesFit(qs: seq<Quantity>, m: Machine, x: Sample)
    ensures OfTypes(Values(qs, m, x), Kinds(qs)) && STRING !in Kinds(qs) && UINT64 !in Kinds(qs)
  {
    hide Measured, Kind, Datum.Valid;
    forall i | 0 <= i < |qs|
      ensures Values(qs, m, x)[i].Valid() && Values(qs, m, x)[i].kind == Kinds(qs)[i] && (Kinds(qs)[i] == INT64 || Kinds(qs)[i] == FLOAT)
    {
      MeasuredFits(qs[i], m, x);
    }
  }

  /** The two code paths agree, column by column, exactly under that condition. */
  lemma {:induction false} SchemaAgrees(src: Sources, m: Machine, x: Sample)
    ensures OfTypes(StepValues(src, m, true, x), Registered(src, m)) <==> DisksAgree(src, m)
    ensures STRING !in Registered(src, m) && UINT64 !in Registered(src, m)
    ensures !DisksAgree(src, m) ==> |StepValues(src, m, true, x)| < |Registered(src, m)|
  {
    hide Quantities, StepValues, DisksAgree, Values, Kinds, Datum.Valid;
    StepIsMeasured(src, m, x);
    ValuesFit(Quantities(src, m), m, x);
  }

  /** Each value of a step is what the name of its column stands for, and unit and grouping are those of that
      measurement, for every machine and every choice of sources. */
  lemma {:induction false} ColumnTells(src: Sources, m: Machine, nm: Names, x: Sample, i: nat)
    requires src.Valid() && DisksAgree(src, m) && Distinct(m, nm) && i < |Columns(src, m, nm)|
    ensures var c, vs := Columns(src, m, nm)[i], StepValues(src, m, true, x);
      && |vs| == |Columns(src, m, nm)| == |Registered(src, m)| && c.kind == vs[i].kind == Registered(src, m)[i]
      && c.grouping.Some? && LegendOf(c.name, m, nm, x) == Some(Legend(vs[i], c.unit, c.grouping.value))
  {
    hide Quantities, StepValues, DisksAgree, Measured, LegendOf, Describe, Kind, Distinct;
    StepIsMeasured(src, m, x);
    QuantitiesPresent(src, m);
    var q := Quantities(src, m)[i];
    NameTells(q, m, nm, x);
  }

  // ---- Sources set by groups ----

  /** The sources that the SET and UNSET macros for whole groups leave behind. */
  function Groups(cpu: bool, mem: bool, net: bool, hdd: bool): Sources {
    Sources(cpu, cpu, mem, mem, mem, mem, mem, net, net, net, net, net, net, hdd, hdd, seq(HDD_STATS, _ => hdd))
  }

  /** Whatever groups are set, on whatever machine, the two code paths agree. */
  lemma {:induction false} GroupsAgree(cpu: bool, mem: bool, net: bool, hdd: bool, m: Machine, x: Sample)
    ensures OfTypes(StepValues(Groups(cpu, mem, net, hdd), m, true, x), Registered(Groups(cpu, mem, net, hdd), m))
  {
    var src := Groups(cpu, mem, net, hdd);
    assert DisksAgree(src, m);
    SchemaAgrees(src, m, x);
  }

  /** The group that a quantity belongs to is set. */
  predicate GroupOf(q: Quantity, cpu: bool, mem: bool, net: bool, hdd: bool) {
    match q
    case CpuTotal => cpu
    case Switches => cpu
    case CpuOf(_) => cpu
    case Used => mem
    case Free => mem
    case Shared => mem
    case Buffer => mem
    case Cached => mem
    case DiskRead => hdd
    case DiskWritten => hdd
    case DiskStatistic(_, _) => hdd
    case _ => net
  }

  /** The machine has it. */
  predicate Found(q: Quantity, m: Machine) {
    Present(q, m) && (q.Switches? ==> m.contextSwitches) && (q.CpuOf? ==> q.cpu < m.cpus)
  }

  lemma {:induction false} InCpus(q: Quantity, n: nat)
    ensures q in Cpus(n) <==> q.CpuOf? && q.cpu < n
  {
    if n > 0 { InCpus(q, n - 1); }
  }

  lemma {:induction false} InInterfaces(src: Sources, q: Quantity, n: nat)
    ensures q in Interfaces(src, n) <==>
      (q.InOf? && src.netInX && q.interface < n) || (q.OutOf? && src.netOutX && q.interface < n)
  {
    if n > 0 { InInterfaces(src, q, n - 1); }
  }

  lemma {:induction false} InStatistics(stats: seq<bool>, d: nat, q: Quantity, n: nat)
    requires n <= |stats|
    ensures q in Statistics(stats, d, n) <==> q.DiskStatistic? && q.device == d && q.statistic < n && stats[q.statistic]
  {
    if n > 0 { InStatistics(stats, d, q, n - 1); }
  }

  lemma {:induction false} InDevices(stats: seq<bool>, q: Quantity, n: nat)
    ensures q in Devices(stats, n) <==> q.DiskStatistic? && q.device < n && q.statistic < |stats| && stats[q.statistic]
  {
    if n > 0 {
      InDevices(stats, q, n - 1);
      InStatistics(stats, n - 1, q, |stats|);
    }
  }

  lemma {:induction false} InCpu(src: Sources, m: Machine, q: Quantity)
    ensures q in CpuQuantities(src, m) <==>
      (q.CpuTotal? && src.cpuUtil) || (q.Switches? && src.cpuUtil && m.contextSwitches) || (q.CpuOf? && src.cpuUtilX && q.cpu < m.cpus)
  {
    InCpus(q, m.cpus);
    hide Cpus;
  }

  lemma {:induction false} InMemory(src: Sources, q: Quantity)
    ensures q in MemQuantities(src) <==>
      || (q.Used? && src.memUsed) || (q.Free? && src.memFree) || (q.Shared? && src.memShared)
      || (q.Buffer? && src.memBuffer) || (q.Cached? && src.memCached)
  {
  }

  lemma {:induction false} InTotals(src: Sources, q: Quantity)
    ensures q in NetTotals(src) <==>
      || (q.ExternalIn? && src.netInExt) || (q.ExternalOut? && src.netOutExt) || (q.AllIn? && src.netIn) || (q.AllOut? && src.netOut)
  {
  }

  lemma {:induction false} InParts(src: Sources, m: Machine, q: Quantity)
    ensures q in Quantities(src, m) <==>
      || q in CpuQuantities(src, m) || q in MemQuantities(src) || q in Interfaces(src, |m.loopback|) || q in NetTotals(src)
      || (q.DiskRead? && src.hddRead) || (q.DiskWritten? && src.hddWrite) || q in Devices(src.procHddStats, m.devices)
  {
    hide CpuQuantities, MemQuantities, Interfaces, NetTotals, Devices;
  }

  /** With whole groups set exactly the quantities of these groups that the machine has become columns. */
  lemma {:induction false} GroupsChoose(cpu: bool, mem: bool, net: bool, hdd: bool, m: Machine, q: Quantity)
    ensures q in Quantities(Groups(cpu, mem, net, hdd), m) <==> Found(q, m) && GroupOf(q, cpu, mem, net, hdd)
  {
    hide Quantities, CpuQuantities, MemQuantities, Interfaces, NetTotals, Devices;
    var src := Groups(cpu, mem, net, hdd);
    InParts(src, m, q);
    InCpu(src, m, q);
    InMemory(src, q);
    InTotals(src, q);
    InInterfaces(src, q, |m.loopback|);
    InDevices(src.procHddStats, q, m.devices);
  }

  // ---- How many columns there can be ----

  lemma {:induction false} CpuCount(src: Sources, m: Machine)
    ensures |CpuQuantities(src, m)| <= 1 + (if m.contextSwitches then 1 else 0) + m.cpus
    ensures src.cpuUtil && src.cpuUtilX ==> |CpuQuantities(src, m)| == 1 + (if m.contextSwitches then 1 else 0) + m.cpus
  {
    CpusCount(m.cpus);
  }

  lemma {:induction false} CpusCount(n: nat)
    ensures |Cpus(n)| == n
  {
    if n > 0 { CpusCount(n - 1); }
  }

  lemma {:induction false} InterfaceCount(src: Sources, n: nat)
    ensures |Interfaces(src, n)| <= 2 * n && (src.netInX && src.netOutX ==> |Interfaces(src, n)| == 2 * n)
  {
    if n > 0 { InterfaceCount(src, n - 1); }
  }

  lemma {:induction false} StatisticCount(stats: seq<bool>, d: nat, n: nat)
    requires n <= |stats|
    ensures |Statistics(stats, d, n)| <= n && ((forall i | 0 <= i < n :: stats[i]) ==> |Statistics(stats, d, n)| == n)
  {
    if n > 0 { StatisticCount(stats, d, n - 1); }
  }

  lemma {:induction false} DeviceCount(stats: seq<bool>, n: nat)
    requires |stats| == HDD_STATS
    ensures |Devices(stats, n)| <= HDD_STATS * n && ((forall i | 0 <= i < |stats| :: stats[i]) ==> |Devices(stats, n)| == HDD_STATS * n)
  {
    if n > 0 {
      DeviceCount(stats, n - 1);
      StatisticCount(stats, n - 1, |stats|);
    }
  }

  /** The most columns that a sampler of this machine can have, as it is documented. */
  function Documented(m: Machine): nat { 12 + m.cpus + 2 * |m.loopback| + HDD_STATS * m.devices }

  /** No choice of sources makes more columns than the documented number and, on a machine that counts context
      switches, one more; with all sources there are exactly so many. */
  lemma {:induction false} MostColumns(src: Sources, m: Machine)
    requires src.Valid()
    ensures |Registered(src, m)| <= Documented(m) + if m.contextSwitches then 1 else 0
    ensures src == Groups(true, true, true, true) ==> |Registered(src, m)| == Documented(m) + if m.contextSwitches then 1 else 0
  {
    CpuCount(src, m);
    InterfaceCount(src, |m.loopback|);
    DeviceCount(src.procHddStats, m.devices);
    hide CpuQuantities, Interfaces, Devices;
    assert |MemQuantities(src)| <= 5 && |NetTotals(src)| <= 4;
    assert src == Groups(true, true, true, true) ==> |MemQuantities(src)| == 5 && |NetTotals(src)| == 4;
    hide MemQuantities, NetTotals;
  }

  /** So the documented maximum holds for every choice of sources exactly on machines that do not count them. */
  lemma {:induction false} DocumentedMaximum(m: Machine)
    ensures (forall src: Sources :: src.Valid() ==> |Registered(src, m)| <= Documented(m)) <==> !m.contextSwitches
  {
    hide Registered, Documented;
    var all := Groups(true, true, true, true);
    assert all.Valid();
    MostColumns(all, m);
    forall src: Sources | src.Valid() ensures |Registered(src, m)| <= Documented(m) + if m.contextSwitches then 1 else 0 {
      MostColumns(src, m);
    }
  }

  // ---- Steps make entries ----

  lemma {:induction false} NotesAppend(r: Record, ts: seq<ValueType>, a: seq<Call>, b: seq<Call>)
    ensures Notes(r, ts, a + b) == Notes(Notes(r, ts, a), ts, b)
  {
    if b == [] {
      assert a + b == a;
    } else {
      var n := |b| - 1;
      NotesAppend(r, ts, a, b[..n]);
      assert (a + b)[..|a + b| - 1] == a + b[..n];
    }
  }

  /** The writes of one step, each at its own time. */
  function StepCalls(vs: seq<Datum>, clock: nat -> Timestamp): seq<Call> {
    ValueCalls(vs, seq(|vs|, i requires i >= 0 => clock(i)))
  }

  /** A valid step writes exactly one entry: its values, with the time of the first write. */
  lemma {:induction false} StepMakesOneEntry(src: Sources, m: Machine, x: Sample, clock: nat -> Timestamp, r: Record)
    requires DisksAgree(src, m) && Registered(src, m) != []
    requires r.enabled && r.current.values == []
    ensures var vs := StepValues(src, m, true, x);
      var s := Notes(r, Registered(src, m), StepCalls(vs, clock));
      s.done == r.done + [Entry(clock(0), vs)] && s.enabled && s.current.values == []
  {
    var vs := StepValues(src, m, true, x);
    hide StepValues, Registered, DisksAgree;
    SchemaAgrees(src, m, x);
    ValuesMakeEntry(r, Registered(src, m), vs, seq(|vs|, i requires i >= 0 => clock(i)));
  }

  /** The entry of a step, unless there are no old values yet. */
  function StepEntries(src: Sources, m: Machine, valid: bool, x: Sample, clock: nat -> Timestamp): seq<Entry> {
    if valid then [Entry(clock(0), StepValues(src, m, true, x))] else []
  }

  lemma {:induction false} StepIsWhole(src: Sources, m: Machine, valid: bool, x: Sample, clock: nat -> Timestamp, r: Record)
    requires DisksAgree(src, m) && Registered(src, m) != []
    requires r.enabled && r.current.values == []
    ensures var s := Notes(r, Registered(src, m), StepCalls(StepValues(src, m, valid, x), clock));
      s.done == r.done + StepEntries(src, m, valid, x, clock) && s.enabled && s.current.values == []
  {
    hide Registered, DisksAgree;
    if valid {
      StepMakesOneEntry(src, m, x, clock, r);
    } else {
      assert StepCalls(StepValues(src, m, false, x), clock) == [];
      assert r.done + [] == r.done;
    }
  }

  /** A sequence of steps while the group is enabled; `clocks(k)` tells the times in step k. */
  function StepsCalls(src: Sources, m: Machine, valid: bool, xs: seq<Sample>, clocks: nat -> nat -> Timestamp): seq<Call> {
    if xs == [] then []
    else
      var n := |xs| - 1;
      StepsCalls(src, m, valid, xs[..n], clocks) + StepCalls(StepValues(src, m, valid || n > 0, xs[n]), clocks(n))
  }

  /** The entries of all steps but, when there are no old values yet, the first. */
  function StepsEntries(src: Sources, m: Machine, valid: bool, xs: seq<Sample>, clocks: nat -> nat -> Timestamp): seq<Entry> {
    if xs == [] then []
    else
      var n := |xs| - 1;
      StepsEntries(src, m, valid, xs[..n], clocks) + StepEntries(src, m, valid || n > 0, xs[n], clocks(n))
  }

  /** Any number of steps write exactly one complete entry each, in order; none is left half written. */
  lemma {:induction false} StepsMakeEntries(src: Sources, m: Machine, valid: bool, xs: seq<Sample>,
                                            clocks: nat -> nat -> Timestamp, r: Record)
    requires DisksAgree(src, m) && Registered(src, m) != []
    requires r.enabled && r.current.values == []
    ensures var s := Notes(r, Registered(src, m), StepsCalls(src, m, valid, xs, clocks));
      s.done == r.done + StepsEntries(src, m, valid, xs, clocks) && s.enabled && s.current.values == []
  {
    hide Registered, DisksAgree, Notes, StepValues, StepCalls, StepEntries;
    var ts := Registered(src, m);
    if xs != [] {
      var n := |xs| - 1;
      StepsMakeEntries(src, m, valid, xs[..n], clocks, r);
      var before, last := StepsCalls(src, m, valid, xs[..n], clocks), StepCalls(StepValues(src, m, valid || n > 0, xs[n]), clocks(n));
      NotesAppend(r, ts, before, last);
      StepIsWhole(src, m, valid || n > 0, xs[n], clocks(n), Notes(r, ts, before));
      InOrder(r.done, StepsEntries(src, m, valid, xs[..n], clocks), StepEntries(src, m, valid || n > 0, xs[n], clocks(n)), [], []);
    } else {
      NoNotes(r, ts);
    }
  }

  lemma {:induction false} NoNotes(r: Record, ts: seq<ValueType>)
    ensures Notes(r, ts, []) == r && r.done + [] == r.done
  {
  }

  /** What goes wrong otherwise: memory use and one disk statistic are traced, no disk total is. Two
      steps make one entry, and its disk column holds the memory use of the second step. */
  lemma {:induction false} ColumnsShift(x: Sample, y: Sample, t: Timestamp, u: Timestamp, r: Record)
    requires r == Record(true, [], Entry(t, []))
    ensures var src := Sources(false, false, true, false, false, false, false, false, false, false, false, false, false,
                               false, false, seq(HDD_STATS, i => i == 0));
      var m := Machine(1, true, [], 1);
      && !DisksAgree(src, m)
      && StepValues(src, m, true, x) == [Long(x.used)]
      && Notes(r, Registered(src, m), [ValueCall(Long(x.used), t), ValueCall(Long(y.used), u)]).done
           == [Entry(t, [Long(x.used), Long(y.used)])]
  {
    hide Notes;
    var src := Sources(false, false, true, false, false, false, false, false, false, false, false, false, false,
                       false, false, seq(HDD_STATS, i => i == 0));
    var m := Machine(1, true, [], 1);
    assert src.procHddStats[0];
    OneStatistic(src.procHddStats, 0, HDD_STATS);
    assert Devices(src.procHddStats, 1) == Devices(src.procHddStats, 0) + [DiskStatistic(0, 0)];
    assert Quantities(src, m) == [Used, DiskStatistic(0, 0)];
    assert Registered(src, m) == [INT64, INT64];
    TwoValues(r, Long(x.used), Long(y.used), t, u);
  }

  lemma {:induction false} TwoValues(r: Record, v: Datum, w: Datum, t: Timestamp, u: Timestamp)
    requires r == Record(true, [], Entry(t, [])) && v.kind == w.kind == INT64
    ensures Notes(r, [INT64, INT64], [ValueCall(v, t), ValueCall(w, u)]).done == [Entry(t, [v, w])]
  {
    var a, b := ValueCall(v, t), ValueCall(w, u);
    assert [a, b][..1] == [a] && [a][..0] == [];
    assert Notes(r, [INT64, INT64], [a]) == Record(true, [], Entry(t, [v]));
    assert [v] + [w] == [v, w];
  }

  lemma {:induction false} OneStatistic(stats: seq<bool>, d: nat, n: nat)
    requires 0 < n <= |stats| && forall i | 0 <= i < |stats| :: stats[i] == (i == 0)
    ensures Statistics(stats, d, n) == [DiskStatistic(d, 0)]
  {
    if n > 1 {
      OneStatistic(stats, d, n - 1);
    } else {
      assert Statistics(stats, d, 0) == [];
    }
  }

  // ---- Totals ----

  lemma {:induction false} AddModulo(a: nat, b: nat, w: nat)
    requires w > 0
    ensures (a % w + b) % w == (a + b) % w
  {
    var q, r := a / w, a % w;
    var p, t := (r + b) / w, (r + b) % w;
    assert a + b == w * q + (w * p + t) && w * q + w * p == w * (q + p);
    OneRest(a + b, w, q + p, t);
  }

  lemma {:induction false} OneRest(k: nat, w: nat, q: nat, r: nat)
    requires r < w && k == w * q + r
    ensures k % w == r
  {
    var p := k / w;
    assert k == w * p + k % w;
    Times(w, p, q);
    Times(w, q, p);
  }

  lemma {:induction false} Times(w: nat, a: nat, b: nat)
    ensures a < b ==> w * a + w <= w * b
  {
    if a < b {
      assert w * (b - a) >= w by { assert w * (b - a) == w * (b - a - 1) + w; }
      assert w * b == w * a + w * (b - a);
    }
  }

  /** The totals are the sums of the interfaces' own columns, modulo 2^64: external interfaces in one,
      external and loopback interfaces in the other. */
  lemma {:induction false} TotalsAreSums(bytes: nat -> nat, loopback: seq<bool>, n: nat)
    requires n <= |loopback|
    ensures Traffic(bytes, loopback, true, n) == Sum(bytes, loopback, false, n) % WORD64
    ensures Traffic(bytes, loopback, false, n) == (Sum(bytes, loopback, false, n) + Sum(bytes, loopback, true, n)) % WORD64
  {
    if n > 0 {
      TotalsAreSums(bytes, loopback, n - 1);
      var e, l := Sum(bytes, loopback, false, n - 1), Sum(bytes, loopback, true, n - 1);
      AddModulo(e, bytes(n - 1), WORD64);
      AddModulo(e + l, bytes(n - 1), WORD64);
    }
  }

  // ---- The steps as the program makes them ----

  class Sampler {
    const src: Sources
    const machine: Machine
    var valid: bool                // there are old values to compare with
    var written: seq<Datum>        // every value handed to the group so far

    constructor (src: Sources, machine: Machine)
      requires src.Valid()
      ensures this.src == src && this.machine == machine && !valid && written == []
    {
      this.src, this.machine, valid, written := src, machine, false, [];
    }

    method WriteFloat(bits: nat)
      modifies this`written
      ensures written == old(written) + [Float(bits)]
    {
      written := written + [Float(bits)];
    }

    /** Writes a value when its source is traced. */
    method WriteLong(traced: bool, bits: nat)
      modifies this`written
      ensures written == old(written) + When(traced, [Long(bits)])
    {
      if traced {
        written := written + [Long(bits)];
      }
    }

    method StepCpu(x: Sample)
      modifies this`written
      ensures written == old(written) + When(valid, CpuStep(src, machine, x))
    {
      hide Long, Float, CpuValues;
      if !(src.cpuUtil || src.cpuUtilX) {
        return;
      }
      if valid {
        if src.cpuUtil {
          WriteFloat(x.cpuTotal);
          WriteLong(machine.contextSwitches, x.switches);
        }
        if src.cpuUtilX {
          WriteCpus(x);
        }
        InOrder(old(written), When(src.cpuUtil, [Float(x.cpuTotal)] + When(machine.contextSwitches, [Long(x.switches)])),
                When(src.cpuUtilX, CpuValues(x, machine.cpus)), [], []);
        InOrder(old(written), [Float(x.cpuTotal)], When(machine.contextSwitches, [Long(x.switches)]), [], []);
      }
    }

    method WriteCpus(x: Sample)
      modifies this`written
      ensures written == old(written) + CpuValues(x, machine.cpus)
    {
      hide Float;
      for i := 0 to machine.cpus
        invariant written == old(written) + CpuValues(x, i)
      {
        WriteFloat(x.cpu(i));
      }
    }

    method StepMem(x: Sample)
      modifies this`written
      ensures written == old(written) + When(valid, MemStep(src, x))
    {
      if !(src.memUsed || src.memFree || src.memShared || src.memBuffer || src.memCached) {
        return;
      }
      if valid {
        hide When, Long;
        ghost var before := written;
        WriteLong(src.memUsed, x.used);
        WriteLong(src.memFree, x.free);
        WriteLong(src.memShared, x.shared);
        WriteLong(src.memBuffer, x.buffer);
        ghost var a, b, c, d := When(src.memUsed, [Long(x.used)]), When(src.memFree, [Long(x.free)]),
          When(src.memShared, [Long(x.shared)]), When(src.memBuffer, [Long(x.buffer)]);
        InOrder(before, a, b, c, d);
        WriteLong(src.memCached, x.cached);
        InOrder(before, a + b + c + d, When(src.memCached, [Long(x.cached)]), [], []);
        assert When(valid, MemStep(src, x)) == MemStep(src, x) by { WhenTrue(MemStep(src, x)); }
      }
    }

    static lemma {:induction false} WhenTrue(vs: seq<Datum>)
      ensures When(true, vs) == vs
    {
    }

    method StepNet(x: Sample)
      modifies this`written
      ensures written == old(written) + When(valid, NetStep(src, machine, x))
    {
      if !(src.netInX || src.netOutX || src.netInExt || src.netOutExt || src.netIn || src.netOut) {
        return;
      }
      hide Long;
      var allIn, allOut, extIn, extOut := 0, 0, 0, 0;
      for i := 0 to |machine.loopback|
        invariant allIn == Traffic(x.inBytes, machine.loopback, false, i)
        invariant allOut == Traffic(x.outBytes, machine.loopback, false, i)
        invariant extIn == Traffic(x.inBytes, machine.loopback, true, i)
        invariant extOut == Traffic(x.outBytes, machine.loopback, true, i)
        invariant written == old(written) + When(valid, InterfaceValues(src, x, i))
      {
        allIn := (allIn + x.inBytes(i)) % WORD64;
        allOut := (allOut + x.outBytes(i)) % WORD64;
        if !machine.loopback[i] {
          extIn := (extIn + x.inBytes(i)) % WORD64;
          extOut := (extOut + x.outBytes(i)) % WORD64;
        }
        if valid {
          WriteInterface(x, i);
          InOrder(old(written), InterfaceValues(src, x, i),
                  When(src.netInX, [Long(x.inBytes(i))]) + When(src.netOutX, [Long(x.outBytes(i))]), [], []);
        }
      }
      if valid {
        WriteTotals(allIn, allOut, extIn, extOut);
        InOrder(old(written), InterfaceValues(src, x, |machine.loopback|),
                When(src.netInExt, [Long(extIn)]) + When(src.netOutExt, [Long(extOut)])
                  + When(src.netIn, [Long(allIn)]) + When(src.netOut, [Long(allOut)]), [], []);
      }
    }

    method WriteInterface(x: Sample, i: nat)
      modifies this`written
      ensures written == old(written) + (When(src.netInX, [Long(x.inBytes(i))]) + When(src.netOutX, [Long(x.outBytes(i))]))
    {
      WriteLong(src.netInX, x.inBytes(i));
      WriteLong(src.netOutX, x.outBytes(i));
    }

    method WriteTotals(allIn: nat, allOut: nat, extIn: nat, extOut: nat)
      modifies this`written
      ensures written == old(written)
        + (When(src.netInExt, [Long(extIn)]) + When(src.netOutExt, [Long(extOut)])
           + When(src.netIn, [Long(allIn)]) + When(src.netOut, [Long(allOut)]))
    {
      hide When, Long;
      WriteLong(src.netInExt, extIn);
      WriteLong(src.netOutExt, extOut);
      WriteLong(src.netIn, allIn);
      WriteLong(src.netOut, allOut);
      InOrder(old(written), When(src.netInExt, [Long(extIn)]), When(src.netOutExt, [Long(extOut)]),
              When(src.netIn, [Long(allIn)]), When(src.netOut, [Long(allOut)]));
    }

    method StepHdd(x: Sample)
      requires src.Valid()
      modifies this`written
      ensures written == old(written) + When(valid, HddStep(src, machine, x))
    {
      if !(src.hddRead || src.hddWrite) {
        return;
      }
      if valid {
        WriteLong(src.hddRead, x.read);
        WriteLong(src.hddWrite, x.write);
      }
      ghost var now := written;
      ghost var a, b := When(src.hddRead, [Long(x.read)]), When(src.hddWrite, [Long(x.write)]);
      hide Long;
      InOrder(old(written), a, b, DevicesValues(src.procHddStats, x, machine.devices), []);
      for d := 0 to machine.devices
        invariant written == now + When(valid, DevicesValues(src.procHddStats, x, d))
      {
        WriteDevice(x, d);
        InOrder(now, DevicesValues(src.procHddStats, x, d), DeviceValues(src.procHddStats, x, d, HDD_STATS), [], []);
      }
    }

    method WriteDevice(x: Sample, d: nat)
      requires src.Valid()
      modifies this`written
      ensures written == old(written) + When(valid, DeviceValues(src.procHddStats, x, d, HDD_STATS))
    {
      hide Long;
      for i := 0 to HDD_STATS
        invariant written == old(written) + When(valid, DeviceValues(src.procHddStats, x, d, i))
      {
        if valid {
          WriteLong(src.procHddStats[i], x.disk(d, i));
          InOrder(old(written), DeviceValues(src.procHddStats, x, d, i), When(src.procHddStats[i], [Long(x.disk(d, i))]), [], []);
        }
      }
    }

    /** One step writes its values in the order of the columns; afterwards there are old values. */
    method DoTracingStep(x: Sample)
      requires src.Valid()
      modifies this
      ensures valid && written == old(written) + StepValues(src, machine, old(valid), x)
    {
      hide CpuStep, MemStep, NetStep, HddStep;
      StepCpu(x);
      StepMem(x);
      StepNet(x);
      StepHdd(x);
      InOrder(old(written), CpuStep(src, machine, x), MemStep(src, x), NetStep(src, machine, x), HddStep(src, machine, x));
      valid := true;
    }
  }
}
