/** Shared interrupt lines: the wired-OR of src/shared_irq_line.c, and the PCI devices of
    src/libsel4vm_glue.c whose interrupts are mapped to four of them. */
module Irq {
  import opened Options
  import opened Bits
  import opened Packing

  const PINS: nat := 4
  const SLOTS: nat := 32
  const DEVICES: nat := 31
  const CLR: nat := 0
  const SET: nat := 1
  const PULSE: nat := 2

  /** One call of vm_set_irq_level, which is taken to succeed. */
  datatype Call = Call(irq: nat, level: bool)

  /* ---------------------------------------------------------------- one line */

  /** The int value 1 << source, converted to 64 bits: source 31 is sign-extended. */
  function SourceBit(source: nat): nat
    requires source < 32
  {
    if source < 31 then Shl(1, source) else Shl(Ones(33), 31)
  }

  function Changed(sources: nat, source: nat, active: bool): nat
    requires source < 32
  {
    if active then Or(sources, SourceBit(source)) else And(sources, Not(SourceBit(source), 64))
  }

  /** The call that a change from one mask to another causes. */
  function Drive(irq: nat, was: nat, now: nat): seq<Call> {
    if (was != 0) == (now != 0) then [] else [Call(irq, now != 0)]
  }

  class SharedIrqLine {
    const irq: nat
    var sources: nat

    constructor (irq: nat)
      ensures this.irq == irq && sources == 0
    {
      this.irq, sources := irq, 0;
    }

    /** shared_irq_line_change; a shift by 32 to 63 is undefined in C and left to the caller. */
    method Change(source: nat, active: bool) returns (rc: int, calls: seq<Call>)
      requires source < 32 || source >= 64
      modifies this`sources
      ensures source >= 64 ==> rc == -1 && calls == [] && sources == old(sources)
      ensures source < 32 ==>
                && rc == 0 && sources == Changed(old(sources), source, active)
                && calls == Drive(irq, old(sources), sources)
    {
      calls := [];
      if source >= 64 { return -1, calls; }
      var saved := sources;
      if active {
        sources := Or(sources, SourceBit(source));
      } else {
        sources := And(sources, Not(SourceBit(source), 64));
      }
      if (saved != 0) == (sources != 0) { return 0, calls; }
      return 0, [Call(irq, sources != 0)];
    }
  }

  /** The sources, below 32, whose level is high. */
  ghost function High(sources: nat): set<nat> {
    set s: nat | s < 32 && Bit(sources, s)
  }

  /** Bits 31 to 63 all stand for source 31. */
  ghost predicate MaskOk(sources: nat) {
    forall i: nat :: 31 <= i ==> (Bit(sources, i) <==> i < 64 && Bit(sources, 31))
  }

  lemma {:induction false} SourceBits(source: nat, i: nat)
    requires source < 32
    ensures Bit(SourceBit(source), i) <==> if source < 31 then i == source else 31 <= i < 64
  {
    if source < 31 {
      ShlBit(1, source, i);
      if source < i { ZeroBit(i - source - 1); }
    } else {
      ShlBit(Ones(33), 31, i);
      if 31 <= i { OnesBit(33, i - 31); }
    }
  }

  lemma {:induction false} ChangedBit(sources: nat, source: nat, active: bool, i: nat)
    requires source < 32 && MaskOk(sources)
    ensures Bit(Changed(sources, source, active), i) <==>
            if (if source < 31 then i == source else 31 <= i < 64) then active else Bit(sources, i)
  {
    SourceBits(source, i);
    if active {
      OrBit(sources, SourceBit(source), i);
    } else {
      AndBit(sources, Not(SourceBit(source), 64), i);
      NotBit(SourceBit(source), 64, i);
    }
  }

  /** A change of one source moves exactly that source in or out, and the mask is non-zero exactly
      when some source is high. */
  lemma {:induction false} ChangedHigh(sources: nat, source: nat, active: bool)
    requires source < 32 && MaskOk(sources)
    ensures MaskOk(Changed(sources, source, active))
    ensures High(Changed(sources, source, active)) == if active then High(sources) + {source} else High(sources) - {source}
  {
    var now := Changed(sources, source, active);
    forall i: nat ensures Bit(now, i) <==>
        if (if source < 31 then i == source else 31 <= i < 64) then active else Bit(sources, i) {
      ChangedBit(sources, source, active, i);
    }
  }

  lemma {:induction false} WiredOr(sources: nat)
    requires MaskOk(sources)
    ensures sources != 0 <==> High(sources) != {}
  {
    if sources == 0 {
      forall s: nat ensures !Bit(sources, s) { ZeroBit(s); }
    } else {
      SomeBit(sources);
      var i: nat :| Bit(sources, i);
      assert (if i < 31 then i else 31) in High(sources);
    }
  }

  /* ---------------------------------------------------------------- devices on lines */

  /** devfn: the number the guest sees; backend and proxy: who raises the interrupts. */
  datatype PciDev = PciDev(devfn: nat, backend: nat, proxy: nat)

  /** devs: the registered devices; sources: the mask of each line; calls: what was driven so far. */
  datatype Pci = Pci(devs: seq<PciDev>, sources: seq<nat>, calls: seq<Call>)

  const EMPTY := Pci([], [0, 0, 0, 0], [])

  /** pci_map_irq */
  function Pin(d: PciDev): nat { PciSlot(d.devfn) % PINS }

  /** pcidev_find, from index i on: the first device of this proxy with this number. */
  function Find(devs: seq<PciDev>, proxy: nat, backend: nat, i: nat): (d: Option<nat>)
    requires i <= |devs|
    ensures d.Some? ==>
              && i <= d.value < |devs| && Matches(devs[d.value], proxy, backend)
              && forall j | i <= j < d.value :: !Matches(devs[j], proxy, backend)
    ensures d.None? ==> forall j | i <= j < |devs| :: !Matches(devs[j], proxy, backend)
    decreases |devs| - i
  {
    if i == |devs| then None
    else if Matches(devs[i], proxy, backend) then Some(i)
    else Find(devs, proxy, backend, i + 1)
  }

  predicate Matches(d: PciDev, proxy: nat, backend: nat) { d.proxy == proxy && d.backend == backend }

  /** Line l gets a new mask, and is driven if that matters. */
  function Store(base: nat, p: Pci, l: nat, now: nat): (p': Pci)
    requires |p.sources| == PINS && l < PINS
    ensures |p'.sources| == PINS && p'.devs == p.devs
  {
    Pci(p.devs, p.sources[l := now], p.calls + Drive(base + l, p.sources[l], now))
  }

  /** One change on the line of a device. */
  function Change(base: nat, p: Pci, d: PciDev, level: bool): (p': Pci)
    requires |p.sources| == PINS
    ensures |p'.sources| == PINS && p'.devs == p.devs
  {
    Store(base, p, Pin(d), Changed(p.sources[Pin(d)], PciSlot(d.devfn), level))
  }

  /** pcidev_intx_set; base is the interrupt number of the first line. */
  function IntxSet(base: nat, p: Pci, proxy: nat, backend: nat, level: bool): (r: (Pci, int))
    requires |p.sources| == PINS
    ensures |r.0.sources| == PINS && r.0.devs == p.devs
  {
    if PciSlot(backend) >= SLOTS then (p, -1)
    else
      match Find(p.devs, proxy, backend, 0)
      case None => (p, -1)
      case Some(k) => (Change(base, p, p.devs[k], level), 0)
  }

  /** handle_pci_intx */
  function Intx(base: nat, p: Pci, proxy: nat, backend: nat, op: nat): (r: (Pci, int))
    requires |p.sources| == PINS
    ensures |r.0.sources| == PINS && r.0.devs == p.devs
  {
    if op == SET then IntxSet(base, p, proxy, backend, true)
    else if op == CLR then IntxSet(base, p, proxy, backend, false)
    else if op == PULSE then
      var up := IntxSet(base, p, proxy, backend, true);
      if up.1 != 0 then up else IntxSet(base, up.0, proxy, backend, false)
    else (p, -1)
  }

  /** What becomes of a new device: no memory for its record, refused by the virtual PCI bus, or placed
      there under a number. */
  datatype Placement = NoMemory | Refused | At(devfn: nat)

  /** pcidev_register */
  function Register(p: Pci, proxy: nat, backend: nat, placed: Placement): (r: (Pci, int))
    requires |p.sources| == PINS
    ensures |r.0.sources| == PINS && p.devs <= r.0.devs
  {
    if |p.devs| >= DEVICES || !placed.At? then (p, -1)
    else (p.(devs := p.devs + [PciDev(placed.devfn, backend, proxy)]), 0)
  }

  /** A device is refused when the table is full, no memory is left or the bus refuses it; otherwise
      interrupts of this backend and number reach it, unless an earlier device has the same. */
  lemma RegisteredFound(p: Pci, proxy: nat, backend: nat, placed: Placement)
    requires |p.sources| == PINS
    ensures var r := Register(p, proxy, backend, placed);
            && (r.1 == -1 <==> |p.devs| >= 31 || !placed.At?)
            && (r.1 == -1 ==> r.0 == p)
            && (r.1 != -1 ==>
                  && Find(r.0.devs, proxy, backend, 0) ==
                     (if Find(p.devs, proxy, backend, 0).Some? then Find(p.devs, proxy, backend, 0) else Some(|p.devs|))
                  && r.0.devs[|p.devs|].devfn == placed.devfn)
  {
    var r := Register(p, proxy, backend, placed);
    if r.1 != -1 {
      assert Matches(r.0.devs[|p.devs|], proxy, backend);
      assert forall j | 0 <= j < |p.devs| :: r.0.devs[j] == p.devs[j];
    }
  }

  /** The same as a class, with the program's table and its four line objects. */
  class PciGlue {
    const base: nat
    const devs: array<PciDev>
    var count: nat
    const lines: seq<SharedIrqLine>
    /** The calls of vm_set_irq_level so far */
    var calls: seq<Call>

    ghost predicate Valid()
      reads this, devs, lines
    {
      && devs.Length == DEVICES && count <= DEVICES && |lines| == PINS
      && (forall i, j | 0 <= i < j < PINS :: lines[i] != lines[j])
      && (forall l | 0 <= l < PINS :: lines[l].irq == base + l)
    }

    ghost function View(): (p: Pci)
      requires Valid()
      reads this, devs, lines
      ensures |p.sources| == PINS
    {
      Pci(devs[..count], [lines[0].sources, lines[1].sources, lines[2].sources, lines[3].sources], calls)
    }

    /** irq_init */
    constructor (base: nat)
      ensures Valid() && fresh(devs) && fresh(lines) && this.base == base && View() == EMPTY
    {
      this.base, count, calls := base, 0, [];
      devs := new PciDev[DEVICES](_ => PciDev(0, 0, 0));
      var a := new SharedIrqLine(base);
      var b := new SharedIrqLine(base + 1);
      var c := new SharedIrqLine(base + 2);
      var d := new SharedIrqLine(base + 3);
      lines := [a, b, c, d];
    }

    method RegisterDevice(proxy: nat, backend: nat, placed: Placement) returns (rc: int)
      requires Valid()
      modifies this`count, devs
      ensures Valid() && (View(), rc) == Register(old(View()), proxy, backend, placed)
    {
      if count >= DEVICES { return -1; }
      if placed.NoMemory? { return -1; }
      if placed.Refused? { return -1; }
      devs[count] := PciDev(placed.devfn, backend, proxy);
      count := count + 1;
      assert devs[..count] == old(devs[..count]) + [PciDev(placed.devfn, backend, proxy)];
      return 0;
    }

    method FindDevice(proxy: nat, backend: nat) returns (d: Option<PciDev>)
      requires Valid()
      ensures var k := Find(View().devs, proxy, backend, 0);
              d == if k.Some? then Some(View().devs[k.value]) else None
    {
      var i := 0;
      while i < count
        invariant i <= count
        invariant Find(View().devs, proxy, backend, 0) == Find(View().devs, proxy, backend, i)
      {
        if devs[i].proxy == proxy && devs[i].backend == backend { return Some(devs[i]); }
        i := i + 1;
      }
      return None;
    }

    method SetLevel(proxy: nat, backend: nat, level: bool) returns (rc: int)
      requires Valid()
      modifies this`calls, lines
      ensures Valid() && (View(), rc) == IntxSet(base, old(View()), proxy, backend, level)
    {
      if PciSlot(backend) >= SLOTS { return -1; }
      var d := FindDevice(proxy, backend);
      if d.None? { return -1; }
      var driven;
      rc, driven := lines[Pin(d.value)].Change(PciSlot(d.value.devfn), level);
      calls := calls + driven;
      assert View().sources == old(View()).sources[Pin(d.value) := lines[Pin(d.value)].sources];
    }

    method HandleIntx(proxy: nat, backend: nat, op: nat) returns (rc: int)
      requires Valid()
      modifies this`calls, lines
      ensures Valid() && (View(), rc) == Intx(base, old(View()), proxy, backend, op)
    {
      rc := -1;
      if op == SET {
        rc := SetLevel(proxy, backend, true);
      } else if op == CLR {
        rc := SetLevel(proxy, backend, false);
      } else if op == PULSE {
        rc := SetLevel(proxy, backend, true);
        if rc != 0 { return rc; }
        rc := SetLevel(proxy, backend, false);
      }
    }
  }

  /* ---------------------------------------------------------------- an independent account */

  datatype Op =
    | RegisterDev(proxy: nat, backend: nat, placed: Placement)
    | SetIrq(proxy: nat, backend: nat, op: nat)

  function Exec(base: nat, run: seq<Op>): (p: Pci)
    ensures |p.sources| == PINS
  {
    if run == [] then EMPTY
    else
      var p := Exec(base, run[..|run| - 1]);
      match run[|run| - 1]
      case RegisterDev(proxy, backend, placed) => Register(p, proxy, backend, placed).0
      case SetIrq(proxy, backend, op) => Intx(base, p, proxy, backend, op).0
  }

  /** The devices, by the order of their registration, whose interrupt is high after a run: set (1)
      raises it, clear (0) and pulse (2) leave it low, and nothing else matters. */
  ghost function Levels(base: nat, run: seq<Op>): set<nat> {
    if run == [] then {}
    else
      var before, devs := Levels(base, run[..|run| - 1]), Exec(base, run[..|run| - 1]).devs;
      match run[|run| - 1]
      case RegisterDev(_, _, _) => before
      case SetIrq(proxy, backend, op) =>
        match Find(devs, proxy, backend, 0)
        case None => before
        case Some(k) =>
          if op == 1 then before + {k} else if op == 0 || op == 2 then before - {k} else before
  }

  /** What the virtual PCI bus promises: no two devices in one slot. */
  ghost predicate SlotsDistinct(devs: seq<PciDev>) {
    forall j, k | 0 <= j < k < |devs| :: PciSlot(devs[j].devfn) != PciSlot(devs[k].devfn)
  }

  /** The slots of the high devices mapped to line l. */
  ghost function OnLine(devs: seq<PciDev>, levels: set<nat>, l: nat): set<nat> {
    set k | k in levels && k < |devs| && Pin(devs[k]) == l :: PciSlot(devs[k].devfn)
  }

  /** The line of a device: its slot, which is bits 3 to 7 of its number, modulo the four lines. */
  function LineOf(devfn: nat): nat { devfn / 8 % 32 % 4 }

  lemma PinIsLine(d: PciDev)
    ensures Pin(d) == LineOf(d.devfn)
  {
    PciNumbers(d.devfn);
  }

  /** Whether some device mapped to line l is high. */
  ghost predicate SomeHigh(devs: seq<PciDev>, levels: set<nat>, l: nat) {
    exists k :: k in levels && k < |devs| && LineOf(devs[k].devfn) == l
  }

  /** The level last driven on an interrupt; lines start low. */
  function Driven(calls: seq<Call>, irq: nat): bool {
    if calls == [] then false
    else if calls[|calls| - 1].irq == irq then calls[|calls| - 1].level
    else Driven(calls[..|calls| - 1], irq)
  }

  /** No call repeats the level its interrupt already has. */
  ghost predicate OnlyChanges(calls: seq<Call>) {
    calls == [] ||
    var before, last := calls[..|calls| - 1], calls[|calls| - 1];
    OnlyChanges(before) && Driven(before, last.irq) != last.level
  }

  ghost predicate OnlyLines(base: nat, calls: seq<Call>) {
    forall k: nat :: k < |calls| ==> base <= calls[k].irq < base + 4
  }

  /** Masks and driven levels are those of the given set of high devices. */
  ghost predicate MasksOk(p: Pci, levels: set<nat>) {
    && |p.sources| == PINS && (forall k :: k in levels ==> k < |p.devs|)
    && forall l: nat :: l < PINS ==> MaskOk(p.sources[l]) && High(p.sources[l]) == OnLine(p.devs, levels, l)
  }

  ghost predicate CallsOk(base: nat, p: Pci) {
    && |p.sources| == PINS && OnlyLines(base, p.calls) && OnlyChanges(p.calls)
    && forall l: nat :: l < PINS ==> Driven(p.calls, base + l) == (p.sources[l] != 0)
  }

  lemma {:induction false} DriveKeeps(calls: seq<Call>, irq: nat, was: nat, now: nat, other: nat)
    requires Driven(calls, irq) == (was != 0) && OnlyChanges(calls)
    ensures var calls' := calls + Drive(irq, was, now);
            && OnlyChanges(calls') && Driven(calls', irq) == (now != 0)
            && (other != irq ==> Driven(calls', other) == Driven(calls, other))
  {
    var calls' := calls + Drive(irq, was, now);
    if (was != 0) != (now != 0) {
      assert calls'[..|calls|] == calls;
    } else {
      assert calls' == calls;
    }
  }

  /** A change drives only the line it is on, and only when the mask becomes or stops being zero. */
  lemma {:induction false} StoreCalls(base: nat, p: Pci, l: nat, now: nat)
    requires CallsOk(base, p) && l < PINS
    ensures CallsOk(base, Store(base, p, l, now))
  {
    var calls := p.calls + Drive(base + l, p.sources[l], now);
    var sources := p.sources[l := now];
    forall m | 0 <= m < |sources|
      ensures Driven(calls, base + m) == (sources[m] != 0)
    {
      DriveKeeps(p.calls, base + l, p.sources[l], now, base + m);
    }
    assert OnlyChanges(calls) by { DriveKeeps(p.calls, base + l, p.sources[l], now, base); }
  }

  lemma {:induction false} ChangeCalls(base: nat, p: Pci, d: PciDev, level: bool)
    requires CallsOk(base, p)
    ensures CallsOk(base, Change(base, p, d, level))
  {
    StoreCalls(base, p, Pin(d), Changed(p.sources[Pin(d)], PciSlot(d.devfn), level));
  }

  ghost function With(levels: set<nat>, k: nat, level: bool): set<nat> {
    if level then levels + {k} else levels - {k}
  }

  /** Since slots are distinct, moving one device moves exactly its slot. */
  lemma {:induction false} WithOnLine(devs: seq<PciDev>, levels: set<nat>, k: nat, level: bool, l: nat)
    requires SlotsDistinct(devs) && k < |devs|
    ensures OnLine(devs, With(levels, k, level), l) ==
            if l == Pin(devs[k]) then With(OnLine(devs, levels, l), PciSlot(devs[k].devfn), level)
            else OnLine(devs, levels, l)
  {
    var here, there, slot := OnLine(devs, levels, l), OnLine(devs, With(levels, k, level), l), PciSlot(devs[k].devfn);
    forall s ensures s in there <==>
        if l == Pin(devs[k]) then s in With(here, slot, level) else s in here {
      if s in here {
        var j :| j in levels && j < |devs| && Pin(devs[j]) == l && PciSlot(devs[j].devfn) == s;
        if j != k { assert j in With(levels, k, level); }
      }
      if s == slot && l == Pin(devs[k]) && level { assert k in With(levels, k, level); }
    }
  }

  lemma {:induction false} ChangeMasks(base: nat, p: Pci, levels: set<nat>, k: nat, level: bool)
    requires MasksOk(p, levels) && SlotsDistinct(p.devs) && k < |p.devs|
    ensures MasksOk(Change(base, p, p.devs[k], level), With(levels, k, level))
  {
    var d := p.devs[k];
    ChangedHigh(p.sources[Pin(d)], PciSlot(d.devfn), level);
    forall l: nat | l < PINS ensures OnLine(p.devs, With(levels, k, level), l) ==
        if l == Pin(d) then With(OnLine(p.devs, levels, l), PciSlot(d.devfn), level) else OnLine(p.devs, levels, l) {
      WithOnLine(p.devs, levels, k, level, l);
    }
  }

  lemma {:induction false} RegisterMasks(p: Pci, levels: set<nat>, proxy: nat, backend: nat, placed: Placement)
    requires MasksOk(p, levels)
    ensures MasksOk(Register(p, proxy, backend, placed).0, levels)
  {
    var p' := Register(p, proxy, backend, placed).0;
    forall l: nat | l < PINS ensures OnLine(p'.devs, levels, l) == OnLine(p.devs, levels, l) {
    }
  }

  ghost predicate Accounts(base: nat, p: Pci, levels: set<nat>) {
    MasksOk(p, levels) && CallsOk(base, p)
  }

  lemma {:induction false} IntxKeeps(base: nat, p: Pci, levels: set<nat>, proxy: nat, backend: nat, op: nat)
    requires Accounts(base, p, levels) && SlotsDistinct(p.devs)
    ensures var p' := Intx(base, p, proxy, backend, op).0;
            match Find(p.devs, proxy, backend, 0)
            case None => p' == p
            case Some(k) =>
              Accounts(base, p', if op == SET then levels + {k}
                                 else if op == CLR || op == PULSE then levels - {k} else levels)
  {
    match Find(p.devs, proxy, backend, 0)
    case None =>
    case Some(k) =>
      var d := p.devs[k];
      if op == SET || op == PULSE {
        ChangeMasks(base, p, levels, k, true);
        ChangeCalls(base, p, d, true);
        if op == PULSE {
          var up := Change(base, p, d, true);
          ChangeMasks(base, up, levels + {k}, k, false);
          ChangeCalls(base, up, d, false);
          assert levels + {k} - {k} == levels - {k};
        }
      } else if op == CLR {
        ChangeMasks(base, p, levels, k, false);
        ChangeCalls(base, p, d, false);
      }
  }

  lemma {:induction false} RunAccounts(base: nat, run: seq<Op>)
    requires SlotsDistinct(Exec(base, run).devs)
    ensures Accounts(base, Exec(base, run), Levels(base, run))
  {
    if run == [] {
      assert forall s: nat :: !Bit(0, s) by { forall s: nat ensures !Bit(0, s) { ZeroBit(s); } }
      assert forall l: nat :: l < PINS ==> High(0) == OnLine([], {}, l);
    } else {
      var before := run[..|run| - 1];
      var p, levels := Exec(base, before), Levels(base, before);
      assert p.devs <= Exec(base, run).devs;
      RunAccounts(base, before);
      match run[|run| - 1]
      case RegisterDev(proxy, backend, placed) => RegisterMasks(p, levels, proxy, backend, placed);
      case SetIrq(proxy, backend, op) => IntxKeeps(base, p, levels, proxy, backend, op);
    }
  }

  /** A mask is non-zero exactly when some device on its line is high. */
  lemma {:induction false} MaskIsLine(base: nat, p: Pci, levels: set<nat>, l: nat)
    requires Accounts(base, p, levels) && l < 4
    ensures p.sources[l] != 0 <==> SomeHigh(p.devs, levels, l)
  {
    WiredOr(p.sources[l]);
    forall k | 0 <= k < |p.devs| ensures Pin(p.devs[k]) == LineOf(p.devs[k].devfn) { PinIsLine(p.devs[k]); }
    if SomeHigh(p.devs, levels, l) {
      var k :| k in levels && k < |p.devs| && LineOf(p.devs[k].devfn) == l;
      assert PciSlot(p.devs[k].devfn) in OnLine(p.devs, levels, l);
    }
  }

  /** The main result: after every run of registrations and interrupt messages, the level last
      driven on each line is the OR of the levels of the devices mapped to it, a line is driven only
      when that OR changes, and no other interrupt is ever driven. */
  lemma {:induction false} LinesFollowLevels(base: nat, run: seq<Op>, l: nat)
    requires SlotsDistinct(Exec(base, run).devs) && l < 4
    ensures var p := Exec(base, run);
            && Driven(p.calls, base + l) == SomeHigh(p.devs, Levels(base, run), l)
            && OnlyChanges(p.calls) && OnlyLines(base, p.calls)
  {
    RunAccounts(base, run);
    MaskIsLine(base, Exec(base, run), Levels(base, run), l);
  }

  lemma {:induction false} ChangeDrives(base: nat, p: Pci, levels: set<nat>, k: nat, level: bool)
    requires Accounts(base, p, levels) && SlotsDistinct(p.devs) && k < |p.devs|
    ensures var l := LineOf(p.devs[k].devfn); var p' := Change(base, p, p.devs[k], level);
            && Accounts(base, p', With(levels, k, level))
            && p'.calls == p.calls + if SomeHigh(p.devs, levels, l) == SomeHigh(p.devs, With(levels, k, level), l) then []
                                     else [Call(base + l, SomeHigh(p.devs, With(levels, k, level), l))]
  {
    hide CallsOk, SlotsDistinct, SomeHigh, Changed, LineOf, PciSlot;
    var p' := Change(base, p, p.devs[k], level);
    ChangeMasks(base, p, levels, k, level);
    ChangeCalls(base, p, p.devs[k], level);
    PinIsLine(p.devs[k]);
    MaskIsLine(base, p, levels, Pin(p.devs[k]));
    MaskIsLine(base, p', With(levels, k, level), Pin(p.devs[k]));
  }

  /** What one interrupt message drives, after any run: set raises a line that is low, clear lowers one on
      which no other device is high, and a pulse does the one and then the other.  Anything else is silent. */
  lemma {:induction false} MessageDrives(base: nat, run: seq<Op>, proxy: nat, backend: nat, op: nat)
    requires SlotsDistinct(Exec(base, run).devs)
    ensures var p, levels := Exec(base, run), Levels(base, run);
            var calls := Exec(base, run + [SetIrq(proxy, backend, op)]).calls;
            match Find(p.devs, proxy, backend, 0)
            case None => calls == p.calls
            case Some(k) =>
              var l := LineOf(p.devs[k].devfn);
              var raise := if SomeHigh(p.devs, levels, l) then [] else [Call(base + l, true)];
              var wasHigh, others := SomeHigh(p.devs, levels, l), SomeHigh(p.devs, levels - {k}, l);
              calls == p.calls + if op == 1 then raise
                                 else if op == 0 then if wasHigh && !others then [Call(base + l, false)] else []
                                 else if op == 2 then if others then [] else raise + [Call(base + l, false)]
                                 else []
  {
    hide Accounts, SlotsDistinct, Change, LineOf, PciSlot, Levels;
    var p, levels := Exec(base, run), Levels(base, run);
    assert (run + [SetIrq(proxy, backend, op)])[..|run|] == run;
    RunAccounts(base, run);
    match Find(p.devs, proxy, backend, 0)
    case None =>
    case Some(k) =>
      SomeMore(p.devs, levels, k);
      if op == 1 || op == 2 { ChangeDrives(base, p, levels, k, true); }
      if op == 0 { ChangeDrives(base, p, levels, k, false); }
      if op == 2 {
        ChangeDrives(base, Change(base, p, p.devs[k], true), levels + {k}, k, false);
        assert levels + {k} - {k} == levels - {k};
      }
  }

  /** With a device raised its line is high, and with one lowered no line rises. */
  lemma SomeMore(devs: seq<PciDev>, levels: set<nat>, k: nat)
    requires k < |devs|
    ensures var l := LineOf(devs[k].devfn);
            SomeHigh(devs, levels + {k}, l) && (SomeHigh(devs, levels - {k}, l) ==> SomeHigh(devs, levels, l))
  {
    assert k in levels + {k};
  }

  /** pci_cfg_read8 of the interrupt line and the interrupt pin */
  function ReadInterruptLine(base: nat, d: PciDev): nat { (base + Pin(d)) % 256 }
  function ReadInterruptPin(d: PciDev): nat { (Pin(d) + 1) % 256 }

  /** The registers name the interrupt and the pin of the device, as far as 8 bits can. */
  lemma ReadsLine(base: nat, d: PciDev)
    ensures ReadInterruptLine(base, d) == base + LineOf(d.devfn) <==> base + LineOf(d.devfn) < 256
    ensures ReadInterruptPin(d) == LineOf(d.devfn) + 1
  {
    PinIsLine(d);
    if base + Pin(d) >= 256 { assert ReadInterruptLine(base, d) < 256; }
  }

  /** The interrupt the guest reads for a registered device is high exactly when some device on the
      same line is; so it is high whenever the device itself is. */
  lemma {:induction false} GuestSeesLine(base: nat, run: seq<Op>, p: Pci, k: nat)
    requires p == Exec(base, run) && SlotsDistinct(p.devs) && k < |p.devs| && base + LineOf(p.devs[k].devfn) < 256
    ensures var high := Driven(p.calls, ReadInterruptLine(base, p.devs[k]));
            high == SomeHigh(p.devs, Levels(base, run), LineOf(p.devs[k].devfn)) && (k in Levels(base, run) ==> high)
  {
    hide Exec, Levels, ReadInterruptLine, ReadInterruptPin, SlotsDistinct, Driven, PciSlot;
    ReadsLine(base, p.devs[k]);
    LinesFollowLevels(base, run, LineOf(p.devs[k].devfn));
    if k in Levels(base, run) {
      assert SomeHigh(p.devs, Levels(base, run), LineOf(p.devs[k].devfn));
    }
  }
}
