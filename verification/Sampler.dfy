/** src/PAPI_sample.c: the table of rings that PAPI_sample_init fills, and the signal
    handler that finds a ring by file descriptor and drains it. */
module Sampler {
  import opened Bytes
  import opened Layout
  import opened Records
  import opened Batch
  import opened RingWindow
  import opened Protocol
  import opened ExactlyOnce
  import opened SplitSteps
  import opened MmapReader

  const MMAP_DATA_SIZE: nat := 8
  const TABLE_SIZE: nat := 100

  /** `mmap_info`: the two pointers are indices into `fds` and `heads`. */
  datatype MmapInfo = Unset | Entry(page: PerfPage, fd: nat, prevHead: nat)

  /** NotFound ends the program; Stray is an undefined read. */
  datatype HandlerOutcome = Handled | NotFound | Stray

  /** What perf_event_open answered: the first try, and the one without branch stacks. */
  datatype Open = Open(first: int, second: int)

  function Chosen(o: Open): int { if o.first >= 0 then o.first else o.second }

  /** `sample_type &= ~PERF_SAMPLE_BRANCH_STACK` */
  function WithoutBranches(sampleType: set<Kind>): set<Kind> {
    sampleType - {BRANCH_STACK}
  }

  /** The sample type that the event was opened with in the end. */
  function KernelType(sampleType: set<Kind>, o: Open): set<Kind> {
    if o.first >= 0 then sampleType else WithoutBranches(sampleType)
  }

  /** TableOverrun is a write past the end of `mmaps`. */
  datatype InitOutcome = Ready(kernelTypes: seq<set<Kind>>) | NoCores | OpenFailed | MapFailed | TableOverrun

  function Entries(ls: seq<Line>): (rs: seq<Record>)
    ensures |rs| == |ls|
  {
    seq(|ls|, k requires 0 <= k < |ls| => ls[k].entry)
  }

  ghost function Rings(pages: seq<PerfPage>): (rs: seq<Ring>)
    reads pages, set p | p in pages :: p.buf
    ensures |rs| == |pages|
    ensures forall i :: 0 <= i < |pages| ==> rs[i] == pages[i].State()
  {
    if pages == [] then [] else [pages[0].State()] + Rings(pages[1..])
  }

  class Sampler {
    const fds: array<int>
    const heads: array<nat>
    const mmaps: array<MmapInfo>
    const data: array<byte>
    const file: LogFile
    const config: Config
    const pageSize: nat
    var numMaps: nat
    ghost var pages: seq<PerfPage>
    ghost var lines: seq<Line>
    ghost var sys: System

    /** Distinct mappings of the size of the scratch array. */
    ghost predicate PagesOk()
      reads this
    {
      && 0 < data.Length == MMAP_DATA_SIZE * pageSize < 0x8000_0000
      && (forall i :: 0 <= i < |pages| ==> pages[i].buf.Length == data.Length && pages[i].buf != data)
      && (forall i, j :: 0 <= i < j < |pages| ==> pages[i] != pages[j] && pages[i].buf != pages[j].buf)
    }

    ghost predicate TableOk()
      reads this, fds, mmaps
    {
      && |pages| == numMaps <= TABLE_SIZE == mmaps.Length
      && numMaps <= fds.Length && numMaps <= heads.Length
      && (forall i :: 0 <= i < numMaps ==> mmaps[i] == Entry(pages[i], i, i))
      && (forall i, j :: 0 <= i < j < numMaps ==> fds[i] != fds[j])
    }

    ghost predicate Valid()
      reads this, fds, mmaps, file
    {
      PagesOk() && TableOk() && numMaps > 0 && file.lines == Entries(lines)
    }

    ghost function State(): (m: Machine)
      reads this, heads, data, pages, set p | p in pages :: p.buf
      requires numMaps <= heads.Length
    {
      Machine(Rings(pages), heads[..numMaps], data[..], lines)
    }

    /** The object is where some run of the machine leads, between two handler runs. */
    ghost predicate Tracked()
      reads this, fds, heads, mmaps, file, data, pages, set p | p in pages :: p.buf
    {
      Valid() && Shaped(sys) && sys.m == State() && sys.phase.Idle? && Reachable(config, sys)
    }

    /** The allocations of PAPI_sample_init; `slots` is NumEvents times the number of cores. */
    constructor Allocate(cfg: Config, pageSize: nat, slots: nat)
      requires 0 < MMAP_DATA_SIZE * pageSize < 0x8000_0000
      ensures PagesOk() && TableOk() && numMaps == 0 && lines == [] && file.lines == []
      ensures fresh(fds) && fresh(heads) && fresh(mmaps) && fresh(data) && fresh(file)
      ensures config == cfg && this.pageSize == pageSize && fds.Length == heads.Length == slots
      ensures data.Length == MMAP_DATA_SIZE * pageSize
      ensures forall i :: 0 <= i < slots ==> heads[i] == 0
    {
      this.config, this.pageSize := cfg, pageSize;
      this.data := new byte[MMAP_DATA_SIZE * pageSize];
      this.file := new LogFile();
      this.fds := new int[slots];
      this.heads := new nat[slots](_ => 0);
      this.mmaps := new MmapInfo[TABLE_SIZE](_ => Unset);
      this.numMaps, this.pages, this.lines := 0, [], [];
    }

    /** A mapping that does not clash with those in the table. */
    ghost predicate Separate(page: PerfPage)
      reads this
    {
      && page.buf.Length == data.Length && page.buf != data
      && forall j :: 0 <= j < |pages| ==> pages[j] != page && pages[j].buf != page.buf
    }

    /** The table entry of the next core. */
    method AddMap(fd: int, page: PerfPage)
      requires PagesOk() && TableOk() && Separate(page)
      requires numMaps < TABLE_SIZE && numMaps < fds.Length && numMaps < heads.Length
      requires forall j :: 0 <= j < numMaps ==> fds[j] != fd
      modifies `numMaps, `pages, fds, mmaps
      ensures PagesOk() && TableOk() && numMaps == old(numMaps) + 1
      ensures pages == old(pages) + [page]
      ensures fds[old(numMaps)] == fd && forall j :: 0 <= j < old(numMaps) ==> fds[j] == old(fds[j])
    {
      fds[numMaps] := fd;
      mmaps[numMaps] := Entry(page, numMaps, numMaps);
      pages := pages + [page];
      numMaps := numMaps + 1;
    }

    /** The loop of PAPI_sample_init over the cores, given the answers of the kernel. */
    method MapCores(cores: int, opens: seq<Open>, mapped: seq<PerfPage?>) returns (out: InitOutcome)
      requires PagesOk() && TableOk() && numMaps == 0
      requires cores > 0 ==> cores == |opens| == |mapped| && cores <= fds.Length && cores <= heads.Length
      requires forall i, j :: 0 <= i < j < |opens| && Chosen(opens[i]) >= 0 ==> Chosen(opens[i]) != Chosen(opens[j])
      requires forall i :: 0 <= i < |mapped| && mapped[i] != null ==>
                 mapped[i].buf.Length == data.Length && mapped[i].buf != data
      requires forall i, j :: 0 <= i < j < |mapped| && mapped[i] != null && mapped[j] != null ==>
                 mapped[i] != mapped[j] && mapped[i].buf != mapped[j].buf
      modifies `numMaps, `pages, fds, mmaps
      ensures out.NoCores? <==> cores <= 0
      ensures out.Ready? <==>
              0 < cores <= TABLE_SIZE && forall i :: 0 <= i < cores ==> Chosen(opens[i]) >= 0 && mapped[i] != null
      ensures out.TableOverrun? <==>
              && cores > TABLE_SIZE && Chosen(opens[TABLE_SIZE]) >= 0
              && forall i :: 0 <= i < TABLE_SIZE ==> Chosen(opens[i]) >= 0 && mapped[i] != null
      ensures out.OpenFailed? ==> 0 <= numMaps < cores && Chosen(opens[numMaps]) < 0
      ensures out.MapFailed? ==> 0 <= numMaps < cores && Chosen(opens[numMaps]) >= 0 && mapped[numMaps] == null
      ensures out.Ready? ==> PagesOk() && TableOk() && numMaps == cores && |out.kernelTypes| == cores
      ensures out.Ready? && file.lines == Entries(lines) ==> Valid()
      ensures out.Ready? ==> forall i :: 0 <= i < cores ==>
                pages[i] == mapped[i] && fds[i] == Chosen(opens[i])
      ensures out.Ready? ==> forall i :: 0 <= i < cores ==>
                out.kernelTypes[i] == KernelType(config.sampleType, opens[i])
    {
      if cores <= 0 {
        return NoCores;
      }
      var sampleType := config.sampleType;
      var types: seq<set<Kind>> := [];
      var i := 0;
      while i < cores
        invariant 0 <= i <= cores && numMaps == i == |types|
        invariant PagesOk() && TableOk()
        invariant sampleType == config.sampleType || sampleType == WithoutBranches(config.sampleType)
        invariant forall j :: 0 <= j < i ==> Chosen(opens[j]) >= 0 && mapped[j] != null
        invariant forall j :: 0 <= j < i ==> pages[j] == mapped[j] && fds[j] == Chosen(opens[j])
        invariant forall j :: 0 <= j < i ==> types[j] == KernelType(config.sampleType, opens[j])
      {
        var fd := opens[i].first;
        var kernelType := config.sampleType;
        if fd < 0 {
          sampleType := WithoutBranches(sampleType);
          kernelType := sampleType;
          fd := opens[i].second;
          if fd < 0 {
            return OpenFailed;
          }
        }
        if i == mmaps.Length {
          return TableOverrun;
        }
        if mapped[i] == null {
          return MapFailed;
        }
        AddMap(fd, mapped[i]);
        types := types + [kernelType];
        i := i + 1;
      }
      return Ready(types);
    }

    /** The search for the ring of a descriptor. Running off the table ends the program. */
    method FindRing(fd: int) returns (slot: Option<nat>)
      requires Valid()
      ensures slot == None <==> forall i :: 0 <= i < numMaps ==> fds[i] != fd
      ensures slot.Some? ==> slot.value < numMaps && fds[slot.value] == fd
    {
      var i := 0;
      while i < numMaps
        invariant 0 <= i < numMaps
        invariant forall j :: 0 <= j < i ==> fds[j] != fd
      {
        if fds[mmaps[i].fd] == fd {
          return Some(i);
        }
        if i == numMaps - 1 {
          return None;
        }
        i := i + 1;
      }
    }

    /** Reading one ring. */
    method ReadRing(i: nat) returns (ret: Outcome, ghost batch: Result<seq<Record>>)
      requires Valid() && i < numMaps
      modifies data, file, pages
      ensures var ring := old(pages[i].State());
              batch == DecodeBatch(config, Unwrap(ring.buf, heads[i]), 0, ToInt32(ring.head - heads[i]))
      ensures heads[..] == old(heads[..]) && PagesOk() && TableOk()
      ensures forall j :: 0 <= j < |pages| && j != i ==> pages[j].State() == old(pages[j].State())
      ensures match batch
              case Fault => ret == Undefined
              case Ok(rs) =>
                && ret == Returned(old(pages[i].dataHead))
                && pages[i].State() == old(pages[i].State()).(tail := old(pages[i].dataHead))
                && data[..] == Zeros(data.Length)
                && file.lines == old(file.lines) + rs
    {
      hide DecodeBatch, Unwrap, Zeros;
      ghost var ring := pages[i].State();
      batch := DecodeBatch(config, Unwrap(ring.buf, heads[i]), 0, ToInt32(ring.head - heads[i]));
      var prevHead := heads[mmaps[i].prevHead];
      var page := mmaps[i].page;
      var eventsRead, overflowed;
      ret, eventsRead, overflowed :=
        PerfMmapRead(page, MMAP_DATA_SIZE, pageSize, prevHead, config, false, false, file, data);
    }

    /** Reading the ring and saving the new `prev_head`. */
    method Drain(i: nat) returns (out: HandlerOutcome)
      requires Valid() && i < numMaps
      modifies heads, data, file, pages, `lines
      ensures match HandleRing(config, old(State()), i)
              case Fault => out == Stray
              case Ok(m) => out == Handled && Valid() && State() == m
    {
      hide DecodeBatch, Unwrap, Zeros, Tag, HandleRing, Entries, Rings;
      HandleRingIs(config, State(), i);
      var ret, batch := ReadRing(i);
      if ret.Undefined? {
        return Stray;
      }
      assert Rings(pages) == old(Rings(pages))[i := pages[i].State()];
      heads[mmaps[i].prevHead] := ret.head;
      assert heads[..numMaps] == old(heads[..numMaps])[i := ret.head];
      lines := lines + Tag(i, batch.value);
      EntriesTagged(old(lines), i, batch.value);
      return Handled;
    }

    /** The same, with the run kept up to date. On a ring whose waiting records the decoder can
        walk over nothing undefined is read, and afterwards the ring's log is what was published. */
    method Serve(i: nat) returns (out: HandlerOutcome)
      requires Valid() && i < numMaps
      modifies heads, data, file, pages, `lines, `sys
      ensures match HandleRing(config, old(State()), i)
              case Fault => out == Stray
              case Ok(m) => out == Handled && Valid() && State() == m
      ensures old(Tracked()) && out == Handled ==> Tracked() && sys.hist.published == old(sys.hist.published)
      ensures old(Tracked()) && DecodableStream(config, Waiting(old(sys), i)) ==> out == Handled
      ensures old(Tracked()) && Walkable(config, old(sys.hist.published[i])) ==>
                out == Handled && Project(lines, i) == Views(config, old(sys.hist.published[i]))
    {
      hide HandleRing, Entries, Rings, Reachable, DecodableStream, Waiting, Walkable, Project, Views;
      ghost var tracked, s := Tracked(), sys;
      assert tracked ==> i < |s.m.rings|;
      hide PagesOk, TableOk;
      out := Drain(i);
      if tracked {
        HandlerPromise(config, s, i);
        ghost var t := HandlerReaches(config, s, i);
        if out == Handled {
          sys := t;
        }
      }
    }

    /** The signal handler. Counters are stopped and restarted around it, outside this model. */
    method Handler(fd: int) returns (out: HandlerOutcome)
      requires Valid()
      modifies heads, data, file, pages, `lines, `sys
      ensures (forall i :: 0 <= i < numMaps ==> fds[i] != fd) ==>
                out == NotFound && Valid() && State() == old(State()) && sys == old(sys)
      ensures forall i :: 0 <= i < numMaps && fds[i] == fd ==>
                match HandleRing(config, old(State()), i)
                case Fault => out == Stray
                case Ok(m) => out == Handled && Valid() && State() == m
      ensures old(Tracked()) && out != Stray ==> Tracked() && sys.hist.published == old(sys.hist.published)
      ensures old(Tracked()) ==> forall i :: 0 <= i < numMaps && fds[i] == fd ==>
                && (DecodableStream(config, Waiting(old(sys), i)) ==> out == Handled)
                && (Walkable(config, old(sys.hist.published[i])) ==>
                      out == Handled && Project(lines, i) == Views(config, old(sys.hist.published[i])))
    {
      hide HandleRing, Entries, Rings, Reachable, DecodableStream, Waiting, Walkable, Project, Views;
      var slot := FindRing(fd);
      if slot.None? {
        return NotFound;
      }
      assert forall i :: 0 <= i < numMaps && fds[i] == fd ==> i == slot.value;
      hide PagesOk, TableOk, Shaped;
      out := Serve(slot.value);
    }

    /** Bytes from the kernel for ring i. */
    method WriteRing(i: nat, b: seq<byte>) returns (ok: bool)
      requires Valid() && i < numMaps
      modifies pages[i], pages[i].buf
      ensures Valid() && ok == Fits(old(pages[i].State()), b)
      ensures State() == if ok then old(State()).(rings := old(Rings(pages))[i := Append(old(pages[i].State()), b)])
                         else old(State())
    {
      hide Append, Fits, Entries, Rings;
      ok := mmaps[i].page.Publish(b);
      assert Rings(pages) == old(Rings(pages))[i := pages[i].State()];
    }

    /** What the kernel does to ring i, seen from here. */
    method KernelWrites(i: nat, r: Record) returns (ok: bool)
      requires Valid() && i < numMaps
      modifies pages[i], pages[i].buf, `sys
      ensures Valid() && ok == Fits(old(pages[i].State()), Encode(r))
      ensures State() == if ok then old(State()).(rings := old(Rings(pages))[i := Append(old(pages[i].State()), Encode(r))])
                         else old(State())
      ensures old(Tracked()) ==> Tracked() && sys == PublishStep(old(sys), i, r)
    {
      hide Encode, Append, Fits, Reachable, Entries, Rings;
      ghost var tracked, s := Tracked(), sys;
      ok := WriteRing(i, Encode(r));
      hide PagesOk, TableOk;
      if tracked {
        PublishReaches(config, s, i, r);
        sys := PublishStep(s, i, r);
      }
    }

    /** The start of the run. */
    ghost method Track()
      requires Valid() && lines == []
      requires forall i :: 0 <= i < |pages| ==> pages[i].dataHead == 0 && pages[i].dataTail == 0
      requires forall i :: 0 <= i < numMaps ==> heads[i] == 0
      modifies `sys
      ensures Tracked() && forall i :: 0 <= i < numMaps ==> sys.hist.published[i] == []
    {
      hide Reachable, Initial, Rings, Entries;
      FreshSampler(this);
      InitialReachable(config, Start(State()));
      InitialShaped(Start(State()));
      sys := Start(State());
    }
  }

  /** Nothing published, nothing delivered. */
  function Start(m: Machine): System {
    System(m, Idle, History(seq(|m.rings|, _ => []), seq(|m.rings|, _ => []), 0))
  }

  /** A sampler straight from initialisation, over fresh mappings, is an initial state of
      the machine: what holds of every run holds of this object. */
  lemma FreshSampler(s: Sampler)
    requires s.Valid() && s.lines == []
    requires forall i :: 0 <= i < |s.pages| ==> s.pages[i].dataHead == 0 && s.pages[i].dataTail == 0
    requires forall i :: 0 <= i < s.numMaps ==> s.heads[i] == 0
    ensures Initial(Start(s.State()))
  {
  }

  lemma InitialShaped(s: System)
    requires Initial(s)
    ensures Shaped(s) && s.phase.Idle?
  {
  }

  lemma HandleRingIs(cfg: Config, m: Machine, i: nat)
    requires Sized(m, i)
    ensures var ring := m.rings[i];
            HandleRing(cfg, m, i) ==
            match DecodeBatch(cfg, Unwrap(ring.buf, m.prev[i]), 0, ToInt32(ring.head - m.prev[i]))
            case Fault => Fault
            case Ok(rs) => Ok(Machine(m.rings[i := ring.(tail := ring.head)], m.prev[i := ring.head],
                                      Zeros(|m.scratch|), m.log + Tag(i, rs)))
  {
    hide DecodeBatch, Unwrap, Zeros, Tag;
  }

  lemma EntriesTagged(ls: seq<Line>, i: nat, rs: seq<Record>)
    ensures Entries(ls + Tag(i, rs)) == Entries(ls) + rs
  {
  }
}
