/** The allocation and free entry points around the chunk loops (rps-serve/csrc/cumem_allocator.cpp,
    my_malloc and my_free, ROCm branch). */
module MallocFree {
  import opened Chunking
  import opened Sums
  import opened DeviceMemory
  import opened Wrappers

  /** The Python callback that stores the allocation record. */
  datatype Callback = NotSet | Raises | Stores

  function WithRange(d: Dev, addr: nat, size: nat): Dev { d.(reserved := d.reserved[addr := size]) }

  /** A range is given back only under the size it was reserved with. */
  function FreeStatus(reserved: map<nat, nat>, addr: nat, size: nat, fault: int): int {
    if fault != 0 then fault else if addr in reserved && reserved[addr] == size then 0 else INVALID
  }

  function AfterFree(d: Dev, addr: nat, size: nat, fault: int): Dev {
    if FreeStatus(d.reserved, addr, size, fault) == 0 then d.(reserved := d.reserved - {addr}) else d
  }

  method AddressReserve(device: Device, place: nat, size: nat) returns (status: int)
    requires device.Valid()
    modifies device`dev, device`calls
    ensures device.Valid() && device.calls == old(device.calls) + 1
    ensures status == FaultAt(device.fault, old(device.calls))
    ensures device.dev == if status == 0 then WithRange(old(device.dev), place, size) else old(device.dev)
  {
    status := FaultAt(device.fault, device.calls);
    device.calls := device.calls + 1;
    if status == 0 {
      device.dev := WithRange(device.dev, place, size);
    }
  }

  method AddressFree(device: Device, addr: nat, size: nat) returns (status: int)
    requires device.Valid()
    modifies device`dev, device`calls
    ensures device.Valid() && device.calls == old(device.calls) + 1
    ensures status == FreeStatus(old(device.dev).reserved, addr, size, FaultAt(device.fault, old(device.calls)))
    ensures device.dev == AfterFree(old(device.dev), addr, size, FaultAt(device.fault, old(device.calls)))
  {
    status := FreeStatus(device.dev.reserved, addr, size, FaultAt(device.fault, device.calls));
    device.dev := AfterFree(device.dev, addr, size, FaultAt(device.fault, device.calls));
    device.calls := device.calls + 1;
  }

  datatype Ending =
    | Allocated
    | NotReserved                    // an error before or at the reservation
    | Trapped                        // division by a chunk size that wrapped around to zero
    | NoRecord                       // the callback is missing or raises
    | NotMapped(phase: Phase)

  /** What the driver holds after my_malloc, by the way it ended; the chunk loops begin at call start, and
      the range is given back by the call that follows theirs. */
  ghost predicate MallocEnd(d: Dev, dev: Dev, place: nat, aligned: nat, sizes: seq<nat>, base: nat,
                            fault: Faults, e: Ending, start: nat)
  {
    var w := WithRange(d, place, aligned);
    match e
    case Allocated => EndsIn(w, dev, place, sizes, base, Done, fault, start)
    case NotReserved => dev == d
    case Trapped => dev == w
    case NoRecord => dev == w
    case NotMapped(phase) =>
      && !phase.Done? && Reached(w, place, sizes, base, phase, fault, start)
      && dev == AfterFree(Left(w, place, sizes, base, phase, fault, start), place, aligned,
                          FaultAt(fault, start + CallsMade(phase, |sizes|)))
  }

  /** When a call of my_malloc leaves the driver as it was. */
  ghost predicate MallocRestores(sizes: seq<nat>, fault: Faults, e: Ending, start: nat) {
    match e
    case NotReserved => true
    case NotMapped(phase) =>
      Restores(sizes, phase, fault, start) && FaultAt(fault, start + CallsMade(phase, |sizes|)) == 0
    case _ => false
  }

  /** A call leaves the driver as it was exactly when it fails before the range is reserved, or the
      mapping step undoes itself and the range can be given back. */
  lemma MallocRestoresIff(d: Dev, dev: Dev, place: nat, aligned: nat, sizes: seq<nat>, base: nat,
                          fault: Faults, e: Ending, start: nat)
    requires MallocEnd(d, dev, place, aligned, sizes, base, fault, e, start) && place !in d.reserved
    ensures dev == d <==> MallocRestores(sizes, fault, e, start)
  {
    var w := WithRange(d, place, aligned);
    assert place in w.reserved;
    match e
    case Allocated =>
    case NotReserved =>
    case Trapped =>
    case NoRecord =>
    case NotMapped(phase) =>
      LeftRestoresIff(w, place, sizes, base, phase, fault, start);
      GiveBack(d, Left(w, place, sizes, base, phase, fault, start), place, aligned,
               FaultAt(fault, start + CallsMade(phase, |sizes|)));
  }

  /** If the driver fails a single call and there is room, a failed allocation leaves the driver as it was,
      except where there is no clean-up: an error left over after the reservation, or a failed access call. */
  lemma OneFaultMalloc(d: Dev, dev: Dev, place: nat, aligned: nat, sizes: seq<nat>, base: nat,
                       fault: Faults, e: Ending, start: nat, k: nat)
    requires MallocEnd(d, dev, place, aligned, sizes, base, fault, e, start) && place !in d.reserved
    requires OnlyFault(fault, k) && e.NotMapped? && (e.phase.StaleError? ==> k < start)
    requires Spacious(d.mapped, place, sizes)
    ensures dev == d <==> sizes == [] || e.phase.CreateFailed? || e.phase.MapFailed?
  {
    var w := WithRange(d, place, aligned);
    MallocRestoresIff(d, dev, place, aligned, sizes, base, fault, e, start);
    if e.phase.CreateFailed? || e.phase.MapFailed? {
      OneFaultRestores(w, place, sizes, base, e.phase, fault, start, k);
      LeftRestoresIff(w, place, sizes, base, e.phase, fault, start);
    }
  }

  /** Without a working callback a call that gets past the reservation leaves the range reserved. */
  lemma NoCallbackLeaks(d: Dev, dev: Dev, place: nat, aligned: nat, sizes: seq<nat>, base: nat,
                        fault: Faults, e: Ending, start: nat)
    requires MallocEnd(d, dev, place, aligned, sizes, base, fault, e, start) && place !in d.reserved
    requires EndingFits(e, NotSet) || EndingFits(e, Raises)
    ensures e == NotReserved || (place in dev.reserved && dev.reserved[place] == aligned && dev != d)
  {
    MallocRestoresIff(d, dev, place, aligned, sizes, base, fault, e, start);
  }

  /** Which endings each callback allows. */
  predicate EndingFits(e: Ending, callback: Callback) {
    e.NotReserved? || e.Trapped? || if callback == Stores then e.Allocated? || e.NotMapped? else e.NoRecord?
  }

  /** The granularity query and the reservation follow the first context query; neither they nor that
      query record an error. */
  predicate Reserves(device: Device, garbage: bool)
    reads device
  {
    && device.StartError(garbage) == 0
    && FaultAt(device.fault, device.Start(garbage)) == 0 && FaultAt(device.fault, device.Start(garbage) + 1) == 0
  }

  /** The call with which the second context query begins, the call with which the chunk loops begin, and
      the error that is recorded by then. */
  function Second(device: Device, garbage: bool): nat
    reads device
  {
    device.Start(garbage) + 2
  }

  function LoopStart(device: Device, garbage: bool): nat
    reads device
  {
    Second(device, garbage) +
    ContextCalls(device.fault, Second(device, garbage), device.ContextSet(garbage), garbage)
  }

  function LoopError(device: Device, garbage: bool): int
    reads device
  {
    ContextError(device.fault, Second(device, garbage), device.ContextSet(garbage), garbage, 0)
  }

  /** Nothing mapped begins in, or reaches into, the range. */
  ghost predicate RoomAt(mapped: map<nat, Mapping>, place: nat, aligned: nat) {
    forall a :: a in mapped ==> Apart(a, mapped[a].size, place, aligned)
  }

  /** The driver fails no call, no error is left over, and nothing is in the way: then the call ends in
      the way its callback decides. */
  ghost predicate SmoothPath(device: Device, place: nat, aligned: nat)
    reads device
  {
    device.NeverFails() && device.errorCode == 0 && RoomAt(device.dev.mapped, place, aligned)
  }

  /** The first part of my_malloc, up to the reservation. */
  method ReserveRange(device: Device, place: nat, alignedSize: nat, garbage: bool) returns (ok: bool)
    requires device.Valid()
    modifies device
    ensures device.Valid() && device.next == old(device.next) && (ok <==> old(Reserves(device, garbage)))
    ensures ok ==>
      && device.errorCode == 0 && device.dev == WithRange(old(device.dev), place, alignedSize)
      && device.Start(garbage) == old(LoopStart(device, garbage))
      && device.StartError(garbage) == old(LoopError(device, garbage))
    ensures !ok ==> device.errorCode != 0 && device.dev == old(device.dev)
  {
    device.EnsureContext(garbage);
    if FaultAt(device.fault, device.calls) != 0 {
      device.errorCode := FaultAt(device.fault, device.calls);
    }
    device.calls := device.calls + 1;
    if device.errorCode != 0 {
      return false;
    }
    var status := AddressReserve(device, place, alignedSize);
    if status != 0 {
      device.errorCode := status;
    }
    ok := status == 0;
  }

  /** my_malloc. place is the address the driver picks for the reservation. An error recorded by an
      earlier call makes it fail at once, without touching the driver's memory state. */
  method MyMalloc(device: Device, size: nat, g: nat, env: EnvValue, place: nat, callback: Callback, garbage: bool)
    returns (ptr: Option<nat>, handles: array<nat>, sizes: seq<nat>, ghost e: Ending)
    requires device.Valid() && place !in device.dev.reserved
    requires 0 < g < LIMIT && size < LIMIT
    modifies device
    ensures device.Valid() && fresh(handles) && handles.Length == |sizes|
    ensures MallocEnd(old(device.dev), device.dev, place, AlignUp(size, g), sizes, old(device.next), device.fault, e,
                      old(LoopStart(device, garbage)))
    ensures device.dev == old(device.dev) <==> MallocRestores(sizes, device.fault, e, old(LoopStart(device, garbage)))
    ensures EndingFits(e, callback) && ptr == if e.Allocated? then Some(place) else None
    ensures e.NotReserved? <==> !old(Reserves(device, garbage))
    ensures device.errorCode == 0 <==> e.Allocated? || e.Trapped? || e.NoRecord?
    ensures !e.NotReserved? ==> (e.Trapped? <==> ChunkSizeFromEnv(env) + g - 1 >= LIMIT)
    ensures e.Allocated? || e.NotMapped? ==> IsChunking(Some(sizes), size, ChunkSizeFromEnv(env), g)
    ensures e.NotMapped? ==>
      && (e.phase.StaleError? <==> old(LoopError(device, garbage)) != 0)
      && device.calls == old(LoopStart(device, garbage)) + CallsMade(e.phase, |sizes|) + 1
    ensures e.Allocated? ==>
      && device.errorCode == 0 && old(LoopError(device, garbage)) == 0
      && device.calls == old(LoopStart(device, garbage)) + CallsMade(Done, |sizes|)
      && handles[..] == Names(old(device.next), |sizes|)
    ensures old(SmoothPath(device, place, AlignUp(size, g))) && ChunkSizeFromEnv(env) + g - 1 < LIMIT ==>
      e == if callback == Stores then Allocated else NoRecord
  {
    ptr, sizes, handles := None, [], new nat[0];
    ghost var d, base, start := device.dev, device.next, LoopStart(device, garbage);
    var alignedSize := AlignUp(size, g);
    var reserved := ReserveRange(device, place, alignedSize, garbage);
    if !reserved {
      e := NotReserved;
      return;
    }
    var chunks := MakeChunks(size, ChunkSizeFromEnv(env), g);
    if chunks.None? {
      e := Trapped;
      MallocRestoresIff(d, device.dev, place, alignedSize, sizes, base, device.fault, e, start);
      return;
    }
    if callback != Stores {
      e := NoRecord;
      MallocRestoresIff(d, device.dev, place, alignedSize, sizes, base, device.fault, e, start);
      return;
    }
    sizes := chunks.value;
    handles := new nat[|sizes|];
    e := MapOrGiveBack(device, place, alignedSize, handles, sizes, garbage, d);
    ChunksHaveRoom(d.mapped, place, size, ChunkSizeFromEnv(env), g, sizes);
    MallocRestoresIff(d, device.dev, place, alignedSize, sizes, base, device.fault, e, start);
    if device.errorCode == 0 {
      ptr := Some(place);
    }
  }

  lemma ChunksHaveRoom(mapped: map<nat, Mapping>, place: nat, size: nat, base: nat, g: nat, sizes: seq<nat>)
    requires 0 < g < LIMIT && size < LIMIT && 0 < base < LIMIT && IsChunking(Some(sizes), size, base, g)
    ensures RoomAt(mapped, place, AlignUp(size, g)) ==> Spacious(mapped, place, sizes)
  {}

  /** The mapping step of my_malloc; on an error the reservation is given back. */
  method MapOrGiveBack(device: Device, place: nat, alignedSize: nat, handles: array<nat>, sizes: seq<nat>,
                       garbage: bool, ghost d: Dev)
    returns (ghost e: Ending)
    requires device.Valid() && handles.Length == |sizes| && place !in d.reserved
    requires device.dev == WithRange(d, place, alignedSize)
    modifies device, handles
    ensures device.Valid() && (e.Allocated? || e.NotMapped?) && (e.Allocated? <==> device.errorCode == 0)
    ensures MallocEnd(d, device.dev, place, alignedSize, sizes, old(device.next), device.fault, e,
                      old(device.Start(garbage)))
    ensures e.NotMapped? ==>
      && (e.phase.StaleError? <==> old(device.StartError(garbage)) != 0)
      && device.calls == old(device.Start(garbage)) + CallsMade(e.phase, |sizes|) + 1
    ensures e.Allocated? ==>
      && handles[..] == Names(old(device.next), |sizes|) && old(device.StartError(garbage)) == 0
      && device.calls == old(device.Start(garbage)) + CallsMade(Done, |sizes|)
    ensures device.NeverFails() && old(device.errorCode) == 0 && Spacious(d.mapped, place, sizes) ==> e.Allocated?
  {
    ghost var phase := device.CreateAndMap(place, handles, sizes, garbage);
    e := Allocated;
    if device.errorCode != 0 {
      e := NotMapped(phase);
      var status := AddressFree(device, place, alignedSize);
      if status != 0 {
        device.errorCode := status;
      }
    }
  }

  lemma GiveBack(d: Dev, dev: Dev, place: nat, size: nat, fault: int)
    requires place !in d.reserved
    requires dev.reserved == WithRange(d, place, size).reserved
    ensures AfterFree(dev, place, size, fault) == d <==> dev == WithRange(d, place, size) && fault == 0
  {
    assert WithRange(d, place, size).reserved - {place} == d.reserved;
  }

  /** What the callback of my_free gives back: no callback is set, it raises or returns no usable
      record, or the record of the allocation. */
  datatype FreeRecord = NoCallback | BadRecord | Stored(dMem: nat, handles: array<nat>, sizes: seq<nat>)

  /** my_free: unmap and release, then give the range back under the size the caller passes. Without a
      record nothing is done. */
  method MyFree(device: Device, size: nat, record: FreeRecord, garbage: bool)
    requires device.Valid() && (record.Stored? ==> record.handles.Length == |record.sizes|)
    modifies device
    ensures device.Valid()
    ensures !record.Stored? ==>
      device.dev == old(device.dev) && device.errorCode == old(device.errorCode) && device.calls == old(device.calls)
    ensures record.Stored? ==>
      && device.dev == Freed(old(device.dev), record.dMem, record.handles[..], record.sizes, size, device.fault,
                             old(device.Start(garbage)))
      && device.calls == old(device.Start(garbage)) + 2 * |record.sizes| + 1
    ensures record.Stored? ==>
      (device.errorCode == 0 <==>
       && old(device.StartError(garbage)) == 0
       && old(device.Removable(device.dev, record.dMem, record.handles[..], record.sizes, device.Start(garbage)))
       && FreeStatus(old(device.dev).reserved, record.dMem, size,
                     FaultAt(device.fault, old(device.Start(garbage)) + 2 * |record.sizes|)) == 0)
    ensures record.Stored? && device.errorCode == 0 ==>
      old(device.StartError(garbage)) == 0 && NoFaults(device.fault, old(device.Start(garbage)), 2 * |record.sizes| + 1)
  {
    if !record.Stored? {
      return;
    }
    NoFaultsNext(device.fault, device.Start(garbage), 2 * |record.sizes|);
    device.UnmapAndRelease(record.dMem, record.handles, record.sizes, garbage);
    var status := AddressFree(device, record.dMem, size);
    if status != 0 {
      device.errorCode := status;
    }
  }

  /** An error that is left over blocks the next allocation before its reservation: after a failed
      allocation, or a failed free, every later one fails too, until a sleep or a wake clears the error. */
  lemma LeftOverBlocks(device: Device, garbage: bool)
    ensures Reserves(device, garbage) <==>
      var c := device.Start(garbage);
      && device.errorCode == 0 && NoFaults(device.fault, device.calls, c + 2 - device.calls)
  {
    ContextExact(device.fault, device.calls, device.hasContext, garbage, device.errorCode);
    var c := device.Start(garbage);
    NoFaultsJoin(device.fault, device.calls, c - device.calls, 2);
    NoFaultsNext(device.fault, c, 1);
    NoFaultsNext(device.fault, c, 0);
  }

  /** With a driver that fails no call, no error left over, and room: an allocation succeeds, and freeing it
      under the size that was reserved leaves the driver as before, no error recorded, and the next
      allocation gets past its reservation. */
  method MallocThenFree(device: Device, size: nat, g: nat, env: EnvValue, place: nat, garbage: bool)
    returns (ptr: Option<nat>)
    requires device.Valid() && place !in device.dev.reserved
    requires 0 < g < LIMIT && size < LIMIT && ChunkSizeFromEnv(env) + g - 1 < LIMIT
    requires SmoothPath(device, place, AlignUp(size, g))
    modifies device
    ensures ptr == Some(place)
    ensures device.Valid() && device.dev == old(device.dev) && device.errorCode == 0 && Reserves(device, garbage)
  {
    ghost var d, base := device.dev, device.next;
    var handles, sizes;
    ghost var e;
    ptr, handles, sizes, e := MyMalloc(device, size, g, env, place, Stores, garbage);
    FreeBack(device, place, AlignUp(size, g), handles, sizes, garbage, d, base);
  }

  method FreeBack(device: Device, place: nat, aligned: nat, handles: array<nat>, sizes: seq<nat>, garbage: bool,
                  ghost d: Dev, ghost base: nat)
    requires device.Valid() && device.NeverFails() && device.errorCode == 0 && place !in d.reserved
    requires HasRoom(WithRange(d, place, aligned), place, sizes, base) && handles[..] == Names(base, |sizes|)
    requires device.dev == Awake(WithRange(d, place, aligned), place, sizes, base)
    modifies device
    ensures device.Valid() && device.dev == d && device.errorCode == 0 && Reserves(device, garbage)
  {
    assert handles.Length == |handles[..]|;
    FreeSucceeds(device, place, aligned, sizes, garbage, d, base);
    ContextExact(device.fault, device.calls, device.hasContext, garbage, device.errorCode);
    MyFree(device, aligned, Stored(place, handles, sizes), garbage);
    LeftOverBlocks(device, garbage);
  }

  lemma {:induction false} FreeSucceeds(device: Device, place: nat, aligned: nat, sizes: seq<nat>, garbage: bool,
                                        d: Dev, base: nat)
    requires device.NeverFails() && place !in d.reserved
    requires HasRoom(WithRange(d, place, aligned), place, sizes, base)
    requires device.dev == Awake(WithRange(d, place, aligned), place, sizes, base)
    ensures var c, names := device.Start(garbage), Names(base, |sizes|);
      && device.Removable(device.dev, place, names, sizes, c)
      && FreeStatus(device.dev.reserved, place, aligned, FaultAt(device.fault, c + 2 * |sizes|)) == 0
      && Freed(device.dev, place, names, sizes, aligned, device.fault, c) == d
  {
    var w, c := WithRange(d, place, aligned), device.Start(garbage);
    FreeUndoes(d, w, place, aligned, sizes, base, device.fault, c);
    AwakeUnmaps(w, place, sizes, base, device.fault, c);
  }

  /** Freeing under the size that was reserved undoes my_malloc. */
  lemma {:induction false} FreeUndoes(d: Dev, w: Dev, place: nat, aligned: nat, sizes: seq<nat>, base: nat,
                                      fault: Faults, c: nat)
    requires place !in d.reserved && w == WithRange(d, place, aligned) && HasRoom(w, place, sizes, base)
    requires NoFaults(fault, c, 2 * |sizes| + 1)
    ensures Freed(Awake(w, place, sizes, base), place, Names(base, |sizes|), sizes, aligned, fault, c) == d
    ensures FreeStatus(Awake(w, place, sizes, base).reserved, place, aligned, FaultAt(fault, c + 2 * |sizes|)) == 0
  {
    NoFaultsNext(fault, c, 2 * |sizes|);
    SleepsIff(w, place, sizes, base, fault, c);
    assert w.reserved - {place} == d.reserved;
  }

  /** After every unmap and every release was tried, from call c on, and then the range was given back. */
  function Freed(d: Dev, dMem: nat, handles: seq<nat>, sizes: seq<nat>, size: nat, fault: Faults, c: nat): Dev
    requires |handles| == |sizes|
  {
    AfterFree(TornDown(d, dMem, handles, sizes, fault, c), dMem, size, FaultAt(fault, c + 2 * |sizes|))
  }

  /** Freeing with the requested size undoes my_malloc, the driver failing nothing, exactly when the
      requested size is a multiple of the granularity that rounding did not wrap around: otherwise the
      reserved range is never given back. */
  lemma FreeUndoesMallocIff(d: Dev, size: nat, g: nat, place: nat, sizes: seq<nat>, base: nat, fault: Faults, c: nat)
    requires 0 < g < LIMIT && size < LIMIT && place !in d.reserved
    requires HasRoom(WithRange(d, place, AlignUp(size, g)), place, sizes, base)
    requires NoFaults(fault, c, 2 * |sizes| + 1)
    ensures var w := Awake(WithRange(d, place, AlignUp(size, g)), place, sizes, base);
      Freed(w, place, Names(base, |sizes|), sizes, size, fault, c) == d <==> size % g == 0 && size + g - 1 < LIMIT
  {
    NoFaultsNext(fault, c, 2 * |sizes|);
    SleepsIff(WithRange(d, place, AlignUp(size, g)), place, sizes, base, fault, c);
    assert WithRange(d, place, AlignUp(size, g)).reserved - {place} == d.reserved;
    AlignedIff(size, g);
  }

  /** Three bytes in units of two: four are reserved, and freeing three keeps them reserved. */
  lemma OddSizeKeepsRange()
    ensures var d, fault: Faults := WithRange(NOTHING, 8, AlignUp(3, 2)), imap[];
      Freed(Awake(d, 8, [4], 0), 8, Names(0, 1), [4], 3, fault, 0) != NOTHING
  {
    var fault: Faults := imap[];
    FreeUndoesMallocIff(NOTHING, 3, 2, 8, [4], 0, fault, 0);
  }

  lemma AlignedIff(size: nat, g: nat)
    requires 0 < g < LIMIT && size < LIMIT
    ensures AlignUp(size, g) == size <==> size % g == 0 && size + g - 1 < LIMIT
  {
    AlignUpExact(size, g);
    if size % g == 0 { assert size / g * g == size; }
  }
}
