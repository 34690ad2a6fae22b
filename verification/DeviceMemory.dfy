/** Creating, mapping, unmapping and releasing the chunks of one allocation
    (rps-serve/csrc/cumem_allocator.cpp, ROCm branch), over a driver that may fail at any call. */
module DeviceMemory {
  import opened Chunking
  import opened Sums

  // ---------------------------------------------------------------- the driver

  datatype Mapping = Mapping(size: nat, handle: nat)

  /** What the driver holds: live handles with their sizes, mapped ranges by start address, and
      reserved address ranges. */
  datatype Dev = Dev(live: map<nat, nat>, mapped: map<nat, Mapping>, reserved: map<nat, nat>)

  /** The calls that the driver fails of its own accord, by number, with the status of each. */
  type Faults = imap<nat, int>

  function FaultAt(fault: Faults, call: nat): int { if call in fault then fault[call] else 0 }

  const INVALID := 1

  predicate RangeFree(mapped: map<nat, Mapping>, addr: nat, size: nat) {
    addr !in mapped && forall a :: a in mapped ==> a + mapped[a].size <= addr || addr + size <= a
  }

  /** The status of each call: the driver's own failure if it has one, else whether the request
      makes sense. */
  function CreateStatus(size: nat, fault: int): int {
    if fault != 0 then fault else if size == 0 then INVALID else 0
  }

  function MapStatus(d: Dev, addr: nat, size: nat, h: nat, fault: int): int {
    if fault != 0 then fault
    else if h in d.live && d.live[h] == size && RangeFree(d.mapped, addr, size) then 0 else INVALID
  }

  function UnmapStatus(mapped: map<nat, Mapping>, addr: nat, size: nat, fault: int): int {
    if fault != 0 then fault else if addr in mapped && mapped[addr].size == size then 0 else INVALID
  }

  function ReleaseStatus(live: map<nat, nat>, h: nat, fault: int): int {
    if fault != 0 then fault else if h in live then 0 else INVALID
  }

  /** The address of chunk j. */
  function Addr(dMem: nat, sizes: seq<nat>, j: nat): nat
    requires j <= |sizes|
  {
    dMem + Total(sizes[..j])
  }

  /** The driver maps a live handle in its whole size where nothing else is mapped; it unmaps a range as it
      was mapped and releases a handle once. */
  lemma DriverExamples()
    ensures var d := Dev(map[1 := 4, 2 := 4], map[8 := Mapping(4, 1)], map[]);
      && MapStatus(d, 12, 4, 2, 0) == MapStatus(d, 4, 4, 2, 0) == 0 && MapStatus(d, 12, 4, 2, 7) == 7
      && MapStatus(d, 12, 4, 3, 0) == MapStatus(d, 12, 2, 2, 0) == INVALID
      && MapStatus(d, 10, 4, 2, 0) == MapStatus(d, 6, 4, 2, 0) == MapStatus(d, 8, 4, 2, 0) == INVALID
      && UnmapStatus(d.mapped, 8, 4, 0) == 0 && UnmapStatus(d.mapped, 8, 4, 7) == 7
      && UnmapStatus(d.mapped, 8, 2, 0) == UnmapStatus(d.mapped, 9, 4, 0) == INVALID
      && ReleaseStatus(d.live, 1, 0) == 0 && ReleaseStatus(d.live - {1}, 1, 0) == INVALID
      && CreateStatus(4, 0) == 0 && CreateStatus(0, 0) == INVALID
  {
    assert 8 in map[8 := Mapping(4, 1)];
  }

  // ---------------------------------------------------------------- whole loops, as functions

  /** n handles created in a row, named from base on. */
  function Created(live: map<nat, nat>, sizes: seq<nat>, base: nat, n: nat): map<nat, nat>
    requires n <= |sizes|
  {
    if n == 0 then live else Created(live, sizes, base, n - 1)[base + n - 1 := sizes[n - 1]]
  }

  /** The first n chunks mapped in a row. */
  function MappedTo(mapped: map<nat, Mapping>, dMem: nat, sizes: seq<nat>, base: nat, n: nat): map<nat, Mapping>
    requires n <= |sizes|
  {
    if n == 0 then mapped
    else MappedTo(mapped, dMem, sizes, base, n - 1)[Addr(dMem, sizes, n - 1) := Mapping(sizes[n - 1], base + n - 1)]
  }

  /** n unmap calls in a row from call number c on, each attempted whatever the others did. */
  function Unmapped(mapped: map<nat, Mapping>, dMem: nat, sizes: seq<nat>, n: nat, fault: Faults,
                    c: nat): map<nat, Mapping>
    requires n <= |sizes|
  {
    if n == 0 then mapped
    else
      var m, a := Unmapped(mapped, dMem, sizes, n - 1, fault, c), Addr(dMem, sizes, n - 1);
      if UnmapStatus(m, a, sizes[n - 1], FaultAt(fault, c + n - 1)) == 0 then m - {a} else m
  }

  function Released(live: map<nat, nat>, handles: seq<nat>, n: nat, fault: Faults, c: nat): map<nat, nat>
    requires n <= |handles|
  {
    if n == 0 then live
    else
      var l := Released(live, handles, n - 1, fault, c);
      if ReleaseStatus(l, handles[n - 1], FaultAt(fault, c + n - 1)) == 0 then l - {handles[n - 1]} else l
  }

  /** The handles base, base + 1, ... */
  function Names(base: nat, n: nat): seq<nat> { seq(n, i requires 0 <= i < n => base + i) }

  ghost predicate NoFaults(fault: Faults, c: nat, n: nat) {
    forall j :: c <= j < c + n ==> FaultAt(fault, j) == 0
  }

  // ---------------------------------------------------------------- what cleaning up leaves behind

  lemma {:induction false} CreatedKeys(live: map<nat, nat>, sizes: seq<nat>, base: nat, n: nat, h: nat)
    requires n <= |sizes| && forall h :: h in live ==> h < base
    ensures h in Created(live, sizes, base, n) <==> h in live || base <= h < base + n
    ensures h in live ==> Created(live, sizes, base, n)[h] == live[h]
    ensures base <= h < base + n ==> Created(live, sizes, base, n)[h] == sizes[h - base]
  {
    if n > 0 { CreatedKeys(live, sizes, base, n - 1, h); }
  }

  /** Releasing the first n of m created handles leaves the others and exactly those of the n whose
      release failed. */
  lemma {:induction false} ReleasedKeys(live: map<nat, nat>, sizes: seq<nat>, base: nat, m: nat, n: nat,
                                        fault: Faults, c: nat, h: nat)
    requires n <= m <= |sizes| && forall h :: h in live ==> h < base
    ensures var full := Created(live, sizes, base, m);
      var r := Released(full, Names(base, m), n, fault, c);
      && (h in r <==> h in full && (base <= h < base + n ==> FaultAt(fault, c + (h - base)) != 0))
      && (h in r ==> r[h] == full[h])
  {
    CreatedKeys(live, sizes, base, m, h);
    if n > 0 {
      var last := base + n - 1;
      ReleasedKeys(live, sizes, base, m, n - 1, fault, c, h);
      ReleasedKeys(live, sizes, base, m, n - 1, fault, c, last);
      CreatedKeys(live, sizes, base, m, last);
      ReleaseKey(Released(Created(live, sizes, base, m), Names(base, m), n - 1, fault, c), last,
                 FaultAt(fault, c + n - 1), h);
    }
  }

  lemma ReleaseKey(l: map<nat, nat>, last: nat, fault: int, h: nat)
    requires last in l
    ensures ReleaseStatus(l, last, fault) == fault
    ensures var r := if ReleaseStatus(l, last, fault) == 0 then l - {last} else l;
      (h in r <==> h in l && (h == last ==> fault != 0)) && (h in r ==> r[h] == l[h])
  {}

  /** No handle is leaked exactly when every release succeeds. */
  lemma {:induction false} ReleaseUndoesCreate(live: map<nat, nat>, sizes: seq<nat>, base: nat, n: nat, fault: Faults,
                                               c: nat)
    requires n <= |sizes| && forall h :: h in live ==> h < base
    ensures Released(Created(live, sizes, base, n), Names(base, n), n, fault, c) == live <==> NoFaults(fault, c, n)
  {
    var r := Released(Created(live, sizes, base, n), Names(base, n), n, fault, c);
    if j :| c <= j < c + n && FaultAt(fault, j) != 0 {
      ReleasedKeys(live, sizes, base, n, n, fault, c, base + (j - c));
      CreatedKeys(live, sizes, base, n, base + (j - c));
      assert base + (j - c) in r && base + (j - c) !in live;
    } else {
      forall h ensures h in r <==> h in live
        ensures h in r ==> r[h] == live[h]
      {
        ReleasedKeys(live, sizes, base, n, n, fault, c, h);
        CreatedKeys(live, sizes, base, n, h);
      }
      assert r.Keys == live.Keys;
    }
  }

  lemma {:induction false} TotalPrefix(sizes: seq<nat>, i: nat, j: nat)
    requires i <= j <= |sizes|
    ensures Total(sizes[..i]) <= Total(sizes[..j])
    ensures i < j ==> Total(sizes[..i]) + sizes[i] <= Total(sizes[..j])
  {
    if i < j {
      assert sizes[..j][..j - 1] == sizes[..j - 1];
      TotalPrefix(sizes, i, j - 1);
    }
  }

  ghost predicate AllPositive(sizes: seq<nat>) { forall j :: 0 <= j < |sizes| ==> sizes[j] > 0 }

  /** Chunk addresses increase, so they are distinct. */
  lemma AddrsIncrease(dMem: nat, sizes: seq<nat>, i: nat, j: nat)
    requires AllPositive(sizes) && i < j <= |sizes|
    ensures Addr(dMem, sizes, i) + sizes[i] <= Addr(dMem, sizes, j) && Addr(dMem, sizes, i) < Addr(dMem, sizes, j)
  {
    TotalPrefix(sizes, i, j);
  }

  /** None of the first n chunk addresses is mapped. */
  ghost predicate Vacant(mapped: map<nat, Mapping>, dMem: nat, sizes: seq<nat>, n: nat)
    requires n <= |sizes|
  {
    forall j :: 0 <= j < n ==> Addr(dMem, sizes, j) !in mapped
  }

  /** a is the address of one of the first n chunks. */
  ghost predicate IsChunkAddr(dMem: nat, sizes: seq<nat>, n: nat, a: nat)
    requires n <= |sizes|
  {
    exists j :: 0 <= j < n && a == Addr(dMem, sizes, j)
  }

  lemma AddrDistinct(dMem: nat, sizes: seq<nat>, i: nat, j: nat)
    requires AllPositive(sizes) && i <= |sizes| && j <= |sizes| && Addr(dMem, sizes, i) == Addr(dMem, sizes, j)
    ensures i == j
  {
    if i < j { AddrsIncrease(dMem, sizes, i, j); } else if j < i { AddrsIncrease(dMem, sizes, j, i); }
  }

  lemma ChunkAddrNext(dMem: nat, sizes: seq<nat>, n: nat, a: nat)
    requires n < |sizes|
    ensures IsChunkAddr(dMem, sizes, n + 1, a) <==> IsChunkAddr(dMem, sizes, n, a) || a == Addr(dMem, sizes, n)
  {
    if IsChunkAddr(dMem, sizes, n, a) { var j :| 0 <= j < n && a == Addr(dMem, sizes, j); }
  }

  /** Mapping n chunks adds exactly their addresses. */
  lemma {:induction false} MappedKeys(mapped: map<nat, Mapping>, dMem: nat, sizes: seq<nat>, base: nat, n: nat, a: nat)
    requires n <= |sizes| && AllPositive(sizes)
    ensures a in MappedTo(mapped, dMem, sizes, base, n) <==> a in mapped || IsChunkAddr(dMem, sizes, n, a)
    ensures a in mapped && !IsChunkAddr(dMem, sizes, n, a) ==> MappedTo(mapped, dMem, sizes, base, n)[a] == mapped[a]
  {
    if n > 0 {
      MappedKeys(mapped, dMem, sizes, base, n - 1, a);
      ChunkAddrNext(dMem, sizes, n - 1, a);
    }
  }

  /** Chunk j is mapped at its address, with its own size and handle. */
  lemma {:induction false} MappedAt(mapped: map<nat, Mapping>, dMem: nat, sizes: seq<nat>, base: nat, n: nat, j: nat)
    requires j < n <= |sizes| && AllPositive(sizes)
    ensures Addr(dMem, sizes, j) in MappedTo(mapped, dMem, sizes, base, n)
    ensures MappedTo(mapped, dMem, sizes, base, n)[Addr(dMem, sizes, j)] == Mapping(sizes[j], base + j)
  {
    if j < n - 1 {
      MappedAt(mapped, dMem, sizes, base, n - 1, j);
      AddrsIncrease(dMem, sizes, j, n - 1);
    }
  }

  /** Unmapping the first n of m mapped chunks leaves the others and exactly those of the n whose
      unmapping failed; every unmap call names an address at which that chunk was mapped. */
  lemma {:induction false} UnmappedKeys(mapped: map<nat, Mapping>, dMem: nat, sizes: seq<nat>, base: nat, m: nat,
                                        n: nat, fault: Faults, c: nat, a: nat)
    requires n <= m <= |sizes| && AllPositive(sizes)
    ensures var full := MappedTo(mapped, dMem, sizes, base, m);
      var r := Unmapped(full, dMem, sizes, n, fault, c);
      && (a in r <==> a in full && !UnmapOk(dMem, sizes, n, fault, c, a))
      && (a in r ==> r[a] == full[a])
  {
    var full := MappedTo(mapped, dMem, sizes, base, m);
    forall j | 0 <= j < n ensures IsMapped(full, dMem, sizes, j) { MappedAt(mapped, dMem, sizes, base, m, j); }
    LeftMapped(full, dMem, sizes, n, fault, c, a);
  }

  ghost predicate IsMapped(full: map<nat, Mapping>, dMem: nat, sizes: seq<nat>, j: nat)
    requires j < |sizes|
  {
    Addr(dMem, sizes, j) in full && full[Addr(dMem, sizes, j)].size == sizes[j]
  }

  lemma {:induction false} LeftMapped(full: map<nat, Mapping>, dMem: nat, sizes: seq<nat>, n: nat, fault: Faults,
                                      c: nat, a: nat)
    requires n <= |sizes| && AllPositive(sizes) && forall j :: 0 <= j < n ==> IsMapped(full, dMem, sizes, j)
    ensures var r := Unmapped(full, dMem, sizes, n, fault, c);
      && (a in r <==> a in full && !UnmapOk(dMem, sizes, n, fault, c, a))
      && (a in r ==> r[a] == full[a])
  {
    if n > 0 {
      var last := Addr(dMem, sizes, n - 1);
      LeftMapped(full, dMem, sizes, n - 1, fault, c, a);
      LeftMapped(full, dMem, sizes, n - 1, fault, c, last);
      assert IsMapped(full, dMem, sizes, n - 1);
      NotYetUnmapped(dMem, sizes, n - 1, fault, c);
      UnmapTakes(full, dMem, sizes, n - 1, fault, c, last);
      UnmapOkNext(dMem, sizes, n - 1, fault, c, a);
    }
  }

  /** What is still mapped as chunk n was is unmapped by its call unless the driver fails it. */
  lemma {:induction false} UnmapTakes(full: map<nat, Mapping>, dMem: nat, sizes: seq<nat>, n: nat, fault: Faults,
                                      c: nat, last: nat)
    requires n < |sizes| && last == Addr(dMem, sizes, n)
    requires var r := Unmapped(full, dMem, sizes, n, fault, c); last in r && r[last].size == sizes[n]
    ensures var r := Unmapped(full, dMem, sizes, n, fault, c);
      Unmapped(full, dMem, sizes, n + 1, fault, c) == if FaultAt(fault, c + n) == 0 then r - {last} else r
  {}

  /** a is the address of one of the first n chunks and its unmap call did not fail. */
  ghost predicate UnmapOk(dMem: nat, sizes: seq<nat>, n: nat, fault: Faults, c: nat, a: nat)
    requires n <= |sizes|
  {
    exists j :: 0 <= j < n && a == Addr(dMem, sizes, j) && FaultAt(fault, c + j) == 0
  }

  lemma UnmapOkNext(dMem: nat, sizes: seq<nat>, n: nat, fault: Faults, c: nat, a: nat)
    requires n < |sizes|
    ensures UnmapOk(dMem, sizes, n + 1, fault, c, a) <==>
      UnmapOk(dMem, sizes, n, fault, c, a) || (a == Addr(dMem, sizes, n) && FaultAt(fault, c + n) == 0)
  {
    if UnmapOk(dMem, sizes, n, fault, c, a) {
      var j :| 0 <= j < n && a == Addr(dMem, sizes, j) && FaultAt(fault, c + j) == 0;
    }
  }

  /** No chunk stays mapped exactly when every unmap succeeds. */
  lemma {:induction false} UnmapUndoesMap(mapped: map<nat, Mapping>, dMem: nat, sizes: seq<nat>, base: nat, n: nat,
                                          fault: Faults, c: nat)
    requires n <= |sizes| && AllPositive(sizes) && Vacant(mapped, dMem, sizes, n)
    ensures Unmapped(MappedTo(mapped, dMem, sizes, base, n), dMem, sizes, n, fault, c) == mapped <==>
      NoFaults(fault, c, n)
  {
    var r := Unmapped(MappedTo(mapped, dMem, sizes, base, n), dMem, sizes, n, fault, c);
    if k :| c <= k < c + n && FaultAt(fault, k) != 0 {
      StaysMapped(mapped, dMem, sizes, base, n, fault, c, k - c);
    } else {
      forall a ensures (a in r <==> a in mapped) && (a in r ==> r[a] == mapped[a]) {
        CleanKey(mapped, dMem, sizes, base, n, fault, c, a);
      }
      assert r.Keys == mapped.Keys;
    }
  }

  lemma {:induction false} CleanKey(mapped: map<nat, Mapping>, dMem: nat, sizes: seq<nat>, base: nat, n: nat,
                                    fault: Faults, c: nat, a: nat)
    requires n <= |sizes| && AllPositive(sizes) && Vacant(mapped, dMem, sizes, n) && NoFaults(fault, c, n)
    ensures var r := Unmapped(MappedTo(mapped, dMem, sizes, base, n), dMem, sizes, n, fault, c);
      (a in r <==> a in mapped) && (a in r ==> r[a] == mapped[a])
  {
    UnmappedKeys(mapped, dMem, sizes, base, n, n, fault, c, a);
    MappedKeys(mapped, dMem, sizes, base, n, a);
    if IsChunkAddr(dMem, sizes, n, a) {
      var j :| 0 <= j < n && a == Addr(dMem, sizes, j);
      assert FaultAt(fault, c + j) == 0;
    }
  }

  lemma {:induction false} StaysMapped(mapped: map<nat, Mapping>, dMem: nat, sizes: seq<nat>, base: nat, n: nat,
                                       fault: Faults, c: nat, k: nat)
    requires k < n <= |sizes| && AllPositive(sizes) && Vacant(mapped, dMem, sizes, n) && FaultAt(fault, c + k) != 0
    ensures Addr(dMem, sizes, k) in Unmapped(MappedTo(mapped, dMem, sizes, base, n), dMem, sizes, n, fault, c)
    ensures Addr(dMem, sizes, k) !in mapped
  {
    var a := Addr(dMem, sizes, k);
    UnmappedKeys(mapped, dMem, sizes, base, n, n, fault, c, a);
    MappedAt(mapped, dMem, sizes, base, n, k);
    if UnmapOk(dMem, sizes, n, fault, c, a) {
      var j :| 0 <= j < n && a == Addr(dMem, sizes, j) && FaultAt(fault, c + j) == 0;
      AddrDistinct(dMem, sizes, j, k);
    }
  }

  /** Each of the first n unmap calls succeeds. */
  ghost predicate AllUnmap(mapped: map<nat, Mapping>, dMem: nat, sizes: seq<nat>, n: nat, fault: Faults, c: nat)
    requires n <= |sizes|
  {
    n == 0 || (
      && AllUnmap(mapped, dMem, sizes, n - 1, fault, c)
      && UnmapStatus(Unmapped(mapped, dMem, sizes, n - 1, fault, c), Addr(dMem, sizes, n - 1), sizes[n - 1],
                     FaultAt(fault, c + n - 1)) == 0)
  }

  ghost predicate AllRelease(live: map<nat, nat>, handles: seq<nat>, n: nat, fault: Faults, c: nat)
    requires n <= |handles|
  {
    n == 0 || (
      && AllRelease(live, handles, n - 1, fault, c)
      && ReleaseStatus(Released(live, handles, n - 1, fault, c), handles[n - 1], FaultAt(fault, c + n - 1)) == 0)
  }

  lemma {:induction false} UnmapFaultless(mapped: map<nat, Mapping>, dMem: nat, sizes: seq<nat>, n: nat,
                                          fault: Faults, c: nat)
    requires n <= |sizes|
    ensures AllUnmap(mapped, dMem, sizes, n, fault, c) ==> NoFaults(fault, c, n)
  {
    if n > 0 { UnmapFaultless(mapped, dMem, sizes, n - 1, fault, c); }
  }

  lemma {:induction false} ReleaseFaultless(live: map<nat, nat>, handles: seq<nat>, n: nat, fault: Faults, c: nat)
    requires n <= |handles|
    ensures AllRelease(live, handles, n, fault, c) ==> NoFaults(fault, c, n)
  {
    if n > 0 { ReleaseFaultless(live, handles, n - 1, fault, c); }
  }

  /** Chunks that were mapped can be unmapped again unless the driver fails. */
  lemma {:induction false} MappedUnmap(mapped: map<nat, Mapping>, dMem: nat, sizes: seq<nat>, base: nat, m: nat, n: nat,
                                       fault: Faults, c: nat)
    requires n <= m <= |sizes| && AllPositive(sizes)
    ensures AllUnmap(MappedTo(mapped, dMem, sizes, base, m), dMem, sizes, n, fault, c) <==> NoFaults(fault, c, n)
  {
    if n > 0 {
      var last := Addr(dMem, sizes, n - 1);
      MappedUnmap(mapped, dMem, sizes, base, m, n - 1, fault, c);
      UnmappedKeys(mapped, dMem, sizes, base, m, n - 1, fault, c, last);
      MappedAt(mapped, dMem, sizes, base, m, n - 1);
      NotYetUnmapped(dMem, sizes, n - 1, fault, c);
    }
  }

  lemma NotYetUnmapped(dMem: nat, sizes: seq<nat>, n: nat, fault: Faults, c: nat)
    requires n < |sizes| && AllPositive(sizes)
    ensures !UnmapOk(dMem, sizes, n, fault, c, Addr(dMem, sizes, n))
  {
    forall j | 0 <= j < n ensures Addr(dMem, sizes, j) != Addr(dMem, sizes, n) { AddrsIncrease(dMem, sizes, j, n); }
  }

  lemma {:induction false} CreatedRelease(live: map<nat, nat>, sizes: seq<nat>, base: nat, m: nat, n: nat,
                                          fault: Faults, c: nat)
    requires n <= m <= |sizes| && forall h :: h in live ==> h < base
    ensures AllRelease(Created(live, sizes, base, m), Names(base, m), n, fault, c) <==> NoFaults(fault, c, n)
  {
    var full, handles := Created(live, sizes, base, m), Names(base, m);
    forall k | 0 <= k < n ensures StillThere(full, handles, k, fault, c) {
      ReleasedKeys(live, sizes, base, m, k, fault, c, base + k);
      CreatedKeys(live, sizes, base, m, base + k);
    }
    ReleaseThere(full, handles, n, fault, c);
  }

  /** Handle k is live when its turn comes. */
  ghost predicate StillThere(live: map<nat, nat>, handles: seq<nat>, k: nat, fault: Faults, c: nat) {
    k < |handles| && handles[k] in Released(live, handles, k, fault, c)
  }

  lemma {:induction false} ReleaseThere(live: map<nat, nat>, handles: seq<nat>, n: nat, fault: Faults, c: nat)
    requires n <= |handles| && forall k :: 0 <= k < n ==> StillThere(live, handles, k, fault, c)
    ensures AllRelease(live, handles, n, fault, c) <==> NoFaults(fault, c, n)
  {
    if n > 0 {
      ReleaseThere(live, handles, n - 1, fault, c);
      assert StillThere(live, handles, n - 1, fault, c);
      NoFaultsNext(fault, c, n - 1);
    }
  }

  lemma NoFaultsNext(fault: Faults, c: nat, n: nat)
    ensures NoFaults(fault, c, n + 1) <==> NoFaults(fault, c, n) && FaultAt(fault, c + n) == 0
  {}

  // ---------------------------------------------------------------- room to map

  /** Nothing mapped begins in, or reaches into, the range of the chunks, none of which is empty. */
  ghost predicate Spacious(mapped: map<nat, Mapping>, dMem: nat, sizes: seq<nat>) {
    AllPositive(sizes) && forall a :: a in mapped ==> Apart(a, mapped[a].size, dMem, Total(sizes))
  }

  predicate Apart(a: nat, size: nat, b: nat, span: nat) { (a < b && a + size <= b) || b + span <= a }

  /** The map call for chunk i fails in the state its predecessors leave. */
  ghost predicate MapFails(d: Dev, dMem: nat, sizes: seq<nat>, base: nat, i: nat, fault: int)
    requires i < |sizes|
  {
    MapStatus(d.(mapped := MappedTo(d.mapped, dMem, sizes, base, i)), Addr(dMem, sizes, i), sizes[i], base + i,
              fault) != 0
  }

  lemma {:induction false} MappedApart(mapped: map<nat, Mapping>, dMem: nat, sizes: seq<nat>, base: nat, n: nat,
                                       k: nat, a: nat)
    requires n <= k < |sizes| && Spacious(mapped, dMem, sizes) && a in MappedTo(mapped, dMem, sizes, base, n)
    ensures Apart(a, MappedTo(mapped, dMem, sizes, base, n)[a].size, Addr(dMem, sizes, k), sizes[k])
  {
    if n == 0 {
      TotalPrefix(sizes, k, |sizes|);
      assert sizes[..|sizes|] == sizes;
    } else if a == Addr(dMem, sizes, n - 1) {
      AddrsIncrease(dMem, sizes, n - 1, k);
    } else {
      MappedApart(mapped, dMem, sizes, base, n - 1, k, a);
    }
  }

  /** With room for the chunks, only the driver itself can fail a map call. */
  lemma {:induction false} RoomMaps(d: Dev, dMem: nat, sizes: seq<nat>, base: nat, i: nat)
    requires i < |sizes|
    ensures Spacious(d.mapped, dMem, sizes) ==>
      !MapFails(d.(live := Created(d.live, sizes, base, |sizes|)), dMem, sizes, base, i, 0)
  {
    if Spacious(d.mapped, dMem, sizes) {
      CreatedAt(d.live, sizes, base, |sizes|, i);
      forall a | a in MappedTo(d.mapped, dMem, sizes, base, i)
        ensures Apart(a, MappedTo(d.mapped, dMem, sizes, base, i)[a].size, Addr(dMem, sizes, i), sizes[i])
      {
        MappedApart(d.mapped, dMem, sizes, base, i, i, a);
      }
    }
  }

  lemma {:induction false} CreatedAt(live: map<nat, nat>, sizes: seq<nat>, base: nat, n: nat, i: nat)
    requires i < n <= |sizes|
    ensures base + i in Created(live, sizes, base, n) && Created(live, sizes, base, n)[base + i] == sizes[i]
  {
    if i < n - 1 { CreatedAt(live, sizes, base, n - 1, i); }
  }

  // ---------------------------------------------------------------- the allocator

  datatype Phase =
    | StaleError             // an error was already recorded when the loops began
    | CreateFailed(i: nat)
    | MapFailed(i: nat)
    | AccessFailed
    | Done

  /** How many driver calls the loops make for n chunks, clean-up included. */
  function CallsMade(phase: Phase, n: nat): nat {
    match phase
    case StaleError => 1
    case CreateFailed(i) => i + 1 + i
    case MapFailed(i) => n + i + 1 + i + n
    case AccessFailed => 2 * n + 1
    case Done => 2 * n + 1
  }

  /** The first clean-up call of loops that begin at call start, and the number of clean-up calls. */
  function FirstCleanup(phase: Phase, n: nat, start: nat): nat {
    match phase case CreateFailed(i) => start + i + 1 case MapFailed(i) => start + n + i + 1 case _ => start
  }

  function CleanupCount(phase: Phase, n: nat): nat {
    match phase case CreateFailed(i) => i case MapFailed(i) => i + n case _ => 0
  }

  /** The context query is call c. If it fails, its result is left unset; garbage says whether that looks
      like a context. Without a context two more calls follow. */
  function LooksSet(fault: Faults, c: nat, hasContext: bool, garbage: bool): bool {
    if FaultAt(fault, c) != 0 then garbage else hasContext
  }

  function ContextCalls(fault: Faults, c: nat, hasContext: bool, garbage: bool): nat {
    if LooksSet(fault, c, hasContext, garbage) then 1 else 3
  }

  function Recorded(error: int, status: int): int { if status != 0 then status else error }

  function ContextError(fault: Faults, c: nat, hasContext: bool, garbage: bool, error: int): int {
    var first := Recorded(error, FaultAt(fault, c));
    if LooksSet(fault, c, hasContext, garbage) then first
    else Recorded(Recorded(first, FaultAt(fault, c + 1)), FaultAt(fault, c + 2))
  }

  /** The process-wide error code together with the driver it talks to, which fails the calls in fault of
      its own accord. */
  class Device {
    const fault: Faults
    var dev: Dev
    var next: nat      // the name of the next handle
    var calls: nat     // how many calls the driver has had
    var hasContext: bool
    var errorCode: int

    constructor (fault: Faults)
      ensures this.fault == fault && Valid() && errorCode == 0 && dev == Dev(map[], map[], map[])
    {
      this.fault := fault;
      dev, next, calls, hasContext, errorCode := Dev(map[], map[], map[]), 0, 0, false, 0;
    }

    ghost predicate Valid()
      reads this
    {
      forall h :: h in dev.live ==> h < next
    }

    /** The driver fails no call of its own accord. */
    ghost predicate NeverFails() { forall k :: FaultAt(fault, k) == 0 }

    method MemCreate(size: nat) returns (status: int, h: nat)
      requires Valid()
      modifies this
      ensures Valid() && calls == old(calls) + 1 && errorCode == old(errorCode) && hasContext == old(hasContext)
      ensures status == CreateStatus(size, FaultAt(fault, old(calls)))
      ensures if status == 0
        then h == old(next) && next == old(next) + 1 && dev == old(dev).(live := old(dev).live[h := size])
              else next == old(next) && dev == old(dev)
    {
      status, h := CreateStatus(size, FaultAt(fault, calls)), next;
      calls := calls + 1;
      if status == 0 {
        dev, next := dev.(live := dev.live[h := size]), next + 1;
      }
    }

    method MemMap(addr: nat, size: nat, h: nat) returns (status: int)
      requires Valid()
      modifies this`dev, this`calls
      ensures Valid() && calls == old(calls) + 1
      ensures status == MapStatus(old(dev), addr, size, h, FaultAt(fault, old(calls)))
      ensures dev == if status == 0 then old(dev).(mapped := old(dev).mapped[addr := Mapping(size, h)]) else old(dev)
    {
      status := MapStatus(dev, addr, size, h, FaultAt(fault, calls));
      calls := calls + 1;
      if status == 0 {
        dev := dev.(mapped := dev.mapped[addr := Mapping(size, h)]);
      }
    }

    method MemUnmap(addr: nat, size: nat) returns (status: int)
      requires Valid()
      modifies this`dev, this`calls
      ensures Valid() && calls == old(calls) + 1
      ensures status == UnmapStatus(old(dev).mapped, addr, size, FaultAt(fault, old(calls)))
      ensures dev == if status == 0 then old(dev).(mapped := old(dev).mapped - {addr}) else old(dev)
    {
      status := UnmapStatus(dev.mapped, addr, size, FaultAt(fault, calls));
      calls := calls + 1;
      if status == 0 {
        dev := dev.(mapped := dev.mapped - {addr});
      }
    }

    method MemRelease(h: nat) returns (status: int)
      requires Valid()
      modifies this`dev, this`calls
      ensures Valid() && calls == old(calls) + 1
      ensures status == ReleaseStatus(old(dev).live, h, FaultAt(fault, old(calls)))
      ensures dev == if status == 0 then old(dev).(live := old(dev).live - {h}) else old(dev)
    {
      status := ReleaseStatus(dev.live, h, FaultAt(fault, calls));
      calls := calls + 1;
      if status == 0 {
        dev := dev.(live := dev.live - {h});
      }
    }

    /** The call that follows the context query made now, and the error that is recorded by then. */
    function Start(garbage: bool): nat
      reads this
    {
      calls + ContextCalls(fault, calls, hasContext, garbage)
    }

    function StartError(garbage: bool): int
      reads this
    {
      ContextError(fault, calls, hasContext, garbage, errorCode)
    }

    /** Whether there is a context after it. */
    function ContextSet(garbage: bool): bool
      reads this
    {
      hasContext || (!LooksSet(fault, calls, hasContext, garbage) && FaultAt(fault, calls + 2) == 0)
    }

    method EnsureContext(garbage: bool)
      requires Valid()
      modifies this`calls, this`hasContext, this`errorCode
      ensures Valid() && calls == old(Start(garbage)) && errorCode == old(StartError(garbage))
      ensures hasContext == old(ContextSet(garbage))
    {
      var pctx := hasContext;
      if FaultAt(fault, calls) != 0 {
        errorCode, pctx := FaultAt(fault, calls), garbage;
      }
      calls := calls + 1;
      if !pctx {
        if FaultAt(fault, calls) != 0 { errorCode := FaultAt(fault, calls); }
        if FaultAt(fault, calls + 1) != 0 { errorCode := FaultAt(fault, calls + 1); } else { hasContext := true; }
        calls := calls + 2;
      }
    }

    /** Clean-up: n unmap calls whose statuses are ignored. */
    method UnmapFirst(dMem: nat, sizes: seq<nat>, n: nat)
      requires Valid() && n <= |sizes|
      modifies this`dev, this`calls
      ensures Valid() && calls == old(calls) + n
      ensures dev == old(dev).(mapped := Unmapped(old(dev).mapped, dMem, sizes, n, fault, old(calls)))
    {
      var unmappedSize := 0;
      for j := 0 to n
        invariant Valid() && calls == old(calls) + j && unmappedSize == Total(sizes[..j])
        invariant dev == old(dev).(mapped := Unmapped(old(dev).mapped, dMem, sizes, j, fault, old(calls)))
      {
        var _ := MemUnmap(dMem + unmappedSize, sizes[j]);
        TotalNext(sizes, j);
        unmappedSize := unmappedSize + sizes[j];
      }
    }

    /** Clean-up: n release calls whose statuses are ignored. */
    method ReleaseFirst(handles: array<nat>, n: nat)
      requires Valid() && n <= handles.Length
      modifies this`dev, this`calls
      ensures Valid() && calls == old(calls) + n
      ensures dev == old(dev).(live := Released(old(dev).live, handles[..n], n, fault, old(calls)))
    {
      for j := 0 to n
        invariant Valid() && calls == old(calls) + j
        invariant dev == old(dev).(live := Released(old(dev).live, handles[..n], j, fault, old(calls)))
      {
        var _ := MemRelease(handles[j]);
      }
    }

    /** A create call failed: the handles made so far are released. */
    method AbandonCreate(handles: array<nat>, i: nat, status: int, ghost base: nat)
      requires Valid() && i <= handles.Length && handles[..i] == Names(base, i) && status != 0
      modifies this`dev, this`calls, this`errorCode
      ensures Valid() && errorCode == status && calls == old(calls) + i
      ensures dev == old(dev).(live := Released(old(dev).live, Names(base, i), i, fault, old(calls)))
    {
      errorCode := status;
      ReleaseFirst(handles, i);
    }

    /** Map call i failed: the chunks mapped so far are unmapped, and every handle is released. */
    method AbandonMap(dMem: nat, handles: array<nat>, sizes: seq<nat>, i: nat, status: int, ghost base: nat,
                      ghost d: Dev, ghost made: Dev, ghost start: nat)
      requires Valid() && i < |sizes| && handles[..] == Names(base, |sizes|) && status != 0
      requires AllCreated(d, made, sizes, base) && calls == start + |sizes| + i + 1
      requires MappedSoFar(made, dev, dMem, sizes, base, i) && NoFaults(fault, start, |sizes| + i)
      requires MapFails(made, dMem, sizes, base, i, FaultAt(fault, start + |sizes| + i))
      modifies this`dev, this`calls, this`errorCode
      ensures Valid() && errorCode == status && calls == start + CallsMade(MapFailed(i), |sizes|)
      ensures EndsIn(d, dev, dMem, sizes, base, MapFailed(i), fault, start) && dev.reserved == d.reserved
    {
      errorCode := status;
      ghost var mapped := dev;
      UnmapFirst(dMem, sizes, i);
      ghost var unmapped := dev;
      assert handles.Length == |handles[..]| == |sizes| && handles[..handles.Length] == handles[..];
      ReleaseFirst(handles, handles.Length);
      BothLoopsRun(made, mapped, unmapped, dev, dMem, sizes, base, i, fault, start + |sizes| + i + 1);
      MapLeaves(d, made, dev, dMem, sizes, base, i, fault, start);
      MapReached(d, made, mapped, dMem, sizes, base, i, fault, start);
    }

    /** The create loop. It stops at the first recorded error and releases what it has made. */
    method CreateAll(handles: array<nat>, sizes: seq<nat>) returns (ghost phase: Phase)
      requires Valid() && handles.Length == |sizes| && errorCode == 0
      modifies this, handles
      ensures Valid() && hasContext == old(hasContext)
      ensures phase.Done? || phase.CreateFailed?
      ensures phase.Done? ==>
        && errorCode == 0 && AllPositive(sizes) && handles[..] == Names(old(next), |sizes|)
        && calls == old(calls) + |sizes| && next == old(next) + |sizes| && NoFaults(fault, old(calls), |sizes|)
        && dev == old(dev).(live := Created(old(dev).live, sizes, old(next), |sizes|))
      ensures phase.CreateFailed? ==>
        && errorCode != 0 && calls == old(calls) + CallsMade(phase, |sizes|)
        && CreateGivenUp(old(dev), dev, sizes, old(next), phase.i, fault, old(calls))
    {
      for i := 0 to |sizes|
        invariant Valid() && errorCode == 0 && hasContext == old(hasContext)
        invariant calls == old(calls) + i && next == old(next) + i
        invariant handles[..i] == Names(old(next), i)
        invariant forall j :: 0 <= j < i ==> sizes[j] > 0
        invariant NoFaults(fault, old(calls), i)
        invariant dev == old(dev).(live := Created(old(dev).live, sizes, old(next), i))
      {
        NoFaultsNext(fault, old(calls), i);
        var status, h := MemCreate(sizes[i]);
        if status != 0 {
          AbandonCreate(handles, i, status, old(next));
          return CreateFailed(i);
        }
        handles[i] := h;
        assert handles[..i + 1] == handles[..i] + [h];
      }
      assert handles[..] == handles[..|sizes|];
      phase := Done;
    }

    method MapOne(addr: nat, dMem: nat, sizes: seq<nat>, i: nat, ghost d: Dev, h: nat, ghost base: nat)
      returns (status: int)
      requires Valid() && i < |sizes| && addr == Addr(dMem, sizes, i) && h == base + i
      requires MappedSoFar(d, dev, dMem, sizes, base, i)
      modifies this`dev, this`calls
      ensures Valid() && calls == old(calls) + 1
      ensures status == 0 ==>
        MappedSoFar(d, dev, dMem, sizes, base, i + 1) && FaultAt(fault, old(calls)) == 0
      ensures status != 0 ==> dev == old(dev) && MapFails(d, dMem, sizes, base, i, FaultAt(fault, old(calls)))
    {
      status := MemMap(addr, sizes[i], h);
    }

    /** The map loop. It stops at the first failure, unmaps what it has mapped and releases every handle. */
    method MapAll(dMem: nat, handles: array<nat>, sizes: seq<nat>, ghost base: nat, ghost d: Dev, ghost start: nat)
      returns (ghost phase: Phase)
      requires Valid() && handles[..] == Names(base, |sizes|) && errorCode == 0
      requires AllCreated(d, dev, sizes, base) && calls == start + |sizes| && NoFaults(fault, start, |sizes|)
      modifies this`dev, this`calls, this`errorCode
      ensures Valid() && (phase.Done? || phase.MapFailed?) && (errorCode == 0 <==> phase.Done?)
      ensures phase.Done? ==>
        && HasRoom(d, dMem, sizes, base) && Fresh(d.mapped, dMem, sizes, base, |sizes|)
        && dev == Awake(d, dMem, sizes, base)
        && calls == start + 2 * |sizes| && NoFaults(fault, start, 2 * |sizes|)
      ensures phase.MapFailed? ==>
        && EndsIn(d, dev, dMem, sizes, base, phase, fault, start) && dev.reserved == d.reserved
        && calls == start + CallsMade(phase, |sizes|)
    {
      assert handles.Length == |handles[..]| == |sizes|;
      var allocatedSize := 0;
      for i := 0 to |sizes|
        invariant Valid() && errorCode == 0 && calls == start + |sizes| + i && allocatedSize == Total(sizes[..i])
        invariant MappedSoFar(old(dev), dev, dMem, sizes, base, i) && NoFaults(fault, start, |sizes| + i)
      {
        assert handles[i] == handles[..][i] == base + i;
        NoFaultsNext(fault, start, |sizes| + i);
        var status := MapOne(dMem + allocatedSize, dMem, sizes, i, old(dev), handles[i], base);
        if status != 0 {
          AbandonMap(dMem, handles, sizes, i, status, base, d, old(dev), start);
          return MapFailed(i);
        }
        TotalNext(sizes, i);
        allocatedSize := allocatedSize + sizes[i];
      }
      AllMapped(d, old(dev), dev, dMem, sizes, base);
      phase := Done;
    }

    /** The whole of create_and_map, whose loops begin after the context query. */
    method CreateAndMap(dMem: nat, handles: array<nat>, sizes: seq<nat>, garbage: bool) returns (ghost phase: Phase)
      requires Valid() && handles.Length == |sizes|
      modifies this, handles
      ensures Valid() && (errorCode == 0 <==> phase.Done?) && hasContext == old(ContextSet(garbage))
      ensures phase.StaleError? <==> old(StartError(garbage)) != 0
      ensures EndsIn(old(dev), dev, dMem, sizes, old(next), phase, fault, old(Start(garbage)))
      ensures calls == old(Start(garbage)) + CallsMade(phase, |sizes|) && dev.reserved == old(dev).reserved
      ensures phase.Done? ==> handles[..] == Names(old(next), |sizes|) && next == old(next) + |sizes|
      ensures NeverFails() && old(errorCode) == 0 && Spacious(old(dev).mapped, dMem, sizes) ==> phase.Done?
    {
      ghost var d, base, start := dev, next, Start(garbage);
      EnsureContext(garbage);
      if errorCode != 0 {
        phase := Stale(handles, sizes, dMem);
      } else {
        phase := CreateAndMapClean(dMem, handles, sizes);
      }
      FaultlessWakes(d, dMem, sizes, base, phase, fault, start);
    }

    method CreateAndMapClean(dMem: nat, handles: array<nat>, sizes: seq<nat>) returns (ghost phase: Phase)
      requires Valid() && handles.Length == |sizes| && errorCode == 0
      modifies this, handles
      ensures Valid() && (errorCode == 0 <==> phase.Done?) && !phase.StaleError? && hasContext == old(hasContext)
      ensures EndsIn(old(dev), dev, dMem, sizes, old(next), phase, fault, old(calls))
      ensures calls == old(calls) + CallsMade(phase, |sizes|) && dev.reserved == old(dev).reserved
      ensures phase.Done? ==> handles[..] == Names(old(next), |sizes|) && next == old(next) + |sizes|
    {
      ghost var base, start := next, calls;
      phase := CreateAll(handles, sizes);
      if errorCode == 0 {
        phase := MapAndSetAccess(dMem, handles, sizes, base, old(dev), start);
      }
    }

    method MapAndSetAccess(dMem: nat, handles: array<nat>, sizes: seq<nat>, ghost base: nat, ghost d: Dev,
                           ghost start: nat)
      returns (ghost phase: Phase)
      requires Valid() && handles[..] == Names(base, |sizes|) && errorCode == 0
      requires AllCreated(d, dev, sizes, base) && calls == start + |sizes| && NoFaults(fault, start, |sizes|)
      modifies this`dev, this`calls, this`errorCode
      ensures Valid() && (errorCode == 0 <==> phase.Done?) && !phase.StaleError? && !phase.CreateFailed?
      ensures EndsIn(d, dev, dMem, sizes, base, phase, fault, start) && dev.reserved == d.reserved
      ensures calls == start + CallsMade(phase, |sizes|)
    {
      phase := MapAll(dMem, handles, sizes, base, d, start);
      if errorCode == 0 {
        NoFaultsNext(fault, start, 2 * |sizes|);
        phase := SetAccess();
      }
    }

    /** Setting the access rights; a failure is recorded and nothing is rolled back. */
    method SetAccess() returns (ghost phase: Phase)
      requires errorCode == 0
      modifies this`calls, this`errorCode
      ensures calls == old(calls) + 1 && errorCode == FaultAt(fault, old(calls))
      ensures phase == if errorCode == 0 then Done else AccessFailed
    {
      errorCode := FaultAt(fault, calls);
      calls := calls + 1;
      phase := if errorCode == 0 then Done else AccessFailed;
    }

    /** With an error already recorded, the first create call is made and then the loop gives up; without
        chunks only the access rights are set. */
    method Stale(handles: array<nat>, sizes: seq<nat>, ghost dMem: nat) returns (ghost phase: Phase)
      requires Valid() && handles.Length == |sizes| && errorCode != 0
      modifies this, handles
      ensures Valid() && errorCode != 0 && phase.StaleError? && hasContext == old(hasContext)
      ensures EndsIn(old(dev), dev, dMem, sizes, old(next), phase, fault, old(calls))
      ensures calls == old(calls) + 1 && dev.reserved == old(dev).reserved
    {
      phase := StaleError;
      if |sizes| > 0 {
        var status, h := MemCreate(sizes[0]);
        if status == 0 {
          handles[0] := h;
        } else {
          errorCode := status;
        }
        return;
      }
      if FaultAt(fault, calls) != 0 {
        errorCode := FaultAt(fault, calls);
      }
      calls := calls + 1;
    }

    /** Every unmap and every release succeeds, from call c on. */
    ghost predicate Removable(d: Dev, dMem: nat, handles: seq<nat>, sizes: seq<nat>, c: nat) {
      AllUnmap(d.mapped, dMem, sizes, |sizes|, fault, c) && AllRelease(d.live, handles, |handles|, fault, c + |sizes|)
    }

    /** unmap_and_release: every unmap and every release is tried; the first error is recorded. */
    method UnmapAndRelease(dMem: nat, handles: array<nat>, sizes: seq<nat>, garbage: bool)
      requires Valid() && handles.Length == |sizes|
      modifies this
      ensures Valid() && next == old(next) && calls == old(Start(garbage)) + 2 * |sizes|
      ensures hasContext == old(ContextSet(garbage))
      ensures dev == TornDown(old(dev), dMem, handles[..], sizes, fault, old(Start(garbage)))
      ensures errorCode == 0 <==>
        old(StartError(garbage)) == 0 && old(Removable(dev, dMem, handles[..], sizes, Start(garbage)))
      ensures errorCode == 0 ==> NoFaults(fault, old(Start(garbage)), 2 * |sizes|)
    {
      EnsureContext(garbage);
      var firstError := UnmapEach(dMem, sizes);
      firstError := ReleaseEach(handles, firstError);
      if firstError != 0 {
        errorCode := firstError;
      }
    }

    method UnmapOne(addr: nat, dMem: nat, sizes: seq<nat>, i: nat, ghost m: map<nat, Mapping>, ghost c: nat)
      returns (status: int)
      requires Valid() && i < |sizes| && addr == Addr(dMem, sizes, i) && calls == c + i
      requires dev.mapped == Unmapped(m, dMem, sizes, i, fault, c)
      modifies this`dev, this`calls
      ensures Valid() && calls == old(calls) + 1
      ensures dev == old(dev).(mapped := Unmapped(m, dMem, sizes, i + 1, fault, c))
      ensures AllUnmap(m, dMem, sizes, i + 1, fault, c) <==> AllUnmap(m, dMem, sizes, i, fault, c) && status == 0
    {
      status := MemUnmap(addr, sizes[i]);
    }

    method UnmapEach(dMem: nat, sizes: seq<nat>) returns (firstError: int)
      requires Valid()
      modifies this`dev, this`calls
      ensures Valid() && calls == old(calls) + |sizes|
      ensures dev == old(dev).(mapped := Unmapped(old(dev).mapped, dMem, sizes, |sizes|, fault, old(calls)))
      ensures firstError == 0 ==> NoFaults(fault, old(calls), |sizes|)
      ensures firstError == 0 <==> AllUnmap(old(dev).mapped, dMem, sizes, |sizes|, fault, old(calls))
    {
      firstError := 0;
      var allocatedSize := 0;
      for i := 0 to |sizes|
        invariant Valid() && calls == old(calls) + i && allocatedSize == Total(sizes[..i])
        invariant dev == old(dev).(mapped := Unmapped(old(dev).mapped, dMem, sizes, i, fault, old(calls)))
        invariant firstError == 0 <==> AllUnmap(old(dev).mapped, dMem, sizes, i, fault, old(calls))
      {
        var status := UnmapOne(dMem + allocatedSize, dMem, sizes, i, old(dev).mapped, old(calls));
        if status != 0 && firstError == 0 {
          firstError := status;
        }
        TotalNext(sizes, i);
        allocatedSize := allocatedSize + sizes[i];
      }
      UnmapFaultless(old(dev).mapped, dMem, sizes, |sizes|, fault, old(calls));
    }

    method ReleaseOne(h: nat, ghost l: map<nat, nat>, ghost hs: seq<nat>, ghost i: nat, ghost c: nat)
      returns (status: int)
      requires Valid() && i < |hs| && h == hs[i] && calls == c + i && dev.live == Released(l, hs, i, fault, c)
      modifies this`dev, this`calls
      ensures Valid() && calls == old(calls) + 1
      ensures dev == old(dev).(live := Released(l, hs, i + 1, fault, c))
      ensures AllRelease(l, hs, i + 1, fault, c) <==> AllRelease(l, hs, i, fault, c) && status == 0
    {
      status := MemRelease(h);
    }

    method ReleaseEach(handles: array<nat>, earlier: int) returns (firstError: int)
      requires Valid()
      modifies this`dev, this`calls
      ensures Valid() && calls == old(calls) + handles.Length
      ensures dev == old(dev).(live := Released(old(dev).live, handles[..], handles.Length, fault, old(calls)))
      ensures firstError == 0 ==> earlier == 0 && NoFaults(fault, old(calls), handles.Length)
      ensures firstError == 0 <==>
        earlier == 0 && AllRelease(old(dev).live, handles[..], handles.Length, fault, old(calls))
      ensures earlier != 0 ==> firstError == earlier
    {
      firstError := earlier;
      for i := 0 to handles.Length
        invariant Valid() && calls == old(calls) + i
        invariant dev == old(dev).(live := Released(old(dev).live, handles[..], i, fault, old(calls)))
        invariant firstError == 0 <==> earlier == 0 && AllRelease(old(dev).live, handles[..], i, fault, old(calls))
        invariant earlier != 0 ==> firstError == earlier
      {
        var status := ReleaseOne(handles[i], old(dev).live, handles[..], i, old(calls));
        if status != 0 && firstError == 0 {
          firstError := status;
        }
      }
      ReleaseFaultless(old(dev).live, handles[..], handles.Length, fault, old(calls));
    }

    /** The Python entry points raise a recorded error and clear it. */
    method PythonUnmapAndRelease(dMem: nat, handles: array<nat>, sizes: seq<nat>, garbage: bool, ghost d: Dev,
                                 ghost base: nat)
      returns (raised: bool)
      requires Valid() && handles[..] == Names(base, |sizes|)
      requires HasRoom(d, dMem, sizes, base) && dev == Awake(d, dMem, sizes, base)
      modifies this
      ensures Valid() && errorCode == 0 && next == old(next) && calls == old(Start(garbage)) + 2 * |sizes|
      ensures dev == TornDown(old(dev), dMem, Names(base, |sizes|), sizes, fault, old(Start(garbage)))
      ensures raised <==> old(StartError(garbage)) != 0 || !NoFaults(fault, old(Start(garbage)), 2 * |sizes|)
      ensures dev == d <==> NoFaults(fault, old(Start(garbage)), 2 * |sizes|)
      ensures (!raised ==> dev == d) && (NeverFails() && old(errorCode) == 0 ==> !raised)
    {
      assert handles.Length == |handles[..]|;
      ghost var start := Start(garbage);
      UnmapAndRelease(dMem, handles, sizes, garbage);
      AwakeUnmaps(d, dMem, sizes, base, fault, start);
      SleepsIff(d, dMem, sizes, base, fault, start);
      raised := errorCode != 0;
      errorCode := 0;
    }

    method PythonCreateAndMap(dMem: nat, handles: array<nat>, sizes: seq<nat>, garbage: bool)
      returns (raised: bool, ghost phase: Phase)
      requires Valid() && handles.Length == |sizes|
      modifies this, handles
      ensures Valid() && errorCode == 0 && (raised <==> !phase.Done?)
      ensures phase.StaleError? <==> old(StartError(garbage)) != 0
      ensures EndsIn(old(dev), dev, dMem, sizes, old(next), phase, fault, old(Start(garbage)))
      ensures calls == old(Start(garbage)) + CallsMade(phase, |sizes|)
      ensures phase.Done? ==> handles[..] == Names(old(next), |sizes|) && next == old(next) + |sizes|
      ensures NeverFails() && old(errorCode) == 0 && Spacious(old(dev).mapped, dMem, sizes) ==> !raised
    {
      phase := CreateAndMap(dMem, handles, sizes, garbage);
      raised := errorCode != 0;
      errorCode := 0;
    }

    /** Any number of sleeps and wakes of one allocation: as long as nothing raises, each sleep brings
        back the state without the allocation, and each wake maps all its chunks again, under new handles.
        If one raises, the allocation is left half torn down, or as the failed wake leaves it. */
    method SleepAndWake(dMem: nat, handles: array<nat>, sizes: seq<nat>, rounds: nat, garbage: bool, ghost d: Dev,
                        ghost base: nat)
      returns (ghost end: RoundEnd, raised: bool)
      requires Valid() && handles[..] == Names(base, |sizes|)
      requires HasRoom(d, dMem, sizes, base) && dev == Awake(d, dMem, sizes, base)
      modifies this, handles
      ensures Valid() && RoundsEnd(d, dev, dMem, sizes, fault, end) && (raised <==> !end.AllRounds?)
      ensures end.AllRounds? ==> handles[..] == Names(end.base, |sizes|)
      ensures end.AllRounds? && rounds > 0 ==> end.base == old(next) + (rounds - 1) * |sizes| && errorCode == 0
      ensures NeverFails() && old(errorCode) == 0 && Spacious(d.mapped, dMem, sizes) ==> !raised
    {
      end := AllRounds(base);
      for r := 0 to rounds
        invariant Valid() && handles[..] == Names(end.base, |sizes|)
        invariant end.AllRounds? && RoundsEnd(d, dev, dMem, sizes, fault, end)
        invariant if r == 0 then end.base == base && next == old(next) && errorCode == old(errorCode)
                  else end.base == old(next) + (r - 1) * |sizes| && next == old(next) + r * |sizes| && errorCode == 0
      {
        NextMultiple(r, |sizes|);
        end, raised := OneRound(dMem, handles, sizes, garbage, d, end.base);
        if raised {
          return;
        }
      }
      raised := false;
    }

    /** One sleep and one wake. */
    method OneRound(dMem: nat, handles: array<nat>, sizes: seq<nat>, garbage: bool, ghost d: Dev, ghost base: nat)
      returns (ghost end: RoundEnd, raised: bool)
      requires Valid() && handles[..] == Names(base, |sizes|)
      requires HasRoom(d, dMem, sizes, base) && dev == Awake(d, dMem, sizes, base)
      modifies this, handles
      ensures Valid() && RoundsEnd(d, dev, dMem, sizes, fault, end) && (raised <==> !end.AllRounds?)
      ensures end.AllRounds? ==> end.base == old(next) && next == old(next) + |sizes| && errorCode == 0
      ensures end.AllRounds? ==> handles[..] == Names(end.base, |sizes|)
      ensures NeverFails() && old(errorCode) == 0 && Spacious(d.mapped, dMem, sizes) ==> !raised
    {
      end := SleepRaised(base, Start(garbage));
      raised := PythonUnmapAndRelease(dMem, handles, sizes, garbage, d, base);
      if raised {
        return;
      }
      ghost var start, woken := Start(garbage), next;
      assert handles.Length == |handles[..]|;
      ghost var phase;
      raised, phase := PythonCreateAndMap(dMem, handles, sizes, garbage);
      end := if raised then WakeRaised(woken, phase, start) else AllRounds(woken);
    }
  }

  /** How rounds of sleeping and waking end: all done, with the chunks named from base on; or a sleep or a
      wake raised, whose driver calls begin at start. */
  datatype RoundEnd =
    | AllRounds(base: nat)
    | SleepRaised(base: nat, start: nat)
    | WakeRaised(base: nat, phase: Phase, start: nat)

  ghost predicate RoundsEnd(d: Dev, dev: Dev, dMem: nat, sizes: seq<nat>, fault: Faults, end: RoundEnd) {
    match end
    case AllRounds(base) => HasRoom(d, dMem, sizes, base) && dev == Awake(d, dMem, sizes, base)
    case SleepRaised(base, start) =>
      dev == TornDown(Awake(d, dMem, sizes, base), dMem, Names(base, |sizes|), sizes, fault, start)
    case WakeRaised(base, phase, start) =>
      !phase.Done? && EndsIn(d, dev, dMem, sizes, base, phase, fault, start)
  }

  /** After every unmap and every release was tried, from call c on. */
  function TornDown(d: Dev, dMem: nat, handles: seq<nat>, sizes: seq<nat>, fault: Faults, c: nat): Dev
    requires |handles| == |sizes|
  {
    d.(mapped := Unmapped(d.mapped, dMem, sizes, |sizes|, fault, c),
       live := Released(d.live, handles, |sizes|, fault, c + |sizes|))
  }

  /** What the driver holds after create_and_map, by the way it ended; its loops begin at call start. */
  function Left(d: Dev, dMem: nat, sizes: seq<nat>, base: nat, phase: Phase, fault: Faults, start: nat): Dev {
    match phase
    case Done => Awake(d, dMem, sizes, base)
    case AccessFailed => Awake(d, dMem, sizes, base)
    case CreateFailed(i) =>
      if i <= |sizes| then
        d.(live := Released(Created(d.live, sizes, base, i), Names(base, i), i, fault, start + i + 1))
      else d
    case MapFailed(i) =>
      if i <= |sizes| then
        MapRolledBack(d.(live := Created(d.live, sizes, base, |sizes|)), dMem, sizes, base, i, fault,
                      start + |sizes| + i + 1)
      else d
    case StaleError => if FirstMade(sizes, fault, start) then d.(live := d.live[base := sizes[0]]) else d
  }

  /** The create call for the first chunk, number call, succeeds. */
  predicate FirstMade(sizes: seq<nat>, fault: Faults, call: nat) {
    |sizes| > 0 && CreateStatus(sizes[0], FaultAt(fault, call)) == 0
  }

  ghost predicate EndsIn(d: Dev, dev: Dev, dMem: nat, sizes: seq<nat>, base: nat, phase: Phase, fault: Faults,
                         start: nat)
  {
    && dev == Left(d, dMem, sizes, base, phase, fault, start)
    && Reached(d, dMem, sizes, base, phase, fault, start)
  }

  /** What leads to each way of ending: the calls of the loops succeed up to the one that fails. */
  ghost predicate Reached(d: Dev, dMem: nat, sizes: seq<nat>, base: nat, phase: Phase, fault: Faults, start: nat) {
    var n := |sizes|;
    && (forall h :: h in d.live ==> h < base)
    && match phase
       case StaleError => true
       case CreateFailed(i) =>
         && i < n && (forall j :: 0 <= j < i ==> sizes[j] > 0) && NoFaults(fault, start, i)
         && CreateStatus(sizes[i], FaultAt(fault, start + i)) != 0
       case MapFailed(i) =>
         && i < n && AllPositive(sizes) && Fresh(d.mapped, dMem, sizes, base, i) && NoFaults(fault, start, n + i)
         && MapFails(d.(live := Created(d.live, sizes, base, n)), dMem, sizes, base, i, FaultAt(fault, start + n + i))
       case AccessFailed =>
         && HasRoom(d, dMem, sizes, base) && Fresh(d.mapped, dMem, sizes, base, n)
         && NoFaults(fault, start, 2 * n) && FaultAt(fault, start + 2 * n) != 0
       case Done =>
         && HasRoom(d, dMem, sizes, base) && Fresh(d.mapped, dMem, sizes, base, n)
         && NoFaults(fault, start, 2 * n + 1)
  }

  /** When create_and_map leaves the driver as it was. */
  ghost predicate Restores(sizes: seq<nat>, phase: Phase, fault: Faults, start: nat) {
    match phase
    case Done => sizes == []
    case AccessFailed => sizes == []
    case StaleError => !FirstMade(sizes, fault, start)
    case _ => NoFaults(fault, FirstCleanup(phase, |sizes|, start), CleanupCount(phase, |sizes|))
  }

  /** A call of create_and_map ends in the state it began with exactly when it had no chunks to map, or
      it failed before the access was set and none of the clean-up calls that follow the failing one
      failed, or an error left over stopped it and its first create call failed as well. */
  lemma LeftRestoresIff(d: Dev, dMem: nat, sizes: seq<nat>, base: nat, phase: Phase, fault: Faults, start: nat)
    requires Reached(d, dMem, sizes, base, phase, fault, start)
    ensures Left(d, dMem, sizes, base, phase, fault, start) == d <==> Restores(sizes, phase, fault, start)
  {
    match phase
    case Done => AwakeAgain(d, dMem, sizes, base);
    case AccessFailed => AwakeAgain(d, dMem, sizes, base);
    case StaleError => StaleRestoresIff(d, sizes, base, fault, start);
    case CreateFailed(i) => CreateRestoresIff(d, sizes, base, i, fault, start + i + 1);
    case MapFailed(i) => MapRestoresIff(d, dMem, sizes, base, i, fault, start);
  }

  lemma MapRestoresIff(d: Dev, dMem: nat, sizes: seq<nat>, base: nat, i: nat, fault: Faults, start: nat)
    requires Reached(d, dMem, sizes, base, MapFailed(i), fault, start)
    ensures Left(d, dMem, sizes, base, MapFailed(i), fault, start) == d <==>
      Restores(sizes, MapFailed(i), fault, start)
  {
    RollbackExact(d, dMem, sizes, base, i, fault, start + |sizes| + i + 1);
  }

  lemma StaleRestoresIff(d: Dev, sizes: seq<nat>, base: nat, fault: Faults, start: nat)
    requires forall h :: h in d.live ==> h < base
    ensures (if FirstMade(sizes, fault, start) then d.(live := d.live[base := sizes[0]]) else d) == d
      <==> !FirstMade(sizes, fault, start)
  {
    if FirstMade(sizes, fault, start) {
      assert base in d.live[base := sizes[0]] && base !in d.live;
    }
  }

  lemma {:induction false} CreateRestoresIff(d: Dev, sizes: seq<nat>, base: nat, i: nat, fault: Faults, c: nat)
    requires i <= |sizes| && forall h :: h in d.live ==> h < base
    ensures d.(live := Released(Created(d.live, sizes, base, i), Names(base, i), i, fault, c)) == d
      <==> NoFaults(fault, c, i)
  {
    ReleaseUndoesCreate(d.live, sizes, base, i, fault, c);
  }

  /** The driver fails no call but, possibly, call k. */
  ghost predicate OnlyFault(fault: Faults, k: nat) { forall j :: j != k ==> FaultAt(fault, j) == 0 }

  /** A single failing driver call, with room for the chunks, never leaves anything of a failed create or
      map: the clean-up that follows it succeeds. */
  lemma OneFaultRestores(d: Dev, dMem: nat, sizes: seq<nat>, base: nat, phase: Phase, fault: Faults, start: nat,
                         k: nat)
    requires Reached(d, dMem, sizes, base, phase, fault, start) && OnlyFault(fault, k)
    requires phase.CreateFailed? || phase.MapFailed?
    requires Spacious(d.mapped, dMem, sizes)
    ensures Left(d, dMem, sizes, base, phase, fault, start) == d
    ensures k + 1 == FirstCleanup(phase, |sizes|, start)
  {
    FailingCall(d, dMem, sizes, base, phase, fault, start);
    LeftRestoresIff(d, dMem, sizes, base, phase, fault, start);
  }

  /** With room, the call before the clean-up is one that the driver failed. */
  lemma FailingCall(d: Dev, dMem: nat, sizes: seq<nat>, base: nat, phase: Phase, fault: Faults, start: nat)
    requires Reached(d, dMem, sizes, base, phase, fault, start) && Spacious(d.mapped, dMem, sizes)
    requires phase.CreateFailed? || phase.MapFailed?
    ensures var c := FirstCleanup(phase, |sizes|, start); c > start && FaultAt(fault, c - 1) != 0
  {
    if phase.MapFailed? { RoomMaps(d, dMem, sizes, base, phase.i); }
  }

  /** An error is recorded after the context query exactly if one was left over or one of its calls failed.
      If none is, the query takes one call where there is a context and three where there is none. */
  lemma ContextExact(fault: Faults, c: nat, hasContext: bool, garbage: bool, error: int)
    ensures ContextError(fault, c, hasContext, garbage, error) == 0 <==>
      error == 0 && NoFaults(fault, c, ContextCalls(fault, c, hasContext, garbage))
    ensures FaultAt(fault, c) == 0 ==> ContextCalls(fault, c, hasContext, garbage) == if hasContext then 1 else 3
  {}

  /** A single failing call that makes the context query record an error comes before the loops. */
  lemma ContextFaultBefore(fault: Faults, c: nat, hasContext: bool, garbage: bool, k: nat)
    requires ContextError(fault, c, hasContext, garbage, 0) != 0 && OnlyFault(fault, k)
    ensures c <= k < c + ContextCalls(fault, c, hasContext, garbage)
  {}

  /** A chunk of two bytes, created and mapped, whose access call fails: it stays as it is. */
  lemma AccessFailureLeaks()
    ensures EndsIn(NOTHING, Dev(map[0 := 2], map[8 := Mapping(2, 0)], map[]), 8, [2], 0, AccessFailed, imap[2 := 7], 0)
  {
    OneChunk(8, [2], 2, imap[2 := 7]);
  }

  lemma OneChunk(dMem: nat, sizes: seq<nat>, size: nat, fault: Faults)
    requires sizes == [size] && size > 0
    ensures Awake(NOTHING, dMem, sizes, 0) == Dev(map[0 := size], map[dMem := Mapping(size, 0)], map[])
    ensures NoFaults(fault, 0, 2) && FaultAt(fault, 2) != 0 ==>
      Reached(NOTHING, dMem, sizes, 0, AccessFailed, fault, 0)
  {
    assert sizes[..0] == [] && Addr(dMem, sizes, 0) == dMem;
    var none: map<nat, Mapping> := map[];
    var live: map<nat, nat> := map[];
    assert MappedTo(none, dMem, sizes, 0, 1) == none[dMem := Mapping(size, 0)] == map[dMem := Mapping(size, 0)];
    assert Created(live, sizes, 0, 0) == live;
    assert Created(live, sizes, 0, 1) == live[0 := size] == map[0 := size];
    FirstFree(none, dMem, sizes);
  }

  lemma {:induction false} FirstFree(none: map<nat, Mapping>, dMem: nat, sizes: seq<nat>)
    requires |sizes| == 1 && none == map[]
    ensures Fresh(none, dMem, sizes, 0, 1) && Vacant(none, dMem, sizes, 1)
  {
    assert MappedTo(none, dMem, sizes, 0, 0) == none;
  }

  /** A context query that fails before a chunk of two bytes is created: its handle stays. */
  lemma StaleErrorLeaks()
    ensures var fault: Faults := imap[0 := 7];
      && ContextError(fault, 0, true, true, 0) == 7 && ContextCalls(fault, 0, true, true) == 1
      && EndsIn(NOTHING, Dev(map[0 := 2], map[], map[]), 0, [2], 0, StaleError, fault, 1)
  {
    assert NOTHING.live[0 := 2] == map[0 := 2];
  }

  const NOTHING := Dev(map[], map[], map[])

  /** How the loops end is determined by the driver and the state they begin in. */
  lemma PhaseUnique(d: Dev, dMem: nat, sizes: seq<nat>, base: nat, p: Phase, q: Phase, fault: Faults, start: nat)
    requires Reached(d, dMem, sizes, base, p, fault, start) && Reached(d, dMem, sizes, base, q, fault, start)
    requires !p.StaleError? && !q.StaleError?
    ensures p == q
  {
    NotBefore(d, dMem, sizes, base, p, q, fault, start);
    NotBefore(d, dMem, sizes, base, q, p, fault, start);
  }

  /** How many calls of the loops succeed. */
  function Succeeding(phase: Phase, n: nat): nat {
    match phase
    case StaleError => 0
    case CreateFailed(i) => i
    case MapFailed(i) => n + i
    case AccessFailed => 2 * n
    case Done => 2 * n + 1
  }

  lemma NotBefore(d: Dev, dMem: nat, sizes: seq<nat>, base: nat, p: Phase, q: Phase, fault: Faults, start: nat)
    requires Reached(d, dMem, sizes, base, p, fault, start) && Reached(d, dMem, sizes, base, q, fault, start)
    requires !p.StaleError? && !q.StaleError?
    ensures Succeeding(p, |sizes|) >= Succeeding(q, |sizes|)
  {
    var k, l := Succeeding(p, |sizes|), Succeeding(q, |sizes|);
    assert k < l ==> FaultAt(fault, start + k) == 0;
    if p.MapFailed? {
      CreatedAt(d.live, sizes, base, |sizes|, p.i);
      assert k < l ==> FreshAt(d.mapped, dMem, sizes, base, p.i);
    }
  }

  /** If the driver fails none of the calls of the loops and there is room, they complete. */
  lemma FaultlessWakes(d: Dev, dMem: nat, sizes: seq<nat>, base: nat, phase: Phase, fault: Faults, start: nat)
    requires Reached(d, dMem, sizes, base, phase, fault, start)
    ensures NoFaults(fault, start, 2 * |sizes| + 1) && Spacious(d.mapped, dMem, sizes) && !phase.StaleError? ==>
      phase.Done?
  {
    if Spacious(d.mapped, dMem, sizes) && (phase.CreateFailed? || phase.MapFailed?) {
      FailingCall(d, dMem, sizes, base, phase, fault, start);
      var c := FirstCleanup(phase, |sizes|, start) - 1;
      assert FaultAt(fault, c) != 0 && start <= c < start + (2 * |sizes| + 1);
    }
  }

  /** A wake that failed in its create or map loop and cleaned up can be tried again: with no error left
      over and no failing call the second try maps all chunks, under the names it has drawn. */
  lemma WakeAgain(d: Dev, first: Dev, second: Dev, dMem: nat, sizes: seq<nat>, base: nat, base': nat, phase: Phase,
                  phase': Phase, fault: Faults, start: nat, start': nat)
    requires EndsIn(d, first, dMem, sizes, base, phase, fault, start) && (phase.CreateFailed? || phase.MapFailed?)
    requires NoFaults(fault, FirstCleanup(phase, |sizes|, start), CleanupCount(phase, |sizes|))
    requires EndsIn(first, second, dMem, sizes, base', phase', fault, start') && !phase'.StaleError?
    requires NoFaults(fault, start', 2 * |sizes| + 1) && Spacious(d.mapped, dMem, sizes)
    ensures phase' == Done && second == Awake(d, dMem, sizes, base')
  {
    LeftRestoresIff(d, dMem, sizes, base, phase, fault, start);
    FaultlessWakes(first, dMem, sizes, base', phase', fault, start');
  }

  /** Unmapping and releasing all chunks undoes create_and_map exactly when no call fails. */
  lemma {:induction false} SleepsIff(d: Dev, dMem: nat, sizes: seq<nat>, base: nat, fault: Faults, c: nat)
    requires HasRoom(d, dMem, sizes, base)
    ensures TornDown(Awake(d, dMem, sizes, base), dMem, Names(base, |sizes|), sizes, fault, c) == d
      <==> NoFaults(fault, c, 2 * |sizes|)
  {
    UnmapUndoesMap(d.mapped, dMem, sizes, base, |sizes|, fault, c);
    ReleaseUndoesCreate(d.live, sizes, base, |sizes|, fault, c + |sizes|);
    NoFaultsJoin(fault, c, |sizes|, |sizes|);
  }

  lemma NoFaultsJoin(fault: Faults, c: nat, m: nat, n: nat)
    ensures NoFaults(fault, c, m + n) <==> NoFaults(fault, c, m) && NoFaults(fault, c + m, n)
  {
    if NoFaults(fault, c, m) && NoFaults(fault, c + m, n) {
      forall j | c <= j < c + (m + n) ensures FaultAt(fault, j) == 0 {}
    }
  }

  /** While awake, no unmap or release call fails unless the driver fails it. */
  lemma {:induction false} AwakeUnmaps(d: Dev, dMem: nat, sizes: seq<nat>, base: nat, fault: Faults, c: nat)
    requires HasRoom(d, dMem, sizes, base)
    ensures var w, n := Awake(d, dMem, sizes, base), |sizes|;
      && (AllUnmap(w.mapped, dMem, sizes, n, fault, c) && AllRelease(w.live, Names(base, n), n, fault, c + n)
          <==> NoFaults(fault, c, 2 * n))
  {
    MappedUnmap(d.mapped, dMem, sizes, base, |sizes|, |sizes|, fault, c);
    CreatedRelease(d.live, sizes, base, |sizes|, |sizes|, fault, c + |sizes|);
    NoFaultsJoin(fault, c, |sizes|, |sizes|);
  }

  /** While awake, chunk j is mapped at its own address with its own size and handle. */
  lemma AwakeMaps(d: Dev, dMem: nat, sizes: seq<nat>, base: nat)
    requires HasRoom(d, dMem, sizes, base)
    ensures var w := Awake(d, dMem, sizes, base).mapped; forall j :: 0 <= j < |sizes| ==>
      Addr(dMem, sizes, j) in w && w[Addr(dMem, sizes, j)] == Mapping(sizes[j], base + j)
  {
    forall j | 0 <= j < |sizes|
      ensures Addr(dMem, sizes, j) in Awake(d, dMem, sizes, base).mapped
      ensures Awake(d, dMem, sizes, base).mapped[Addr(dMem, sizes, j)] == Mapping(sizes[j], base + j)
    {
      MappedAt(d.mapped, dMem, sizes, base, |sizes|, j);
    }
  }

  /** The chunks tile the allocation without gap or overlap: an address lies in one of them exactly
      when it lies in the allocation, and never in two. */
  lemma {:induction false} ChunksTile(dMem: nat, sizes: seq<nat>, a: int)
    requires AllPositive(sizes)
    ensures dMem <= a < dMem + Total(sizes) <==> exists j :: InChunk(dMem, sizes, j, a)
    ensures forall j, k :: InChunk(dMem, sizes, j, a) && InChunk(dMem, sizes, k, a) ==> j == k
  {
    assert sizes[..|sizes|] == sizes;
    if dMem <= a < dMem + Total(sizes) {
      var j := ChunkOf(dMem, sizes, |sizes|, a);
    }
    forall j, k | InChunk(dMem, sizes, j, a) && InChunk(dMem, sizes, k, a) ensures j == k {
      if j < k { AddrsIncrease(dMem, sizes, j, k); } else if k < j { AddrsIncrease(dMem, sizes, k, j); }
    }
    if j :| InChunk(dMem, sizes, j, a) {
      TotalPrefix(sizes, j, |sizes|);
    }
  }

  ghost predicate InChunk(dMem: nat, sizes: seq<nat>, j: int, a: int) {
    0 <= j < |sizes| && Addr(dMem, sizes, j) <= a < Addr(dMem, sizes, j) + sizes[j]
  }

  lemma {:induction false} ChunkOf(dMem: nat, sizes: seq<nat>, n: nat, a: int) returns (j: int)
    requires n <= |sizes| && dMem <= a < Addr(dMem, sizes, n)
    ensures InChunk(dMem, sizes, j, a)
  {
    assert n > 0 by { assert sizes[..0] == []; }
    TotalNext(sizes, n - 1);
    if a >= Addr(dMem, sizes, n - 1) { j := n - 1; } else { j := ChunkOf(dMem, sizes, n - 1, a); }
  }

  /** d with every chunk created and mapped. */
  function Awake(d: Dev, dMem: nat, sizes: seq<nat>, base: nat): Dev {
    d.(live := Created(d.live, sizes, base, |sizes|), mapped := MappedTo(d.mapped, dMem, sizes, base, |sizes|))
  }

  /** d has room for the chunks: positive sizes, new handle names, unmapped addresses. */
  ghost predicate HasRoom(d: Dev, dMem: nat, sizes: seq<nat>, base: nat) {
    AllPositive(sizes) && (forall h :: h in d.live ==> h < base) && Vacant(d.mapped, dMem, sizes, |sizes|)
  }

  lemma FreshIsVacant(mapped: map<nat, Mapping>, dMem: nat, sizes: seq<nat>, base: nat, n: nat)
    requires n <= |sizes| && AllPositive(sizes) && Fresh(mapped, dMem, sizes, base, n)
    ensures Vacant(mapped, dMem, sizes, n)
  {
    forall j | 0 <= j < n ensures Addr(dMem, sizes, j) !in mapped {
      assert FreshAt(mapped, dMem, sizes, base, j);
      MappedKeys(mapped, dMem, sizes, base, j, Addr(dMem, sizes, j));
    }
  }

  lemma AwakeAgain(d: Dev, dMem: nat, sizes: seq<nat>, base: nat)
    requires HasRoom(d, dMem, sizes, base)
    ensures Awake(d, dMem, sizes, base) == d <==> sizes == []
  {
    if |sizes| > 0 {
      CreatedKeys(d.live, sizes, base, |sizes|, base);
      assert base in Awake(d, dMem, sizes, base).live && base !in d.live;
    }
  }

  /** After a failed map call nothing of this call is left exactly when every clean-up call succeeds. */
  lemma {:induction false} RollbackExact(d: Dev, dMem: nat, sizes: seq<nat>, base: nat, i: nat, fault: Faults, c: nat)
    requires i <= |sizes| && AllPositive(sizes) && (forall h :: h in d.live ==> h < base) &&
      Fresh(d.mapped, dMem, sizes, base, i)
    ensures MapRolledBack(d.(live := Created(d.live, sizes, base, |sizes|)), dMem, sizes, base, i, fault, c) == d
      <==> NoFaults(fault, c, i + |sizes|)
  {
    FreshIsVacant(d.mapped, dMem, sizes, base, i);
    UnmapUndoesMap(d.mapped, dMem, sizes, base, i, fault, c);
    ReleaseUndoesCreate(d.live, sizes, base, |sizes|, fault, c + i);
    NoFaultsJoin(fault, c, i, |sizes|);
  }

  /** Every handle has been created, with a new name. */
  ghost predicate AllCreated(d: Dev, dev: Dev, sizes: seq<nat>, base: nat) {
    && AllPositive(sizes) && (forall h :: h in d.live ==> h < base)
    && dev == d.(live := Created(d.live, sizes, base, |sizes|))
  }

  /** Create call i, counted from call start on, failed where the earlier ones succeeded, and the handles
      made by then were released. */
  ghost predicate CreateGivenUp(d: Dev, dev: Dev, sizes: seq<nat>, base: nat, i: nat, fault: Faults, start: nat) {
    && i < |sizes| && (forall j :: 0 <= j < i ==> sizes[j] > 0) && NoFaults(fault, start, i)
    && CreateStatus(sizes[i], FaultAt(fault, start + i)) != 0
    && dev == d.(live := Released(Created(d.live, sizes, base, i), Names(base, i), i, fault, start + i + 1))
  }

  /** A map call failed where the earlier ones succeeded. */
  lemma MapReached(d: Dev, made: Dev, mapped: Dev, dMem: nat, sizes: seq<nat>, base: nat, i: nat, fault: Faults,
                   start: nat)
    requires AllCreated(d, made, sizes, base) && i < |sizes| && NoFaults(fault, start, |sizes| + i)
    requires MappedSoFar(made, mapped, dMem, sizes, base, i)
    requires MapFails(made, dMem, sizes, base, i, FaultAt(fault, start + |sizes| + i))
    ensures Reached(d, dMem, sizes, base, MapFailed(i), fault, start)
  {}

  lemma {:induction false} BothLoopsRun(d: Dev, mapped: Dev, unmapped: Dev, dev: Dev, dMem: nat, sizes: seq<nat>,
                                        base: nat, i: nat, fault: Faults, c: nat)
    requires i <= |sizes| && mapped == d.(mapped := MappedTo(d.mapped, dMem, sizes, base, i))
    requires unmapped == mapped.(mapped := Unmapped(mapped.mapped, dMem, sizes, i, fault, c))
    requires dev == unmapped.(live := Released(unmapped.live, Names(base, |sizes|), |sizes|, fault, c + i))
    ensures dev == MapRolledBack(d, dMem, sizes, base, i, fault, c)
  {}

  lemma MapLeaves(d: Dev, made: Dev, dev: Dev, dMem: nat, sizes: seq<nat>, base: nat, i: nat, fault: Faults,
                  start: nat)
    requires AllCreated(d, made, sizes, base) && i < |sizes|
    requires dev == MapRolledBack(made, dMem, sizes, base, i, fault, start + |sizes| + i + 1)
    ensures dev == Left(d, dMem, sizes, base, MapFailed(i), fault, start) && dev.reserved == d.reserved
  {}

  lemma AllMapped(d: Dev, made: Dev, dev: Dev, dMem: nat, sizes: seq<nat>, base: nat)
    requires AllCreated(d, made, sizes, base)
    requires MappedSoFar(made, dev, dMem, sizes, base, |sizes|)
    ensures HasRoom(d, dMem, sizes, base) && dev == Awake(d, dMem, sizes, base)
    ensures Fresh(d.mapped, dMem, sizes, base, |sizes|)
  {
    FreshIsVacant(d.mapped, dMem, sizes, base, |sizes|);
  }

  lemma TotalNext(sizes: seq<nat>, i: nat)
    requires i < |sizes|
    ensures Total(sizes[..i + 1]) == Total(sizes[..i]) + sizes[i]
  {
    assert sizes[..i + 1][..i] == sizes[..i];
  }

  /** Each of the first n chunks was mapped where its range was free. */
  ghost predicate Fresh(mapped: map<nat, Mapping>, dMem: nat, sizes: seq<nat>, base: nat, n: nat)
    requires n <= |sizes|
  {
    forall j :: 0 <= j < n ==> FreshAt(mapped, dMem, sizes, base, j)
  }

  /** The first i chunks are mapped, each where its range was free. */
  ghost predicate MappedSoFar(d: Dev, dev: Dev, dMem: nat, sizes: seq<nat>, base: nat, i: nat)
    requires i <= |sizes|
  {
    dev == d.(mapped := MappedTo(d.mapped, dMem, sizes, base, i)) && Fresh(d.mapped, dMem, sizes, base, i)
  }

  ghost predicate FreshAt(mapped: map<nat, Mapping>, dMem: nat, sizes: seq<nat>, base: nat, j: nat)
    requires j < |sizes|
  {
    RangeFree(MappedTo(mapped, dMem, sizes, base, j), Addr(dMem, sizes, j), sizes[j])
  }

  /** The state after a map call fails for chunk i, all earlier ones being mapped from call c on. */
  function MapRolledBack(d: Dev, dMem: nat, sizes: seq<nat>, base: nat, i: nat, fault: Faults, c: nat): Dev
    requires i <= |sizes|
  {
    d.(mapped := Unmapped(MappedTo(d.mapped, dMem, sizes, base, i), dMem, sizes, i, fault, c),
       live := Released(d.live, Names(base, |sizes|), |sizes|, fault, c + i))
  }
}
