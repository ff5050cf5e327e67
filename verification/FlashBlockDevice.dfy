/** The block device that emulates rewritable 512-byte sectors over NOR flash with 4 KiB erase sectors. */
module FlashBlockDevice {
  import opened Bytes
  import opened NorFlash

  const SECTOR_SIZE: nat := 512

  /** The file-system partition behind the MiCO flash calls. */
  class Flash {
    var cells: seq<byte>

    constructor (cells: seq<byte>)
      ensures this.cells == cells
    {
      this.cells := cells;
    }

    /** Reads advance the offset. */
    method Read(offset: nat, size: nat) returns (data: seq<byte>, next: nat)
      requires offset + size <= |cells|
      ensures data == cells[offset..offset + size] && next == offset + size
    {
      return cells[offset..offset + size], offset + size;
    }

    /** An erase blanks every 4 KiB sector it touches. */
    method Erase(offset: nat, size: nat)
      requires offset + size <= |cells|
      modifies this
      ensures cells == Wiped(old(cells), offset, size)
    {
      cells := Wiped(cells, offset, size);
    }

    method Write(offset: nat, data: seq<byte>) returns (next: nat)
      requires offset + |data| <= |cells|
      modifies this
      ensures cells == Programmed(old(cells), offset, data) && next == offset + |data|
    {
      cells := Programmed(cells, offset, data);
      next := offset + |data|;
    }
  }

  /** The partition as an array of rewritable sectors. */
  function Sector(cells: seq<byte>, k: nat): seq<byte>
    requires (k + 1) * SECTOR_SIZE <= |cells|
  {
    cells[k * SECTOR_SIZE..(k + 1) * SECTOR_SIZE]
  }

  class BlockDevice {
    const flash: Flash

    ghost predicate Valid()
      reads this, flash
    {
      |flash.cells| % FLASH_SECTOR == 0
    }

    constructor (flash: Flash)
      ensures this.flash == flash
    {
      this.flash := flash;
    }

    /** `MicoFlashEraseWrite`: a sector that is not blank costs a read, an erase and a rewrite of 4 KiB. */
    method EraseWrite(offset: nat, data: seq<byte>)
      requires Valid() && offset % SECTOR_SIZE == 0 && |data| == SECTOR_SIZE && offset + SECTOR_SIZE <= |flash.cells|
      modifies flash
      ensures Valid() && flash.cells == Splice(old(flash.cells), offset, data)
    {
      hide Splice, Programmed;
      ghost var before := flash.cells;
      var base, inside := Split(offset, |flash.cells|);
      var buffer, next := flash.Read(base, FLASH_SECTOR);
      var pos := 0;
      while pos < SECTOR_SIZE && buffer[inside + pos] == 0xFF
        invariant 0 <= pos <= SECTOR_SIZE
        invariant forall j | inside <= j < inside + pos :: buffer[j] == 0xFF
      {
        pos := pos + 1;
      }
      if pos != SECTOR_SIZE {
        next := next - FLASH_SECTOR;
        EraseSector(next);
        buffer := Patch(buffer, inside, data);
        Rewrite(before, base, inside, data);
        next := flash.Write(next, buffer);
      } else {
        BlankInside(before, base, inside, buffer);
        ProgramBlank(before, offset, data);
        next := flash.Write(offset, data);
      }
    }

    /** The erase sector that holds an offset, and the place inside it. */
    static method Split(offset: nat, ghost length: nat) returns (base: nat, inside: nat)
      requires offset % SECTOR_SIZE == 0 && offset + SECTOR_SIZE <= length && length % FLASH_SECTOR == 0
      ensures base % FLASH_SECTOR == 0 && base + FLASH_SECTOR <= length
      ensures base + inside == offset && inside + SECTOR_SIZE <= FLASH_SECTOR
    {
      InsideSector(offset, length);
      base, inside := offset / FLASH_SECTOR * FLASH_SECTOR, offset / 256 % 16 * 256;
    }

    /** An erase of 512 bytes at the start of an erase sector. */
    method EraseSector(base: nat)
      requires Valid() && base % FLASH_SECTOR == 0 && base + FLASH_SECTOR <= |flash.cells|
      modifies flash
      ensures flash.cells == Splice(old(flash.cells), base, Blank(FLASH_SECTOR))
    {
      hide Splice;
      OneSector(base, |flash.cells|);
      flash.Erase(base, SECTOR_SIZE);
    }

    /** `SFLASHDISK_write` */
    method WriteSectors(buff: seq<byte>, sector: nat, count: nat)
      requires Valid() && (sector + count) * SECTOR_SIZE <= |flash.cells| && count * SECTOR_SIZE <= |buff|
      modifies flash
      ensures Valid() && flash.cells == Splice(old(flash.cells), sector * SECTOR_SIZE, buff[..count * SECTOR_SIZE])
    {
      for i := 0 to count
        invariant Valid() && |flash.cells| == old(|flash.cells|)
        invariant flash.cells == Splice(old(flash.cells), sector * SECTOR_SIZE, buff[..i * SECTOR_SIZE])
      {
        var offset := (sector + i) * SECTOR_SIZE;
        EraseWrite(offset, buff[i * SECTOR_SIZE..(i + 1) * SECTOR_SIZE]);
        OverwriteNext(old(flash.cells), sector * SECTOR_SIZE, buff, i * SECTOR_SIZE);
      }
    }

    /** `SFLASHDISK_read` */
    method ReadSectors(sector: nat, count: nat) returns (buff: seq<byte>)
      requires (sector + count) * SECTOR_SIZE <= |flash.cells|
      ensures buff == flash.cells[sector * SECTOR_SIZE..(sector + count) * SECTOR_SIZE]
    {
      buff := [];
      for i := 0 to count
        invariant buff == flash.cells[sector * SECTOR_SIZE..(sector + i) * SECTOR_SIZE]
      {
        var offset := (sector + i) * SECTOR_SIZE;
        var data, next := flash.Read(offset, SECTOR_SIZE);
        buff := buff + data;
      }
    }

    /** `program`: the number of sectors is cut to eight bits. */
    method Program(data: seq<byte>, addr: nat, size: nat) returns (result: int)
      requires Valid() && size <= |data| && addr + size <= |flash.cells|
      modifies flash
      ensures Valid() && result == 0
      ensures flash.cells == AfterProgram(old(flash.cells), data, addr, size)
    {
      Fits(addr, size);
      var sector, count := addr / SECTOR_SIZE, size / SECTOR_SIZE % 256;
      WriteSectors(data, sector, count);
      return 0;
    }

    /** `read` */
    method Read(addr: nat, size: nat) returns (data: seq<byte>, result: int)
      requires addr + size <= |flash.cells|
      ensures result == 0
      ensures data == ReadOut(flash.cells, addr, size)
    {
      Fits(addr, size);
      var sector, count := addr / SECTOR_SIZE, size / SECTOR_SIZE % 256;
      data := ReadSectors(sector, count);
      result := 0;
    }

    /** The byte-wise copy into the sector buffer. */
    static method Patch(buffer: seq<byte>, at: nat, data: seq<byte>) returns (patched: seq<byte>)
      requires at + |data| <= |buffer|
      ensures patched == Splice(buffer, at, data)
    {
      patched := buffer;
      for pos := 0 to |data|
        invariant |patched| == |buffer| && patched == Splice(buffer, at, data[..pos])
      {
        patched := patched[at + pos := data[pos]];
        assert data[..pos + 1] == data[..pos] + [data[pos]];
      }
      assert data[..|data|] == data;
    }
  }

  lemma OneSector(base: nat, length: nat)
    requires base % FLASH_SECTOR == 0 && base + FLASH_SECTOR <= length
    ensures SectorStart(base) == base && SectorEnd(base + SECTOR_SIZE, length) == base + FLASH_SECTOR
  {
  }

  /** `(*off_set) >> 12 << 12` and `(*off_set) & 0x0F00` split a sector-aligned offset. */
  lemma InsideSector(offset: nat, length: nat)
    requires offset % SECTOR_SIZE == 0 && offset + SECTOR_SIZE <= length && length % FLASH_SECTOR == 0
    ensures var base, inside := offset / FLASH_SECTOR * FLASH_SECTOR, offset / 256 % 16 * 256;
      && base + inside == offset && inside + SECTOR_SIZE <= FLASH_SECTOR && base + FLASH_SECTOR <= length
      && base / FLASH_SECTOR == offset / FLASH_SECTOR
      && (base + SECTOR_SIZE - 1) / FLASH_SECTOR == base / FLASH_SECTOR
  {
    var q, n, m := offset / FLASH_SECTOR, length / FLASH_SECTOR, offset / SECTOR_SIZE;
    assert length == 4096 * n && offset == 512 * m;
    var k := m - 8 * q;
    assert 0 <= k < 8;
    SplitOffset(q, k);
    assert q < n;
  }

  lemma SplitOffset(q: nat, k: nat)
    requires k < 8
    ensures (4096 * q + 512 * k) / 256 % 16 * 256 == 512 * k
  {
    assert (4096 * q + 512 * k) / 256 == 16 * q + 2 * k;
    assert (16 * q + 2 * k) % 16 == 2 * k;
  }

  lemma BlankInside(before: seq<byte>, base: nat, inside: nat, buffer: seq<byte>)
    requires base + FLASH_SECTOR <= |before| && inside + SECTOR_SIZE <= FLASH_SECTOR
    requires buffer == before[base..base + FLASH_SECTOR]
    requires forall j | inside <= j < inside + SECTOR_SIZE :: buffer[j] == 0xFF
    ensures before[base + inside..base + inside + SECTOR_SIZE] == Blank(SECTOR_SIZE)
  {
    var run := before[base + inside..base + inside + SECTOR_SIZE];
    forall i | 0 <= i < SECTOR_SIZE
      ensures run[i] == 0xFF
    {
      assert run[i] == buffer[inside + i];
    }
  }

  /** Erasing a 4 KiB sector and programming its patched image back changes only the patched bytes. */
  lemma Rewrite(before: seq<byte>, base: nat, inside: nat, data: seq<byte>)
    requires base + FLASH_SECTOR <= |before| && inside + |data| <= FLASH_SECTOR
    ensures var erased := Splice(before, base, Blank(FLASH_SECTOR));
      var image := Splice(before[base..base + FLASH_SECTOR], inside, data);
      Programmed(erased, base, image) == Splice(before, base + inside, data)
  {
    var erased := Splice(before, base, Blank(FLASH_SECTOR));
    var image := Splice(before[base..base + FLASH_SECTOR], inside, data);
    assert erased[base..base + FLASH_SECTOR] == Blank(FLASH_SECTOR);
    ProgramBlank(erased, base, image);
  }

  lemma OverwriteNext(cells: seq<byte>, at: nat, buff: seq<byte>, done: nat)
    requires done + SECTOR_SIZE <= |buff| && at + done + SECTOR_SIZE <= |cells|
    ensures Splice(Splice(cells, at, buff[..done]), at + done, buff[done..done + SECTOR_SIZE])
         == Splice(cells, at, buff[..done + SECTOR_SIZE])
  {
  }

  // ----- the device as an array of sectors

  /** How many of `size` bytes a request moves: whole sectors, counted in eight bits. */
  function Whole(size: nat): (n: nat)
    ensures n <= size && n % SECTOR_SIZE == 0
  {
    WholeIsLess(size);
    size / SECTOR_SIZE % 256 * SECTOR_SIZE
  }

  lemma WholeIsLess(size: nat)
    ensures size / SECTOR_SIZE % 256 * SECTOR_SIZE <= size
    ensures size / SECTOR_SIZE % 256 * SECTOR_SIZE % SECTOR_SIZE == 0
  {
    var q := size / SECTOR_SIZE;
    assert q % 256 <= q && q * 512 <= size;
  }

  lemma Fits(addr: nat, size: nat)
    ensures addr / SECTOR_SIZE * SECTOR_SIZE + Whole(size) <= addr + size
    ensures (addr / SECTOR_SIZE + size / SECTOR_SIZE % 256) * SECTOR_SIZE
      == addr / SECTOR_SIZE * SECTOR_SIZE + Whole(size)
  {
  }

  function AfterProgram(cells: seq<byte>, data: seq<byte>, addr: nat, size: nat): (s: seq<byte>)
    requires size <= |data| && addr + size <= |cells|
    ensures |s| == |cells|
  {
    Fits(addr, size);
    Splice(cells, addr / SECTOR_SIZE * SECTOR_SIZE, data[..Whole(size)])
  }

  /** What `read` returns. */
  function ReadOut(cells: seq<byte>, addr: nat, size: nat): seq<byte>
    requires addr + size <= |cells|
  {
    Fits(addr, size);
    cells[addr / SECTOR_SIZE * SECTOR_SIZE..addr / SECTOR_SIZE * SECTOR_SIZE + Whole(size)]
  }

  /** The requests whose byte-sized sector count is the whole story. */
  predicate Served(addr: nat, size: nat) {
    size == 0 || (addr % SECTOR_SIZE == 0 && size % SECTOR_SIZE == 0 && size < 256 * SECTOR_SIZE)
  }

  lemma ServedCounts(addr: nat, size: nat)
    ensures Served(addr, size) <==> size == 0 || (addr / SECTOR_SIZE * SECTOR_SIZE == addr && Whole(size) == size)
  {
    var q := size / SECTOR_SIZE;
    assert size == 512 * q + size % 512 && addr == 512 * (addr / 512) + addr % 512;
  }

  /** A request stores all of its data where it should, on every device, if and only if it is served. */
  lemma ProgramIsComplete(addr: nat, size: nat)
    ensures (forall cells: seq<byte>, data: seq<byte> | |data| == size && addr + size <= |cells| ::
               AfterProgram(cells, data, addr, size) == Splice(cells, addr, data))
       <==> Served(addr, size)
  {
    hide Whole, Served;
    ServedCounts(addr, size);
    if Served(addr, size) {
      forall cells: seq<byte>, data: seq<byte> | |data| == size && addr + size <= |cells|
        ensures AfterProgram(cells, data, addr, size) == Splice(cells, addr, data)
      {
        ServedInFull(cells, data, addr);
      }
    } else {
      var cells, data := Zeros(addr + size), Blank(size);
      var wanted := Splice(cells, addr, data);
      assert wanted[addr] == wanted[addr + size - 1] == 0xFF;
      assert AfterProgram(cells, data, addr, size) != wanted;
    }
  }

  lemma ServedInFull(cells: seq<byte>, data: seq<byte>, addr: nat)
    requires Served(addr, |data|) && addr + |data| <= |cells|
    ensures AfterProgram(cells, data, addr, |data|) == Splice(cells, addr, data)
  {
    hide Whole, Served;
    ServedCounts(addr, |data|);
    assert data[..|data|] == data;
  }

  /** The same for reading. */
  lemma ReadIsComplete(addr: nat, size: nat)
    ensures (forall cells: seq<byte> | addr + size <= |cells| :: ReadOut(cells, addr, size) == cells[addr..addr + size])
       <==> Served(addr, size)
  {
    hide Whole, Served;
    ServedCounts(addr, size);
    if !Served(addr, size) {
      var cells := Zeros(addr) + Blank(size);
      if Whole(size) == size {
        assert ReadOut(cells, addr, size)[0] == 0 && cells[addr..addr + size][0] == 0xFF;
      }
      assert ReadOut(cells, addr, size) != cells[addr..addr + size];
    }
  }

  /** A request of 256 sectors, 128 KiB, reports success and stores nothing. */
  lemma ProgramOf256SectorsIsLost(cells: seq<byte>, data: seq<byte>, addr: nat)
    requires |data| == 256 * SECTOR_SIZE && addr + |data| <= |cells|
    ensures AfterProgram(cells, data, addr, |data|) == cells
  {
    assert Whole(|data|) == 0;
    assert data[..0] == [];
  }

  /** An aligned request of fewer than 256 sectors. */
  datatype Request = Request(sector: nat, data: seq<byte>)

  predicate InRange(q: Request, length: nat) {
    |q.data| % SECTOR_SIZE == 0 && |q.data| < 256 * SECTOR_SIZE && q.sector * SECTOR_SIZE + |q.data| <= length
  }

  predicate Touches(q: Request, k: nat) { q.sector <= k && (k + 1 - q.sector) * SECTOR_SIZE <= |q.data| }

  function AfterAll(cells: seq<byte>, requests: seq<Request>): (s: seq<byte>)
    requires forall q | q in requests :: InRange(q, |cells|)
    ensures |s| == |cells|
  {
    if requests == [] then cells
    else
      var front, last := requests[..|requests| - 1], requests[|requests| - 1];
      assert last in requests && forall q | q in front :: q in requests;
      var before := AfterAll(cells, front);
      assert InRange(last, |before|);
      AfterProgram(before, last.data, last.sector * SECTOR_SIZE, |last.data|)
  }

  /** What sector `k` ought to hold: the last data programmed to it, or else what it held at first. */
  function Expected(cells: seq<byte>, requests: seq<Request>, k: nat): seq<byte>
    requires (k + 1) * SECTOR_SIZE <= |cells|
  {
    if requests == [] then Sector(cells, k)
    else
      var last := requests[|requests| - 1];
      if Touches(last, k) then last.data[(k - last.sector) * SECTOR_SIZE..(k + 1 - last.sector) * SECTOR_SIZE]
      else Expected(cells, requests[..|requests| - 1], k)
  }

  lemma SectorAfter(cells: seq<byte>, q: Request, k: nat)
    requires InRange(q, |cells|) && (k + 1) * SECTOR_SIZE <= |cells|
    ensures var s := AfterProgram(cells, q.data, q.sector * SECTOR_SIZE, |q.data|);
      Sector(s, k) == if Touches(q, k) then q.data[(k - q.sector) * SECTOR_SIZE..(k + 1 - q.sector) * SECTOR_SIZE]
                      else Sector(cells, k)
  {
    var at := q.sector * SECTOR_SIZE;
    ServedInFull(cells, q.data, at);
    var s := Splice(cells, at, q.data);
    var n := |q.data| / SECTOR_SIZE;
    assert |q.data| == n * SECTOR_SIZE;
    if Touches(q, k) {
      assert s[k * SECTOR_SIZE..(k + 1) * SECTOR_SIZE]
          == q.data[k * SECTOR_SIZE - at..(k + 1) * SECTOR_SIZE - at];
    } else if k < q.sector {
      assert (k + 1) * SECTOR_SIZE <= at;
      assert s[k * SECTOR_SIZE..(k + 1) * SECTOR_SIZE] == cells[k * SECTOR_SIZE..(k + 1) * SECTOR_SIZE];
    } else {
      assert k >= q.sector + n && k * SECTOR_SIZE >= at + |q.data|;
      assert s[k * SECTOR_SIZE..(k + 1) * SECTOR_SIZE] == cells[k * SECTOR_SIZE..(k + 1) * SECTOR_SIZE];
    }
  }

  /** After any history of aligned requests, every sector holds the last data programmed to it. */
  lemma {:induction false} LastWriteWins(cells: seq<byte>, requests: seq<Request>, k: nat)
    requires forall q | q in requests :: InRange(q, |cells|)
    requires (k + 1) * SECTOR_SIZE <= |cells|
    ensures Sector(AfterAll(cells, requests), k) == Expected(cells, requests, k)
    decreases |requests|
  {
    hide Sector, AfterProgram;
    if requests != [] {
      var front, last := requests[..|requests| - 1], requests[|requests| - 1];
      assert last in requests && forall q | q in front :: q in requests;
      LastWriteWins(cells, front, k);
      SectorAfter(AfterAll(cells, front), last, k);
    }
  }

  /** The device itself: program any aligned requests, then read a sector back. */
  method ProgramThenRead(device: BlockDevice, requests: seq<Request>, k: nat) returns (data: seq<byte>)
    requires device.Valid() && (k + 1) * SECTOR_SIZE <= |device.flash.cells|
    requires forall q | q in requests :: InRange(q, |device.flash.cells|)
    modifies device.flash
    ensures data == Expected(old(device.flash.cells), requests, k)
  {
    hide AfterProgram, Sector, Expected;
    ghost var cells := device.flash.cells;
    for i := 0 to |requests|
      invariant device.Valid() && |device.flash.cells| == |cells|
      invariant forall q | q in requests[..i] :: InRange(q, |cells|)
      invariant device.flash.cells == AfterAll(cells, requests[..i])
    {
      var q := requests[i];
      assert requests[..i + 1][..i] == requests[..i] && requests[..i + 1][i] == q;
      assert q in requests;
      var result := device.Program(q.data, q.sector * SECTOR_SIZE, |q.data|);
    }
    assert requests[..|requests|] == requests;
    LastWriteWins(cells, requests, k);
    var result;
    data, result := ReadSector(device, k);
  }

  method ReadSector(device: BlockDevice, k: nat) returns (data: seq<byte>, result: int)
    requires (k + 1) * SECTOR_SIZE <= |device.flash.cells|
    ensures data == Sector(device.flash.cells, k)
  {
    ServedCounts(k * SECTOR_SIZE, SECTOR_SIZE);
    data, result := device.Read(k * SECTOR_SIZE, SECTOR_SIZE);
  }
}
