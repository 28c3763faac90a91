/** The occupancy mask of packages/core/src/gameStructure/structureBlockMask.ts. */
module BlockMask {
  import opened Wrappers
  import opened Bytes
  import opened Arithmetic

  const EMPTY_BLOCKS := {"minecraft:air", "minecraft:cave_air", "minecraft:void_air", "minecraft:structure_void"}

  /** A template: the type of each block, if there is one. */
  datatype Structure = Structure(id: nat, size: Vector3, block: (int, int, int) -> Option<string>) {
    predicate Solid(x: int, y: int, z: int) { IsSolid(block(x, y, z)) }
  }

  predicate IsSolid(permutation: Option<string>) { permutation.Some? && permutation.value !in EMPTY_BLOCKS }

  datatype Mask = Mask(size: Vector3, bits: bytes, solidCount: nat)

  function Volume(size: Vector3): int { size.x * size.y * size.z }

  predicate CheckedSize(size: Vector3) { size.x > 0 && size.y > 0 && size.z > 0 && Volume(size) <= MAX_SAFE }

  predicate InBounds(size: Vector3, x: int, y: int, z: int) { 0 <= x < size.x && 0 <= y < size.y && 0 <= z < size.z }

  function Index(size: Vector3, x: int, y: int, z: int): int { x + size.x * (z + size.z * y) }

  function ByteLength(size: Vector3): int { (Volume(size) + 7) / 8 }

  /** `n >> 3`: the operator works on 32-bit integers. */
  function ShiftedBy3(n: nat): int {
    var low := n % 0x1_0000_0000;
    (if low >= 0x8000_0000 then low - 0x1_0000_0000 else low) / 8
  }

  /** `bits[i] |= 1 << k`; a byte array ignores what lies outside it. */
  function Marked(bits: bytes, index: nat): (r: bytes)
    ensures |r| == |bits|
  {
    var i := ShiftedBy3(index);
    if 0 <= i < |bits| then bits[i := SetBit(bits[i], index % 8)] else bits
  }

  /** `(bits[i] & (1 << k)) !== 0`; outside the array there is no bit. */
  predicate IsMarked(bits: bytes, index: nat) {
    var i := ShiftedBy3(index);
    0 <= i < |bits| && BitOf(bits[i], index % 8)
  }

  /** Positions with fractions are not blocks and are left to the caller. */
  predicate HasRelativeBlock(mask: Mask, x: int, y: int, z: int)
    requires CheckedSize(mask.size)
  {
    InBounds(mask.size, x, y, z) && (IndexInRange(mask.size, x, y, z); IsMarked(mask.bits, Index(mask.size, x, y, z)))
  }

  predicate HasWorldBlock(mask: Mask, position: Vector3, origin: Vector3)
    requires CheckedSize(mask.size)
  {
    HasRelativeBlock(mask, position.x - origin.x, position.y - origin.y, position.z - origin.z)
  }

  // ---------- indices ----------

  lemma IndexInRange(size: Vector3, x: int, y: int, z: int)
    requires InBounds(size, x, y, z)
    ensures 0 <= Index(size, x, y, z) < Volume(size)
  {
    RowInRange(size.z, z, y, size.y);
    RowInRange(size.x, x, z + size.z * y, size.z * size.y);
    assert size.x * (size.z * size.y) == Volume(size);
  }

  lemma RowInRange(width: int, a: int, b: int, rows: int)
    requires 0 <= a < width && 0 <= b < rows
    ensures 0 <= a + width * b < width * rows
  {
    Products(b + 1, rows, width);
    assert width * (b + 1) == width * b + width;
    Products(0, b, width);
  }

  /** The coordinates of a cell of the scan. */
  function CellX(size: Vector3, i: nat): int
    requires size.x > 0
  {
    i % size.x
  }

  function CellZ(size: Vector3, i: nat): int
    requires size.x > 0 && size.z > 0
  {
    i / size.x % size.z
  }

  function CellY(size: Vector3, i: nat): int
    requires size.x > 0 && size.z > 0
  {
    i / size.x / size.z
  }

  /** The order of the scan: x runs fastest, then z, then y. */
  lemma CellOfIndex(size: Vector3, x: int, y: int, z: int)
    requires InBounds(size, x, y, z)
    ensures Index(size, x, y, z) >= 0
    ensures var i := Index(size, x, y, z); CellX(size, i) == x && CellZ(size, i) == z && CellY(size, i) == y
  {
    IndexInRange(size, x, y, z);
    var row := z + size.z * y;
    RowInRange(size.z, z, y, y + 1);
    Quotient(Index(size, x, y, z), size.x, row, x);
    Quotient(row, size.z, y, z);
  }

  predicate SolidCell(st: Structure, i: nat)
    requires CheckedSize(st.size)
  {
    st.Solid(CellX(st.size, i), CellY(st.size, i), CellZ(st.size, i))
  }

  // ---------- the scan ----------

  function Empty(st: Structure): bytes
    requires CheckedSize(st.size)
  {
    seq(ByteLength(st.size), _ => 0)
  }

  /** The bits after the first `n` cells. */
  function ScannedBits(st: Structure, n: nat): (bits: bytes)
    requires CheckedSize(st.size)
    ensures |bits| == ByteLength(st.size)
  {
    if n == 0 then Empty(st)
    else
      var before := ScannedBits(st, n - 1);
      if SolidCell(st, n - 1) then Marked(before, n - 1) else before
  }

  /** How many of the first `n` cells are solid. */
  function CountSolid(st: Structure, n: nat): nat
    requires CheckedSize(st.size)
  {
    if n == 0 then 0 else CountSolid(st, n - 1) + (if SolidCell(st, n - 1) then 1 else 0)
  }

  function MaskOf(st: Structure): Mask
    requires CheckedSize(st.size)
  {
    Mask(st.size, ScannedBits(st, Volume(st.size)), CountSolid(st, Volume(st.size)))
  }

  // ---------- what the mask says ----------

  /** Below 2^31 the shift is a division, and different cells have different bits. */
  lemma ShiftIsDivision(n: nat)
    requires n < 0x8000_0000
    ensures ShiftedBy3(n) == n / 8
  {
  }

  lemma ShiftIsNegative(n: nat)
    requires 0x8000_0000 <= n < 0x1_0000_0000
    ensures ShiftedBy3(n) < 0
  {
  }

  lemma MarkSets(bits: bytes, n: nat, j: nat)
    requires n < 0x8000_0000 && j < 0x8000_0000 && n / 8 < |bits| && j / 8 < |bits|
    ensures IsMarked(Marked(bits, n), j) <==> j == n || IsMarked(bits, j)
  {
    ShiftIsDivision(n);
    ShiftIsDivision(j);
  }

  lemma {:induction false} BitsSay(st: Structure, n: nat, j: nat)
    requires CheckedSize(st.size) && Volume(st.size) <= 0x8000_0000 && n <= Volume(st.size) && j < Volume(st.size)
    ensures IsMarked(ScannedBits(st, n), j) <==> j < n && SolidCell(st, j)
  {
    hide SolidCell, IsMarked, Marked;
    if n == 0 {
      NothingMarked(st, j);
    } else {
      BitsSay(st, n - 1, j);
      InBytes(st.size, n - 1);
      InBytes(st.size, j);
      MarkSets(ScannedBits(st, n - 1), n - 1, j);
    }
  }

  lemma NothingMarked(st: Structure, j: nat)
    requires CheckedSize(st.size)
    ensures !IsMarked(Empty(st), j)
  {
    NoBitOfZero(j % 8);
  }

  lemma InBytes(size: Vector3, j: nat)
    requires j < Volume(size)
    ensures j / 8 < ByteLength(size)
  {
  }

  /**
   * The mask is right for the template: it has exactly the non-empty blocks in bounds, by their
   * place in the template and by their place in the world.
   */
  ghost predicate Faithful(st: Structure)
    requires CheckedSize(st.size)
  {
    && (forall x, y, z :: HasRelativeBlock(MaskOf(st), x, y, z) <==> InBounds(st.size, x, y, z) && st.Solid(x, y, z))
    && (forall position: Vector3, origin: Vector3 ::
          var (x, y, z) := (position.x - origin.x, position.y - origin.y, position.z - origin.z);
          HasWorldBlock(MaskOf(st), position, origin) <==> InBounds(st.size, x, y, z) && st.Solid(x, y, z))
  }

  lemma SmallIsFaithful(st: Structure)
    requires CheckedSize(st.size) && Volume(st.size) <= 0x8000_0000
    ensures Faithful(st)
  {
    hide ScannedBits, CountSolid, IsMarked, Volume;
    forall x, y, z ensures HasRelativeBlock(MaskOf(st), x, y, z) <==> InBounds(st.size, x, y, z) && st.Solid(x, y, z) {
      if InBounds(st.size, x, y, z) {
        IndexInRange(st.size, x, y, z);
        CellOfIndex(st.size, x, y, z);
        BitsSay(st, Volume(st.size), Index(st.size, x, y, z));
      }
    }
  }

  /** The 32-bit shift loses every block from cell 2^31 on. */
  lemma LargeLosesABlock(size: Vector3, id: nat)
    requires CheckedSize(size) && Volume(size) > 0x8000_0000
    ensures !Faithful(Structure(id, size, (x, y, z) => Some("minecraft:stone")))
  {
    var st := Structure(id, size, (x, y, z) => Some("minecraft:stone"));
    var i := 0x8000_0000;
    var x, z, y := CellX(size, i), CellZ(size, i), CellY(size, i);
    CellInBounds(size, i);
    ShiftIsNegative(i);
    assert InBounds(size, x, y, z) && st.Solid(x, y, z) && !HasRelativeBlock(MaskOf(st), x, y, z);
  }

  lemma CellInBounds(size: Vector3, i: nat)
    requires CheckedSize(size) && i < Volume(size)
    ensures InBounds(size, CellX(size, i), CellY(size, i), CellZ(size, i))
    ensures Index(size, CellX(size, i), CellY(size, i), CellZ(size, i)) == i
  {
    var row := i / size.x;
    assert Volume(size) == size.x * (size.z * size.y);
    QuotientBelow(i, size.x, size.z * size.y);
    QuotientBelow(row, size.z, size.y);
    assert i == size.x * row + i % size.x && row == size.z * (row / size.z) + row % size.z;
  }

  /** The mask is right for every template of a size exactly when the size has at most 2^31 cells. */
  lemma FaithfulExactly(size: Vector3)
    requires CheckedSize(size)
    ensures (forall st: Structure :: st.size == size ==> Faithful(st)) <==> Volume(size) <= 0x8000_0000
  {
    if Volume(size) <= 0x8000_0000 {
      forall st: Structure | st.size == size ensures Faithful(st) { SmallIsFaithful(st); }
    } else {
      LargeLosesABlock(size, 0);
      assert Structure(0, size, (x, y, z) => Some("minecraft:stone")).size == size;
    }
  }

  function SolidCells(st: Structure, n: nat): set<nat>
    requires CheckedSize(st.size)
  {
    set i: nat | i < n && SolidCell(st, i)
  }

  /** The count is the number of solid cells, each counted once. */
  lemma {:induction false} CountIsNumber(st: Structure, n: nat)
    requires CheckedSize(st.size)
    ensures CountSolid(st, n) == |SolidCells(st, n)|
  {
    hide SolidCell;
    if n == 0 {
      assert SolidCells(st, n) == {};
    } else {
      CountIsNumber(st, n - 1);
      assert SolidCells(st, n) == if SolidCell(st, n - 1) then SolidCells(st, n - 1) + {n - 1} else SolidCells(st, n - 1);
    }
  }

  // ---------- the course of a scan ----------

  /** What happens to a template while it is scanned: a block is read, or the scan yields. */
  datatype Touch = Read(x: int, y: int, z: int) | Yielded

  class StructureBlockReader {
    const structure: Structure
    ghost var course: seq<Touch>

    constructor (structure: Structure)
      ensures this.structure == structure && course == []
    {
      this.structure := structure;
      course := [];
    }

    method GetBlockPermutation(x: int, y: int, z: int) returns (permutation: Option<string>)
      modifies `course
      ensures permutation == structure.block(x, y, z) && course == old(course) + [Read(x, y, z)]
    {
      course := course + [Read(x, y, z)];
      return structure.block(x, y, z);
    }

    ghost method Pause()
      modifies `course
      ensures course == old(course) + [Yielded]
    {
      course := course + [Yielded];
    }
  }

  /** The first `n` cells are read, with a pause after every batch. */
  ghost function Course(size: Vector3, batchSize: int, n: nat): seq<Touch>
    requires CheckedSize(size) && batchSize > 0
  {
    if n == 0 then []
    else
      Course(size, batchSize, n - 1) + [Read(CellX(size, n - 1), CellY(size, n - 1), CellZ(size, n - 1))]
      + (if n % batchSize == 0 then [Yielded] else [])
  }

  /**
   * Whatever the batch size, each stretch between two pauses reads exactly that many cells, and
   * all reads together are the cells in the order of their indices.
   */
  lemma {:induction false} CourseAt(size: Vector3, batchSize: int, n: nat, j: nat)
    requires CheckedSize(size) && batchSize > 0 && n <= Volume(size)
    ensures |Course(size, batchSize, n)| == n + n / batchSize
    ensures j < n + n / batchSize ==>
      var i := j - j / (batchSize + 1);
      Course(size, batchSize, n)[j] ==
        if j % (batchSize + 1) == batchSize then Yielded else Read(CellX(size, i), CellY(size, i), CellZ(size, i))
  {
    hide Volume;
    if n > 0 {
      CourseAt(size, batchSize, n - 1, j);
      NextQuotient(n, batchSize);
      var q := (n - 1) / batchSize;
      if n - 1 + q <= j < n + n / batchSize {
        Places(n - 1, batchSize, j);
      }
    }
  }

  /** Where the touches of one more cell are. */
  lemma Places(n: nat, d: int, j: nat)
    requires d > 0 && n + n / d <= j < n + 1 + (n + 1) / d
    ensures if j == n + n / d then j / (d + 1) == n / d && j % (d + 1) < d else j % (d + 1) == d
  {
    var q, r := n / d, n % d;
    assert n == q * d + r;
    NextQuotient(n + 1, d);
    if j == n + q {
      assert j == q * (d + 1) + r;
      Quotient(j, d + 1, q, r);
    } else {
      assert r == d - 1 by { LastOfBatch(n, d); }
      assert j == q * (d + 1) + d;
      Quotient(j, d + 1, q, d);
    }
  }

  lemma LastOfBatch(n: nat, d: int)
    requires d > 0 && (n + 1) % d == 0
    ensures n % d == d - 1
  {
    var q, r := n / d, n % d;
    if r < d - 1 {
      Quotient(n + 1, d, q, r + 1);
    }
  }

  // ---------- the cache ----------

  /** A scan is refused, is abandoned at one of its pauses, or hands over a finished mask. */
  datatype ScanResult = Refused | Abandoned | Ready(mask: Mask)

  class StructureBlockMaskCache {
    var masks: map<nat, Mask>

    constructor ()
      ensures masks == map[]
    {
      masks := map[];
    }

    method Invalidate(id: nat)
      modifies `masks
      ensures masks == old(masks) - {id}
    {
      masks := masks - {id};
    }

    /**
     * Scans a structure and is resumed at most `resumes` times. It yields after every
     * `batchSize` cells, and only a finished mask gets into the cache.
     */
    method Scan(reader: StructureBlockReader, batchSize: int, resumes: nat) returns (r: ScanResult)
      modifies `masks, reader`course
      ensures var st := reader.structure;
        && (r.Refused? <==>
              || batchSize < 1 || batchSize > 9007199254740991
              || st.size.x < 1 || st.size.y < 1 || st.size.z < 1 || st.size.x * st.size.y * st.size.z > 9007199254740991
              || (st.id in old(masks) && old(masks)[st.id].size != st.size))
        && (r.Refused? || st.id in old(masks) ==> masks == old(masks) && reader.course == old(reader.course))
        && (!r.Refused? && st.id in old(masks) ==> r == Ready(old(masks)[st.id]))
        && (!r.Refused? && st.id !in old(masks) ==>
              var finishes := Volume(st.size) / batchSize <= resumes;
              && r == (if finishes then Ready(MaskOf(st)) else Abandoned)
              && masks == (if finishes then old(masks)[st.id := MaskOf(st)] else old(masks))
              && reader.course == old(reader.course) + Course(st.size, batchSize, if finishes then Volume(st.size) else (resumes + 1) * batchSize))
    {
      hide Course, MaskOf;
      var st := reader.structure;
      if !(0 < batchSize <= MAX_SAFE) || !CheckedSize(st.size) { return Refused; }
      var size := st.size;
      if st.id in masks {
        var cached := masks[st.id];
        if cached.size != size { return Refused; }
        return Ready(cached);
      }
      var bits, solidCount, finished := ScanCells(reader, batchSize, resumes);
      if !finished { return Abandoned; }
      var mask := Mask(size, bits, solidCount);
      masks := masks[st.id := mask];
      return Ready(mask);
    }

    /** The three loops of the scan. */
    method ScanCells(reader: StructureBlockReader, batchSize: int, resumes: nat)
      returns (bits: bytes, solidCount: nat, finished: bool)
      requires CheckedSize(reader.structure.size) && batchSize > 0
      modifies reader`course
      ensures finished ==> Mask(reader.structure.size, bits, solidCount) == MaskOf(reader.structure)
      ensures finished <==> Volume(reader.structure.size) / batchSize <= resumes
      ensures reader.course == old(reader.course)
        + Course(reader.structure.size, batchSize, if finished then Volume(reader.structure.size) else (resumes + 1) * batchSize)
    {
      hide Marked, SolidCell, ScannedBits, CountSolid, Index, Volume, Course, IsSolid, Empty, MaskOf;
      var st := reader.structure;
      var size := st.size;
      bits, solidCount := Empty(st), 0;
      var index, yielded: nat := 0, 0;
      ghost var before := reader.course;
      ScanStart(st, batchSize);
      for y := 0 to size.y
        invariant index == Index(size, 0, y, 0) && yielded == index / batchSize <= resumes
        invariant bits == ScannedBits(st, index) && solidCount == CountSolid(st, index)
        invariant reader.course == before + Course(size, batchSize, index)
      {
        for z := 0 to size.z
          invariant index == Index(size, 0, y, z) && yielded == index / batchSize <= resumes
          invariant bits == ScannedBits(st, index) && solidCount == CountSolid(st, index)
          invariant reader.course == before + Course(size, batchSize, index)
        {
          for x := 0 to size.x
            invariant index == Index(size, x, y, z) && yielded == index / batchSize <= resumes
            invariant bits == ScannedBits(st, index) && solidCount == CountSolid(st, index)
            invariant reader.course == before + Course(size, batchSize, index)
          {
            ThisCell(st, x, y, z);
            NextTouch(size, batchSize, x, y, z);
            var permutation := reader.GetBlockPermutation(x, y, z);
            if IsSolid(permutation) {
              bits := Marked(bits, index);
              solidCount := solidCount + 1;
            }
            index := index + 1;
            NextQuotient(index, batchSize);
            if index % batchSize == 0 {
              reader.Pause();
              if yielded == resumes {
                QuotientMonotone(index, Volume(size), batchSize);
                return bits, solidCount, false;
              }
              yielded := yielded + 1;
            }
          }
          NextRow(size, y, z);
        }
        NextLayer(size, y);
      }
      LastLayer(size);
      WholeMask(st, bits, solidCount);
      return bits, solidCount, true;
    }
  }

  lemma ScanStart(st: Structure, d: int)
    requires CheckedSize(st.size) && d > 0
    ensures 0 / d == 0 && Index(st.size, 0, 0, 0) == 0
    ensures ScannedBits(st, 0) == Empty(st) && CountSolid(st, 0) == 0 && Course(st.size, d, 0) == []
  {
  }

  lemma NextRow(size: Vector3, y: int, z: int)
    ensures Index(size, size.x, y, z) == Index(size, 0, y, z + 1)
  {
    assert size.x + size.x * (z + size.z * y) == size.x * (z + 1 + size.z * y);
  }

  lemma NextLayer(size: Vector3, y: int)
    ensures Index(size, 0, y, size.z) == Index(size, 0, y + 1, 0)
  {
    assert size.z + size.z * y == size.z * (y + 1);
  }

  lemma LastLayer(size: Vector3)
    ensures Index(size, 0, size.y, 0) == Volume(size)
  {
    assert size.x * (size.z * size.y) == Volume(size);
  }

  lemma ThisCell(st: Structure, x: int, y: int, z: int)
    requires CheckedSize(st.size) && InBounds(st.size, x, y, z)
    ensures var i := Index(st.size, x, y, z);
      && 0 <= i < Volume(st.size) && Index(st.size, x + 1, y, z) == i + 1
      && ScannedBits(st, i + 1) == (if st.Solid(x, y, z) then Marked(ScannedBits(st, i), i) else ScannedBits(st, i))
      && CountSolid(st, i + 1) == CountSolid(st, i) + (if st.Solid(x, y, z) then 1 else 0)
  {
    hide Marked, Volume;
    IndexInRange(st.size, x, y, z);
    CellOfIndex(st.size, x, y, z);
  }

  lemma WholeMask(st: Structure, bits: bytes, solidCount: nat)
    requires CheckedSize(st.size) && bits == ScannedBits(st, Volume(st.size)) && solidCount == CountSolid(st, Volume(st.size))
    ensures Mask(st.size, bits, solidCount) == MaskOf(st)
  {
  }

  lemma NextTouch(size: Vector3, batchSize: int, x: int, y: int, z: int)
    requires CheckedSize(size) && batchSize > 0 && InBounds(size, x, y, z)
    ensures var i := Index(size, x, y, z);
      && i >= 0
      && Course(size, batchSize, i + 1) ==
           Course(size, batchSize, i) + [Read(x, y, z)] + (if (i + 1) % batchSize == 0 then [Yielded] else [])
  {
    hide Volume;
    IndexInRange(size, x, y, z);
    CellOfIndex(size, x, y, z);
  }

  /** The quotient goes up exactly at the multiples. */
  lemma NextQuotient(n: nat, d: nat)
    requires n > 0 && d > 0
    ensures n / d == (n - 1) / d + (if n % d == 0 then 1 else 0)
    ensures n % d == 0 ==> n == n / d * d
  {
    var q := (n - 1) / d;
    var r := (n - 1) % d;
    assert n - 1 == q * d + r;
    if r == d - 1 {
      Products(q, 1, d);
      Quotient(n, d, q + 1, 0);
    } else {
      Quotient(n, d, q, r + 1);
    }
  }
}
