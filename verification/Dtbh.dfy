/** The DTBH image of dtbhtool: dtbimg.c lays a table of device tree blobs out in pages and writes it,
    unpackdtbhimg.c reads it back. The header size recorded in the table is accumulated quadratically in the
    number of entries, the header written is linear, so the two agree only for some counts. */
module Dtbh {
  type Byte = x: int | 0 <= x < 256
  type Word = x: int | 0 <= x < 0x1_0000_0000

  // "DTBH" as a little-endian word, and the example values of samsung_dtbh.h.
  const MAGIC: Word := 0x4842_5444
  const VERSION: Word := 2
  const PLATFORM_CODE: Word := 0x1e92
  const SUBTYPE_CODE: Word := 0x7d64_f612
  const HEADER_SIZE := 12
  const ENTRY_SIZE := 32

  // What is taken from one .dtb file.
  datatype Dtb = Dtb(chip: Word, hwRev: Word, hwRevEnd: Word, payload: seq<Byte>)

  datatype Entry = Entry(
    chip: Word, platform: Word, subtype: Word, hwRev: Word, hwRevEnd: Word, offset: Word, size: Word, space: Word)

  // ----- Pages -----

  // (x + pagemask) & ~pagemask
  function RoundUp(x: nat, page: nat): (r: nat)
    requires page > 0
    ensures x <= r < x + page && r % page == 0
  {
    RoundUpIs(x, page);
    (x + page - 1) / page * page
  }

  lemma RoundUpIs(x: nat, page: nat)
    requires page > 0
    ensures var r := (x + page - 1) / page * page; x <= r < x + page && r % page == 0
  {
  }

  lemma DivisionUnique(x: int, page: int, q: int, r: int)
    requires page > 0 && 0 <= r < page && x == q * page + r
    ensures x / page == q && x % page == r
  {
    DivisionParts(x, page);
    MultipleApart(x / page, q, page);
  }

  lemma DivisionParts(x: int, page: int)
    requires page > 0
    ensures x == x / page * page + x % page && 0 <= x % page < page
  {
  }

  // Different multiples are at least a page apart.
  lemma MultipleApart(a: int, b: int, page: int)
    requires page > 0
    ensures a > b ==> a * page >= b * page + page
    ensures a < b ==> a * page + page <= b * page
  {
    Distribute(a, b, page);
    if a > b {
      AtLeastOnce(a - b, page);
    } else if a < b {
      AtLeastOnce(b - a, page);
      Distribute(b, a, page);
    }
  }

  lemma Distribute(a: int, b: int, page: int)
    ensures (a - b) * page == a * page - b * page
  {
  }

  lemma AtLeastOnce(k: int, page: int)
    requires k >= 1 && page > 0
    ensures k * page >= page
  {
  }

  // ----- Layout -----

  // hdr_sz as accumulated: every entry adds the size of all entries so far.
  function HeaderSum(n: nat): nat {
    if n == 0 then HEADER_SIZE else HeaderSum(n - 1) + n * ENTRY_SIZE
  }

  lemma {:induction false} HeaderSumClosed(n: nat)
    ensures HeaderSum(n) + 4 == 16 + 16 * n * (n + 1)
  {
    if n > 0 {
      HeaderSumClosed(n - 1);
      assert n * (n + 1) == (n - 1) * n + 2 * n;
    }
  }

  lemma {:induction false} HeaderSumCovers(n: nat)
    ensures HeaderSum(n) >= HEADER_SIZE + ENTRY_SIZE * n
  {
  }

  // Where the entries say the blobs begin.
  function RecordedStart(n: nat, page: nat): nat
    requires page > 0
  {
    RoundUp(HeaderSum(n) + 4, page)
  }

  // Where the entries written end, and where the blobs are written: at the next page, a whole one if on a boundary.
  function EntriesEnd(n: nat): nat { HEADER_SIZE + ENTRY_SIZE * n }

  function WrittenStart(n: nat, page: nat): (w: nat)
    requires page > 0
    ensures EntriesEnd(n) < w <= EntriesEnd(n) + page
  {
    EntriesEnd(n) + page - EntriesEnd(n) % page
  }

  lemma WrittenStartIs(n: nat, page: nat)
    requires page > 0
    ensures WrittenStart(n, page) == (EntriesEnd(n) / page + 1) * page
  {
  }

  // For every number of entries the blobs are written no further than the entries say, so inside the allocation.
  lemma WritesStayInside(n: nat, page: nat)
    requires page > 0
    ensures WrittenStart(n, page) <= RecordedStart(n, page)
  {
    var o, r := EntriesEnd(n), RecordedStart(n, page);
    HeaderSumCovers(n);
    WrittenStartIs(n, page);
    DivisionParts(o, page);
    DivisionParts(r, page);
    MultipleApart(o / page, r / page, page);
    MultipleApart(o / page + 1, r / page, page);
  }

  // Recorded and written starts agree exactly under a condition on the count and the page size.
  lemma StartsAgreeExactly(n: nat, page: nat)
    requires page > 0
    ensures RecordedStart(n, page) == WrittenStart(n, page) <==>
      (16 + 16 * n * (n + 1) + page - 1) / page == (12 + 32 * n) / page + 1
  {
    HeaderSumClosed(n);
    WrittenStartIs(n, page);
    MultipleApart((HeaderSum(n) + 4 + page - 1) / page, EntriesEnd(n) / page + 1, page);
  }

  // They do agree while the accumulated header fits one page, which then holds all the entries.
  lemma SmallTablesAgree(n: nat, page: nat)
    requires 16 + 16 * n * (n + 1) <= page
    ensures RecordedStart(n, page) == WrittenStart(n, page) == page && EntriesEnd(n) <= page
  {
    HeaderSumClosed(n);
    HeaderSumCovers(n);
    var h := HeaderSum(n) + 4;
    DivisionUnique(h + page - 1, page, 1, h - 1);
    DivisionUnique(EntriesEnd(n), page, 0, EntriesEnd(n));
  }

  // With the default page size eleven entries are too many: every blob is a page away from where its entry says.
  lemma ElevenEntriesDisagree(n: nat)
    requires n == 11
    ensures RecordedStart(n, 2048) == 4096 && WrittenStart(n, 2048) == 2048
  {
  }
}
