/** The bytes of a DTBH image: the writer at the end of load_dtbh_block in dtbhtool/dtbimg.c, the reader in main
    of dtbhtool/unpackdtbhimg.c, and the round trip. Words are little-endian, as memcpy leaves them on the hosts
    these tools run on. */
module DtbhImage {
  import opened Dtbh
  import opened Options

  // ----- Words and entries in a byte sequence -----

  function WordAt(s: seq<Byte>, o: nat): Word
    requires o + 4 <= |s|
  {
    (s[o] as int) + 0x100 * (s[o + 1] as int) + 0x1_0000 * (s[o + 2] as int) + 0x100_0000 * (s[o + 3] as int)
  }

  function EntryAt(s: seq<Byte>, o: nat): Entry
    requires o + ENTRY_SIZE <= |s|
  {
    Entry(WordAt(s, o), WordAt(s, o + 4), WordAt(s, o + 8), WordAt(s, o + 12),
          WordAt(s, o + 16), WordAt(s, o + 20), WordAt(s, o + 24), WordAt(s, o + 28))
  }

  // Two contents agree on the bytes from lo to hi.
  predicate Same(s: seq<Byte>, t: seq<Byte>, lo: nat, hi: nat) {
    hi <= |s| == |t| && forall i :: lo <= i < hi ==> s[i] == t[i]
  }

  lemma SameEntry(s: seq<Byte>, t: seq<Byte>, o: nat)
    requires Same(s, t, o, o + ENTRY_SIZE)
    ensures EntryAt(s, o) == EntryAt(t, o)
  {
  }

  function Digit(v: Word, k: nat): Byte {
    (if k == 0 then v else if k == 1 then v / 0x100 else if k == 2 then v / 0x1_0000 else v / 0x100_0000) % 0x100
  }

  lemma DigitsMakeWord(v: Word)
    ensures v == Digit(v, 0) + 0x100 * Digit(v, 1) + 0x1_0000 * Digit(v, 2) + 0x100_0000 * Digit(v, 3)
  {
  }

  method PutWord(buf: array<Byte>, o: nat, v: Word)
    requires o + 4 <= buf.Length
    modifies buf
    ensures WordAt(buf[..], o) == v
    ensures Same(buf[..], old(buf[..]), 0, o) && Same(buf[..], old(buf[..]), o + 4, buf.Length)
  {
    DigitsMakeWord(v);
    buf[o], buf[o + 1], buf[o + 2], buf[o + 3] := Digit(v, 0), Digit(v, 1), Digit(v, 2), Digit(v, 3);
  }

  method PutEntry(buf: array<Byte>, o: nat, e: Entry)
    requires o + ENTRY_SIZE <= buf.Length
    modifies buf
    ensures EntryAt(buf[..], o) == e
    ensures Same(buf[..], old(buf[..]), 0, o) && Same(buf[..], old(buf[..]), o + ENTRY_SIZE, buf.Length)
  {
    PutWord(buf, o, e.chip);
    PutWord(buf, o + 4, e.platform);
    PutWord(buf, o + 8, e.subtype);
    PutWord(buf, o + 12, e.hwRev);
    PutWord(buf, o + 16, e.hwRevEnd);
    PutWord(buf, o + 20, e.offset);
    PutWord(buf, o + 24, e.size);
    PutWord(buf, o + 28, e.space);
  }

  // ----- Blobs -----

  function Zeros(n: nat): (z: seq<Byte>)
    ensures |z| == n && forall i :: 0 <= i < n ==> z[i] == 0
  {
    seq(n, _ => 0)
  }

  function Padded(payload: seq<Byte>, page: nat): (r: seq<Byte>)
    requires page > 0
    ensures |r| == RoundUp(|payload|, page)
  {
    payload + Zeros(RoundUp(|payload|, page) - |payload|)
  }

  // The room taken by the first k blobs.
  function Room(dtbs: seq<Dtb>, k: nat, page: nat): nat
    requires page > 0 && k <= |dtbs|
  {
    if k == 0 then 0 else Room(dtbs, k - 1, page) + RoundUp(|dtbs[k - 1].payload|, page)
  }

  lemma {:induction false} RoomGrows(dtbs: seq<Dtb>, j: nat, k: nat, page: nat)
    requires page > 0 && j < k <= |dtbs|
    ensures Room(dtbs, j, page) + RoundUp(|dtbs[j].payload|, page) <= Room(dtbs, k, page)
    decreases k
  {
    if j < k - 1 {
      RoomGrows(dtbs, j, k - 1, page);
    }
  }

  // Blob i lies in s, padded, where the blobs beginning at start put it.
  predicate BlobAt(s: seq<Byte>, dtbs: seq<Dtb>, i: nat, start: nat, page: nat)
    requires page > 0 && i < |dtbs|
  {
    var o, n := start + Room(dtbs, i, page), RoundUp(|dtbs[i].payload|, page);
    o + n <= |s| && s[o..o + n] == Padded(dtbs[i].payload, page)
  }

  // ----- The entries -----

  function Total(dtbs: seq<Dtb>, page: nat): nat
    requires page > 0
  {
    RecordedStart(|dtbs|, page) + Room(dtbs, |dtbs|, page)
  }

  // The entry of blob i.
  function EntryOf(dtbs: seq<Dtb>, i: nat, page: nat): Entry
    requires page > 0 && i < |dtbs| && Total(dtbs, page) < 0x1_0000_0000
  {
    RoomGrows(dtbs, i, |dtbs|, page);
    Entry(dtbs[i].chip, PLATFORM_CODE, SUBTYPE_CODE, dtbs[i].hwRev, dtbs[i].hwRevEnd,
          RecordedStart(|dtbs|, page) + Room(dtbs, i, page), RoundUp(|dtbs[i].payload|, page), 0x20)
  }

  // order[c] is the blob of the c-th entry once sorted.
  predicate IsOrder(order: seq<nat>, n: nat) {
    && |order| == n
    && (forall c :: 0 <= c < n ==> order[c] < n)
    && forall c, d :: 0 <= c < d < n ==> order[c] != order[d]
  }

  predicate Written(s: seq<Byte>, dtbs: seq<Dtb>, order: seq<nat>, page: nat)
    requires page > 0 && Total(dtbs, page) < 0x1_0000_0000 && IsOrder(order, |dtbs|)
  {
    && |s| == Total(dtbs, page) && EntriesEnd(|dtbs|) <= |s|
    && HeaderAt(s, |dtbs|)
    && (forall c :: 0 <= c < |dtbs| ==> EntryAt(s, EntriesEnd(c)) == EntryOf(dtbs, order[c], page))
    && forall i :: 0 <= i < |dtbs| ==> BlobAt(s, dtbs, i, WrittenStart(|dtbs|, page), page)
  }

  // ----- Writing -----

  method WriteEntries(buf: array<Byte>, dtbs: seq<Dtb>, order: seq<nat>, page: nat)
    requires page > 0 && Total(dtbs, page) < 0x1_0000_0000 && IsOrder(order, |dtbs|)
    requires EntriesEnd(|dtbs|) <= buf.Length
    modifies buf
    ensures forall c :: 0 <= c < |dtbs| ==> EntryAt(buf[..], EntriesEnd(c)) == EntryOf(dtbs, order[c], page)
    ensures Same(buf[..], old(buf[..]), 0, HEADER_SIZE) && Same(buf[..], old(buf[..]), EntriesEnd(|dtbs|), buf.Length)
  {
    var offset := HEADER_SIZE;
    for c := 0 to |dtbs|
      invariant offset == EntriesEnd(c)
      invariant forall d :: 0 <= d < c ==> EntryAt(buf[..], EntriesEnd(d)) == EntryOf(dtbs, order[d], page)
      invariant Same(buf[..], old(buf[..]), 0, HEADER_SIZE) && Same(buf[..], old(buf[..]), offset, buf.Length)
    {
      ghost var before := buf[..];
      PutEntry(buf, offset, EntryOf(dtbs, order[c], page));
      forall d | 0 <= d < c
        ensures EntryAt(buf[..], EntriesEnd(d)) == EntryAt(before, EntriesEnd(d))
      {
        SameEntry(buf[..], before, EntriesEnd(d));
      }
      offset := offset + ENTRY_SIZE;
    }
  }

  method CopyPayload(buf: array<Byte>, o: nat, payload: seq<Byte>)
    requires o + |payload| <= buf.Length
    modifies buf
    ensures buf[o..o + |payload|] == payload
    ensures Same(buf[..], old(buf[..]), 0, o) && Same(buf[..], old(buf[..]), o + |payload|, buf.Length)
  {
    for k := 0 to |payload|
      invariant forall j :: 0 <= j < k ==> buf[o + j] == payload[j]
      invariant Same(buf[..], old(buf[..]), 0, o) && Same(buf[..], old(buf[..]), o + k, buf.Length)
    {
      buf[o + k] := payload[k];
    }
  }

  lemma SameBlob(s: seq<Byte>, t: seq<Byte>, dtbs: seq<Dtb>, i: nat, start: nat, page: nat)
    requires page > 0 && i < |dtbs| && BlobAt(t, dtbs, i, start, page)
    requires Same(s, t, start, start + Room(dtbs, i, page) + RoundUp(|dtbs[i].payload|, page))
    ensures BlobAt(s, dtbs, i, start, page)
  {
  }

  // The payload copied over zeros is the padded blob.
  lemma BlobPlaced(s: seq<Byte>, dtbs: seq<Dtb>, i: nat, start: nat, page: nat)
    requires page > 0 && i < |dtbs| && start + Room(dtbs, i + 1, page) <= |s|
    requires var o := start + Room(dtbs, i, page);
      s[o..o + |dtbs[i].payload|] == dtbs[i].payload &&
      forall k :: o + |dtbs[i].payload| <= k < start + Room(dtbs, i + 1, page) ==> s[k] == 0
    ensures BlobAt(s, dtbs, i, start, page)
  {
  }

  method WriteBlobs(buf: array<Byte>, dtbs: seq<Dtb>, start: nat, page: nat)
    requires page > 0 && start + Room(dtbs, |dtbs|, page) <= buf.Length
    requires forall k :: start <= k < buf.Length ==> buf[k] == 0
    modifies buf
    ensures forall i :: 0 <= i < |dtbs| ==> BlobAt(buf[..], dtbs, i, start, page)
    ensures Same(buf[..], old(buf[..]), 0, start)
  {
    var offset := start;
    for i := 0 to |dtbs|
      invariant offset == start + Room(dtbs, i, page) <= buf.Length
      invariant forall j :: 0 <= j < i ==> BlobAt(buf[..], dtbs, j, start, page)
      invariant Same(buf[..], old(buf[..]), 0, start)
      invariant forall k :: offset <= k < buf.Length ==> buf[k] == 0
    {
      ghost var before := buf[..];
      RoomGrows(dtbs, i, |dtbs|, page);
      CopyPayload(buf, offset, dtbs[i].payload);
      forall j | 0 <= j < i
        ensures BlobAt(buf[..], dtbs, j, start, page)
      {
        RoomGrows(dtbs, j, i, page);
        SameBlob(buf[..], before, dtbs, j, start, page);
      }
      assert forall k :: offset + |dtbs[i].payload| <= k < buf.Length ==> buf[..][k] == before[k];
      BlobPlaced(buf[..], dtbs, i, start, page);
      offset := offset + RoundUp(|dtbs[i].payload|, page);
    }
  }

  predicate HeaderAt(s: seq<Byte>, n: nat) {
    |s| >= HEADER_SIZE && WordAt(s, 0) == MAGIC && WordAt(s, 4) == VERSION && WordAt(s, 8) == n
  }

  method WriteHeader(buf: array<Byte>, n: Word)
    requires buf.Length >= HEADER_SIZE
    modifies buf
    ensures HeaderAt(buf[..], n) && Same(buf[..], old(buf[..]), HEADER_SIZE, buf.Length)
  {
    PutWord(buf, 0, MAGIC);
    PutWord(buf, 4, VERSION);
    PutWord(buf, 8, n);
  }

  // What lies before the blobs survives their being written.
  lemma KeepsHeader(s: seq<Byte>, t: seq<Byte>, n: nat)
    requires Same(t, s, 0, EntriesEnd(n))
    ensures HeaderAt(s, n) ==> HeaderAt(t, n)
    ensures forall c :: 0 <= c < n ==> EntryAt(s, EntriesEnd(c)) == EntryAt(t, EntriesEnd(c))
  {
  }

  // Header and entries, then blobs after them, make the image.
  lemma Assembled(s: seq<Byte>, t: seq<Byte>, dtbs: seq<Dtb>, order: seq<nat>, page: nat)
    requires page > 0 && Total(dtbs, page) < 0x1_0000_0000 && IsOrder(order, |dtbs|)
    requires |t| == Total(dtbs, page) && Same(t, s, 0, EntriesEnd(|dtbs|)) && HeaderAt(s, |dtbs|)
    requires forall c :: 0 <= c < |dtbs| ==> EntryAt(s, EntriesEnd(c)) == EntryOf(dtbs, order[c], page)
    requires forall i :: 0 <= i < |dtbs| ==> BlobAt(t, dtbs, i, WrittenStart(|dtbs|, page), page)
    ensures Written(t, dtbs, order, page)
  {
    KeepsHeader(s, t, |dtbs|);
  }

  // The loop over the directory: the sizes it accumulates.
  method Measure(dtbs: seq<Dtb>, page: nat) returns (headerSize: nat, blobSize: nat)
    requires page > 0
    ensures headerSize == RecordedStart(|dtbs|, page) && blobSize == Room(dtbs, |dtbs|, page)
  {
    headerSize, blobSize := HEADER_SIZE, 0;
    for k := 0 to |dtbs|
      invariant headerSize == HeaderSum(k) && blobSize == Room(dtbs, k, page)
    {
      blobSize := blobSize + RoundUp(|dtbs[k].payload|, page);
      headerSize := headerSize + (k + 1) * ENTRY_SIZE;
    }
    headerSize := RoundUp(headerSize + 4, page);
  }

  // load_dtbh_block, given the blobs found and the order qsort left their entries in. Every store is in bounds.
  method LoadDtbhBlock(dtbs: seq<Dtb>, order: seq<nat>, page: nat) returns (image: Option<array<Byte>>)
    requires page > 0 && Total(dtbs, page) < 0x1_0000_0000 && IsOrder(order, |dtbs|)
    ensures image.None? <==> dtbs == []
    ensures image.Some? ==> Written(image.value[..], dtbs, order, page)
  {
    var headerSize, blobSize := Measure(dtbs, page);
    if dtbs == [] {
      return None;
    }
    var buf := new Byte[headerSize + blobSize](_ => 0);
    HeaderSumCovers(|dtbs|);
    WritesStayInside(|dtbs|, page);
    WriteHeader(buf, |dtbs|);
    WriteEntries(buf, dtbs, order, page);
    var offset := EntriesEnd(|dtbs|);
    offset := offset + (page - offset % page);
    ghost var before := buf[..];
    WriteBlobs(buf, dtbs, offset, page);
    Assembled(before, buf[..], dtbs, order, page);
    return Some(buf);
  }

  // ----- Reading back -----

  // Overrun: the entry lies past the end of the header buffer, and what is read for it is not from the image.
  datatype Dump = Dump(entry: Entry, data: Option<seq<Byte>>) | Overrun

  // fseek and fread of one item.
  function ReadAt(s: seq<Byte>, offset: nat, size: nat): Option<seq<Byte>> {
    if offset + size <= |s| then Some(s[offset..offset + size]) else None
  }

  // What is dumped for entry c when the header buffer is one page.
  function DumpOf(image: seq<Byte>, page: nat, c: nat): Dump
    requires page <= |image|
  {
    if EntriesEnd(c + 1) <= page then
      var e := EntryAt(image, EntriesEnd(c));
      Dump(e, ReadAt(image, e.offset, e.size))
    else Overrun
  }

  // main of unpackdtbhimg: the header buffer is one page.
  method Unpack(image: seq<Byte>, page: nat) returns (dumps: Option<seq<Dump>>)
    requires page >= HEADER_SIZE
    ensures dumps.None? <==> |image| < page
    ensures dumps.Some? ==> |dumps.value| == WordAt(image, 8)
    ensures dumps.Some? ==> forall c :: 0 <= c < |dumps.value| ==> dumps.value[c] == DumpOf(image, page, c)
  {
    if |image| < page {
      return None;
    }
    var header := image[..page];
    var out: seq<Dump> := [];
    assert WordAt(header, 8) == WordAt(image, 8);
    for c := 0 to WordAt(header, 8)
      invariant |out| == c
      invariant forall d :: 0 <= d < c ==> out[d] == DumpOf(image, page, d)
    {
      if EntriesEnd(c + 1) <= page {
        var e := EntryAt(header, EntriesEnd(c));
        assert e == EntryAt(image, EntriesEnd(c));
        out := out + [Dump(e, ReadAt(image, e.offset, e.size))];
      } else {
        out := out + [Overrun];
      }
    }
    return Some(out);
  }

  // Every announced entry is read from the image iff the entries end within the page.
  lemma NoOverrunExactly(image: seq<Byte>, page: nat)
    requires HEADER_SIZE <= page <= |image|
    ensures (forall c :: 0 <= c < WordAt(image, 8) ==> DumpOf(image, page, c).Dump?) <==>
      EntriesEnd(WordAt(image, 8)) <= page
  {
    var n := WordAt(image, 8);
    if EntriesEnd(n) > page {
      assert n > 0 && DumpOf(image, page, n - 1).Overrun?;
    }
  }

  // With the default page size an image as written overruns the reader's buffer exactly from 64 entries on.
  lemma SixtyFourEntriesOverrun(s: seq<Byte>, dtbs: seq<Dtb>, order: seq<nat>)
    requires Total(dtbs, 2048) < 0x1_0000_0000 && IsOrder(order, |dtbs|) && Written(s, dtbs, order, 2048)
    ensures 2048 <= |s|
    ensures (exists c :: 0 <= c < |dtbs| && DumpOf(s, 2048, c).Overrun?) <==> |dtbs| >= 64
  {
    HeaderSumCovers(|dtbs|);
    OnePageAtLeast(HeaderSum(|dtbs|) + 4, 2048);
    if |dtbs| >= 64 {
      assert DumpOf(s, 2048, |dtbs| - 1).Overrun?;
    }
  }

  lemma OnePageAtLeast(x: nat, page: nat)
    requires x > 0 && page > 0
    ensures RoundUp(x, page) >= page
  {
    DivisionParts(RoundUp(x, page), page);
    MultipleApart(RoundUp(x, page) / page, 0, page);
  }

  // What reading back should give: the sorted entries, each with its blob padded to whole pages.
  ghost predicate Restores(dumps: seq<Dump>, dtbs: seq<Dtb>, order: seq<nat>, page: nat)
    requires page > 0 && Total(dtbs, page) < 0x1_0000_0000 && IsOrder(order, |dtbs|)
  {
    |dumps| == |dtbs| &&
    forall c :: 0 <= c < |dumps| ==>
      && dumps[c] == Dump(EntryOf(dtbs, order[c], page), Some(Padded(dtbs[order[c]].payload, page)))
      && Carries(dumps[c], dtbs[order[c]])
  }

  // The dump tells what the file told: its numbers field by field, its bytes first and then nothing but zeros.
  predicate Carries(dump: Dump, dtb: Dtb) {
    && dump.Dump? && dump.data.Some?
    && dump.entry.chip == dtb.chip && dump.entry.hwRev == dtb.hwRev && dump.entry.hwRevEnd == dtb.hwRevEnd
    && dump.entry.platform == PLATFORM_CODE && dump.entry.subtype == SUBTYPE_CODE && dump.entry.space == 0x20
    && dump.entry.size == |dump.data.value| && dtb.payload <= dump.data.value
    && forall k :: |dtb.payload| <= k < |dump.data.value| ==> dump.data.value[k] == 0
  }

  lemma EntryCarries(dtbs: seq<Dtb>, i: nat, page: nat)
    requires page > 0 && i < |dtbs| && Total(dtbs, page) < 0x1_0000_0000
    ensures Carries(Dump(EntryOf(dtbs, i, page), Some(Padded(dtbs[i].payload, page))), dtbs[i])
  {
  }

  // Bytes b0 to b3 with b0 the lowest are the digits of the word they make.
  lemma LowByte(b: Byte, rest: nat)
    ensures (b + 0x100 * rest) % 0x100 == b && (b + 0x100 * rest) / 0x100 == rest
  {
  }

  lemma WordBytes(s: seq<Byte>, o: nat)
    requires o + 4 <= |s|
    ensures var w := WordAt(s, o);
      && s[o] == w % 0x100 && s[o + 1] == w / 0x100 % 0x100
      && s[o + 2] == w / 0x100 / 0x100 % 0x100 && s[o + 3] == w / 0x100 / 0x100 / 0x100
  {
    var high: nat := (s[o + 2] as int) + 0x100 * (s[o + 3] as int);
    var rest: nat := (s[o + 1] as int) + 0x100 * high;
    assert WordAt(s, o) == (s[o] as int) + 0x100 * rest;
    LowByte(s[o], rest);
    LowByte(s[o + 1], high);
    LowByte(s[o + 2], s[o + 3]);
  }

  // The image begins with the letters of the magic, then the version and the count, low byte first.
  lemma HeaderBytes(s: seq<Byte>, n: nat)
    requires HeaderAt(s, n)
    ensures s[..8] == [0x44, 0x54, 0x42, 0x48, 2, 0, 0, 0]
    ensures s[8..12] == [n % 0x100, n / 0x100 % 0x100, n / 0x100 / 0x100 % 0x100, n / 0x100 / 0x100 / 0x100]
  {
    WordBytes(s, 0);
    WordBytes(s, 4);
    WordBytes(s, 8);
  }

  // Once the recorded start is where the blobs are, every entry leads to its blob.
  lemma EntryLeadsToBlob(s: seq<Byte>, dtbs: seq<Dtb>, order: seq<nat>, page: nat, c: nat)
    requires page > 0 && Total(dtbs, page) < 0x1_0000_0000 && IsOrder(order, |dtbs|)
    requires Written(s, dtbs, order, page) && RecordedStart(|dtbs|, page) == WrittenStart(|dtbs|, page) && c < |dtbs|
    ensures var e := EntryAt(s, EntriesEnd(c));
      e == EntryOf(dtbs, order[c], page) && ReadAt(s, e.offset, e.size) == Some(Padded(dtbs[order[c]].payload, page))
  {
    assert BlobAt(s, dtbs, order[c], WrittenStart(|dtbs|, page), page);
  }

  // Writing and reading back: every table whose accumulated header fits one page comes back whole.
  method RoundTrip(dtbs: seq<Dtb>, order: seq<nat>, page: nat) returns (dumps: Option<seq<Dump>>)
    requires dtbs != [] && 16 + 16 * |dtbs| * (|dtbs| + 1) <= page
    requires Total(dtbs, page) < 0x1_0000_0000 && IsOrder(order, |dtbs|)
    ensures dumps.Some? && Restores(dumps.value, dtbs, order, page)
  {
    var image := LoadDtbhBlock(dtbs, order, page);
    var s := image.value[..];
    SmallTablesAgree(|dtbs|, page);
    dumps := Unpack(s, page);
    forall c | 0 <= c < |dtbs|
      ensures dumps.value[c] == Dump(EntryOf(dtbs, order[c], page), Some(Padded(dtbs[order[c]].payload, page)))
    {
      EntryLeadsToBlob(s, dtbs, order, page, c);
    }
    forall c | 0 <= c < |dtbs|
      ensures Carries(dumps.value[c], dtbs[order[c]])
    {
      EntryCarries(dtbs, order[c], page);
    }
  }

  // The least such table: any one blob of up to a gigabyte, with the default page size.
  lemma OneBlobFits(d: Dtb)
    requires |d.payload| <= 0x4000_0000
    ensures Total([d], 2048) < 0x1_0000_0000 && IsOrder([0], 1) && 16 + 16 * |[d]| * (|[d]| + 1) <= 2048
  {
    assert HeaderSum(1) == HeaderSum(0) + ENTRY_SIZE;
    assert Room([d], 1, 2048) == Room([d], 0, 2048) + RoundUp(|d.payload|, 2048);
  }

  // ----- The comparator -----

  // A 32-bit difference returned as int.
  function Difference(a: Word, b: Word): int {
    var d := (a - b) % 0x1_0000_0000;
    if d >= 0x8000_0000 then d - 0x1_0000_0000 else d
  }

  function EntryCmp(a: Entry, b: Entry): int {
    if a.chip != b.chip then Difference(a.chip, b.chip) else Difference(a.hwRev, b.hwRev)
  }

  // The comparator tells a from b rightly exactly when the values it subtracts are less than 2^31 apart, or
  // exactly that far with a below b.
  lemma DifferenceExactly(a: Word, b: Word)
    ensures (Difference(a, b) < 0 <==> a < b) && (Difference(a, b) > 0 <==> a > b) <==>
      -0x8000_0000 <= a - b < 0x8000_0000
  {
    if a >= b {
      assert (a - b) % 0x1_0000_0000 == a - b;
    } else {
      assert (a - b) % 0x1_0000_0000 == a - b + 0x1_0000_0000;
    }
  }

  // The order the table is meant to have.
  predicate Below(a: Entry, b: Entry) {
    a.chip < b.chip || (a.chip == b.chip && a.hwRev < b.hwRev)
  }

  // dt_entry_cmp compares by chip and then revision exactly when the field that decides is within that range.
  lemma EntryCmpExactly(a: Entry, b: Entry)
    ensures (EntryCmp(a, b) < 0 <==> Below(a, b)) && (EntryCmp(a, b) > 0 <==> Below(b, a)) <==>
      -0x8000_0000 <= (if a.chip != b.chip then a.chip - b.chip else a.hwRev - b.hwRev) < 0x8000_0000
  {
    DifferenceExactly(a.chip, b.chip);
    DifferenceExactly(a.hwRev, b.hwRev);
  }

  // Chip 2^31 is put before chip 0.
  lemma FarChipsMisordered(a: Entry, b: Entry)
    requires a.chip == 0x8000_0000 && b.chip == 0
    ensures EntryCmp(a, b) < 0 && EntryCmp(b, a) < 0 && Below(b, a)
  {
  }
}
