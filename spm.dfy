// Self-programming of the program memory, as both bootloaders use it through
// avr-libc's boot_page_erase, boot_page_fill and boot_page_write: a one-page
// temporary buffer is filled a word at a time, then programmed into the page
// that holds a given address. Program memory is a 64 KiB byte array.

module Spm {
  import opened Bytes

  /** Bytes addressable with a 16-bit pointer: program memory and EEPROM space. */
  const MEMORY_SIZE: nat := 0x1_0000

  /** Page size in bytes (SPM_PAGESIZE / PAGESIZE) and the first byte of the
      boot section (APP_END); both come from the device's definitions. */
  datatype Geometry = Geometry(pageSize: nat, appEnd: nat)

  /** Pages hold whole words, tile the memory, and the application section
      ends on a page boundary below the top of memory. */
  predicate ValidGeometry(g: Geometry)
  {
    2 <= g.pageSize && g.pageSize % 2 == 0 && MEMORY_SIZE % g.pageSize == 0
    && g.appEnd % g.pageSize == 0 && g.appEnd + g.pageSize <= MEMORY_SIZE
  }

  /** The first address of the page holding address a. */
  function PageStart(g: Geometry, a: nat): (s: nat)
    requires ValidGeometry(g)
    ensures s <= a < s + g.pageSize && s % g.pageSize == 0
  {
    RoundDown(a, g.pageSize);
    a - a % g.pageSize
  }

  /** Rounding a down to a multiple of p. */
  lemma RoundDown(a: nat, p: nat)
    requires p > 0
    ensures a - a % p <= a < a - a % p + p && (a - a % p) % p == 0
  {
    var q := a / p;
    assert a - a % p == p * q;
    DivModUnique(a - a % p, p, q, 0);
  }

  /** A page that starts below a page-aligned limit ends at or before it. */
  lemma PageBelow(g: Geometry, a: nat, limit: nat)
    requires ValidGeometry(g) && limit % g.pageSize == 0 && a < limit
    ensures PageStart(g, a) + g.pageSize <= limit
  {
    var p := g.pageSize;
    var q, k := a / p, limit / p;
    assert a == p * q + a % p;
    assert limit == p * k;
    if q >= k {
      MulAtLeast(p, q - k + 1);
      assert false;
    }
    assert p * k - p * q == p * (k - q);
    MulAtLeast(p, k - q);
  }

  /** A multiple of the page size is the start of its own page. */
  lemma AlignedPageStart(g: Geometry, k: nat)
    requires ValidGeometry(g)
    ensures PageStart(g, g.pageSize * k) == g.pageSize * k
  {
    DivModUnique(g.pageSize * k, g.pageSize, k, 0);
  }

  /** The buffer offset of the low byte of the word at address a: the page
      bits of the address, with bit 0 ignored. */
  function WordOffset(g: Geometry, a: nat): (o: nat)
    requires ValidGeometry(g)
    ensures o % 2 == 0 && o + 1 < g.pageSize
  {
    a % g.pageSize - a % g.pageSize % 2
  }

  /** The offset of the j-th byte after offset o, going round the page. */
  function Slot(g: Geometry, o: nat, j: nat): nat
    requires ValidGeometry(g) && o < g.pageSize && j < g.pageSize
  {
    if o + j < g.pageSize then o + j else o + j - g.pageSize
  }

  /** Which byte after offset o lands at offset k: the inverse of Slot. */
  function Pos(g: Geometry, o: nat, k: nat): (j: nat)
    requires ValidGeometry(g) && o < g.pageSize && k < g.pageSize
    ensures j < g.pageSize && Slot(g, o, j) == k
  {
    if k >= o then k - o else k + g.pageSize - o
  }

  /** Adding less than a page to an address moves its page offset by that
      much, wrapping once at the end of the page. */
  lemma ModAdvance(a: nat, p: nat, j: nat)
    requires 0 < p && j < p
    ensures (a + j) % p == if a % p + j < p then a % p + j else a % p + j - p
  {
    var q, r := a / p, a % p;
    assert a == p * q + r;
    if r + j < p {
      DivModUnique(a + j, p, q, r + j);
    } else {
      assert a + j == p * (q + 1) + (r + j - p);
      DivModUnique(a + j, p, q + 1, r + j - p);
    }
  }

  /** The even part of an offset that moves by an even amount j round a
      page of even size p moves by j round the page too. */
  lemma EvenPartAdvance(r: int, m: int, p: int, j: int)
    requires p % 2 == 0 && j % 2 == 0 && 0 <= r < p && 0 <= j < p
    requires m == if r + j < p then r + j else r + j - p
    ensures m - m % 2 == if r - r % 2 + j < p then r - r % 2 + j else r - r % 2 + j - p
  {
  }

  /** Word addresses advance through the page and wrap at its end. */
  lemma OffsetAdvance(g: Geometry, a: nat, j: nat)
    requires ValidGeometry(g) && j % 2 == 0 && j < g.pageSize
    ensures WordOffset(g, a + j) == Slot(g, WordOffset(g, a), j)
  {
    ModAdvance(a, g.pageSize, j);
    EvenPartAdvance(a % g.pageSize, (a + j) % g.pageSize, g.pageSize, j);
  }

  /** Pages tile the 64 KiB space, so a 16-bit address that wrapped round
      still selects the same word of the temporary buffer. */
  lemma WrapOffset(g: Geometry, x: nat)
    requires ValidGeometry(g)
    ensures WordOffset(g, x % MEMORY_SIZE) == WordOffset(g, x)
  {
    var p := g.pageSize;
    var m, q, r := MEMORY_SIZE / p, x / MEMORY_SIZE, x % MEMORY_SIZE;
    assert MEMORY_SIZE == p * m;
    assert x == MEMORY_SIZE * q + r;
    assert MEMORY_SIZE * q == p * (m * q);
    ModAddMultiple(m * q, r, p);
  }

  /** An erased page, or an erased temporary buffer. */
  function Erased(n: nat): (e: seq<Byte>)
    ensures |e| == n && forall i :: 0 <= i < n ==> e[i] == 0xFF
  {
    seq(n, _ => 0xFF)
  }

  /** boot_page_fill: load one word, low byte first, into the temporary buffer. */
  function PageFill(g: Geometry, buffer: seq<Byte>, a: nat, lo: Byte, hi: Byte): (r: seq<Byte>)
    requires ValidGeometry(g) && |buffer| == g.pageSize
    ensures |r| == g.pageSize
  {
    var o := WordOffset(g, a);
    buffer[o := lo][o + 1 := hi]
  }

  /** boot_page_fill at a 16-bit address that wrapped round loads the same word. */
  lemma FillWrapped(g: Geometry, buffer: seq<Byte>, x: nat, lo: Byte, hi: Byte)
    requires ValidGeometry(g) && |buffer| == g.pageSize
    ensures PageFill(g, buffer, x % MEMORY_SIZE, lo, hi) == PageFill(g, buffer, x, lo, hi)
  {
    WrapOffset(g, x);
  }

  /** The temporary buffer after loading the first n bytes of data as words
      at a, a + 2, ...; the last word is loaded last. */
  function FillWords(g: Geometry, buffer: seq<Byte>, a: nat, data: seq<Byte>, n: nat): (r: seq<Byte>)
    requires ValidGeometry(g) && |buffer| == g.pageSize && n % 2 == 0 && n <= |data|
    ensures |r| == g.pageSize
    decreases n
  {
    if n == 0 then buffer
    else PageFill(g, FillWords(g, buffer, a, data, n - 2), a + n - 2, data[n - 2], data[n - 1])
  }

  /** One more word loaded, at the byte address as the 16-bit register
      holds it. */
  lemma FillWordsNext(g: Geometry, buffer: seq<Byte>, a: nat, data: seq<Byte>, k: nat)
    requires ValidGeometry(g) && |buffer| == g.pageSize && k % 2 == 0 && k + 2 <= |data|
    ensures FillWords(g, buffer, a, data, k + 2)
            == PageFill(g, FillWords(g, buffer, a, data, k), (a + k) % MEMORY_SIZE, data[k], data[k + 1])
  {
    FillWrapped(g, FillWords(g, buffer, a, data, k), a + k, data[k], data[k + 1]);
  }

  /** Only the first n bytes of data are loaded. */
  lemma {:induction false} FillWordsPrefix(g: Geometry, buffer: seq<Byte>, a: nat, data: seq<Byte>, other: seq<Byte>, n: nat)
    requires ValidGeometry(g) && |buffer| == g.pageSize && n % 2 == 0 && n <= |data| && n <= |other|
    requires data[..n] == other[..n]
    ensures FillWords(g, buffer, a, data, n) == FillWords(g, buffer, a, other, n)
    decreases n
  {
    if n != 0 {
      assert data[n - 2] == data[..n][n - 2] == other[n - 2];
      assert data[n - 1] == data[..n][n - 1] == other[n - 1];
      assert data[..n - 2] == data[..n][..n - 2] == other[..n - 2];
      FillWordsPrefix(g, buffer, a, data, other, n - 2);
    }
  }

  /** Loading up to a page of bytes from address a puts byte j at offset
      Slot(WordOffset(a), j) and leaves the rest of the buffer alone. */
  lemma {:induction false} FillWordsAt(g: Geometry, buffer: seq<Byte>, a: nat, data: seq<Byte>, n: nat, k: nat)
    requires ValidGeometry(g) && |buffer| == g.pageSize && n % 2 == 0 && n <= |data| && n <= g.pageSize
    requires k < g.pageSize
    ensures var j := Pos(g, WordOffset(g, a), k);
            FillWords(g, buffer, a, data, n)[k] == if j < n then data[j] else buffer[k]
    decreases n
  {
    if n != 0 {
      var o := WordOffset(g, a);
      FillWordsAt(g, buffer, a, data, n - 2, k);
      OffsetAdvance(g, a, n - 2);
      assert WordOffset(g, a + n - 2) == Slot(g, o, n - 2);
      if Pos(g, o, k) == n - 1 {
        assert k == Slot(g, o, n - 2) + 1;
      }
    }
  }

  /** boot_page_erase: every byte of the page holding a reads 0xFF. */
  function PageErase(g: Geometry, flash: seq<Byte>, a: nat): (r: seq<Byte>)
    requires ValidGeometry(g)
    ensures |r| == |flash|
  {
    var s := PageStart(g, a);
    seq(|flash|, i requires 0 <= i < |flash| => if s <= i < s + g.pageSize then 0xFF else flash[i])
  }

  /** boot_page_write: program the temporary buffer into the page holding a.
      Programming can only clear bits, so each byte becomes the AND of the old
      byte and the buffer byte. */
  function PageWrite(g: Geometry, flash: seq<Byte>, buffer: seq<Byte>, a: nat): (r: seq<Byte>)
    requires ValidGeometry(g) && |buffer| == g.pageSize
    ensures |r| == |flash|
  {
    var s := PageStart(g, a);
    seq(|flash|, i requires 0 <= i < |flash| =>
      if s <= i < s + g.pageSize then flash[i] & buffer[i - s] else flash[i])
  }

  /** Erasing a page and then writing it leaves exactly the buffer in the
      page, and every other byte as it was. */
  lemma EraseThenWrite(g: Geometry, flash: seq<Byte>, buffer: seq<Byte>, a: nat, i: nat)
    requires ValidGeometry(g) && |buffer| == g.pageSize && i < |flash|
    ensures var s := PageStart(g, a);
            PageWrite(g, PageErase(g, flash, a), buffer, a)[i]
            == if s <= i < s + g.pageSize then buffer[i - s] else flash[i]
  {
  }

  /** Writing without erasing first only clears bits: a byte can never gain a
      bit it did not already have. */
  lemma WriteOnlyClearsBits(g: Geometry, flash: seq<Byte>, buffer: seq<Byte>, a: nat, i: nat)
    requires ValidGeometry(g) && |buffer| == g.pageSize && i < |flash|
    ensures PageWrite(g, flash, buffer, a)[i] & flash[i] == PageWrite(g, flash, buffer, a)[i]
  {
  }

  /** A page write below the boot section leaves the boot section alone. */
  lemma WriteBelowProtects(g: Geometry, flash: seq<Byte>, buffer: seq<Byte>, a: nat)
    requires ValidGeometry(g) && |buffer| == g.pageSize && a < g.appEnd <= |flash|
    ensures PageWrite(g, flash, buffer, a)[g.appEnd..] == flash[g.appEnd..]
    ensures PageErase(g, flash, a)[g.appEnd..] == flash[g.appEnd..]
  {
    PageBelow(g, a, g.appEnd);
  }
}
