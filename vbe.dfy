/** The mode catalog and mode setter (src/bdd_vbe.cxx, with the records and
    the 37-entry capacity of src/bdd_vbe.hxx), and the catalog lookup of
    bdd.cxx (FindMatchingVBEMode). */
module Vbe {
  import opened Common
  import opened DisplayTypes
  import Hw

  /** The single pixel depth the driver reports (BPP). */
  const Bpp: nat := 32

  /** BDD_VBE_STANDARD_RESOLUTION_COUNT: the length of the standard table
      and also the capacity of the catalog. */
  const Capacity: nat := 37

  /** BDD_VBE_STANDARD_RESOLUTION. */
  datatype Resolution = Resolution(width: U16, height: U16)

  /** BddVbeStandardResolutions, in table order, written as five runs of
      rows so that each run stays a small sequence display. */
  const StandardResolutions: seq<Resolution> := Run0 + Run1 + Run2 + Run3 + Run4

  const Run0: seq<Resolution> := [
    Resolution(640, 480), Resolution(800, 480), Resolution(800, 600), Resolution(832, 624),
    Resolution(960, 640), Resolution(1024, 600), Resolution(1024, 768), Resolution(1152, 864)]
  const Run1: seq<Resolution> := [
    Resolution(1152, 870), Resolution(1280, 720), Resolution(1280, 760), Resolution(1280, 768),
    Resolution(1280, 800), Resolution(1280, 960), Resolution(1280, 1024), Resolution(1360, 768)]
  const Run2: seq<Resolution> := [
    Resolution(1366, 768), Resolution(1400, 1050), Resolution(1440, 900), Resolution(1600, 900),
    Resolution(1600, 1200), Resolution(1680, 1050), Resolution(1920, 1080), Resolution(1920, 1200)]
  const Run3: seq<Resolution> := [
    Resolution(1920, 1440), Resolution(2000, 2000), Resolution(2048, 1536), Resolution(2048, 2048),
    Resolution(2560, 1440), Resolution(2560, 1600), Resolution(2560, 2048), Resolution(2800, 2100)]
  const Run4: seq<Resolution> := [
    Resolution(3200, 2400), Resolution(3840, 2160), Resolution(4096, 2160), Resolution(7680, 4320),
    Resolution(8192, 4320)]

  /** BDD_VBE_MODE: one catalog entry. */
  datatype VbeMode = VbeMode(
    width: U16,
    height: U16,
    pitch: U16,
    bitsPerPixel: U16,
    physicalAddress: int,
    modeNumber: U16)

  // ---------------------------------------------------------------------
  // The standard table

  /** Lexicographic order on (width, height). */
  predicate Before(a: Resolution, b: Resolution) {
    a.width < b.width || (a.width == b.width && a.height < b.height)
  }

  predicate AdjacentSorted(table: seq<Resolution>) {
    forall i :: 0 <= i < |table| - 1 ==> Before(table[i], table[i + 1])
  }

  predicate Sorted(table: seq<Resolution>) {
    forall i, j :: 0 <= i < j < |table| ==> Before(table[i], table[j])
  }

  lemma {:induction false} AdjacentSortedIsSorted(table: seq<Resolution>)
    requires AdjacentSorted(table)
    ensures Sorted(table)
  {
    forall i, j | 0 <= i < j < |table| ensures Before(table[i], table[j]) {
      var k := i;
      while k < j
        invariant i <= k <= j
        invariant k == i || Before(table[i], table[k])
      {
        k := k + 1;
      }
    }
  }

  /** Two adjacent-sorted runs joined by an ordered seam are adjacent-sorted. */
  lemma AdjacentSortedAppend(a: seq<Resolution>, b: seq<Resolution>)
    requires AdjacentSorted(a) && AdjacentSorted(b)
    requires a != [] && b != [] && Before(a[|a| - 1], b[0])
    ensures AdjacentSorted(a + b)
  {
    forall i | 0 <= i < |a + b| - 1 ensures Before((a + b)[i], (a + b)[i + 1]) {
      if i < |a| - 1 {
        assert (a + b)[i] == a[i] && (a + b)[i + 1] == a[i + 1];
      } else if i >= |a| {
        assert (a + b)[i] == b[i - |a|] && (a + b)[i + 1] == b[i - |a| + 1];
      }
    }
  }

  // Each run of the table is sorted; one lemma per run keeps each proof small.
  lemma Run0Sorted() ensures AdjacentSorted(Run0) {}
  lemma Run1Sorted() ensures AdjacentSorted(Run1) {}
  lemma Run2Sorted() ensures AdjacentSorted(Run2) {}
  lemma Run3Sorted() ensures AdjacentSorted(Run3) {}
  lemma Run4Sorted() ensures AdjacentSorted(Run4) {}

  lemma StandardTableAdjacentSorted()
    ensures |StandardResolutions| == Capacity
    ensures AdjacentSorted(StandardResolutions)
  {
    Run0Sorted(); Run1Sorted(); Run2Sorted(); Run3Sorted(); Run4Sorted();
    AdjacentSortedAppend(Run0, Run1);
    AdjacentSortedAppend(Run0 + Run1, Run2);
    AdjacentSortedAppend(Run0 + Run1 + Run2, Run3);
    AdjacentSortedAppend(Run0 + Run1 + Run2 + Run3, Run4);
  }

  /** The standard table is strictly sorted, so no resolution appears in it twice. */
  lemma StandardTableSorted()
    ensures |StandardResolutions| == Capacity
    ensures Sorted(StandardResolutions)
  {
    StandardTableAdjacentSorted();
    AdjacentSortedIsSorted(StandardResolutions);
  }

  /** Every standard width is at most 8192, so its 32-bit pitch fits a USHORT. */
  lemma StandardTableBounds()
    ensures forall i :: 0 <= i < |StandardResolutions| ==>
      0 < StandardResolutions[i].width <= 8192 && 0 < StandardResolutions[i].height <= 4320
  {
  }

  // ---------------------------------------------------------------------
  // The catalog as a function of the inputs

  /** The effective memory budget: the DISPI VIDEO_MEMORY_64K register in
      bytes, unless that is larger than the framebuffer BAR. */
  function MemoryBudget(barSize: nat, videoMemory64k: U16): (budget: nat)
    ensures budget <= barSize && budget <= videoMemory64k * 0x1_0000
    ensures budget == barSize || budget == videoMemory64k * 0x1_0000
  {
    var dispiMemory := videoMemory64k * 64 * 1024;
    if dispiMemory > barSize then barSize else dispiMemory
  }

  /** Whether the firmware (POST) mode becomes entry 0. */
  predicate PostAdmitted(post: Option<DisplayInfo>) {
    post.Some? && post.value.width != 0 && post.value.colorBpp == Bpp
  }

  /** The POST entry: the firmware mode's fields, truncated to USHORT as
      the record stores them. */
  function PostMode(info: DisplayInfo): VbeMode {
    VbeMode(Wrap16(info.width), Wrap16(info.height), Wrap16(info.pitch), Bpp, info.physicAddress, 0)
  }

  function PostEntry(post: Option<DisplayInfo>): seq<VbeMode> {
    if PostAdmitted(post) then [PostMode(post.value)] else []
  }

  /** The memory a standard resolution needs, computed in ULONG. */
  function RequiredMemory(r: Resolution): U32 {
    Wrap32(r.width * r.height * (Bpp / BitsPerByte))
  }

  /** The ratio and memory filter for a standard resolution. */
  predicate Admissible(r: Resolution, budget: nat) {
    && r.width % 8 == 0 && r.height % 8 == 0
    && RequiredMemory(r) != 0 && RequiredMemory(r) <= budget
  }

  /** For resolutions up to 8192 x 4320 the ULONG product does not wrap. */
  lemma RequiredMemoryExact(r: Resolution)
    requires r.width <= 8192 && r.height <= 4320
    ensures RequiredMemory(r) == r.width * r.height * 4
  {
    assert r.width * r.height <= 8192 * r.height <= 8192 * 4320;
  }

  /** Whether `r` repeats the resolution of entry 0 of `modes` at the driver's depth. */
  predicate DuplicatesFirst(modes: seq<VbeMode>, r: Resolution) {
    |modes| > 0 && modes[0].width == r.width && modes[0].height == r.height && modes[0].bitsPerPixel == Bpp
  }

  /** A standard entry as the loop writes it: pitch is width × depth / 8. */
  function StandardMode(r: Resolution, framebuffer: int, number: U16): VbeMode {
    VbeMode(r.width, r.height, Wrap16((r.width * Bpp) / BitsPerByte), Bpp, framebuffer, number)
  }

  /** The catalog loop over `table`, from index `i` on, starting from the entries `modes`. */
  function Walk(table: seq<Resolution>, modes: seq<VbeMode>, i: nat, framebuffer: int, budget: nat): seq<VbeMode>
    requires |modes| <= Capacity
    decreases |table| - i
  {
    if i >= |table| || |modes| >= Capacity then modes
    else
      var r := table[i];
      if !Admissible(r, budget) || DuplicatesFirst(modes, r) then Walk(table, modes, i + 1, framebuffer, budget)
      else Walk(table, modes + [StandardMode(r, framebuffer, |modes|)], i + 1, framebuffer, budget)
  }

  /** The catalog built from `table`. */
  function CatalogOf(table: seq<Resolution>, post: Option<DisplayInfo>, framebuffer: int, budget: nat): seq<VbeMode> {
    Walk(table, PostEntry(post), 0, framebuffer, budget)
  }

  /** The catalog EnumerateVBE builds once the framebuffer BAR is known. */
  function Catalog(post: Option<DisplayInfo>, framebuffer: int, budget: nat): seq<VbeMode> {
    CatalogOf(StandardResolutions, post, framebuffer, budget)
  }

  // ---------------------------------------------------------------------
  // An independent description of the catalog: the POST entry, then the
  // standard resolutions that pass the filters, in table order, numbered
  // consecutively and cut at the capacity.

  predicate SameAs(first: Option<Resolution>, r: Resolution) {
    first.Some? && first.value == r
  }

  /** The entries of `table` from index `i` on that pass the filters and differ from `first`. */
  function Eligible(table: seq<Resolution>, i: nat, budget: nat, first: Option<Resolution>): seq<Resolution>
    decreases |table| - i
  {
    if i >= |table| then []
    else
      var r := table[i];
      (if Admissible(r, budget) && !SameAs(first, r) then [r] else []) + Eligible(table, i + 1, budget, first)
  }

  function Take<T>(s: seq<T>, n: nat): (r: seq<T>)
    ensures |r| <= n && r <= s
    ensures |s| <= n ==> r == s
  {
    if |s| <= n then s else s[..n]
  }

  function Numbered(rs: seq<Resolution>, base: nat, framebuffer: int): seq<VbeMode>
    requires base + |rs| <= Capacity
  {
    seq(|rs|, k requires 0 <= k < |rs| => StandardMode(rs[k], framebuffer, base + k))
  }

  /** The resolution that entry 0 of `modes` blocks, if it is at the driver's depth. */
  function First(modes: seq<VbeMode>): Option<Resolution> {
    if |modes| > 0 && modes[0].bitsPerPixel == Bpp then Some(Resolution(modes[0].width, modes[0].height)) else None
  }

  function ReferenceCatalog(table: seq<Resolution>, post: Option<DisplayInfo>, framebuffer: int, budget: nat): seq<VbeMode> {
    var p := PostEntry(post);
    p + Numbered(Take(Eligible(table, 0, budget, First(p)), Capacity - |p|), |p|, framebuffer)
  }

  /** A resolution that sorts before every entry from `i` on never matches from `i` on. */
  lemma {:induction false} EligibleIgnoresEarlier(table: seq<Resolution>, i: nat, budget: nat, r: Resolution)
    requires forall m :: i <= m < |table| ==> Before(r, table[m])
    ensures Eligible(table, i, budget, Some(r)) == Eligible(table, i, budget, None)
    decreases |table| - i
  {
    if i < |table| {
      EligibleIgnoresEarlier(table, i + 1, budget, r);
    }
  }

  /** What the filter keeps: admissible entries of `table` from index `i` on, other than `first`. */
  lemma {:induction false} EligibleProps(table: seq<Resolution>, i: nat, budget: nat, first: Option<Resolution>)
    ensures forall x | x in Eligible(table, i, budget, first) ::
      Admissible(x, budget) && !SameAs(first, x) && x in table[i..]
    decreases |table| - i
  {
    if i < |table| {
      EligibleProps(table, i + 1, budget, first);
      assert table[i..] == [table[i]] + table[i + 1..];
    }
  }

  /** In a sorted table the kept entries are strictly increasing and sort
      after every entry before index `i`. */
  /** Every admitted resolution comes after the table entries before `i`. */
  lemma EligibleAfter(table: seq<Resolution>, i: nat, budget: nat, first: Option<Resolution>)
    requires Sorted(table)
    ensures forall x, m | x in Eligible(table, i, budget, first) && 0 <= m < i && m < |table| :: Before(table[m], x)
  {
    EligibleProps(table, i, budget, first);
    forall x, m | x in Eligible(table, i, budget, first) && 0 <= m < i && m < |table| ensures Before(table[m], x) {
      assert x in table[i..];
      var k :| i <= k < |table| && table[k] == x;
    }
  }

  lemma {:induction false} EligibleSorted(table: seq<Resolution>, i: nat, budget: nat, first: Option<Resolution>)
    requires Sorted(table)
    ensures Sorted(Eligible(table, i, budget, first))
    decreases |table| - i
  {
    if i < |table| {
      EligibleSorted(table, i + 1, budget, first);
      EligibleAfter(table, i + 1, budget, first);
      var r := table[i];
      var head := if Admissible(r, budget) && !SameAs(first, r) then [r] else [];
      var tail := Eligible(table, i + 1, budget, first);
      var e := head + tail;
      assert Eligible(table, i, budget, first) == e;
      forall a, b | 0 <= a < b < |e| ensures Before(e[a], e[b]) {
        if a >= |head| {
          assert e[a] == tail[a - |head|] && e[b] == tail[b - |head|];
        } else {
          assert e[a] == table[i];
          assert e[b] == tail[b - 1];
          assert e[b] in tail;
        }
      }
    }
  }

  lemma NumberedCons(r: Resolution, rs: seq<Resolution>, base: nat, framebuffer: int)
    requires base + 1 + |rs| <= Capacity
    ensures Numbered([r] + rs, base, framebuffer) == [StandardMode(r, framebuffer, base)] + Numbered(rs, base + 1, framebuffer)
  {
    var lhs := Numbered([r] + rs, base, framebuffer);
    var rhs := [StandardMode(r, framebuffer, base)] + Numbered(rs, base + 1, framebuffer);
    assert |lhs| == |rhs|;
    forall k | 0 <= k < |lhs| ensures lhs[k] == rhs[k] {
      if k > 0 {
        assert ([r] + rs)[k] == rs[k - 1];
      }
    }
  }

  /** The reference description of what the loop still has to do. */
  function Remaining(table: seq<Resolution>, modes: seq<VbeMode>, i: nat, framebuffer: int, budget: nat): seq<VbeMode>
    requires |modes| <= Capacity
  {
    modes + Numbered(Take(Eligible(table, i, budget, First(modes)), Capacity - |modes|), |modes|, framebuffer)
  }

  /** An entry equal to the firmware entry's resolution is the one `First` blocks. */
  lemma DuplicatesFirstSameAs(modes: seq<VbeMode>, r: Resolution)
    requires DuplicatesFirst(modes, r)
    ensures SameAs(First(modes), r)
  {
    assert First(modes) == Some(Resolution(modes[0].width, modes[0].height));
  }

  /** A skipped entry leaves the reference description unchanged. */
  lemma RemainingSkip(table: seq<Resolution>, modes: seq<VbeMode>, i: nat, framebuffer: int, budget: nat)
    requires |modes| <= Capacity && i < |table|
    requires !Admissible(table[i], budget) || SameAs(First(modes), table[i])
    ensures Remaining(table, modes, i, framebuffer, budget) == Remaining(table, modes, i + 1, framebuffer, budget)
  {
    var first := First(modes);
    assert Eligible(table, i, budget, first) == [] + Eligible(table, i + 1, budget, first);
    assert [] + Eligible(table, i + 1, budget, first) == Eligible(table, i + 1, budget, first);
  }

  /** A kept entry moves from the reference description's tail into the catalog. */
  lemma RemainingAdd(table: seq<Resolution>, modes: seq<VbeMode>, i: nat, framebuffer: int, budget: nat)
    requires Sorted(table) && |modes| < Capacity && i < |table|
    requires Admissible(table[i], budget) && !DuplicatesFirst(modes, table[i])
    ensures Remaining(table, modes, i, framebuffer, budget) ==
      Remaining(table, modes + [StandardMode(table[i], framebuffer, |modes|)], i + 1, framebuffer, budget)
  {
    var r := table[i];
    var n := |modes|;
    var first := First(modes);
    var next := modes + [StandardMode(r, framebuffer, n)];
    var rest := Eligible(table, i + 1, budget, first);
    if n == 0 {
      assert First(next) == Some(r);
      forall m | i + 1 <= m < |table| ensures Before(r, table[m]) { }
      EligibleIgnoresEarlier(table, i + 1, budget, r);
    } else {
      assert First(next) == first;
    }
    assert Eligible(table, i + 1, budget, First(next)) == rest;
    assert Eligible(table, i, budget, first) == [r] + rest;
    assert Take([r] + rest, Capacity - n) == [r] + Take(rest, Capacity - n - 1);
    NumberedCons(r, Take(rest, Capacity - n - 1), n, framebuffer);
  }

  /** The loop, from any intermediate state, produces the reference
      description of what is left: the entries kept so far, then the
      eligible rest of the table, numbered on and cut at the capacity. */
  lemma {:induction false} WalkIsReference(table: seq<Resolution>, modes: seq<VbeMode>, i: nat, framebuffer: int, budget: nat)
    requires Sorted(table) && |modes| <= Capacity
    ensures Walk(table, modes, i, framebuffer, budget) == Remaining(table, modes, i, framebuffer, budget)
    decreases |table| - i
  {
    if i >= |table| || |modes| >= Capacity {
      assert modes + [] == modes;
    } else if !Admissible(table[i], budget) || DuplicatesFirst(modes, table[i]) {
      WalkIsReference(table, modes, i + 1, framebuffer, budget);
      if DuplicatesFirst(modes, table[i]) {
        DuplicatesFirstSameAs(modes, table[i]);
      }
      RemainingSkip(table, modes, i, framebuffer, budget);
    } else {
      WalkIsReference(table, modes + [StandardMode(table[i], framebuffer, |modes|)], i + 1, framebuffer, budget);
      RemainingAdd(table, modes, i, framebuffer, budget);
    }
  }

  /** The catalog is the reference description of it. */
  lemma CatalogIsReference(table: seq<Resolution>, post: Option<DisplayInfo>, framebuffer: int, budget: nat)
    requires Sorted(table)
    ensures CatalogOf(table, post, framebuffer, budget) == ReferenceCatalog(table, post, framebuffer, budget)
  {
    WalkIsReference(table, PostEntry(post), 0, framebuffer, budget);
  }

  /** The filter keeps everything it should: its completeness partner. */
  lemma {:induction false} EligibleComplete(table: seq<Resolution>, i: nat, budget: nat, first: Option<Resolution>, r: Resolution)
    requires i <= |table| && r in table[i..] && Admissible(r, budget) && !SameAs(first, r)
    ensures r in Eligible(table, i, budget, first)
    decreases |table| - i
  {
    assert table[i..] == [table[i]] + table[i + 1..];
    if r != table[i] {
      EligibleComplete(table, i + 1, budget, first, r);
    }
  }

  // ---------------------------------------------------------------------
  // What EnumerateVBE promises about the catalog

  function ResolutionOf(m: VbeMode): Resolution {
    Resolution(m.width, m.height)
  }

  /** A standard table: strictly sorted, with every width at most 8192 and every height at most 4320. */
  predicate StandardTable(table: seq<Resolution>) {
    Sorted(table) && forall i :: 0 <= i < |table| ==> table[i].width <= 8192 && table[i].height <= 4320
  }

  lemma StandardResolutionsIsStandard()
    ensures StandardTable(StandardResolutions)
  {
    StandardTableSorted();
    StandardTableBounds();
  }

  /** A standard entry: a resolution of the table that passes the filters,
      at the driver's depth, with a pitch of four bytes per pixel, at the
      framebuffer BAR. */
  predicate IsStandardEntry(table: seq<Resolution>, m: VbeMode, framebuffer: int, budget: nat) {
    && ResolutionOf(m) in table
    && Admissible(ResolutionOf(m), budget)
    && m.bitsPerPixel == Bpp
    && m.pitch == m.width * (Bpp / BitsPerByte)
    && m.physicalAddress == framebuffer
  }

  /** At most 37 entries, each numbered by its position; entry 0 is the
      POST mode exactly when the firmware mode is admitted. */
  lemma CatalogNumbering(table: seq<Resolution>, post: Option<DisplayInfo>, framebuffer: int, budget: nat)
    requires StandardTable(table)
    ensures var c := CatalogOf(table, post, framebuffer, budget);
      && |c| <= Capacity
      && (forall k | 0 <= k < |c| :: c[k].modeNumber == k)
      && (PostAdmitted(post) ==> |c| > 0 && c[0] == PostMode(post.value))
  {
    CatalogIsReference(table, post, framebuffer, budget);
  }

  /** Every entry after the POST entry is a standard entry, and none of them
      repeats the POST entry's resolution. */
  lemma CatalogStandardEntries(table: seq<Resolution>, post: Option<DisplayInfo>, framebuffer: int, budget: nat)
    requires StandardTable(table)
    ensures var c := CatalogOf(table, post, framebuffer, budget);
      var p := |PostEntry(post)|;
      && (forall k | p <= k < |c| :: IsStandardEntry(table, c[k], framebuffer, budget))
      && (forall k | p <= k < |c| :: !SameAs(First(PostEntry(post)), ResolutionOf(c[k])))
  {
    CatalogIsReference(table, post, framebuffer, budget);
    var c := CatalogOf(table, post, framebuffer, budget);
    var pe := PostEntry(post);
    var e := Eligible(table, 0, budget, First(pe));
    var t := Take(e, Capacity - |pe|);
    EligibleProps(table, 0, budget, First(pe));
    forall k | |pe| <= k < |c|
      ensures IsStandardEntry(table, c[k], framebuffer, budget)
      ensures !SameAs(First(pe), ResolutionOf(c[k]))
    {
      var r := t[k - |pe|];
      assert c[k] == StandardMode(r, framebuffer, k);
      assert r in e;
      assert r in table[0..];
      var j :| 0 <= j < |table| && table[j] == r;
      assert ResolutionOf(c[k]) == r;
    }
  }

  /** A prefix of a sorted sequence is sorted. */
  lemma TakeSorted(rs: seq<Resolution>, n: nat)
    requires Sorted(rs)
    ensures Sorted(Take(rs, n))
  {
  }

  /** Numbering keeps the order of the resolutions. */
  lemma NumberedOrdered(rs: seq<Resolution>, base: nat, framebuffer: int)
    requires base + |rs| <= Capacity && Sorted(rs)
    ensures var nb := Numbered(rs, base, framebuffer);
      forall a, b | 0 <= a < b < |nb| :: Before(ResolutionOf(nb[a]), ResolutionOf(nb[b]))
  {
  }

  /** The standard entries follow the table order, so no two are equal. */
  lemma CatalogOrdered(table: seq<Resolution>, post: Option<DisplayInfo>, framebuffer: int, budget: nat)
    requires StandardTable(table)
    ensures var c := CatalogOf(table, post, framebuffer, budget);
      forall a, b | |PostEntry(post)| <= a < b < |c| :: Before(ResolutionOf(c[a]), ResolutionOf(c[b]))
  {
    CatalogIsReference(table, post, framebuffer, budget);
    var c := CatalogOf(table, post, framebuffer, budget);
    var pe := PostEntry(post);
    var e := Eligible(table, 0, budget, First(pe));
    var t := Take(e, Capacity - |pe|);
    EligibleSorted(table, 0, budget, First(pe));
    TakeSorted(e, Capacity - |pe|);
    var nb := Numbered(t, |pe|, framebuffer);
    NumberedOrdered(t, |pe|, framebuffer);
    assert c == pe + nb;
    forall a, b | |pe| <= a < b < |c| ensures Before(ResolutionOf(c[a]), ResolutionOf(c[b])) {
      assert c[a] == nb[a - |pe|] && c[b] == nb[b - |pe|];
    }
  }

  /** Unless the catalog is full, every table resolution that passes the
      filters and does not repeat the POST entry is in it. */
  lemma CatalogComplete(table: seq<Resolution>, post: Option<DisplayInfo>, framebuffer: int, budget: nat, i: nat)
    requires StandardTable(table) && i < |table|
    requires Admissible(table[i], budget) && !SameAs(First(PostEntry(post)), table[i])
    requires |CatalogOf(table, post, framebuffer, budget)| < Capacity
    ensures var c := CatalogOf(table, post, framebuffer, budget);
      exists k :: |PostEntry(post)| <= k < |c| && c[k] == StandardMode(table[i], framebuffer, k)
  {
    CatalogIsReference(table, post, framebuffer, budget);
    var c := CatalogOf(table, post, framebuffer, budget);
    var pe := PostEntry(post);
    var r := table[i];
    var e := Eligible(table, 0, budget, First(pe));
    assert table[0..] == table;
    EligibleComplete(table, 0, budget, First(pe), r);
    assert Take(e, Capacity - |pe|) == e;
    var j :| 0 <= j < |e| && e[j] == r;
    assert c[|pe| + j] == StandardMode(r, framebuffer, |pe| + j);
  }

  /** The catalog is empty exactly when the firmware mode is not admitted
      and no table resolution passes the filters. */
  lemma CatalogEmpty(table: seq<Resolution>, post: Option<DisplayInfo>, framebuffer: int, budget: nat)
    requires StandardTable(table)
    ensures |CatalogOf(table, post, framebuffer, budget)| == 0 <==>
      !PostAdmitted(post) && forall i | 0 <= i < |table| :: !Admissible(table[i], budget)
  {
    CatalogIsReference(table, post, framebuffer, budget);
    var pe := PostEntry(post);
    var e := Eligible(table, 0, budget, First(pe));
    if !PostAdmitted(post) {
      assert First(pe) == None;
      EligibleProps(table, 0, budget, None);
      if e != [] {
        assert e[0] in table[0..];
        assert Admissible(e[0], budget);
      }
      forall i | 0 <= i < |table| && Admissible(table[i], budget) ensures e != [] {
        assert table[0..] == table;
        EligibleComplete(table, 0, budget, None, table[i]);
      }
    }
  }

  // ---------------------------------------------------------------------
  // The DISPI register interface

  /** The DISPI registers the mode setter programs (VBE_DISPI_INDEX_*). */
  datatype DispiIndex = IndexEnable | IndexBank | IndexXOffset | IndexYOffset
    | IndexBpp | IndexXRes | IndexVirtWidth | IndexYRes | IndexVirtHeight

  /** One DispiWriteUShort call. */
  datatype DispiWrite = DispiWrite(index: DispiIndex, value: U16)

  /** VBE_DISPI_DISABLED, VBE_DISPI_ENABLED and VBE_DISPI_LFB_ENABLED. */
  const DispiDisabled: U16 := 0x00
  const DispiEnabled: U16 := 0x01
  const DispiLfbEnabled: U16 := 0x40

  /** The register file after a sequence of writes. */
  function Registers(regs: map<DispiIndex, U16>, writes: seq<DispiWrite>): map<DispiIndex, U16>
    decreases |writes|
  {
    if writes == [] then regs
    else Registers(regs, writes[..|writes| - 1])[writes[|writes| - 1].index := writes[|writes| - 1].value]
  }

  /** The writes SetVBEMode issues for a catalog entry, in order. */
  function ModeSetWrites(m: VbeMode): seq<DispiWrite> {
    [ DispiWrite(IndexEnable, DispiDisabled),
      DispiWrite(IndexBank, 0),
      DispiWrite(IndexXOffset, 0),
      DispiWrite(IndexYOffset, 0),
      DispiWrite(IndexBpp, m.bitsPerPixel),
      DispiWrite(IndexXRes, m.width),
      DispiWrite(IndexVirtWidth, m.width),
      DispiWrite(IndexYRes, m.height),
      DispiWrite(IndexVirtHeight, m.height),
      DispiWrite(IndexEnable, DispiEnabled + DispiLfbEnabled) ]
  }

  /** A register holds the value of the last write to it. */
  lemma {:induction false} RegistersLastWrite(regs: map<DispiIndex, U16>, writes: seq<DispiWrite>, j: nat)
    requires j < |writes|
    requires forall l | j < l < |writes| :: writes[l].index != writes[j].index
    ensures writes[j].index in Registers(regs, writes)
    ensures Registers(regs, writes)[writes[j].index] == writes[j].value
    decreases |writes|
  {
    var n := |writes| - 1;
    if j < n {
      var prefix := writes[..n];
      assert forall l | j < l < |prefix| :: prefix[l] == writes[l];
      RegistersLastWrite(regs, prefix, j);
    }
  }

  /** Whatever the registers held before, the mode set leaves the adapter
      enabled with the linear framebuffer, at the entry's geometry and
      depth, on bank 0 with no panning offset. */
  lemma ModeSetProgramsMode(regs: map<DispiIndex, U16>, m: VbeMode)
    ensures var r := Registers(regs, ModeSetWrites(m));
      && r.Keys >= {IndexEnable, IndexBank, IndexXOffset, IndexYOffset, IndexBpp, IndexXRes, IndexVirtWidth, IndexYRes, IndexVirtHeight}
      && r[IndexEnable] == DispiEnabled + DispiLfbEnabled
      && r[IndexBank] == 0 && r[IndexXOffset] == 0 && r[IndexYOffset] == 0
      && r[IndexBpp] == m.bitsPerPixel
      && r[IndexXRes] == m.width && r[IndexVirtWidth] == m.width
      && r[IndexYRes] == m.height && r[IndexVirtHeight] == m.height
  {
    var w := ModeSetWrites(m);
    RegistersLastWrite(regs, w, 1);
    RegistersLastWrite(regs, w, 2);
    RegistersLastWrite(regs, w, 3);
    RegistersLastWrite(regs, w, 4);
    RegistersLastWrite(regs, w, 5);
    RegistersLastWrite(regs, w, 6);
    RegistersLastWrite(regs, w, 7);
    RegistersLastWrite(regs, w, 8);
    RegistersLastWrite(regs, w, 9);
  }

  /** The adapter stays disabled while the mode set changes the bank, the
      offsets, the depth and the geometry: before each write after the
      first, the last value written to ENABLE is VBE_DISPI_DISABLED. */
  lemma ModeSetDisabledWhileProgramming(regs: map<DispiIndex, U16>, m: VbeMode, k: nat)
    requires 1 <= k < |ModeSetWrites(m)|
    ensures IndexEnable in Registers(regs, ModeSetWrites(m)[..k])
    ensures Registers(regs, ModeSetWrites(m)[..k])[IndexEnable] == DispiDisabled
  {
    RegistersLastWrite(regs, ModeSetWrites(m)[..k], 0);
  }

  /** The catalog as the driver stores it (BDD_MODE_INFO): a fixed array of
      37 entries, of which the first `count` are valid. */
  class ModeInfo {
    var count: nat
    const modes: array<VbeMode>

    ghost predicate Valid()
      reads this
    {
      modes.Length == Capacity && count <= Capacity
    }

    constructor ()
      ensures Valid() && count == 0 && fresh(modes)
    {
      count := 0;
      modes := new VbeMode[Capacity](_ => VbeMode(0, 0, 0, 0, 0, 0));
    }

    /** The valid entries. */
    function Entries(): seq<VbeMode>
      reads this, modes
      requires Valid()
    {
      modes[..count]
    }

    /** EnumerateVBE: builds the catalog from the framebuffer BAR (the first
        memory resource), the VIDEO_MEMORY_64K register and the firmware
        display mode. A missing BAR is reported with its status and an
        empty catalog; an empty catalog is STATUS_UNSUCCESSFUL. */
    method EnumerateVBE(resources: seq<Hw.FullDescriptor>, videoMemory64k: U16, post: Option<DisplayInfo>)
      returns (status: Status)
      requires Valid()
      modifies this, modes
      ensures Valid()
      ensures var mem := Hw.MemoryDescriptors(resources);
        if |mem| == 0 || mem[0].decodedLength == 0 then
          status == DeviceConfigurationError && count == 0
        else
          && Entries() == Catalog(post, mem[0].decodedStart, MemoryBudget(mem[0].decodedLength, videoMemory64k))
          && (status == Success <==> count > 0)
          && (status == Unsuccessful <==> count == 0)
    {
      count := 0;
      var st, framebuffer, framebufferSize := Hw.FindMemoryResource(resources, 0);
      if !NtSuccess(st) {
        return st;
      }
      var dispiMemory := videoMemory64k * 64 * 1024;
      if dispiMemory <= framebufferSize {
        framebufferSize := dispiMemory;
      }
      if post.Some? && post.value.width != 0 {
        var postBpp := post.value.colorBpp;
        if postBpp == Bpp {
          modes[count] := VbeMode(Wrap16(post.value.width), Wrap16(post.value.height), Wrap16(post.value.pitch),
                                  Bpp, post.value.physicAddress, count);
          count := count + 1;
        }
      }
      assert Entries() == PostEntry(post);
      AppendStandardModes(framebuffer, framebufferSize);
      if count == 0 {
        return Unsuccessful;
      }
      return Success;
    }
  
    /** The loop over the standard table in EnumerateVBE. */
    method AppendStandardModes(framebuffer: int, framebufferSize: nat)
      requires Valid()
      modifies this, modes
      ensures Valid()
      ensures Entries() == Walk(StandardResolutions, old(Entries()), 0, framebuffer, framebufferSize)
    {
      ghost var start := Entries();
      var i := 0;
      while i < |StandardResolutions| && count < Capacity
        invariant Valid() && i <= |StandardResolutions|
        invariant Walk(StandardResolutions, modes[..count], i, framebuffer, framebufferSize) ==
          Walk(StandardResolutions, start, 0, framebuffer, framebufferSize)
        decreases |StandardResolutions| - i
      {
        var r := StandardResolutions[i];
        var requiredMemory := Wrap32(r.width * r.height * (Bpp / BitsPerByte));
        if r.width % 8 != 0 || r.height % 8 != 0 {
          // skipped: ratio
        } else if requiredMemory == 0 || requiredMemory > framebufferSize {
          // skipped: too big
        } else if count > 0 && modes[0].width == r.width && modes[0].height == r.height && modes[0].bitsPerPixel == Bpp {
          // skipped: the POST mode
        } else {
          ghost var before := modes[..count];
          modes[count] := VbeMode(r.width, r.height, Wrap16((r.width * Bpp) / BitsPerByte), Bpp, framebuffer, count);
          assert modes[..count + 1] == before + [StandardMode(r, framebuffer, count)];
          count := count + 1;
        }
        i := i + 1;
      }
    }
  
    /** SetVBEMode: a number outside the catalog is rejected without any
        register write; otherwise the entry's mode is programmed. */
    method SetVBEMode(modeNumber: U16) returns (status: Status, writes: seq<DispiWrite>)
      requires Valid()
      ensures modeNumber >= count ==> status == InvalidParameter && writes == []
      ensures modeNumber < count ==> status == Success && writes == ModeSetWrites(Entries()[modeNumber])
    {
      if modeNumber >= count {
        return InvalidParameter, [];
      }
      var width := modes[modeNumber].width;
      var height := modes[modeNumber].height;
      var bpp := modes[modeNumber].bitsPerPixel;
      writes := [DispiWrite(IndexEnable, DispiDisabled)];
      writes := writes + [DispiWrite(IndexBank, 0)];
      writes := writes + [DispiWrite(IndexXOffset, 0)];
      writes := writes + [DispiWrite(IndexYOffset, 0)];
      writes := writes + [DispiWrite(IndexBpp, bpp)];
      writes := writes + [DispiWrite(IndexXRes, width)];
      writes := writes + [DispiWrite(IndexVirtWidth, width)];
      writes := writes + [DispiWrite(IndexYRes, height)];
      writes := writes + [DispiWrite(IndexVirtHeight, height)];
      writes := writes + [DispiWrite(IndexEnable, DispiEnabled + DispiLfbEnabled)];
      status := Success;
    }

    /** FindMatchingVBEMode: the first entry with the requested surface size
        and depth, or the entry count when there is none. */
    method FindMatchingVBEMode(width: int, height: int, bitsPerPixel: int) returns (index: nat)
      requires Valid()
      ensures index <= count
      ensures index < count ==> Matches(modes[index], width, height, bitsPerPixel)
      ensures forall j | 0 <= j < index :: !Matches(modes[j], width, height, bitsPerPixel)
    {
      var i := 0;
      while i < count
        invariant i <= count
        invariant forall j | 0 <= j < i :: !Matches(modes[j], width, height, bitsPerPixel)
      {
        if modes[i].width == width && modes[i].height == height && modes[i].bitsPerPixel == bitsPerPixel {
          return i;
        }
        i := i + 1;
      }
      return count;
    }
  }

  predicate Matches(m: VbeMode, width: int, height: int, bitsPerPixel: int) {
    m.width == width && m.height == height && m.bitsPerPixel == bitsPerPixel
  }
}
