/** The resource manager's configuration (bins/ctl-resource-manager/src/config.rs):
    the two hugepage sizes, their sysfs control files, decoding a size in kB
    into one of them, and validating the hugepage request. */
module ResourceConfig {
  import opened Wrappers
  import opened Ints
  import opened Text

  datatype HugepageSize = Size2MB | Size1GB

  /** The hugepage request: a size in kB and a page count. */
  datatype HugepagesConfig = HugepagesConfig(sizeKb: u32, count: u32)

  /** The CPU to pin the resource manager to, and its hugepage request. */
  datatype HwResourcesConfig = HwResourcesConfig(cpu: u32, hugepages: HugepagesConfig)

  datatype ResourceError = InvalidHugepageSize(sizeKb: u32) | ZeroHugepageCount

  const SIZE_2MB_KB: u32 := 2048
  const SIZE_1GB_KB: u32 := 1048576

  /** `HugepageSize::size_kb`. */
  function SizeKb(h: HugepageSize): (kb: u32)
    ensures h.Size2MB? ==> kb == 2 * 1024
    ensures h.Size1GB? ==> kb == 1024 * 1024
  {
    match h
    case Size2MB => SIZE_2MB_KB
    case Size1GB => SIZE_1GB_KB
  }

  const SYSFS_PREFIX: string := "/sys/kernel/mm/hugepages/hugepages-"
  const SYSFS_SUFFIX: string := "kB/nr_hugepages"

  /** `HugepageSize::sysfs_path`: the size is spelled out per variant, as
      the source does. */
  function SysfsPath(h: HugepageSize): string
  {
    match h
    case Size2MB => SYSFS_PREFIX + "2048" + SYSFS_SUFFIX
    case Size1GB => SYSFS_PREFIX + "1048576" + SYSFS_SUFFIX
  }

  lemma Decimal2048()
    ensures Decimal(2048) == "2048"
  {
    assert Decimal(2) == "2";
    assert Decimal(20) == Decimal(2) + [DigitChar(0)] == "20";
    assert Decimal(204) == Decimal(20) + [DigitChar(4)] == "204";
    assert Decimal(2048) == Decimal(204) + [DigitChar(8)];
  }

  lemma Decimal1048576()
    ensures Decimal(1048576) == "1048576"
  {
    assert Decimal(1) == "1";
    assert Decimal(10) == Decimal(1) + [DigitChar(0)] == "10";
    assert Decimal(104) == Decimal(10) + [DigitChar(4)] == "104";
    assert Decimal(1048) == Decimal(104) + [DigitChar(8)] == "1048";
    assert Decimal(10485) == Decimal(1048) + [DigitChar(5)] == "10485";
    assert Decimal(104857) == Decimal(10485) + [DigitChar(7)] == "104857";
    assert Decimal(1048576) == Decimal(104857) + [DigitChar(6)];
  }

  /** Each control file's name embeds the size it controls, in kB. */
  lemma SysfsPathEmbedsSize(h: HugepageSize)
    ensures SysfsPath(h) == SYSFS_PREFIX + Decimal(SizeKb(h)) + SYSFS_SUFFIX
  {
    match h
    case Size2MB => Decimal2048();
    case Size1GB => Decimal1048576();
  }

  /** The two sizes are configured through different files. */
  lemma SysfsPathInjective(a: HugepageSize, b: HugepageSize)
    requires SysfsPath(a) == SysfsPath(b)
    ensures a == b
  {
    assert |SysfsPath(Size2MB)| != |SysfsPath(Size1GB)|;
  }

  /** `HugepagesConfig::size`: 2048 kB and 1048576 kB are the only accepted
      sizes; anything else is rejected with the size in the error. */
  function Size(c: HugepagesConfig): (r: Result<HugepageSize, ResourceError>)
    ensures r.Ok? <==> c.sizeKb == 2048 || c.sizeKb == 1048576
    ensures r.Ok? ==> SizeKb(r.value) == c.sizeKb
    ensures r.Err? ==> r.error == InvalidHugepageSize(c.sizeKb)
  {
    if c.sizeKb == SIZE_2MB_KB then Ok(Size2MB)
    else if c.sizeKb == SIZE_1GB_KB then Ok(Size1GB)
    else Err(InvalidHugepageSize(c.sizeKb))
  }

  /** Decoding a size's own kB figure gives the size back. */
  lemma SizeRoundTrip(h: HugepageSize, count: u32)
    ensures Size(HugepagesConfig(SizeKb(h), count)) == Ok(h)
  {
  }

  /** `HwResourcesConfig::validate`: the size is checked before the count,
      and a count of zero is rejected. */
  function Validate(c: HwResourcesConfig): (r: Outcome<ResourceError>)
    ensures r.Pass? <==> Size(c.hugepages).Ok? && c.hugepages.count > 0
    ensures Size(c.hugepages).Err? ==> r == Fail(Size(c.hugepages).error)
    ensures Size(c.hugepages).Ok? && c.hugepages.count == 0 ==> r == Fail(ZeroHugepageCount)
  {
    match Size(c.hugepages)
    case Err(e) => Fail(e)
    case Ok(_) => if c.hugepages.count == 0 then Fail(ZeroHugepageCount) else Pass
  }

  /** A bad size with a zero count reports the size. */
  lemma SizeReportedBeforeCount(cpu: u32)
    ensures Validate(HwResourcesConfig(cpu, HugepagesConfig(4096, 0))) == Fail(InvalidHugepageSize(4096))
  {
  }

  /** `lcore_id`: the lcore is the configured CPU, unchanged. */
  function LcoreId(c: HwResourcesConfig): (id: u32)
    ensures id == c.cpu
  {
    c.cpu
  }
}
