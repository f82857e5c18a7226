/**
 `BundleTableModel`: the Swing table model that shows a list of bundles, one
 per row, in six fixed columns. The list is the only state; it may be null.
 */
module BundleTable {
  import opened JavaLang
  import opened DiscoBundle
  import opened TableRows

  /** What `getValueAt` can return: a version number, or a display string. */
  datatype BundleCell = VersionCell(version: VersionNumber) | TextCell(text: string)

  /** The class of a cell value. */
  function CellClass(v: BundleCell): JavaClass
  {
    match v
    case VersionCell(_) => JavaClass("io.foojay.api.discoclient.bundle.VersionNumber")
    case TextCell(_) => JavaClass("java.lang.String")
  }

  /** The `switch` of `getValueAt` for one bundle: the display value of column `col`. */
  function CellOf(b: Bundle, col: int): (v: Option<BundleCell>)
    ensures v.Some? <==> 0 <= col < 6
  {
    match col
    case 0 => Some(VersionCell(b.versionNumber))
    case 1 => Some(TextCell(b.distribution.uiString))
    case 2 => Some(TextCell(b.distribution.vendor))
    case 3 => Some(TextCell(b.bundleType.uiString))
    case 4 => Some(TextCell(b.releaseStatus.name))
    case 5 => Some(TextCell(b.extension.uiString))
    case _ => None
  }

  class BundleTableModel {
    const columnNames: seq<string> := ["Version", "Distribution", "Vendor", "Bundle Type", "Release Status", "Extension"]
    var bundles: Option<seq<Bundle>>

    /** The constructor: the table shows exactly the given list. */
    constructor (bundles: Option<seq<Bundle>>)
      ensures this.bundles == bundles
      ensures Bundles() == bundles && RowCount() == RowCountOf(bundles)
    {
      this.bundles := bundles;
    }

    /** `getBundles()`: the list last given to the constructor or to `SetBundles`. */
    function Bundles(): (r: Option<seq<Bundle>>)
      reads this
      ensures r == bundles
      ensures RowCountOf(r) == RowCount()
    {
      bundles
    }

    /** `setBundles(l)`: replaces the list; the column schema is constant and stays as it was. */
    method SetBundles(l: Option<seq<Bundle>>)
      modifies this
      ensures Bundles() == l
      ensures RowCount() == RowCountOf(l)
      ensures ColumnCount() == 6
    {
      bundles := l;
    }

    /** `getColumnName(col)`: a name exactly for the columns the name array has. */
    function ColumnName(col: int): (r: Option<string>)
      ensures r.Some? <==> 0 <= col < ColumnCount()
      ensures r.Some? ==> r.value == columnNames[col]
    {
      match col
      case 0 | 1 | 2 | 3 | 4 | 5 => Some(columnNames[col])
      case _ => None
    }

    /** `getColumnClass(col)`: a class for exactly the columns that have a name. */
    function ColumnClass(col: int): (r: Option<JavaClass>)
      ensures r.Some? <==> ColumnName(col).Some?
    {
      match col
      case 0 => Some(JavaClass("io.foojay.api.discoclient.bundle.VersionNumber"))
      case 1 => Some(JavaClass("io.foojay.api.discoclient.bundle.Distribution"))
      case 2 => Some(JavaClass("java.lang.String"))
      case 3 => Some(JavaClass("io.foojay.api.discoclient.bundle.BundleType"))
      case 4 => Some(JavaClass("io.foojay.api.discoclient.bundle.ReleaseStatus"))
      case 5 => Some(JavaClass("io.foojay.api.discoclient.bundle.Extension"))
      case _ => None
    }

    /**
     The column schema, column by column: each name from the name array is
     paired with the class `getColumnClass` declares for it.
     */
    lemma ColumnSchema()
      ensures (ColumnName(0), ColumnClass(0)) == (Some("Version"), Some(JavaClass("io.foojay.api.discoclient.bundle.VersionNumber")))
      ensures (ColumnName(1), ColumnClass(1)) == (Some("Distribution"), Some(JavaClass("io.foojay.api.discoclient.bundle.Distribution")))
      ensures (ColumnName(2), ColumnClass(2)) == (Some("Vendor"), Some(JavaClass("java.lang.String")))
      ensures (ColumnName(3), ColumnClass(3)) == (Some("Bundle Type"), Some(JavaClass("io.foojay.api.discoclient.bundle.BundleType")))
      ensures (ColumnName(4), ColumnClass(4)) == (Some("Release Status"), Some(JavaClass("io.foojay.api.discoclient.bundle.ReleaseStatus")))
      ensures (ColumnName(5), ColumnClass(5)) == (Some("Extension"), Some(JavaClass("io.foojay.api.discoclient.bundle.Extension")))
    {
    }

    /** `getBundle(row)`: the bundle of the row; null outside the guard; throws at `RowCount()`. */
    function BundleAt(row: int): (r: Outcome<Option<Bundle>>)
      reads this
      ensures row < 0 || row > RowCount() ==> r == Returned(None)
      ensures 0 <= row < RowCount() ==> r == Returned(Some(bundles.value[row]))
      ensures row == RowCount() ==> r == Threw(PastEndException(bundles))
    {
      GuardedFetch(bundles, row)
    }

    /** `getVersionNumber(row)`. */
    function VersionNumberAt(row: int): (r: Outcome<Option<VersionNumber>>)
      reads this
      ensures row < 0 || row > RowCount() ==> r == Returned(None)
      ensures 0 <= row < RowCount() ==> r == Returned(Some(bundles.value[row].versionNumber))
      ensures row == RowCount() ==> r == Threw(PastEndException(bundles))
    {
      Project(GuardedFetch(bundles, row), (b: Bundle) => b.versionNumber)
    }

    /** `getDistribution(row)`. */
    function DistributionAt(row: int): (r: Outcome<Option<Distribution>>)
      reads this
      ensures row < 0 || row > RowCount() ==> r == Returned(None)
      ensures 0 <= row < RowCount() ==> r == Returned(Some(bundles.value[row].distribution))
      ensures row == RowCount() ==> r == Threw(PastEndException(bundles))
    {
      Project(GuardedFetch(bundles, row), (b: Bundle) => b.distribution)
    }

    /** `getVendor(row)`: the vendor of the row's distribution. */
    function VendorAt(row: int): (r: Outcome<Option<string>>)
      reads this
      ensures row < 0 || row > RowCount() ==> r == Returned(None)
      ensures 0 <= row < RowCount() ==> r == Returned(Some(bundles.value[row].distribution.vendor))
      ensures row == RowCount() ==> r == Threw(PastEndException(bundles))
    {
      Project(GuardedFetch(bundles, row), (b: Bundle) => b.distribution.vendor)
    }

    /** `getBundleType(row)`. */
    function BundleTypeAt(row: int): (r: Outcome<Option<BundleType>>)
      reads this
      ensures row < 0 || row > RowCount() ==> r == Returned(None)
      ensures 0 <= row < RowCount() ==> r == Returned(Some(bundles.value[row].bundleType))
      ensures row == RowCount() ==> r == Threw(PastEndException(bundles))
    {
      Project(GuardedFetch(bundles, row), (b: Bundle) => b.bundleType)
    }

    /** `getSupportTerm(row)`. */
    function SupportTermAt(row: int): (r: Outcome<Option<SupportTerm>>)
      reads this
      ensures row < 0 || row > RowCount() ==> r == Returned(None)
      ensures 0 <= row < RowCount() ==> r == Returned(Some(bundles.value[row].supportTerm))
      ensures row == RowCount() ==> r == Threw(PastEndException(bundles))
    {
      Project(GuardedFetch(bundles, row), (b: Bundle) => b.supportTerm)
    }

    /** `getReleaseStatus(row)`. */
    function ReleaseStatusAt(row: int): (r: Outcome<Option<ReleaseStatus>>)
      reads this
      ensures row < 0 || row > RowCount() ==> r == Returned(None)
      ensures 0 <= row < RowCount() ==> r == Returned(Some(bundles.value[row].releaseStatus))
      ensures row == RowCount() ==> r == Threw(PastEndException(bundles))
    {
      Project(GuardedFetch(bundles, row), (b: Bundle) => b.releaseStatus)
    }

    /** `getExtension(row)`. */
    function ExtensionAt(row: int): (r: Outcome<Option<Extension>>)
      reads this
      ensures row < 0 || row > RowCount() ==> r == Returned(None)
      ensures 0 <= row < RowCount() ==> r == Returned(Some(bundles.value[row].extension))
      ensures row == RowCount() ==> r == Threw(PastEndException(bundles))
    {
      Project(GuardedFetch(bundles, row), (b: Bundle) => b.extension)
    }

    /** `getFilename(row)`. */
    function FilenameAt(row: int): (r: Outcome<Option<string>>)
      reads this
      ensures row < 0 || row > RowCount() ==> r == Returned(None)
      ensures 0 <= row < RowCount() ==> r == Returned(Some(bundles.value[row].fileName))
      ensures row == RowCount() ==> r == Threw(PastEndException(bundles))
    {
      Project(GuardedFetch(bundles, row), (b: Bundle) => b.fileName)
    }

    /** `getRowCount()`: zero for a null list, the list's size otherwise. */
    function RowCount(): (n: int)
      reads this
      ensures n >= 0
      ensures bundles.None? ==> n == 0
      ensures bundles.Some? ==> n == |bundles.value|
    {
      RowCountOf(bundles)
    }

    /** `getColumnCount()`: the length of the column-name array, six. */
    function ColumnCount(): (n: int)
      ensures n == 6
    {
      |columnNames|
    }

    /**
     `getValueAt(row, col)`. Unlike the accessors its guard calls `bundles.size()`
     itself, so on a null list every row from 0 up throws; rows below 0 are
     rejected before the list is touched.
     */
    function ValueAt(row: int, col: int): (r: Outcome<Option<BundleCell>>)
      reads this
      ensures row < 0 ==> r == Returned(None)
      ensures row >= 0 && bundles.None? ==> r == Threw(NullPointerException)
      ensures bundles.Some? && row > RowCount() ==> r == Returned(None)
      ensures bundles.Some? && row == RowCount() ==> r == Threw(IndexOutOfBoundsException)
      ensures 0 <= row < RowCount() ==> r.Returned? && (r.value.Some? <==> 0 <= col < ColumnCount())
    {
      if row < 0 then Returned(None)
      else
        match SizeOf(bundles)
        case Threw(e) => Threw(e)
        case Returned(n) =>
          if row > n then Returned(None)
          else
            match ListGet(bundles, row)
            case Threw(e) => Threw(e)
            case Returned(b) => Returned(CellOf(b, col))
    }

    /**
     Each column of `getValueAt` shows what the matching accessor returns:
     the version itself, the distribution's display string, the vendor, the
     bundle type's display string, the release status's name and the
     extension's display string, in that order.
     */
    lemma ValueAtAgreesWithAccessors(row: int)
      requires 0 <= row < RowCount()
      ensures ValueAt(row, 0) == Returned(Some(VersionCell(VersionNumberAt(row).value.value)))
      ensures ValueAt(row, 1) == Returned(Some(TextCell(DistributionAt(row).value.value.uiString)))
      ensures ValueAt(row, 2) == Returned(Some(TextCell(VendorAt(row).value.value)))
      ensures ValueAt(row, 3) == Returned(Some(TextCell(BundleTypeAt(row).value.value.uiString)))
      ensures ValueAt(row, 4) == Returned(Some(TextCell(ReleaseStatusAt(row).value.value.name)))
      ensures ValueAt(row, 5) == Returned(Some(TextCell(ExtensionAt(row).value.value.uiString)))
    {
    }

    /**
     `getValueAt` returns null exactly for negative rows, rows past the
     row-count guard of a non-null list, and columns without a name.
     */
    lemma ValueAtNullExactly(row: int, col: int)
      ensures ValueAt(row, col) == Returned(None) <==>
        row < 0 || (bundles.Some? && row > RowCount()) || (0 <= row < RowCount() && ColumnName(col).None?)
    {
    }

    /**
     The class a cell's value has agrees with `getColumnClass` only in the
     version and vendor columns; the other four columns declare an enum class
     but hold display strings.
     */
    lemma CellClassMatchesColumnClass(row: int, col: int)
      requires 0 <= row < RowCount() && 0 <= col < ColumnCount()
      ensures ValueAt(row, col).Returned? && ValueAt(row, col).value.Some? && ColumnClass(col).Some?
      ensures CellClass(ValueAt(row, col).value.value) == ColumnClass(col).value <==> col == 0 || col == 2
    {
    }

    /**
     The off-by-one, as written: on a non-null list, `getBundle` and
     `getValueAt` at row `getRowCount()` pass their guards and throw.
     */
    lemma RowCountPassesGuard()
      requires bundles.Some?
      ensures BundleAt(RowCount()) == Threw(IndexOutOfBoundsException)
      ensures forall col :: ValueAt(RowCount(), col) == Threw(IndexOutOfBoundsException)
    {
    }
  }
}
