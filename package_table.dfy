/**
 `PackageTableModel`: the Swing table model that shows a list of packages, one
 per row, in five fixed columns. The list is the only state; it may be null.
 */
module PackageTable {
  import opened JavaLang
  import opened DiscoPkg
  import opened TableRows

  /** What `getValueAt` can return: a Java version, or a display string. */
  datatype PkgCell = SemVerCell(version: SemVer) | TextCell(text: string)

  /** The class of a cell value. */
  function CellClass(v: PkgCell): JavaClass
  {
    match v
    case SemVerCell(_) => JavaClass("io.foojay.api.discoclient.pkg.SemVer")
    case TextCell(_) => JavaClass("java.lang.String")
  }

  /** The `switch` of `getValueAt` for one package: the display value of column `col`. */
  function CellOf(p: Pkg, col: int): (v: Option<PkgCell>)
    ensures v.Some? <==> 0 <= col < 5
  {
    match col
    case 0 => Some(SemVerCell(p.javaVersion))
    case 1 => Some(TextCell(p.distribution.uiString))
    case 2 => Some(TextCell(p.packageType.uiString))
    case 3 => Some(TextCell(p.releaseStatus.name))
    case 4 => Some(TextCell(p.archiveType.uiString))
    case _ => None
  }

  class PackageTableModel {
    const columnNames: seq<string> := ["Version", "Distribution", "PackageType", "Release Status", "ArchiveType"]
    var pkgs: Option<seq<Pkg>>

    /** The constructor: the table shows exactly the given list. */
    constructor (pkgs: Option<seq<Pkg>>)
      ensures this.pkgs == pkgs
      ensures Pkgs() == pkgs && RowCount() == RowCountOf(pkgs)
    {
      this.pkgs := pkgs;
    }

    /** `getPkgs()`: the list last given to the constructor or to `SetPkgs`. */
    function Pkgs(): (r: Option<seq<Pkg>>)
      reads this
      ensures r == pkgs
      ensures RowCountOf(r) == RowCount()
    {
      pkgs
    }

    /** `setPkgs(l)`: replaces the list; the column schema is constant and stays as it was. */
    method SetPkgs(l: Option<seq<Pkg>>)
      modifies this
      ensures Pkgs() == l
      ensures RowCount() == RowCountOf(l)
      ensures ColumnCount() == 5
    {
      pkgs := l;
    }

    /** `getColumnName(col)`: a name exactly for the columns the name array has. */
    function ColumnName(col: int): (r: Option<string>)
      ensures r.Some? <==> 0 <= col < ColumnCount()
      ensures r.Some? ==> r.value == columnNames[col]
    {
      match col
      case 0 | 1 | 2 | 3 | 4 => Some(columnNames[col])
      case _ => None
    }

    /** `getColumnClass(col)`: a class for exactly the columns that have a name. */
    function ColumnClass(col: int): (r: Option<JavaClass>)
      ensures r.Some? <==> ColumnName(col).Some?
    {
      match col
      case 0 => Some(JavaClass("io.foojay.api.discoclient.pkg.SemVer"))
      case 1 => Some(JavaClass("io.foojay.api.discoclient.pkg.Distribution"))
      case 2 => Some(JavaClass("io.foojay.api.discoclient.pkg.PackageType"))
      case 3 => Some(JavaClass("io.foojay.api.discoclient.pkg.ReleaseStatus"))
      case 4 => Some(JavaClass("io.foojay.api.discoclient.pkg.ArchiveType"))
      case _ => None
    }

    /**
     The column schema, column by column: each name from the name array is
     paired with the class `getColumnClass` declares for it.
     */
    lemma ColumnSchema()
      ensures (ColumnName(0), ColumnClass(0)) == (Some("Version"), Some(JavaClass("io.foojay.api.discoclient.pkg.SemVer")))
      ensures (ColumnName(1), ColumnClass(1)) == (Some("Distribution"), Some(JavaClass("io.foojay.api.discoclient.pkg.Distribution")))
      ensures (ColumnName(2), ColumnClass(2)) == (Some("PackageType"), Some(JavaClass("io.foojay.api.discoclient.pkg.PackageType")))
      ensures (ColumnName(3), ColumnClass(3)) == (Some("Release Status"), Some(JavaClass("io.foojay.api.discoclient.pkg.ReleaseStatus")))
      ensures (ColumnName(4), ColumnClass(4)) == (Some("ArchiveType"), Some(JavaClass("io.foojay.api.discoclient.pkg.ArchiveType")))
    {
    }

    /** `getPkg(row)`: the package of the row; null outside the guard; throws at `RowCount()`. */
    function PkgAt(row: int): (r: Outcome<Option<Pkg>>)
      reads this
      ensures row < 0 || row > RowCount() ==> r == Returned(None)
      ensures 0 <= row < RowCount() ==> r == Returned(Some(pkgs.value[row]))
      ensures row == RowCount() ==> r == Threw(PastEndException(pkgs))
    {
      GuardedFetch(pkgs, row)
    }

    /** `getJavaVersion(row)`. */
    function JavaVersionAt(row: int): (r: Outcome<Option<SemVer>>)
      reads this
      ensures row < 0 || row > RowCount() ==> r == Returned(None)
      ensures 0 <= row < RowCount() ==> r == Returned(Some(pkgs.value[row].javaVersion))
      ensures row == RowCount() ==> r == Threw(PastEndException(pkgs))
    {
      Project(GuardedFetch(pkgs, row), (p: Pkg) => p.javaVersion)
    }

    /** `getDistribution(row)`. */
    function DistributionAt(row: int): (r: Outcome<Option<Distribution>>)
      reads this
      ensures row < 0 || row > RowCount() ==> r == Returned(None)
      ensures 0 <= row < RowCount() ==> r == Returned(Some(pkgs.value[row].distribution))
      ensures row == RowCount() ==> r == Threw(PastEndException(pkgs))
    {
      Project(GuardedFetch(pkgs, row), (p: Pkg) => p.distribution)
    }

    /** `getPkgType(row)`. */
    function PkgTypeAt(row: int): (r: Outcome<Option<PackageType>>)
      reads this
      ensures row < 0 || row > RowCount() ==> r == Returned(None)
      ensures 0 <= row < RowCount() ==> r == Returned(Some(pkgs.value[row].packageType))
      ensures row == RowCount() ==> r == Threw(PastEndException(pkgs))
    {
      Project(GuardedFetch(pkgs, row), (p: Pkg) => p.packageType)
    }

    /** `getTermOfSupport(row)`. */
    function TermOfSupportAt(row: int): (r: Outcome<Option<TermOfSupport>>)
      reads this
      ensures row < 0 || row > RowCount() ==> r == Returned(None)
      ensures 0 <= row < RowCount() ==> r == Returned(Some(pkgs.value[row].termOfSupport))
      ensures row == RowCount() ==> r == Threw(PastEndException(pkgs))
    {
      Project(GuardedFetch(pkgs, row), (p: Pkg) => p.termOfSupport)
    }

    /** `getReleaseStatus(row)`. */
    function ReleaseStatusAt(row: int): (r: Outcome<Option<ReleaseStatus>>)
      reads this
      ensures row < 0 || row > RowCount() ==> r == Returned(None)
      ensures 0 <= row < RowCount() ==> r == Returned(Some(pkgs.value[row].releaseStatus))
      ensures row == RowCount() ==> r == Threw(PastEndException(pkgs))
    {
      Project(GuardedFetch(pkgs, row), (p: Pkg) => p.releaseStatus)
    }

    /** `getArchiveType(row)`. */
    function ArchiveTypeAt(row: int): (r: Outcome<Option<ArchiveType>>)
      reads this
      ensures row < 0 || row > RowCount() ==> r == Returned(None)
      ensures 0 <= row < RowCount() ==> r == Returned(Some(pkgs.value[row].archiveType))
      ensures row == RowCount() ==> r == Threw(PastEndException(pkgs))
    {
      Project(GuardedFetch(pkgs, row), (p: Pkg) => p.archiveType)
    }

    /** `getFilename(row)`. */
    function FilenameAt(row: int): (r: Outcome<Option<string>>)
      reads this
      ensures row < 0 || row > RowCount() ==> r == Returned(None)
      ensures 0 <= row < RowCount() ==> r == Returned(Some(pkgs.value[row].fileName))
      ensures row == RowCount() ==> r == Threw(PastEndException(pkgs))
    {
      Project(GuardedFetch(pkgs, row), (p: Pkg) => p.fileName)
    }

    /** `getRowCount()`: zero for a null list, the list's size otherwise. */
    function RowCount(): (n: int)
      reads this
      ensures n >= 0
      ensures pkgs.None? ==> n == 0
      ensures pkgs.Some? ==> n == |pkgs.value|
    {
      RowCountOf(pkgs)
    }

    /** `getColumnCount()`: the length of the column-name array, five. */
    function ColumnCount(): (n: int)
      ensures n == 5
    {
      |columnNames|
    }

    /**
     `getValueAt(row, col)`. Unlike the accessors its guard calls `pkgs.size()`
     itself, so on a null list every row from 0 up throws; rows below 0 are
     rejected before the list is touched.
     */
    function ValueAt(row: int, col: int): (r: Outcome<Option<PkgCell>>)
      reads this
      ensures row < 0 ==> r == Returned(None)
      ensures row >= 0 && pkgs.None? ==> r == Threw(NullPointerException)
      ensures pkgs.Some? && row > RowCount() ==> r == Returned(None)
      ensures pkgs.Some? && row == RowCount() ==> r == Threw(IndexOutOfBoundsException)
      ensures 0 <= row < RowCount() ==> r.Returned? && (r.value.Some? <==> 0 <= col < ColumnCount())
    {
      if row < 0 then Returned(None)
      else
        match SizeOf(pkgs)
        case Threw(e) => Threw(e)
        case Returned(n) =>
          if row > n then Returned(None)
          else
            match ListGet(pkgs, row)
            case Threw(e) => Threw(e)
            case Returned(p) => Returned(CellOf(p, col))
    }

    /**
     Each column of `getValueAt` shows what the matching accessor returns:
     the Java version itself, then the display strings of the distribution
     and the package type, the release status's name and the archive type's
     display string, in that order.
     */
    lemma ValueAtAgreesWithAccessors(row: int)
      requires 0 <= row < RowCount()
      ensures ValueAt(row, 0) == Returned(Some(SemVerCell(JavaVersionAt(row).value.value)))
      ensures ValueAt(row, 1) == Returned(Some(TextCell(DistributionAt(row).value.value.uiString)))
      ensures ValueAt(row, 2) == Returned(Some(TextCell(PkgTypeAt(row).value.value.uiString)))
      ensures ValueAt(row, 3) == Returned(Some(TextCell(ReleaseStatusAt(row).value.value.name)))
      ensures ValueAt(row, 4) == Returned(Some(TextCell(ArchiveTypeAt(row).value.value.uiString)))
    {
    }

    /**
     `getValueAt` returns null exactly for negative rows, rows past the
     row-count guard of a non-null list, and columns without a name.
     */
    lemma ValueAtNullExactly(row: int, col: int)
      ensures ValueAt(row, col) == Returned(None) <==>
        row < 0 || (pkgs.Some? && row > RowCount()) || (0 <= row < RowCount() && ColumnName(col).None?)
    {
    }

    /**
     The class a cell's value has agrees with `getColumnClass` only in the
     version column; the other four columns declare an enum class but hold
     display strings.
     */
    lemma CellClassMatchesColumnClass(row: int, col: int)
      requires 0 <= row < RowCount() && 0 <= col < ColumnCount()
      ensures ValueAt(row, col).Returned? && ValueAt(row, col).value.Some? && ColumnClass(col).Some?
      ensures CellClass(ValueAt(row, col).value.value) == ColumnClass(col).value <==> col == 0
    {
    }

    /**
     The off-by-one, as written: on a non-null list, `getPkg` and
     `getValueAt` at row `getRowCount()` pass their guards and throw.
     */
    lemma RowCountPassesGuard()
      requires pkgs.Some?
      ensures PkgAt(RowCount()) == Threw(IndexOutOfBoundsException)
      ensures forall col :: ValueAt(RowCount(), col) == Threw(IndexOutOfBoundsException)
    {
    }
  }
}
