# foojay NetBeans plugin: table models and main-window logic

This project models, in Dafny, the logic the foojay Disco NetBeans plugin owns
beside its Swing widgets:

- `BundleTableModel` and `PackageTableModel`, the two table models that show a
  list of bundles (or packages) fetched from the Disco client, one per row, in
  a fixed set of columns. Each is a class whose only mutable state is the row
  list, which may be null. The column lookups, the row accessors and
  `getValueAt` are functions of that state; `setBundles`/`setPkgs` are methods.
- From `Main`: the operating-system detection `getOperatingSystem`, the list of
  feature versions the version combo box offers, and the list of bundle types
  the bundle-type combo box offers.

Java's `null` is `Option.None`. A Java call that can throw is modelled as an
`Outcome`: `Returned(v)` or `Threw(e)`, where `e` is a `NullPointerException`
(a null list) or an `IndexOutOfBoundsException` (`List.get` outside the list).
Every row accessor is modelled as written, so its contract shows exactly which
rows give a value, which give null and which throw.

`BundleTypeChoices` uses the list of the enum's constants as an input.
`OperatingSystemOf` does the same with the value of the `os.name` property.
The client library's records, `Bundle` and `Pkg`, are datatypes that hold only
the properties the tables read. Its enum constants are datatypes too; each
carries its `name()` and, where the plugin calls it, its `getUiString()`.

Files:

- `java_lang.dfy`: null, exceptions, outcomes and class tokens. Also the
  semantics of `List.size()`/`List.get(int)` on a list that may be null, and
  ASCII `toLowerCase`/`toUpperCase` and `indexOf` (positions counted in
  Unicode scalar values).
- `disco_types.dfy`: the client's `bundle` and `pkg` value types.
- `table_rows.dfy`: the row count and the guarded fetch both table models
  share, and the fetch with the intended guard.
- `bundle_table.dfy`, `package_table.dfy`: the two table models.
- `main_window.dfy`: OS detection, the version list and the bundle-type
  choices.

Observation, proved as a lemma and not claimed as a bug: `getColumnClass`
declares enum classes for several columns whose `getValueAt` value is a
display string. This holds in columns 1, 3, 4 and 5 of the bundle table and
in columns 1 to 4 of the package table. Swing still renders and sorts such
cells, so the lemmas `CellClassMatchesColumnClass` state exactly where the two
agree.

## Model

| member | source | states |
|---|---|---|
| `TableRows.RowCountOf` | src/main/java/io/foojay/api/nbplugin/BundleTableModel.java:115-118 | a null row list has 0 rows; any other list has one row per element |
| `TableRows.GuardedFetch` | src/main/java/io/foojay/api/nbplugin/BundleTableModel.java:70-73 | the shared guard-and-fetch: null for row < 0 or row > row count, the element for rows inside the list, a throw at row == row count |
| `TableRows.GuardAdmitsRowCount` | src/main/java/io/foojay/api/nbplugin/BundleTableModel.java:71 | the guard lets row == row count through on every list, so that row throws; on a non-null list the exception is IndexOutOfBounds |
| `TableRows.OneRowTableThrowsAtRowOne` | src/main/java/io/foojay/api/nbplugin/PackageTableModel.java:69 | a concrete case: a one-row list asked for row 1 throws instead of returning null |
| `TableRows.CheckedFetch` | src/main/java/io/foojay/api/nbplugin/BundleTableModel.java:71-72 | the intended guard (row >= row count): never throws, gives an element exactly for 0 <= row < row count, and gives that row's element |
| `TableRows.CheckedFetchAgrees` | src/main/java/io/foojay/api/nbplugin/PackageTableModel.java:69-70 | the written and the intended guard agree on every row except row == row count, where the first throws and the second returns null |
| `BundleTable.BundleTableModel.constructor` | src/main/java/io/foojay/api/nbplugin/BundleTableModel.java:36-38 | a new table holds exactly the given list, and its row count is that list's |
| `BundleTable.BundleTableModel.Bundles` | src/main/java/io/foojay/api/nbplugin/BundleTableModel.java:41 | `getBundles()` returns the list field itself, whose row count is `getRowCount()` |
| `BundleTable.BundleTableModel.SetBundles` | src/main/java/io/foojay/api/nbplugin/BundleTableModel.java:41-44 | after `setBundles(l)`, `getBundles()` is exactly `l`, the row count is that of `l`, and the column count is still 6 |
| `BundleTable.BundleTableModel.ColumnName` | src/main/java/io/foojay/api/nbplugin/BundleTableModel.java:46-56 | a name exactly for 0 <= col < getColumnCount(), and it is columnNames[col]; null for every other column |
| `BundleTable.BundleTableModel.ColumnClass` | src/main/java/io/foojay/api/nbplugin/BundleTableModel.java:58-68 | a class exactly for the columns that have a name, null otherwise |
| `BundleTable.BundleTableModel.ColumnSchema` | src/main/java/io/foojay/api/nbplugin/BundleTableModel.java:32-68 | columns 0 to 5 are, in order, Version/VersionNumber, Distribution/Distribution, Vendor/String, Bundle Type/BundleType, Release Status/ReleaseStatus and Extension/Extension (name/class) |
| `BundleTable.BundleTableModel.BundleAt` | src/main/java/io/foojay/api/nbplugin/BundleTableModel.java:70-73 | bundles[row] for 0 <= row < row count, null for row < 0 or row > row count, a throw at row == row count (NullPointer when the list is null, IndexOutOfBounds otherwise) |
| `BundleTable.BundleTableModel.VersionNumberAt` | src/main/java/io/foojay/api/nbplugin/BundleTableModel.java:75-78 | the same three cases, with the version number of bundles[row] |
| `BundleTable.BundleTableModel.DistributionAt` | src/main/java/io/foojay/api/nbplugin/BundleTableModel.java:80-83 | the same three cases, with the distribution of bundles[row] |
| `BundleTable.BundleTableModel.VendorAt` | src/main/java/io/foojay/api/nbplugin/BundleTableModel.java:85-88 | the same three cases, with the vendor of the distribution of bundles[row] |
| `BundleTable.BundleTableModel.BundleTypeAt` | src/main/java/io/foojay/api/nbplugin/BundleTableModel.java:90-93 | the same three cases, with the bundle type of bundles[row] |
| `BundleTable.BundleTableModel.SupportTermAt` | src/main/java/io/foojay/api/nbplugin/BundleTableModel.java:95-98 | the same three cases, with the support term of bundles[row] |
| `BundleTable.BundleTableModel.ReleaseStatusAt` | src/main/java/io/foojay/api/nbplugin/BundleTableModel.java:100-103 | the same three cases, with the release status of bundles[row] |
| `BundleTable.BundleTableModel.ExtensionAt` | src/main/java/io/foojay/api/nbplugin/BundleTableModel.java:105-108 | the same three cases, with the extension of bundles[row] |
| `BundleTable.BundleTableModel.FilenameAt` | src/main/java/io/foojay/api/nbplugin/BundleTableModel.java:110-113 | the same three cases, with the file name of bundles[row] |
| `BundleTable.BundleTableModel.RowCount` | src/main/java/io/foojay/api/nbplugin/BundleTableModel.java:115-118 | 0 when the list is null, the list's size otherwise |
| `BundleTable.BundleTableModel.ColumnCount` | src/main/java/io/foojay/api/nbplugin/BundleTableModel.java:120-122 | always 6, the length of the column-name array |
| `BundleTable.BundleTableModel.ValueAt` | src/main/java/io/foojay/api/nbplugin/BundleTableModel.java:124-136 | null for row < 0, a NullPointer throw for any other row of a null list, null past the row count, an IndexOutOfBounds throw at the row count, and for rows in the list a value exactly for the 6 columns |
| `BundleTable.CellOf` | src/main/java/io/foojay/api/nbplugin/BundleTableModel.java:127-135 | the column switch gives a value exactly for columns 0 to 5 |
| `BundleTable.BundleTableModel.ValueAtAgreesWithAccessors` | src/main/java/io/foojay/api/nbplugin/BundleTableModel.java:128-133 | columns 0 to 5 of getValueAt show, in order, the version, the distribution's UI string, the vendor, the bundle type's UI string, the release status's name and the extension's UI string, as the row accessors return them |
| `BundleTable.BundleTableModel.ValueAtNullExactly` | src/main/java/io/foojay/api/nbplugin/BundleTableModel.java:125 | getValueAt is null exactly for row < 0, for rows past the row count of a non-null list, and for rows in the list with a column that has no name |
| `BundleTable.BundleTableModel.CellClassMatchesColumnClass` | src/main/java/io/foojay/api/nbplugin/BundleTableModel.java:58-68 | in a row of the list, the class of a cell's value equals getColumnClass exactly in columns 0 and 2 |
| `BundleTable.BundleTableModel.RowCountPassesGuard` | src/main/java/io/foojay/api/nbplugin/BundleTableModel.java:125 | on a non-null list, getBundle and getValueAt (any column) at row == row count throw IndexOutOfBounds |
| `PackageTable.PackageTableModel.constructor` | src/main/java/io/foojay/api/nbplugin/PackageTableModel.java:36-38 | a new table holds exactly the given list, and its row count is that list's |
| `PackageTable.PackageTableModel.Pkgs` | src/main/java/io/foojay/api/nbplugin/PackageTableModel.java:41 | `getPkgs()` returns the list field itself, whose row count is `getRowCount()` |
| `PackageTable.PackageTableModel.SetPkgs` | src/main/java/io/foojay/api/nbplugin/PackageTableModel.java:41-44 | after `setPkgs(l)`, `getPkgs()` is exactly `l`, the row count is that of `l`, and the column count is still 5 |
| `PackageTable.PackageTableModel.ColumnName` | src/main/java/io/foojay/api/nbplugin/PackageTableModel.java:46-55 | a name exactly for 0 <= col < getColumnCount(), and it is columnNames[col]; null for every other column |
| `PackageTable.PackageTableModel.ColumnClass` | src/main/java/io/foojay/api/nbplugin/PackageTableModel.java:57-66 | a class exactly for the columns that have a name, null otherwise |
| `PackageTable.PackageTableModel.ColumnSchema` | src/main/java/io/foojay/api/nbplugin/PackageTableModel.java:32-66 | columns 0 to 4 are, in order, Version/SemVer, Distribution/Distribution, PackageType/PackageType, Release Status/ReleaseStatus and ArchiveType/ArchiveType (name/class) |
| `PackageTable.PackageTableModel.PkgAt` | src/main/java/io/foojay/api/nbplugin/PackageTableModel.java:68-71 | pkgs[row] for 0 <= row < row count, null for row < 0 or row > row count, a throw at row == row count (NullPointer when the list is null, IndexOutOfBounds otherwise) |
| `PackageTable.PackageTableModel.JavaVersionAt` | src/main/java/io/foojay/api/nbplugin/PackageTableModel.java:73-76 | the same three cases, with the Java version of pkgs[row] |
| `PackageTable.PackageTableModel.DistributionAt` | src/main/java/io/foojay/api/nbplugin/PackageTableModel.java:78-81 | the same three cases, with the distribution of pkgs[row] |
| `PackageTable.PackageTableModel.PkgTypeAt` | src/main/java/io/foojay/api/nbplugin/PackageTableModel.java:83-86 | the same three cases, with the package type of pkgs[row] |
| `PackageTable.PackageTableModel.TermOfSupportAt` | src/main/java/io/foojay/api/nbplugin/PackageTableModel.java:88-91 | the same three cases, with the term of support of pkgs[row] |
| `PackageTable.PackageTableModel.ReleaseStatusAt` | src/main/java/io/foojay/api/nbplugin/PackageTableModel.java:93-96 | the same three cases, with the release status of pkgs[row] |
| `PackageTable.PackageTableModel.ArchiveTypeAt` | src/main/java/io/foojay/api/nbplugin/PackageTableModel.java:98-101 | the same three cases, with the archive type of pkgs[row] |
| `PackageTable.PackageTableModel.FilenameAt` | src/main/java/io/foojay/api/nbplugin/PackageTableModel.java:103-106 | the same three cases, with the file name of pkgs[row] |
| `PackageTable.PackageTableModel.RowCount` | src/main/java/io/foojay/api/nbplugin/PackageTableModel.java:108-111 | 0 when the list is null, the list's size otherwise |
| `PackageTable.PackageTableModel.ColumnCount` | src/main/java/io/foojay/api/nbplugin/PackageTableModel.java:113-115 | always 5, the length of the column-name array |
| `PackageTable.PackageTableModel.ValueAt` | src/main/java/io/foojay/api/nbplugin/PackageTableModel.java:117-128 | null for row < 0, a NullPointer throw for any other row of a null list, null past the row count, an IndexOutOfBounds throw at the row count, and for rows in the list a value exactly for the 5 columns |
| `PackageTable.CellOf` | src/main/java/io/foojay/api/nbplugin/PackageTableModel.java:120-127 | the column switch gives a value exactly for columns 0 to 4 |
| `PackageTable.PackageTableModel.ValueAtAgreesWithAccessors` | src/main/java/io/foojay/api/nbplugin/PackageTableModel.java:121-125 | columns 0 to 4 of getValueAt show, in order, the Java version, the distribution's UI string, the package type's UI string, the release status's name and the archive type's UI string, as the row accessors return them |
| `PackageTable.PackageTableModel.ValueAtNullExactly` | src/main/java/io/foojay/api/nbplugin/PackageTableModel.java:118 | getValueAt is null exactly for row < 0, for rows past the row count of a non-null list, and for rows in the list with a column that has no name |
| `PackageTable.PackageTableModel.CellClassMatchesColumnClass` | src/main/java/io/foojay/api/nbplugin/PackageTableModel.java:57-66 | in a row of the list, the class of a cell's value equals getColumnClass only in column 0 |
| `PackageTable.PackageTableModel.RowCountPassesGuard` | src/main/java/io/foojay/api/nbplugin/PackageTableModel.java:118 | on a non-null list, getPkg and getValueAt (any column) at row == row count throw IndexOutOfBounds |
| `JavaStrings.ToLowerCase` | src/main/java/io/foojay/api/nbplugin/Main.java:253 | the lower-cased name has the same length and is lower-cased character by character (ASCII) |
| `JavaStrings.IndexOf` | src/main/java/io/foojay/api/nbplugin/Main.java:254 | indexOf is >= 0 exactly when the pattern occurs, and then it is the first position where it occurs; otherwise it is -1 |
| `JavaStrings.LowerIdempotent` | src/main/java/io/foojay/api/nbplugin/Main.java:253 | lower-casing an already lower-cased name changes nothing |
| `MainWindow.OperatingSystemOf` | src/main/java/io/foojay/api/nbplugin/Main.java:252-265 | WINDOWS exactly when the lower-cased name contains "win"; MACOS exactly when it contains "mac" and not "win"; LINUX exactly when it contains "nix" or "nux" and neither earlier one; SOLARIS exactly when it contains "sunos" and none of the earlier ones; NONE exactly when it contains none of them |
| `MainWindow.OperatingSystemIgnoresCase` | src/main/java/io/foojay/api/nbplugin/Main.java:253 | names that lower-case to the same string are classified alike; upper-casing or lower-casing a name does not change its class |
| `MainWindow.WinAnywhereIsWindows` | src/main/java/io/foojay/api/nbplugin/Main.java:254-255 | any name with "win" in it, in any case and with anything before or after it, is WINDOWS |
| `MainWindow.DarwinIsWindows` | src/main/java/io/foojay/api/nbplugin/Main.java:254-257 | "Darwin" is classified as WINDOWS, not MACOS, because the "win" test comes first |
| `MainWindow.Windows10IsWindows` | src/main/java/io/foojay/api/nbplugin/Main.java:254-255 | "Windows 10" is WINDOWS |
| `MainWindow.MacOsXIsMacOS` | src/main/java/io/foojay/api/nbplugin/Main.java:256-257 | "Mac OS X" is MACOS |
| `MainWindow.LinuxIsLinux` | src/main/java/io/foojay/api/nbplugin/Main.java:258-259 | "Linux" is LINUX |
| `MainWindow.SunOsIsSolaris` | src/main/java/io/foojay/api/nbplugin/Main.java:260-261 | "SunOS" is SOLARIS |
| `MainWindow.FreeBsdIsUnrecognized` | src/main/java/io/foojay/api/nbplugin/Main.java:262-264 | "FreeBSD" matches no test and is NONE |
| `MainWindow.FeatureVersions` | src/main/java/io/foojay/api/nbplugin/Main.java:80-81 | the list is 6, 7, ..., nextFeatureRelease: entry k is 6 + k; its length is max(0, nextFeatureRelease - 5); v is in it exactly when 6 <= v <= nextFeatureRelease; it is strictly ascending |
| `MainWindow.Without` | src/main/java/io/foojay/api/nbplugin/Main.java:109 | one filter stage keeps exactly the constants whose name differs from the excluded one, and is no longer than its input |
| `MainWindow.BundleTypeChoices` | src/main/java/io/foojay/api/nbplugin/Main.java:109 | a bundle type is offered exactly when the enum lists it and it is neither NONE nor NOT_FOUND |
| `MainWindow.WithoutConcat` | src/main/java/io/foojay/api/nbplugin/Main.java:109 | a filter stage distributes over concatenation, so it keeps the input's order |
| `MainWindow.ChoicesConcat` | src/main/java/io/foojay/api/nbplugin/Main.java:109 | the choices of a concatenation are the choices of each part, in order: the enum's declaration order is kept |
| `MainWindow.ChoicesCount` | src/main/java/io/foojay/api/nbplugin/Main.java:109 | every type other than NONE and NOT_FOUND is offered as many times as the enum lists it, and NONE and NOT_FOUND never |
| `MainWindow.ChoicesIdempotent` | src/main/java/io/foojay/api/nbplugin/Main.java:109 | filtering the choices again changes nothing |

## Left out

- Swing: layout, painting, event wiring, the combo boxes, the file chooser,
  `fireTableDataChanged` and the `AbstractTableModel` listener machinery.
  This is presentation code with no contract of its own apart from the toolkit.
- Every `DiscoClient` call (`getRelease`, `getBundles`, `getBundleFileInfo`,
  `downloadBundle`) and `Main.updateData` and `Main.downloadBundle`, which only
  forward those calls. The library is not part of this model. Its results
  appear only as inputs: the row lists, `nextFeatureRelease` and the enum's
  constants.
- `Main.handleDCEvent` and the download-progress updates. They are
  notifications from the client's worker threads, marshalled back with
  `invokeLater`. The progress percentage is computed in floating point.
- `DrillDownSelector.java` and `JdkSelector.java`: their per-version caching and
  widget enabling are interleaved with widget state and client calls. They
  are not part of this model.
- `System.getProperty("os.name")` is an input string; a null property value
  (which would throw) is not modelled.
- `JavaStrings.IndexOf`: positions count Unicode scalar values (Dafny's
  `char`), not UTF-16 code units as Java's `String.indexOf` does, so a
  supplementary character before the match gives Java an index one larger.
  Its only callers, the tests of `getOperatingSystem`, use only whether the
  result is >= 0, which is the same under both counts.
- `JavaStrings.ToLowerCase`: lower-cases ASCII letters only. Java's
  locale-sensitive `toLowerCase` also maps non-ASCII letters, and under some
  locales (Turkish) maps 'I' differently.
- The row list is a Dafny value. A Java `List` is shared by reference, so a
  caller that changes the list after `setBundles`/`setPkgs` also changes the
  table. That aliasing is not captured.
- Null elements inside a row list, and null fields inside a bundle or package,
  are not modelled: the element and every field are assumed non-null. In Java,
  a null element is returned as null by `getBundle`/`getPkg`, and a null field
  is returned as null by its own accessor (`getVersionNumber`,
  `getDistribution`, `getFilename`, ...). `getValueAt` on a null element
  returns null for a column outside the schema, before any dereference. A
  NullPointerException is thrown by every other accessor on a null element,
  by `getVendor` on a null distribution, by `getValueAt` in columns 0 to 5
  (bundles) or 0 to 4 (packages) on a null element, and by `getValueAt` in
  columns 1 to 5 (bundles) or 1 to 4 (packages) on a null field.
- `MainWindow.FeatureVersions`: requires nextFeatureRelease < Integer.MAX_VALUE.
  Java's `i++` wraps at Integer.MAX_VALUE and Dafny's `int` does not, so that
  value is excluded. Near Integer.MAX_VALUE the Java loop would add about two
  billion entries to an `ArrayList` and end with an OutOfMemoryError, which
  the model does not capture: memory exhaustion is not modelled.
- The client's enums and records are opaque. Enum identity (`!=` on enum
  constants) is modelled as inequality of `name()`. The declaration order of
  `BundleType.values()` is an input.
- `versionComboBox.setSelectedItem(lastLtsFeatureRelease)` is widget state and
  is not modelled. By `FeatureVersions`, that item is in the list exactly when
  6 <= lastLtsFeatureRelease <= nextFeatureRelease.

## Findings

| source | as written | input that shows it | evidently intended | confidence | as-written member | corrected member |
|---|---|---|---|---|---|---|
| src/main/java/io/foojay/api/nbplugin/BundleTableModel.java:71 | every row accessor, and `getValueAt` at line 125, rejects only `row > getRowCount()`, so `row == getRowCount()` reaches `bundles.get(row)` | a table holding one bundle, asked for row 1: IndexOutOfBoundsException instead of null (a null list asked for row 0: NullPointerException) | reject `row >= getRowCount()`: null for every row outside the list | not executed; high | `BundleTable.BundleTableModel.RowCountPassesGuard` | `TableRows.CheckedFetch` |
| src/main/java/io/foojay/api/nbplugin/PackageTableModel.java:69 | the same guard in every row accessor and in `getValueAt` at line 118 lets `row == getRowCount()` reach `pkgs.get(row)` | a table holding one package, asked for row 1: IndexOutOfBoundsException instead of null | reject `row >= getRowCount()` | not executed; high | `PackageTable.PackageTableModel.RowCountPassesGuard` | `TableRows.CheckedFetch` |

The table models keep the accessors as written. `TableRows.CheckedFetch` is the
corrected fetch. `TableRows.CheckedFetchAgrees` proves that it differs from the
written guard on row == row count only.
