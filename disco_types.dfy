/**
 The values of the Disco client library's `io.foojay.api.discoclient.bundle`
 package that this plugin reads. The library itself is not part of this model:
 each type carries only what the plugin asks of it. An enum constant carries
 its `name()` and, where the plugin calls it, its `getUiString()`.
 */
module DiscoBundle {

  /** A JDK version number, held opaquely. */
  datatype VersionNumber = VersionNumber(text: string)

  /** A JDK distribution with its display string and its vendor. */
  datatype Distribution = Distribution(name: string, uiString: string, vendor: string)

  /** JDK or JRE; the enum also has the placeholders NONE and NOT_FOUND. */
  datatype BundleType = BundleType(name: string, uiString: string)

  datatype SupportTerm = SupportTerm(name: string)

  datatype ReleaseStatus = ReleaseStatus(name: string)

  /** The archive extension of a bundle (zip, tar.gz, msi, ...). */
  datatype Extension = Extension(name: string, uiString: string)

  /** The operating systems the plugin can detect; `Unrecognized` is the enum's NONE. */
  datatype OperatingSystem = Windows | MacOS | Linux | Solaris | Unrecognized

  /** One downloadable bundle: only the properties the bundle table shows or returns. */
  datatype Bundle = Bundle(
    versionNumber: VersionNumber,
    distribution: Distribution,
    bundleType: BundleType,
    supportTerm: SupportTerm,
    releaseStatus: ReleaseStatus,
    extension: Extension,
    fileName: string)
}

/**
 The values of the Disco client library's `io.foojay.api.discoclient.pkg`
 package that the package table reads, in the same opaque style.
 */
module DiscoPkg {

  /** A semantic version, held opaquely. */
  datatype SemVer = SemVer(text: string)

  datatype Distribution = Distribution(name: string, uiString: string)

  datatype PackageType = PackageType(name: string, uiString: string)

  datatype TermOfSupport = TermOfSupport(name: string)

  datatype ReleaseStatus = ReleaseStatus(name: string)

  datatype ArchiveType = ArchiveType(name: string, uiString: string)

  /** One downloadable package: only the properties the package table shows or returns. */
  datatype Pkg = Pkg(
    javaVersion: SemVer,
    distribution: Distribution,
    packageType: PackageType,
    termOfSupport: TermOfSupport,
    releaseStatus: ReleaseStatus,
    archiveType: ArchiveType,
    fileName: string)
}
