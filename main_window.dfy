/**
 The logic the main window owns beside its widgets: detecting the operating
 system from the `os.name` property, the list of feature versions offered in
 the version combo box, and the bundle types offered in the bundle-type combo
 box. The property value and the enum's constants are inputs.
 */
module MainWindow {
  import opened JavaStrings
  import opened DiscoBundle

  /**
   `getOperatingSystem()` for `os.name == osName`: substring tests on the
   lower-cased name, in the order win, mac, nix/nux, sunos; the first that
   matches decides.
   */
  function OperatingSystemOf(osName: string): (r: OperatingSystem)
    ensures var os := ToLowerCase(osName);
      && (r == Windows <==> Occurs(os, "win"))
      && (r == MacOS <==> !Occurs(os, "win") && Occurs(os, "mac"))
      && (r == Linux <==> !Occurs(os, "win") && !Occurs(os, "mac") && (Occurs(os, "nix") || Occurs(os, "nux")))
      && (r == Solaris <==> !Occurs(os, "win") && !Occurs(os, "mac") && !Occurs(os, "nix") && !Occurs(os, "nux") && Occurs(os, "sunos"))
      && (r == Unrecognized <==> !Occurs(os, "win") && !Occurs(os, "mac") && !Occurs(os, "nix") && !Occurs(os, "nux") && !Occurs(os, "sunos"))
  {
    var os := ToLowerCase(osName);
    if IndexOf(os, "win") >= 0 then Windows
    else if IndexOf(os, "mac") >= 0 then MacOS
    else if IndexOf(os, "nix") >= 0 || IndexOf(os, "nux") >= 0 then Linux
    else if IndexOf(os, "sunos") >= 0 then Solaris
    else Unrecognized
  }

  /** Names that lower-case alike are classified alike; in particular case never matters. */
  lemma OperatingSystemIgnoresCase(a: string, b: string)
    ensures ToLowerCase(a) == ToLowerCase(b) ==> OperatingSystemOf(a) == OperatingSystemOf(b)
    ensures OperatingSystemOf(ToUpperCase(a)) == OperatingSystemOf(a)
    ensures OperatingSystemOf(ToLowerCase(a)) == OperatingSystemOf(a)
  {
    LowerOfUpper(a);
    LowerIdempotent(a);
  }

  /**
   Any name with "win" in it, in any case and whatever surrounds it, is
   Windows: the "win" test comes first.
   */
  lemma WinAnywhereIsWindows(prefix: string, w: string, suffix: string)
    requires ToLowerCase(w) == "win"
    ensures OperatingSystemOf(prefix + w + suffix) == Windows
  {
    var lp := ToLowerCase(prefix);
    LowerConcat(prefix + w, suffix);
    LowerConcat(prefix, w);
    var os := ToLowerCase(prefix + w + suffix);
    assert os == lp + "win" + ToLowerCase(suffix);
    assert os[|lp|..|lp| + 3] == "win";
    assert OccursAt(os, "win", |lp|);
  }

  /** A name such as "Darwin" contains "win", so it is classified as Windows, not macOS. */
  lemma DarwinIsWindows()
    ensures OperatingSystemOf("Darwin") == Windows
  {
    WinAnywhereIsWindows("Dar", "win", "");
  }

  /** `t` does not occur in `s` when one of the characters of `t` is missing from `s`. */
  lemma AbsentCharPreventsOccurrence(s: string, t: string, j: int)
    requires 0 <= j < |t| && t[j] !in s
    ensures !Occurs(s, t)
  {
    forall i
      ensures !OccursAt(s, t, i)
    {
      if 0 <= i <= |s| - |t| {
        assert s[i..i + |t|][j] == s[i + j] && s[i + j] in s;
      }
    }
  }

  /** The name the JVM reports on Windows 10 is classified as Windows. */
  lemma Windows10IsWindows()
    ensures OperatingSystemOf("Windows 10") == Windows
  {
    WinAnywhereIsWindows("", "Win", "dows 10");
  }

  /** The name the JVM reports on macOS is classified as macOS. */
  lemma MacOsXIsMacOS()
    ensures OperatingSystemOf("Mac OS X") == MacOS
  {
    var os := ToLowerCase("Mac OS X");
    assert os == "mac os x";
    AbsentCharPreventsOccurrence(os, "win", 0);
    assert OccursAt(os, "mac", 0);
  }

  /** The name the JVM reports on Linux is classified as Linux. */
  lemma LinuxIsLinux()
    ensures OperatingSystemOf("Linux") == Linux
  {
    var os := ToLowerCase("Linux");
    assert os == "linux";
    AbsentCharPreventsOccurrence(os, "win", 0);
    AbsentCharPreventsOccurrence(os, "mac", 0);
    assert OccursAt(os, "nux", 2);
  }

  /** The name the JVM reports on Solaris is classified as Solaris. */
  lemma SunOsIsSolaris()
    ensures OperatingSystemOf("SunOS") == Solaris
  {
    var os := ToLowerCase("SunOS");
    assert os == "sunos";
    AbsentCharPreventsOccurrence(os, "win", 0);
    AbsentCharPreventsOccurrence(os, "mac", 0);
    AbsentCharPreventsOccurrence(os, "nix", 2);
    AbsentCharPreventsOccurrence(os, "nux", 2);
    assert OccursAt(os, "sunos", 0);
  }

  /** A system none of the tests names, such as FreeBSD, is unrecognized. */
  lemma FreeBsdIsUnrecognized()
    ensures OperatingSystemOf("FreeBSD") == Unrecognized
  {
    var os := ToLowerCase("FreeBSD");
    assert os == "freebsd";
    AbsentCharPreventsOccurrence(os, "win", 0);
    AbsentCharPreventsOccurrence(os, "mac", 0);
    AbsentCharPreventsOccurrence(os, "nix", 0);
    AbsentCharPreventsOccurrence(os, "nux", 0);
    AbsentCharPreventsOccurrence(os, "sunos", 1);
  }

  /** The largest Java `int`, `Integer.MAX_VALUE`. */
  const IntMax: int := 0x7fff_ffff

  /**
   The version list of the constructor:
   `for (Integer i = 6; i <= nextFeatureRelease; i++) versionNumbers.add(i);`.
   Java's `i++` wraps at `Integer.MAX_VALUE` and Dafny's `int` does not, so that
   value is excluded; the Java loop would run out of memory near it, which is
   not modelled.
   */
  method FeatureVersions(nextFeatureRelease: int) returns (versions: seq<int>)
    requires nextFeatureRelease < IntMax
    ensures |versions| == if nextFeatureRelease < 6 then 0 else nextFeatureRelease - 5
    ensures forall k :: 0 <= k < |versions| ==> versions[k] == 6 + k
    ensures forall v :: v in versions <==> 6 <= v <= nextFeatureRelease
    ensures forall j, k :: 0 <= j < k < |versions| ==> versions[j] < versions[k]
  {
    versions := [];
    var i := 6;
    while i <= nextFeatureRelease
      invariant 6 <= i && (i <= nextFeatureRelease + 1 || i == 6)
      invariant |versions| == i - 6
      invariant forall k :: 0 <= k < |versions| ==> versions[k] == 6 + k
      decreases nextFeatureRelease - i
    {
      versions := versions + [i];
      i := i + 1;
    }
    forall v | 6 <= v <= nextFeatureRelease
      ensures v in versions
    {
      assert versions[v - 6] == v;
    }
  }

  /** The two placeholder constants of `BundleType` that are never offered. */
  predicate IsPlaceholder(b: BundleType)
  {
    b.name == "NONE" || b.name == "NOT_FOUND"
  }

  /** One stage of the stream: `filter(bundleType -> constant != bundleType)`, keeping order. */
  function Without(values: seq<BundleType>, constant: string): (r: seq<BundleType>)
    ensures |r| <= |values|
    ensures forall b :: b in r <==> b in values && b.name != constant
  {
    if values == [] then []
    else if values[0].name != constant then [values[0]] + Without(values[1..], constant)
    else Without(values[1..], constant)
  }

  /**
   The bundle types offered in the combo box, from `BundleType.values()` in
   declaration order: NONE is filtered out, then NOT_FOUND.
   */
  function BundleTypeChoices(values: seq<BundleType>): (r: seq<BundleType>)
    ensures |r| <= |values|
    ensures forall b :: b in r <==> b in values && !IsPlaceholder(b)
  {
    Without(Without(values, "NONE"), "NOT_FOUND")
  }

  /** Filtering distributes over concatenation, so the choices keep the enum's order. */
  lemma {:induction false} WithoutConcat(a: seq<BundleType>, b: seq<BundleType>, constant: string)
    ensures Without(a + b, constant) == Without(a, constant) + Without(b, constant)
  {
    if a == [] {
      assert a + b == b;
    } else {
      assert (a + b)[1..] == a[1..] + b;
      WithoutConcat(a[1..], b, constant);
    }
  }

  /** The choices of a concatenation are the choices of each part, in order. */
  lemma ChoicesConcat(a: seq<BundleType>, b: seq<BundleType>)
    ensures BundleTypeChoices(a + b) == BundleTypeChoices(a) + BundleTypeChoices(b)
  {
    WithoutConcat(a, b, "NONE");
    WithoutConcat(Without(a, "NONE"), Without(b, "NONE"), "NOT_FOUND");
  }

  /** Each type that is not a placeholder is offered as often as the enum lists it; placeholders never. */
  lemma {:induction false} ChoicesCount(values: seq<BundleType>, b: BundleType)
    ensures multiset(BundleTypeChoices(values))[b] == if IsPlaceholder(b) then 0 else multiset(values)[b]
  {
    if values != [] {
      assert values == [values[0]] + values[1..];
      ChoicesConcat([values[0]], values[1..]);
      ChoicesCount(values[1..], b);
    }
  }

  /** Filtering the choices again changes nothing. */
  lemma {:induction false} ChoicesIdempotent(values: seq<BundleType>)
    ensures BundleTypeChoices(BundleTypeChoices(values)) == BundleTypeChoices(values)
  {
    if values != [] {
      assert values == [values[0]] + values[1..];
      ChoicesConcat([values[0]], values[1..]);
      ChoicesIdempotent(values[1..]);
      ChoicesConcat(BundleTypeChoices([values[0]]), BundleTypeChoices(values[1..]));
    }
  }
}
