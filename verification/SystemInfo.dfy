/** Operating-system classification from the version numbers the runtime
    reports, with its display name and the architecture label. The version
    numbers, the version string and the 64-bit flag are inputs here. */
module SystemInfo {

  datatype OperatingSystem = Unknown | Windows7 | Windows8 | Windows8_1 | Windows10 | Windows11

  /** `InitializeOperatingSystem`: starts from `Unknown` and assigns only for
      the known (major, minor) pairs; Windows 11 still reports major 10 and is
      told apart by its build number. */
  function Classify(major: int, minor: int, build: int): (os: OperatingSystem)
    ensures os == Windows7 <==> major == 6 && minor == 1
    ensures os == Windows8 <==> major == 6 && minor == 2
    ensures os == Windows8_1 <==> major == 6 && minor == 3
    ensures os == Windows10 <==> major == 10 && build < 22000
    ensures os == Windows11 <==> major == 10 && build >= 22000
    ensures os == Unknown <==> (major != 6 && major != 10) || (major == 6 && !(1 <= minor <= 3))
  {
    var os := Unknown;
    if major == 6 then
      if minor == 1 then Windows7
      else if minor == 2 then Windows8
      else if minor == 3 then Windows8_1
      else os
    else if major == 10 then
      if build < 22000 then Windows10 else Windows11
    else os
  }

  /** `OperatingSystemName`. */
  function OperatingSystemName(os: OperatingSystem): (r: string)
    ensures r == "Unknown Windows Version" <==> os == Unknown
    ensures os != Unknown ==> "Windows " <= r
  {
    match os
    case Windows7 => "Windows 7"
    case Windows8 => "Windows 8"
    case Windows8_1 => "Windows 8.1"
    case Windows10 => "Windows 10"
    case Windows11 => "Windows 11"
    case Unknown => "Unknown Windows Version"
  }

  /** Distinct systems have distinct display names, so the name identifies the system. */
  lemma NamesAreDistinct(a: OperatingSystem, b: OperatingSystem)
    ensures OperatingSystemName(a) == OperatingSystemName(b) ==> a == b
    ensures |OperatingSystemName(a)| > 0
  {
  }

  /** No display name followed by `", "` starts another one, so the line's prefix
      determines the system. */
  lemma NameIsAPrefixCode(a: OperatingSystem, b: OperatingSystem, line: string)
    requires OperatingSystemName(a) + ", " <= line
    requires OperatingSystemName(b) + ", " <= line
    ensures a == b
  {
    var na, nb := OperatingSystemName(a), OperatingSystemName(b);
    NameHasNoComma(a);
    NameHasNoComma(b);
    assert line[|na|] == ',' && line[|nb|] == ',';
    if |na| < |nb| {
      assert false;
    } else if |nb| < |na| {
      assert false;
    }
    assert na == line[..|na|] == nb;
    NamesAreDistinct(a, b);
  }

  /** A display name contains no comma. */
  lemma NameHasNoComma(os: OperatingSystem)
    ensures forall i :: 0 <= i < |OperatingSystemName(os)| ==> OperatingSystemName(os)[i] != ','
  {
  }

  /** `Architecture`. */
  function Architecture(is64BitOperatingSystem: bool): (r: string)
    ensures r == "x64" <==> is64BitOperatingSystem
    ensures r == "x86" <==> !is64BitOperatingSystem
  {
    if is64BitOperatingSystem then "x64" else "x86"
  }

  /** `OperatingSystemInfo`: `"{name}, {version string} ({architecture})"`. */
  function OperatingSystemInfo(os: OperatingSystem, versionString: string, is64BitOperatingSystem: bool): (r: string)
    ensures OperatingSystemName(os) + ", " <= r
    ensures |r| == |OperatingSystemName(os)| + 2 + |versionString| + 6
    ensures r[|OperatingSystemName(os)| + 2..|OperatingSystemName(os)| + 2 + |versionString|] == versionString
    ensures r[|r| - 6..] == " (" + Architecture(is64BitOperatingSystem) + ")"
  {
    var prefix := OperatingSystemName(os) + ", ";
    var suffix := " (" + Architecture(is64BitOperatingSystem) + ")";
    assert |suffix| == 6;
    var r := prefix + versionString + suffix;
    assert r[..|prefix|] == prefix;
    assert r[|prefix|..|prefix| + |versionString|] == versionString;
    assert r[|r| - 6..] == suffix;
    r
  }

  /** The three parts of the line can be read back: two lines are equal exactly when
      their systems, version strings and architectures are. */
  lemma {:induction false} OperatingSystemInfoIsInjective(os1: OperatingSystem, v1: string, b1: bool,
                                                          os2: OperatingSystem, v2: string, b2: bool)
    requires OperatingSystemInfo(os1, v1, b1) == OperatingSystemInfo(os2, v2, b2)
    ensures os1 == os2 && v1 == v2 && b1 == b2
  {
    var r := OperatingSystemInfo(os1, v1, b1);
    var n1, n2 := OperatingSystemName(os1), OperatingSystemName(os2);
    NameIsAPrefixCode(os1, os2, r);
    assert |n1| == |n2|;
    assert n1 == (n1 + ", ")[..|n1|] == r[..|n1|] == (n2 + ", ")[..|n2|] == n2;
    assert r[|r| - 6..] == " (" + Architecture(b1) + ")";
    assert r[|r| - 6..] == " (" + Architecture(b2) + ")";
    assert Architecture(b1) == (" (" + Architecture(b1) + ")")[2..5];
    assert Architecture(b2) == (" (" + Architecture(b2) + ")")[2..5];
    NamesAreDistinct(os1, os2);
  }
}
