/** Unity version strings and the class-id type. */
module Common {
  import opened Wire
  import opened Results

  /** Class ids are unsigned 32-bit values. */
  type ClassID = U32

  /** Converting a signed 16- or 32-bit class id to `ClassID` wraps negative values modulo 2^32;
      no information is lost, the signed value can be recovered. */
  function ToClassID(x: I32): (c: ClassID)
    ensures AsI32(c) == x
    ensures x >= 0 ==> c == x
  {
    AsU32(x)
  }

  /** A parsed "M.m.pB..." version: single digits at indices 0, 2 and 4, the rest as build. */
  datatype VersionInfo = VersionInfo(major: nat, minor: nat, patch: nat, build: seq<Byte>, raw: seq<Byte>)

  predicate IsDigit(c: Byte)
  {
    '0' as int <= c <= '9' as int
  }

  /** Integer conversion of a one-byte string: only a decimal digit converts. */
  function DigitValue(c: Byte): (r: Option<nat>)
    ensures r.Some? <==> IsDigit(c)
    ensures r.Some? ==> r.value < 10 && c == '0' as int + r.value
  {
    if IsDigit(c) then Some(c - '0' as int) else None
  }

  /** `Ok(None)` is the nil result; `Err(SliceOutOfRange)` stands for the panic of slicing a
      version string shorter than the index tried next. Indices 1 and 3 are never looked at. */
  function NewVersionInfo(version: seq<Byte>): (r: Result<Option<VersionInfo>>)
    ensures |version| >= 5 ==> r.Ok?
    ensures r.Err? <==>
      || |version| < 1
      || (IsDigit(version[0]) && |version| < 3)
      || (IsDigit(version[0]) && IsDigit(version[2]) && |version| < 5)
    ensures r.Ok? && r.value.Some? <==>
      |version| >= 5 && IsDigit(version[0]) && IsDigit(version[2]) && IsDigit(version[4])
    ensures r.Ok? && r.value.Some? ==>
      var v := r.value.value;
      && version[0] == '0' as int + v.major
      && version[2] == '0' as int + v.minor
      && version[4] == '0' as int + v.patch
      && v.build == version[5..] && v.raw == version
  {
    if |version| < 1 then Err(SliceOutOfRange)
    else
      var major := DigitValue(version[0]);
      if major.None? then Ok(None)
      else if |version| < 3 then Err(SliceOutOfRange)
      else
        var minor := DigitValue(version[2]);
        if minor.None? then Ok(None)
        else if |version| < 5 then Err(SliceOutOfRange)
        else
          var patch := DigitValue(version[4]);
          if patch.None? then Ok(None)
          else Ok(Some(VersionInfo(major.value, minor.value, patch.value, version[5..], version)))
  }

  /** The canonical text of a version: digits separated by dots, then the build suffix. */
  function FormatVersion(major: nat, minor: nat, patch: nat, build: seq<Byte>): (s: seq<Byte>)
    requires major < 10 && minor < 10 && patch < 10
    ensures |s| == 5 + |build|
  {
    ['0' as int + major, '.' as int, '0' as int + minor, '.' as int, '0' as int + patch] + build
  }

  /** Parsing the canonical text gives back its parts. */
  lemma NewVersionInfoOfFormat(major: nat, minor: nat, patch: nat, build: seq<Byte>)
    requires major < 10 && minor < 10 && patch < 10
    ensures var s := FormatVersion(major, minor, patch, build);
      NewVersionInfo(s) == Ok(Some(VersionInfo(major, minor, patch, build, s)))
  {
    var s := FormatVersion(major, minor, patch, build);
    assert s[5..] == build;
  }

  /** The separators are not checked: changing bytes 1 and 3 changes only `raw`. */
  lemma SeparatorsIgnored(version: seq<Byte>, a: Byte, b: Byte)
    requires |version| >= 5
    ensures var other := version[1 := a][3 := b];
      match (NewVersionInfo(version), NewVersionInfo(other))
      case (Ok(Some(v)), Ok(Some(w))) => v.(raw := other) == w
      case (Ok(None), Ok(None)) => true
      case _ => false
  {
    var other := version[1 := a][3 := b];
    assert other[5..] == version[5..];
  }

  /** The example version of the package's own test. */
  lemma NewVersionInfoExample()
    ensures var r := NewVersionInfo(Ascii("5.3.3p3"));
      r.Ok? && r.value.Some? && r.value.value.major == 5 && r.value.value.minor == 3
      && r.value.value.patch == 3 && r.value.value.build == Ascii("p3")
  {
    var s := Ascii("5.3.3p3");
    assert s == [0x35, 0x2E, 0x33, 0x2E, 0x33, 0x70, 0x33];
    assert s[5..] == Ascii("p3");
  }
}
