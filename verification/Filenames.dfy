/** Artifact file names: built from a job's options, read back by ingest and shortened for a download. */
module Filenames {

  datatype Compression = NoCompression | Gzip | Zstd
  datatype Encryption = NoEncryption | Age

  predicate IsSpace(c: char) {
    c in "\t\n\r " || c as int in {0x0b, 0x0c, 0x85, 0xa0, 0x1680, 0x2028, 0x2029, 0x202f, 0x205f, 0x3000}
    || 0x2000 <= c as int <= 0x200a
  }

  function TrimLeft(s: string): string {
    if s != "" && IsSpace(s[0]) then TrimLeft(s[1..]) else s
  }

  function TrimRight(s: string): string {
    if s != "" && IsSpace(s[|s| - 1]) then TrimRight(s[..|s| - 1]) else s
  }

  function TrimSpace(s: string): string {
    TrimRight(TrimLeft(s))
  }

  predicate HasSuffix(s: string, suffix: string) {
    |suffix| <= |s| && s[|s| - |suffix|..] == suffix
  }

  function TrimSuffix(s: string, suffix: string): string {
    if HasSuffix(s, suffix) then s[..|s| - |suffix|] else s
  }

  function Suffix(c: Compression, e: Encryption): string {
    (if c.Gzip? then ".gz" else if c.Zstd? then ".zst" else "") + (if e.Age? then ".age" else "")
  }

  /** The extension a name is built with. */
  function Extension(extension: string): (ext: string)
    ensures ext != ""
  {
    var trimmed := TrimSpace(extension);
    var ext := if trimmed != "" && trimmed[0] == '.' then trimmed[1..] else trimmed;
    if ext == "" then "bin" else ext
  }

  /** `stamp` is the creation time as date and time of day. */
  function BuildFilename(slug: string, extension: string, stamp: string, c: Compression, e: Encryption): string {
    slug + "-" + stamp + "." + Extension(extension) + Suffix(c, e)
  }

  /** What follows the last dot; nothing without a dot or when the dot comes last. */
  function LastPart(name: string): string {
    if name == "" || name[|name| - 1] == '.' then ""
    else if '.' !in name then ""
    else LastPart(name[..|name| - 1]) + [name[|name| - 1]]
  }

  datatype Detected = Detected(compression: Compression, encryption: Encryption, ext: string)

  function DetectPack(filename: string): Detected {
    DetectCompression(TrimSuffix(filename, ".age"), if HasSuffix(filename, ".age") then Age else NoEncryption)
  }

  function DetectCompression(name: string, e: Encryption): Detected {
    if HasSuffix(name, ".zst") then Detected(Zstd, e, LastPart(TrimSuffix(name, ".zst")))
    else if HasSuffix(name, ".gz") then Detected(Gzip, e, LastPart(TrimSuffix(name, ".gz")))
    else Detected(NoCompression, e, LastPart(name))
  }

  function UnpackedName(filename: string): string {
    TrimSuffix(TrimSuffix(TrimSuffix(filename, ".age"), ".zst"), ".gz")
  }

  /** The name an unpacked download is served under. */
  function ServedName(filename: string, c: Compression, e: Encryption): string {
    if c.NoCompression? && e.NoEncryption? then filename else UnpackedName(filename)
  }

  // ---------------------------------------------------------------------------
  // Suffixes
  // ---------------------------------------------------------------------------

  predicate DotFree(s: string) {
    '.' !in s
  }

  lemma SuffixOfJoin(a: string, b: string)
    ensures HasSuffix(a + b, b) && TrimSuffix(a + b, b) == a
  {
    assert (a + b)[|a|..] == b && (a + b)[..|a|] == a;
  }

  lemma {:induction false} LastPartIs(a: string, ext: string)
    requires DotFree(ext) && ext != ""
    ensures LastPart(a + "." + ext) == ext
  {
    var s := a + "." + ext;
    assert s[|a|] == '.';
    var init := ext[..|ext| - 1];
    assert s[..|s| - 1] == a + "." + init;
    if init == "" {
      assert (a + "." + init)[|a|] == '.';
    } else {
      LastPartIs(a, init);
    }
  }

  /** A name ending in a dot and a dot-free extension ends in `.x` exactly when the extension is `x`. */
  lemma SuffixIsExtension(a: string, ext: string, x: string)
    requires DotFree(ext) && DotFree(x) && ext != "" && x != ""
    ensures HasSuffix(a + "." + ext, "." + x) <==> ext == x
  {
    var s := a + "." + ext;
    LastPartIs(a, ext);
    if ext == x {
      SuffixOfJoin(a, "." + ext);
      assert a + ("." + ext) == s;
    }
    if HasSuffix(s, "." + x) {
      var p := s[..|s| - |x| - 1];
      assert s == p + ("." + x) == p + "." + x;
      LastPartIs(p, x);
    }
  }

  lemma {:induction false} LastPartOf(name: string)
    requires LastPart(name) != ""
    ensures DotFree(LastPart(name))
    ensures exists a :: name == a + "." + LastPart(name)
  {
    var ext := LastPart(name);
    var init := name[..|name| - 1];
    if LastPart(init) == "" {
      assert init[|init| - 1] == '.' by { LastPartFull(init); }
      assert name == init[..|init| - 1] + "." + ext;
    } else {
      LastPartOf(init);
      var a :| init == a + "." + LastPart(init);
      assert name == a + "." + ext;
    }
  }

  lemma {:induction false} LastPartFull(name: string)
    requires '.' in name && LastPart(name) == ""
    ensures name[|name| - 1] == '.'
  {
  }

  // ---------------------------------------------------------------------------
  // Reading a built name back
  // ---------------------------------------------------------------------------

  /** An extension that would itself be read as packing, given what follows it. */
  predicate Mistakable(ext: string, c: Compression, e: Encryption) {
    || (c.NoCompression? && (ext == "gz" || ext == "zst"))
    || (c.NoCompression? && e.NoEncryption? && ext == "age")
  }

  function Compressed(plain: string, c: Compression): string {
    plain + (if c.Gzip? then ".gz" else if c.Zstd? then ".zst" else "")
  }

  lemma DetectsCompression(a: string, ext: string, c: Compression, e: Encryption)
    requires DotFree(ext) && ext != ""
    ensures var d := DetectCompression(Compressed(a + "." + ext, c), e);
      if c.NoCompression? && (ext == "gz" || ext == "zst") then d.compression != c else d == Detected(c, e, ext)
  {
    var plain := a + "." + ext;
    hide LastPart, HasSuffix, TrimSuffix, DetectCompression, Compressed, DotFree;
    LastPartIs(a, ext);
    SuffixIsExtension(a, ext, "zst");
    SuffixIsExtension(a, ext, "gz");
    ReadsCompression(plain, c, e);
    assert "." + "zst" == ".zst" && "." + "gz" == ".gz";
    assert c.NoCompression? || DetectCompression(Compressed(plain, c), e) == Detected(c, e, ext);
  }

  lemma ReadsCompression(plain: string, c: Compression, e: Encryption)
    ensures c.Gzip? || c.Zstd? ==> DetectCompression(Compressed(plain, c), e) == Detected(c, e, LastPart(plain))
    ensures c.NoCompression? && !HasSuffix(plain, ".zst") && !HasSuffix(plain, ".gz")
            ==> DetectCompression(Compressed(plain, c), e) == Detected(c, e, LastPart(plain))
    ensures HasSuffix(plain, ".zst") || HasSuffix(plain, ".gz")
            ==> !DetectCompression(Compressed(plain, NoCompression), e).compression.NoCompression?
  {
    assert Compressed(plain, NoCompression) == plain;
    SuffixOfJoin(plain, ".gz");
    SuffixOfJoin(plain, ".zst");
    SuffixIsExtension(plain, "gz", "zst");
    assert plain + "." + "gz" == plain + ".gz";
    hide LastPart, HasSuffix, TrimSuffix;
  }

  lemma NoSuffixNoTrim(s: string, suffix: string)
    ensures HasSuffix(s, suffix) || TrimSuffix(s, suffix) == s
  {
  }

  lemma AgeIsFound(a: string, ext: string, c: Compression)
    requires DotFree(ext) && ext != ""
    ensures HasSuffix(Compressed(a + "." + ext, c), ".age") <==> c.NoCompression? && ext == "age"
  {
    var plain := a + "." + ext;
    SuffixIsExtension(a, ext, "age");
    SuffixIsExtension(plain, "gz", "age");
    SuffixIsExtension(plain, "zst", "age");
    assert plain + "" == plain && plain + "." + "gz" == plain + ".gz" && plain + "." + "zst" == plain + ".zst";
    hide HasSuffix;
  }

  /** Reading `a.ext` with its packing suffixes. */
  lemma DetectsSuffixes(a: string, ext: string, c: Compression, e: Encryption)
    requires DotFree(ext) && ext != ""
    ensures var d := DetectPack(a + "." + ext + Suffix(c, e));
      if Mistakable(ext, c, e) then d.compression != c || d.encryption != e else d == Detected(c, e, ext)
  {
    var packed := Compressed(a + "." + ext, c);
    AgeIsFound(a, ext, c);
    DetectsCompression(a, ext, c, e);
    SuffixOfJoin(packed, ".age");
    NoSuffixNoTrim(packed, ".age");
    assert a + "." + ext + Suffix(c, e) == packed + (if e.Age? then ".age" else "");
    assert packed + "" == packed;
    hide HasSuffix, TrimSuffix, DetectCompression, Compressed, Suffix;
    assert e.Age? ==> DetectPack(packed + ".age") == DetectCompression(packed, Age);
    if e.NoEncryption? && HasSuffix(packed, ".age") {
      EncryptionIsKept(TrimSuffix(packed, ".age"), Age);
    }
  }

  lemma EncryptionIsKept(name: string, e: Encryption)
    ensures DetectCompression(name, e).encryption == e
  {
  }

  lemma {:induction false} TrimmedIsDotFree(s: string)
    requires DotFree(s)
    ensures DotFree(TrimLeft(s)) && DotFree(TrimRight(s))
    decreases |s|
  {
    if s != "" {
      TrimmedIsDotFree(s[1..]);
      TrimmedIsDotFree(s[..|s| - 1]);
    }
  }

  lemma ExtensionOfDotFree(ext: string)
    requires DotFree(ext)
    ensures DotFree(Extension(ext)) && Extension(ext) != ""
    ensures ext != "" ==> (Extension(ext) == ext <==> TrimSpace(ext) == ext)
  {
    TrimmedIsDotFree(ext);
    TrimmedIsDotFree(TrimLeft(ext));
    assert TrimSpace("bin") == "bin";
  }

  lemma PlainOf(name: string, e: Encryption)
    ensures DetectCompression(name, e).compression.NoCompression? ==>
      !HasSuffix(name, ".zst") && !HasSuffix(name, ".gz") && DetectCompression(name, e).ext == LastPart(name)
    ensures DetectCompression(name, e).encryption == e
  {
  }

  /** What stands before the dot of the extension that was read. */
  lemma DotBefore(name: string, e: Encryption) returns (a: string)
    requires DetectCompression(name, e).ext != ""
    ensures var d := DetectCompression(name, e);
      DotFree(d.ext) && (d.compression.NoCompression? ==> name == a + "." + d.ext)
  {
    var d := DetectCompression(name, e);
    var plain := if d.compression.Zstd? then TrimSuffix(name, ".zst") else if d.compression.Gzip? then TrimSuffix(name, ".gz") else name;
    assert d.ext == LastPart(plain);
    LastPartOf(plain);
    hide DetectCompression, LastPart, DotFree;
    a :| plain == a + "." + d.ext;
  }

  lemma DetectedIsNotMistakable(original: string)
    requires DetectPack(original).ext != ""
    ensures var d := DetectPack(original); DotFree(d.ext) && !Mistakable(d.ext, d.compression, d.encryption)
  {
    var d := DetectPack(original);
    var name := TrimSuffix(original, ".age");
    NoSuffixNoTrim(original, ".age");
    PlainOf(name, d.encryption);
    var a := DotBefore(name, d.encryption);
    SuffixIsExtension(a, d.ext, "gz");
    SuffixIsExtension(a, d.ext, "zst");
    SuffixIsExtension(a, d.ext, "age");
    assert "." + "gz" == ".gz" && "." + "zst" == ".zst" && "." + "age" == ".age";
    hide LastPart, DotFree, HasSuffix, TrimSuffix, DetectCompression;
    assert d == DetectCompression(name, d.encryption);
  }

  /**
   * Ingest's renaming is stable: with the packing and extension it read from a
   * client's name it builds a name that reads back the same, exactly when that
   * extension has no white space around it.
   */
  lemma RenamingIsStableExactlyWhenTrimmed(original: string, slug: string, stamp: string)
    requires DetectPack(original).ext != ""
    ensures var d := DetectPack(original);
      DetectPack(BuildFilename(slug, d.ext, stamp, d.compression, d.encryption)) == d <==> TrimSpace(d.ext) == d.ext
  {
    var d := DetectPack(original);
    DetectedIsNotMistakable(original);
    ExtensionOfDotFree(d.ext);
    DetectsSuffixes(slug + "-" + stamp, Extension(d.ext), d.compression, d.encryption);
    hide DetectPack, Extension, Suffix, TrimSpace;
  }

  /** A name without an extension is built and read back with `bin`. */
  lemma BlankExtensionReadsAsBin(slug: string, stamp: string, c: Compression, e: Encryption)
    ensures DetectPack(BuildFilename(slug, "", stamp, c, e)) == Detected(c, e, "bin")
  {
    DetectsSuffixes(slug + "-" + stamp, "bin", c, e);
    assert Extension("") == "bin";
  }

  // ---------------------------------------------------------------------------
  // The name of an unpacked download
  // ---------------------------------------------------------------------------

  /** An extension whose own end would be cut off a download's name. */
  predicate CutOff(plain: string, c: Compression, e: Encryption) {
    || (c.Zstd? && HasSuffix(plain, ".gz"))
    || (c.NoCompression? && e.Age? && (HasSuffix(plain, ".gz") || HasSuffix(plain, ".zst")))
  }

  lemma LongSuffix(a: string, b: string, suffix: string)
    requires |suffix| <= |b|
    ensures HasSuffix(a + b, suffix) <==> HasSuffix(b, suffix)
  {
    assert (a + b)[|a + b| - |suffix|..] == b[|b| - |suffix|..];
  }

  /** A built name ends in `.x` exactly when its extension, dot included, does. */
  lemma EndOfBuilt(a: string, ext: string, x: string)
    requires ext != "" && x != "" && DotFree(x)
    ensures HasSuffix(a + ("." + ext), "." + x) <==> HasSuffix("." + ext, "." + x)
  {
    if |x| <= |ext| {
      LongSuffix(a, "." + ext, "." + x);
    } else if HasSuffix(a + ("." + ext), "." + x) {
      EndHasDot(a, ext, x);
    }
  }

  lemma EndHasDot(a: string, ext: string, x: string)
    requires HasSuffix(a + ("." + ext), "." + x) && |x| > |ext|
    ensures !DotFree(x)
  {
    var s := a + ("." + ext);
    assert s[|a|] == ("." + x)[|x| - |ext|];
    assert ("." + x)[|x| - |ext|] == x[|x| - |ext| - 1];
  }

  /**
   * An unpacked download is named as the job would have named it without
   * packing, exactly when the extension does not itself end in a packing suffix
   * that the shortening still looks for.
   */
  lemma DownloadIsNamedPlainExactlyUnlessCutOff(slug: string, extension: string, stamp: string, c: Compression, e: Encryption)
    ensures var plain := BuildFilename(slug, extension, stamp, NoCompression, NoEncryption);
      ServedName(BuildFilename(slug, extension, stamp, c, e), c, e) == plain <==> !CutOff("." + Extension(extension), c, e)
  {
    hide BuildFilename, ServedName, Compressed, Encrypted, HasSuffix, Extension;
    var plain := BuildFilename(slug, extension, stamp, NoCompression, NoEncryption);
    BuiltParts(slug, extension, stamp, c, e);
    EndOfBuilt(slug + "-" + stamp, Extension(extension), "gz");
    EndOfBuilt(slug + "-" + stamp, Extension(extension), "zst");
    ShortensToPlain(plain, c, e);
    assert "." + "gz" == ".gz" && "." + "zst" == ".zst";
    assert CutOff(plain, c, e) == CutOff("." + Extension(extension), c, e);
  }

  lemma BuiltParts(slug: string, extension: string, stamp: string, c: Compression, e: Encryption)
    ensures var plain := BuildFilename(slug, extension, stamp, NoCompression, NoEncryption);
      && plain == slug + "-" + stamp + ("." + Extension(extension))
      && BuildFilename(slug, extension, stamp, c, e) == Encrypted(Compressed(plain, c), e)
  {
    hide Extension;
  }

  function Encrypted(packed: string, e: Encryption): string {
    packed + (if e.Age? then ".age" else "")
  }

  lemma ShortensToPlain(plain: string, c: Compression, e: Encryption)
    ensures ServedName(Encrypted(Compressed(plain, c), e), c, e) == plain <==> !CutOff(plain, c, e)
  {
    if c.NoCompression? && e.NoEncryption? {
      assert Encrypted(Compressed(plain, c), e) == plain;
    } else {
      AgeIsCut(plain, c, e);
      RestIsCut(plain, c);
      hide HasSuffix, TrimSuffix, Compressed, Encrypted;
    }
  }

  lemma AgeIsCut(plain: string, c: Compression, e: Encryption)
    requires !(c.NoCompression? && e.NoEncryption?)
    ensures TrimSuffix(Encrypted(Compressed(plain, c), e), ".age") == Compressed(plain, c)
  {
    var packed := Compressed(plain, c);
    if e.Age? {
      SuffixOfJoin(packed, ".age");
    } else {
      assert Encrypted(packed, e) == packed;
      SuffixIsExtension(plain, "gz", "age");
      SuffixIsExtension(plain, "zst", "age");
      assert plain + "." + "gz" == plain + ".gz" && plain + "." + "zst" == plain + ".zst";
      NoSuffixNoTrim(packed, ".age");
      hide HasSuffix, TrimSuffix, Encrypted;
    }
  }

  lemma RestIsCut(plain: string, c: Compression)
    ensures TrimSuffix(TrimSuffix(Compressed(plain, c), ".zst"), ".gz") == plain
       <==> !(c.Zstd? && HasSuffix(plain, ".gz")) && !(c.NoCompression? && (HasSuffix(plain, ".gz") || HasSuffix(plain, ".zst")))
  {
    SuffixOfJoin(plain, ".zst");
    SuffixOfJoin(plain, ".gz");
    assert plain + "." + "gz" == plain + ".gz" && plain + "" == plain;
    SuffixIsExtension(plain, "gz", "zst");
    TrimsShorter(Compressed(plain, c), ".zst");
    TrimsShorter(plain, ".gz");
    TrimsShorter(TrimSuffix(plain, ".zst"), ".gz");
    hide HasSuffix, TrimSuffix;
  }

  lemma TrimsShorter(s: string, suffix: string)
    requires suffix != ""
    ensures if HasSuffix(s, suffix) then |TrimSuffix(s, suffix)| < |s| else TrimSuffix(s, suffix) == s
  {
  }
}
