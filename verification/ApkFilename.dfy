/** Names of stored packages: `generate_filename` and the lookups of mad_apk/utils.py, and the
    regular expression by which apk_storage_fs.py reads a name back. */
module ApkFilename {
  import opened Wrappers
  import opened PythonText

  datatype APKType = pogo | rgc | pd

  datatype APKArch = noarch | armeabi_v7a | arm64_v8a

  const ZIP_MIMETYPE := "application/zip"
  const APK_MIMETYPE := "application/vnd.android.package-archive"

  function PackageName(t: APKType): string {
    match t
    case pogo => "com.nianticlabs.pokemongo"
    case rgc => "de.grennith.rgc.remotegpscontroller"
    case pd => "com.mad.pogodroid"
  }

  function ArchName(a: APKArch): string {
    match a
    case noarch => "noarch"
    case armeabi_v7a => "armeabi_v7a"
    case arm64_v8a => "arm64_v8a"
  }

  function Extension(mimetype: string): string {
    if mimetype == ZIP_MIMETYPE then "zip" else "apk"
  }

  /** `generate_filename`. */
  function GenerateFilename(t: APKType, a: APKArch, version: string, mimetype: string): string {
    Name(PackageName(t), version, ArchName(a), Extension(mimetype))
  }

  function Name(package: string, version: string, arch: string, ext: string): string {
    package + "__" + version + "__" + arch + "." + ext
  }

  // ---------------------------------------------------------------- the regular expression

  predicate NonSpace(s: string) { forall i :: 0 <= i < |s| ==> !IsSpace(s[i]) }

  /** Backtracking from the longest group down: the greatest length from 1 to `n` that works. */
  function Longest(n: nat, works: nat -> bool): (k: nat)
    ensures k <= n
    ensures k > 0 ==> works(k)
    ensures forall j :: k < j <= n ==> !works(j)
  {
    if n == 0 then 0 else if works(n) then n else Longest(n - 1, works)
  }

  lemma LongestIs(n: nat, works: nat -> bool, k: nat)
    requires 0 < k <= n && works(k) && forall j :: k < j <= n ==> !works(j)
    ensures Longest(n, works) == k
  {}

  lemma LongestAtLeast(n: nat, works: nat -> bool, k: nat)
    requires 0 < k <= n && works(k)
    ensures Longest(n, works) >= k
  {}

  predicate UnderscoresAt(s: string, k: nat) { k + 2 <= |s| && s[k] == '_' && s[k + 1] == '_' }

  /** `(.*)$`: no line break, except one that ends the name and is not part of the group. */
  function RestOfLine(s: string): Option<string> {
    if '\n' !in s then Some(s)
    else if s[|s| - 1] == '\n' && '\n' !in s[..|s| - 1] then Some(s[..|s| - 1])
    else None
  }

  /** `(\S+)\.(.*)$` */
  predicate ArchWorks(s: string, k: nat) {
    k < |s| && NonSpace(s[..k]) && s[k] == '.' && RestOfLine(s[k + 1..]).Some?
  }

  function ArchLength(s: string): nat { Longest(|s|, (k: nat) => ArchWorks(s, k)) }

  /** `(\S+)__(\S+)\.(.*)$` */
  predicate VersionWorks(s: string, k: nat) {
    UnderscoresAt(s, k) && NonSpace(s[..k]) && ArchLength(s[k + 2..]) > 0
  }

  function VersionLength(s: string): nat { Longest(|s|, (k: nat) => VersionWorks(s, k)) }

  /** `(\S+)__(\S+)__(\S+)\.(.*)$` */
  predicate PackageWorks(s: string, k: nat) {
    UnderscoresAt(s, k) && NonSpace(s[..k]) && VersionLength(s[k + 2..]) > 0
  }

  function PackageLength(s: string): nat { Longest(|s|, (k: nat) => PackageWorks(s, k)) }

  datatype Groups = Groups(package: string, version: string, arch: string, format: string)

  /** The groups of the greedy match at the start of the name, if it matches. */
  function Match(s: string): Option<Groups> {
    var p := PackageLength(s);
    if p == 0 then None
    else
      assert PackageWorks(s, p);
      var s2 := s[p + 2..];
      var v := VersionLength(s2);
      assert VersionWorks(s2, v);
      var s3 := s2[v + 2..];
      var a := ArchLength(s3);
      assert ArchWorks(s3, a);
      Some(Groups(s[..p], s2[..v], s3[..a], RestOfLine(s3[a + 1..]).value))
  }

  // ---------------------------------------------------------------- lookups

  /** `lookup_apk_enum`; None where it raises ValueError. */
  function LookupApk(name: string): Option<APKType> {
    match ParseNat(name)
    case Some(n) => if n == 0 then Some(pogo) else if n == 1 then Some(rgc) else if n == 2 then Some(pd) else None
    case None =>
      if name == PackageName(pogo) || name == "pogo" then Some(pogo)
      else if name == PackageName(rgc) || name == "rgc" then Some(rgc)
      else if name == PackageName(pd) || name == "pogodroid" || name == "pd" then Some(pd)
      else None
  }

  /** `lookup_arch_enum`. */
  function LookupArch(name: string): Option<APKArch> {
    match ParseInt(name)
    case Some(n) =>
      if n == 0 then Some(noarch) else if n == 1 then Some(armeabi_v7a) else if n == 2 then Some(arm64_v8a)
      else NamedArch(name)
    case None => NamedArch(name)
  }

  function NamedArch(name: string): Option<APKArch> {
    if name == "noarch" then Some(noarch)
    else if name == "armeabi-v7a" || name == "armeabi_v7a" then Some(armeabi_v7a)
    else if name == "arm64-v8a" || name == "arm64_v8a" then Some(arm64_v8a)
    else None
  }

  /** What a file name says about the package in it. */
  datatype Label = Label(package: APKType, arch: APKArch, version: string, mimetype: string)

  /** The body of the rebuild loop: None where the file is skipped. */
  function ReadBack(filename: string): Option<Label> {
    match Match(filename)
    case None => None
    case Some(g) =>
      match (LookupApk(g.package), LookupArch(g.arch))
      case (Some(t), Some(a)) => Some(Label(t, a, g.version, if g.format == "zip" then ZIP_MIMETYPE else APK_MIMETYPE))
      case _ => None
  }

  // ---------------------------------------------------------------- reading back a generated name

  /** A package, architecture or extension name with nothing the pattern could trip over. */
  predicate Plain(s: string) {
    s != [] && NonSpace(s) && (forall i :: 0 <= i < |s| && s[i] == '_' ==> 0 < i < |s| - 1 && s[i + 1] != '_')
  }

  predicate NoDot(s: string) { '.' !in s }

  /** Two underscores in `"_" + version`, not at its very end: a greedy package would swallow
      them. */
  predicate Splits(version: string, i: nat) {
    var u := "_" + version;
    i + 2 < |u| && u[i] == '_' && u[i + 1] == '_'
  }

  /** The versions whose names can be read back. */
  predicate Readable(version: string) {
    version != [] && NonSpace(version) && forall i :: 0 <= i < |version| ==> !Splits(version, i)
  }

  lemma ArchOf(arch: string, ext: string)
    requires Plain(arch) && NoDot(arch) && Plain(ext) && NoDot(ext)
    ensures ArchLength(arch + "." + ext) == |arch|
    ensures RestOfLine(ext) == Some(ext)
  {
    var s := arch + "." + ext;
    assert s[..|arch|] == arch && s[|arch| + 1..] == ext;
    assert '\n' !in ext by {
      assert IsSpace('\n');
    }
    assert ArchWorks(s, |arch|);
    forall j | |arch| < j <= |s| ensures !ArchWorks(s, j) {
      if j < |s| { assert s[j] == ext[j - |arch| - 1]; }
    }
    LongestIs(|s|, (k: nat) => ArchWorks(s, k), |arch|);
  }

  /** In what follows a version there is no further pair of underscores. */
  lemma NoUnderscoresAfter(arch: string, ext: string, k: nat)
    requires Plain(arch) && Plain(ext)
    ensures !UnderscoresAt(arch + "." + ext, k)
  {
    var s := arch + "." + ext;
    if k + 2 <= |s| {
      if k + 1 < |arch| {
        assert s[k] == arch[k] && s[k + 1] == arch[k + 1];
      } else if k < |arch| + 1 {
        assert k == |arch| || s[k + 1] == '.';
        if k == |arch| { assert s[k] == '.'; }
      } else {
        assert s[k] == ext[k - |arch| - 1] && s[k + 1] == ext[k - |arch|];
      }
    }
  }

  lemma VersionOf(version: string, arch: string, ext: string)
    requires Plain(arch) && NoDot(arch) && Plain(ext) && NoDot(ext)
    requires version != [] && NonSpace(version)
    ensures VersionLength(version + "__" + arch + "." + ext) == |version|
  {
    var tail := arch + "." + ext;
    var s := version + "__" + arch + "." + ext;
    assert s == version + "__" + tail;
    assert s[..|version|] == version && s[|version| + 2..] == tail;
    ArchOf(arch, ext);
    assert VersionWorks(s, |version|);
    forall j | |version| < j <= |s| ensures !UnderscoresAt(s, j) {
      if j + 2 <= |s| {
        if j == |version| + 1 {
          assert s[j + 1] == tail[0] == arch[0];
        } else {
          NoUnderscoresAfter(arch, ext, j - |version| - 2);
          assert s[j] == tail[j - |version| - 2] && s[j + 1] == tail[j - |version| - 1];
        }
      }
    }
    LongestIs(|s|, (k: nat) => VersionWorks(s, k), |version|);
  }

  /** Everything after the package in a generated name. */
  function AfterPackage(version: string, arch: string, ext: string): string {
    "__" + version + "__" + arch + "." + ext
  }

  /** Past the version and the pair that ends it there are no underscores left. */
  lemma NoUnderscoresPastVersion(version: string, arch: string, ext: string, q: nat)
    requires Plain(arch) && Plain(ext) && q > |version| + 2
    ensures !UnderscoresAt(AfterPackage(version, arch, ext), q)
  {
    var w, tail := AfterPackage(version, arch, ext), arch + "." + ext;
    assert w == "__" + version + "__" + tail;
    if q + 2 <= |w| {
      if q == |version| + 3 {
        assert w[q + 1] == tail[0] == arch[0];
      } else {
        NoUnderscoresAfter(arch, ext, q - |version| - 4);
        assert w[q] == tail[q - |version| - 4] && w[q + 1] == tail[q - |version| - 3];
      }
    }
  }

  /** A longer package than the one put in needs a split of the version. */
  lemma LongerPackageSplits(package: string, version: string, arch: string, ext: string, k: nat)
    requires Plain(arch) && Plain(ext)
    requires k > |package| && PackageWorks(Name(package, version, arch, ext), k)
    ensures k - |package| - 1 < |version| && Splits(version, k - |package| - 1)
  {
    hide Plain;
    var name, w := Name(package, version, arch, ext), AfterPackage(version, arch, ext);
    assert name == package + w;
    var s2 := name[k + 2..];
    var j := VersionLength(s2);
    assert VersionWorks(s2, j);
    var m := k - |package|;
    assert w[m] == name[k] && w[m + 1] == name[k + 1];
    var q := m + 2 + j;
    assert w[q] == s2[j] && w[q + 1] == s2[j + 1];
    if q > |version| + 2 {
      NoUnderscoresPastVersion(version, arch, ext, q);
    }
    var u := "_" + version;
    assert u[m - 1] == w[m] && u[m] == w[m + 1];
  }

  lemma NonSpaceBefore(package: string, version: string, rest: string, i: nat)
    requires NonSpace(package) && NonSpace(version) && i < |version|
    ensures NonSpace((package + "__" + version + rest)[..|package| + i + 1])
  {
    var s := package + "__" + version + rest;
    forall j | 0 <= j < |package| + i + 1 ensures !IsSpace(s[j]) {
      if j >= |package| + 2 { assert s[j] == version[j - |package| - 2]; }
    }
  }

  lemma SplitInName(package: string, version: string, arch: string, ext: string, i: nat)
    requires Splits(version, i)
    ensures var name, k := Name(package, version, arch, ext), |package| + i + 1;
            && UnderscoresAt(name, k)
            && name[k + 2..] == version[i + 1..] + "__" + arch + "." + ext
  {
    var name, u := Name(package, version, arch, ext), "_" + version;
    var rest := "__" + arch + "." + ext;
    var k := |package| + i + 1;
    assert name == package + "_" + u + rest;
    assert name[k] == u[i] && name[k + 1] == u[i + 1];
    assert name[k + 2..] == version[i + 1..] + rest;
  }

  /** A split of the version makes the greedy package run into it. */
  lemma SplitLengthensPackage(package: string, version: string, arch: string, ext: string, i: nat)
    requires Plain(package) && Plain(arch) && NoDot(arch) && Plain(ext) && NoDot(ext)
    requires NonSpace(version) && Splits(version, i)
    ensures PackageLength(Name(package, version, arch, ext)) > |package|
  {
    var name, k := Name(package, version, arch, ext), |package| + i + 1;
    SplitInName(package, version, arch, ext, i);
    VersionOf(version[i + 1..], arch, ext);
    assert NonSpace(name[..k]) by {
      NonSpaceBefore(package, version, "__" + arch + "." + ext, i);
      assert name == package + "__" + version + ("__" + arch + "." + ext);
    }
    assert PackageWorks(name, k);
    LongestAtLeast(|name|, (j: nat) => PackageWorks(name, j), k);
  }

  lemma PackageOf(package: string, version: string, arch: string, ext: string)
    requires Plain(package) && Plain(arch) && NoDot(arch) && Plain(ext) && NoDot(ext)
    requires Readable(version)
    ensures PackageLength(Name(package, version, arch, ext)) == |package|
  {
    var name := Name(package, version, arch, ext);
    assert name[..|package|] == package && name[|package| + 2..] == version + "__" + arch + "." + ext;
    VersionOf(version, arch, ext);
    assert PackageWorks(name, |package|);
    forall j | |package| < j <= |name| ensures !PackageWorks(name, j) {
      if PackageWorks(name, j) {
        LongerPackageSplits(package, version, arch, ext, j);
      }
    }
    LongestIs(|name|, (k: nat) => PackageWorks(name, k), |package|);
  }

  lemma CutAt(x: string, sep: string, y: string)
    ensures (x + sep + y)[..|x|] == x && (x + sep + y)[|x| + |sep|..] == y
  {}

  lemma MatchOf(name: string, package: string, s2: string, version: string, s3: string, arch: string, ext: string)
    requires package != [] && PackageLength(name) == |package| && |package| + 2 <= |name|
    requires name[..|package|] == package && name[|package| + 2..] == s2
    requires VersionLength(s2) == |version| && |version| + 2 <= |s2|
    requires s2[..|version|] == version && s2[|version| + 2..] == s3
    requires ArchLength(s3) == |arch| && |arch| + 1 <= |s3|
    requires s3[..|arch|] == arch && s3[|arch| + 1..] == ext && RestOfLine(ext) == Some(ext)
    ensures Match(name) == Some(Groups(package, version, arch, ext))
  {}

  lemma NameForm(package: string, version: string, arch: string, ext: string)
    ensures version + "__" + (arch + "." + ext) == version + "__" + arch + "." + ext
    ensures package + "__" + (version + "__" + arch + "." + ext) == Name(package, version, arch, ext)
  {}

  /** For a readable version the match recovers the four parts of the name. */
  lemma MatchReadable(package: string, version: string, arch: string, ext: string)
    requires Plain(package) && Plain(arch) && NoDot(arch) && Plain(ext) && NoDot(ext)
    requires Readable(version)
    ensures Match(Name(package, version, arch, ext)) == Some(Groups(package, version, arch, ext))
  {
    var s3 := arch + "." + ext;
    var s2 := version + "__" + s3;
    var name := package + "__" + s2;
    NameForm(package, version, arch, ext);
    PackageOf(package, version, arch, ext);
    VersionOf(version, arch, ext);
    ArchOf(arch, ext);
    CutAt(package, "__", s2);
    CutAt(version, "__", s3);
    CutAt(arch, ".", ext);
    MatchOf(name, package, s2, version, s3, arch, ext);
  }

  /** For any other version the match, if there is one, gives another version or a package with an
      underscore in it. */
  lemma MatchUnreadable(package: string, version: string, arch: string, ext: string)
    requires Plain(package) && Plain(arch) && NoDot(arch) && Plain(ext) && NoDot(ext)
    requires !Readable(version) && Match(Name(package, version, arch, ext)).Some?
    ensures var g := Match(Name(package, version, arch, ext)).value;
            g.version != version || '_' in g.package
  {
    var name := Name(package, version, arch, ext);
    MatchedParts(name);
    if version != [] && NonSpace(version) {
      var i :| 0 <= i < |version| && Splits(version, i);
      SplitLengthensPackage(package, version, arch, ext, i);
      UnderscoreAfterPackage(package, version, arch, ext);
      hide Match;
      hide Name;
      hide Plain;
      hide Splits;
      assert Match(name).value.package[|package|] == '_';
    }
  }

  /** The package of a match is the start of the name, and its version has no whitespace. */
  lemma MatchedParts(name: string)
    requires Match(name).Some?
    ensures var g := Match(name).value;
            && PackageLength(name) <= |name| && g.package == name[..PackageLength(name)]
            && g.version != [] && NonSpace(g.version)
  {
    var p := PackageLength(name);
    assert PackageWorks(name, p);
    var s2 := name[p + 2..];
    assert VersionWorks(s2, VersionLength(s2));
  }

  lemma UnderscoreAfterPackage(package: string, version: string, arch: string, ext: string)
    ensures |Name(package, version, arch, ext)| > |package| && Name(package, version, arch, ext)[|package|] == '_'
  {
    NameForm(package, version, arch, ext);
  }

  lemma {:induction false} DigitsOnly(s: string)
    requires ParseNat(s).Some?
    ensures '_' !in s
  {
    if |s| > 1 {
      DigitsOnly(s[..|s| - 1]);
      assert s == s[..|s| - 1] + [s[|s| - 1]];
    }
  }

  /** No name the package lookup knows has an underscore in it. */
  lemma LookupKnowsNoUnderscore(s: string)
    requires LookupApk(s).Some?
    ensures '_' !in s
  {
    if ParseNat(s).Some? {
      DigitsOnly(s);
    } else {
      NamesHaveNoUnderscore();
    }
  }

  lemma NamesHaveNoUnderscore()
    ensures forall t :: '_' !in PackageName(t)
    ensures forall name <- ["pogo", "rgc", "pogodroid", "pd"] :: '_' !in name
  {
    LettersOnly("com.nianticlabs.pokemongo");
    LettersOnly("de.grennith.rgc.remotegpscontroller");
    LettersOnly("com.mad.pogodroid");
  }

  lemma LettersOnly(s: string)
    requires forall c <- s :: 'a' <= c <= 'z' || c == '.'
    ensures '_' !in s
  {}

  lemma LettersPlain(s: string)
    requires s != [] && forall c <- s :: 'a' <= c <= 'z' || c == '.'
    ensures Plain(s) && ParseNat(s) == None
  {
    forall i | 0 <= i < |s| ensures 'a' <= s[i] <= 'z' || s[i] == '.' {
      assert s[i] in s;
    }
  }

  lemma PlainPackage(t: APKType)
    ensures Plain(PackageName(t)) && LookupApk(PackageName(t)) == Some(t)
  {
    LettersPlain(PackageName(t));
    assert |PackageName(pogo)| != |PackageName(rgc)|;
  }

  /** Each package is found by the name it is published under, its short names and its number, and by nothing
      else. */
  lemma FoundByName(name: string)
    ensures LookupApk(name) == Some(pogo)
       <==> name == "com.nianticlabs.pokemongo" || name == "pogo" || ParseNat(name) == Some(0)
    ensures LookupApk(name) == Some(rgc)
       <==> name == "de.grennith.rgc.remotegpscontroller" || name == "rgc" || ParseNat(name) == Some(1)
    ensures LookupApk(name) == Some(pd)
       <==> name == "com.mad.pogodroid" || name == "pogodroid" || name == "pd" || ParseNat(name) == Some(2)
  {
    FoundPogo(name);
    FoundRgc(name);
    FoundPd(name);
    hide LookupApk;
    hide ParseNat;
  }

  lemma FoundPogo(name: string)
    ensures LookupApk(name) == Some(pogo)
       <==> name == "com.nianticlabs.pokemongo" || name == "pogo" || ParseNat(name) == Some(0)
  {
    NamedIsNoNumber(name);
    hide ParseNat;
  }

  lemma FoundRgc(name: string)
    ensures LookupApk(name) == Some(rgc)
       <==> name == "de.grennith.rgc.remotegpscontroller" || name == "rgc" || ParseNat(name) == Some(1)
  {
    NamedIsNoNumber(name);
    hide ParseNat;
    assert |PackageName(pogo)| == 25 && |PackageName(rgc)| == 35;
  }

  lemma FoundPd(name: string)
    ensures LookupApk(name) == Some(pd)
       <==> name == "com.mad.pogodroid" || name == "pogodroid" || name == "pd" || ParseNat(name) == Some(2)
  {
    NamedIsNoNumber(name);
    hide ParseNat;
    assert |PackageName(pogo)| == 25 && |PackageName(rgc)| == 35 && |PackageName(pd)| == 17;
  }

  lemma NamedIsNoNumber(name: string)
    ensures LookupNamed(name) ==> ParseNat(name) == None
  {
    if LookupNamed(name) {
      LastIsNoDigit(name);
    }
    hide ParseNat;
  }

  lemma LastIsNoDigit(s: string)
    requires s != [] && 'a' <= s[|s| - 1] <= 'z'
    ensures ParseNat(s) == None
  {}

  predicate LookupNamed(name: string) {
    || name == PackageName(pogo) || name == "pogo" || name == PackageName(rgc) || name == "rgc"
    || name == PackageName(pd) || name == "pogodroid" || name == "pd"
  }

  lemma PlainArch(a: APKArch)
    ensures Plain(ArchName(a)) && NoDot(ArchName(a)) && LookupArch(ArchName(a)) == Some(a)
  {
    ArchIsNoNumber(a);
    hide ParseInt;
  }

  lemma ArchIsNoNumber(a: APKArch)
    ensures ParseInt(ArchName(a)) == None
  {
    assert Stripped(ArchName(a)) == ArchName(a);
    assert ParseGrouped(ArchName(a)) == None;
  }

  lemma PlainExtension(mimetype: string)
    ensures Plain(Extension(mimetype)) && NoDot(Extension(mimetype))
  {}

  predicate KnownMimetype(mimetype: string) { mimetype == ZIP_MIMETYPE || mimetype == APK_MIMETYPE }

  /** The exact round trip: reading a generated name back gives the package, architecture, version
      and mimetype that went in, if and only if the version is not empty, has no whitespace and no
      two underscores in "_" + version other than at the end, and the mimetype is zip or apk. */
  lemma FilenameRoundTripIff(t: APKType, a: APKArch, version: string, mimetype: string)
    ensures ReadBack(GenerateFilename(t, a, version, mimetype)) == Some(Label(t, a, version, mimetype))
       <==> Readable(version) && KnownMimetype(mimetype)
  {
    hide Match;
    hide Readable;
    hide Plain;
    hide LookupApk;
    hide LookupArch;
    hide PackageName;
    hide ArchName;
    PlainPackage(t);
    PlainArch(a);
    PlainExtension(mimetype);
    var name := GenerateFilename(t, a, version, mimetype);
    if Readable(version) {
      MatchReadable(PackageName(t), version, ArchName(a), Extension(mimetype));
    } else if Match(name).Some? {
      MatchUnreadable(PackageName(t), version, ArchName(a), Extension(mimetype));
      var g := Match(name).value;
      if LookupApk(g.package).Some? {
        LookupKnowsNoUnderscore(g.package);
      }
    }
  }
}
