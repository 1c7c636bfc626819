/**
 * The build script and the running shell name the Ollama binary in two
 * separate tables. These lemmas show that the two tables agree: the shell
 * launches exactly the file the build script cached for the same platform.
 * The build script sees the build host's platform and the shell the one it
 * was compiled for, so the lemmas speak of builds that do not cross-compile.
 */
module Consistency {
  import Build
  import Launch

  /**
   * The shell and the build script support the same platforms, and on each
   * of them the shell's path is the build script's cached file name inside
   * the `binaries` directory.
   */
  lemma RuntimePathIsBundledTarget(os: string, arch: string)
    ensures Launch.OllamaPath(os, arch).Ok? <==> Build.GetPlatformInfo(os, arch).Ok?
    ensures Launch.OllamaPath(os, arch).Ok? ==>
              Launch.OllamaPath(os, arch).value == Launch.BinariesDir + Build.GetPlatformInfo(os, arch).value.filename
  {
    SamePlatforms(os, arch);
    if Launch.OllamaPath(os, arch).Ok? {
      SameFile(os, arch);
    }
  }

  /** Both tables cover the four native pairs and Windows on any architecture. */
  lemma SamePlatforms(os: string, arch: string)
    ensures Launch.OllamaPath(os, arch).Ok? <==> Build.GetPlatformInfo(os, arch).Ok?
  {
    var native := (os == "macos" || os == "linux") && (arch == "aarch64" || arch == "x86_64");
    assert (os, arch) in Build.NativePlatforms ==> native;
    assert native ==> (os, arch) in Build.NativePlatforms;
  }

  /** On a platform both tables support, the shell's path is the cached file inside `binaries`. */
  lemma SameFile(os: string, arch: string)
    requires Launch.OllamaPath(os, arch).Ok?
    ensures Build.GetPlatformInfo(os, arch).Ok?
    ensures Launch.OllamaPath(os, arch).value == Launch.BinariesDir + Build.GetPlatformInfo(os, arch).value.filename
    ensures Build.GetPlatformInfo(os, arch).value.filename != [] && Build.GetPlatformInfo(os, arch).value.filename[0] == 'o'
  {
  }

  /**
   * Resolved against the crate directory (the working directory of a
   * development run), the shell's relative path is the very file the build
   * script downloads to.
   */
  lemma RuntimePathResolvesToTarget(manifestDir: string, os: string, arch: string)
    requires Launch.OllamaPath(os, arch).Ok?
    ensures Build.Join(manifestDir, Launch.OllamaPath(os, arch).value)
            == Build.TargetPath(manifestDir, Build.GetPlatformInfo(os, arch).value.filename)
  {
    SameFile(os, arch);
    JoinBinaries(manifestDir, Build.GetPlatformInfo(os, arch).value.filename);
  }

  /** Joining `binaries/f` onto a directory in one step is joining `binaries` and then `f`, for a relative `f`. */
  lemma JoinBinaries(manifestDir: string, f: string)
    requires f != [] && f[0] != '/'
    ensures Build.Join(manifestDir, Launch.BinariesDir + f) == Build.TargetPath(manifestDir, f)
  {
    var d := "binaries";
    assert d + "/" + f == Launch.BinariesDir + f;
    JoinTwice(manifestDir, d, f);
  }

  /** Joining `d/f` onto a directory is joining `d` and then `f`, when `d` and `f` are relative and `d` does not end in `/`. */
  lemma JoinTwice(m: string, d: string, f: string)
    requires d != [] && d[0] != '/' && d[|d| - 1] != '/'
    requires f != [] && f[0] != '/'
    ensures Build.Join(m, d + "/" + f) == Build.Join(Build.Join(m, d), f)
  {
    var sep := if m == [] || m[|m| - 1] == '/' then "" else "/";
    assert (d + "/" + f)[0] == d[0];
    assert Build.Join(m, d) == m + sep + d;
    var md := m + sep + d;
    assert md[|md| - 1] == d[|d| - 1];
    assert Build.Join(md, f) == md + "/" + f;
    assert m + sep + (d + "/" + f) == md + "/" + f;
  }
}
