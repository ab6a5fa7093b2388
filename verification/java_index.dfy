/**
 * Java module recognition: which directories are modules, and which build
 * tool a module directory belongs to. A directory is seen only through the
 * kinds of the entries it contains.
 */
module JavaIndex {
  import opened CycloneDx

  /** What a name inside a directory refers to: a regular file, a directory, or anything else that exists. */
  datatype EntryKind = RegularFile | Subdirectory | OtherEntry

  /** The argument of isModule: a directory with its entries, or a path that is not a directory. */
  datatype FsPath = NotADirectory | Directory(entries: map<string, EntryKind>)

  datatype BuildType = Maven | Gradle

  const BuildFileNames: seq<string> := ["pom.xml", "build.gradle", "build.gradle.kts"]
  const GradleFileNames: seq<string> := ["build.gradle", "build.gradle.kts"]
  const DefaultExcludePatterns: seq<string> := ["src/test/", "/package-info.java$", "/module-info.java$"]

  /** `exists() && isFile()` for the entry `name`. */
  predicate IsFileIn(entries: map<string, EntryKind>, name: string)
  {
    name in entries && entries[name] == RegularFile
  }

  /** A directory holding a build descriptor as a regular file, and a `src` entry of any kind. */
  predicate IsModuleDir(d: FsPath)
  {
    && d.Directory?
    && "src" in d.entries
    && (IsFileIn(d.entries, "pom.xml") || IsFileIn(d.entries, "build.gradle") || IsFileIn(d.entries, "build.gradle.kts"))
  }

  /** The build type by precedence: Maven when pom.xml is a file, else Gradle when a gradle script is. */
  function MainBuildType(d: FsPath): Option<BuildType>
  {
    if !d.Directory? then None
    else if IsFileIn(d.entries, "pom.xml") then Some(Maven)
    else if IsFileIn(d.entries, "build.gradle") || IsFileIn(d.entries, "build.gradle.kts") then Some(Gradle)
    else None
  }

  /** isModule: the early-return loop over the build file names. */
  method IsModule(d: FsPath) returns (b: bool)
    ensures b == IsModuleDir(d)
  {
    if !d.Directory? {
      return false;
    }
    var srcExists := "src" in d.entries;
    for i := 0 to |BuildFileNames|
      invariant forall j :: 0 <= j < i ==> !(IsFileIn(d.entries, BuildFileNames[j]) && srcExists)
    {
      if IsFileIn(d.entries, BuildFileNames[i]) && srcExists {
        return true;
      }
    }
    assert !(IsFileIn(d.entries, BuildFileNames[0]) && srcExists);
    assert !(IsFileIn(d.entries, BuildFileNames[1]) && srcExists);
    assert !(IsFileIn(d.entries, BuildFileNames[2]) && srcExists);
    return false;
  }

  /** getMainBuildTypeFromModuleDirectory: pom.xml first, then the gradle scripts in order. */
  method GetMainBuildTypeFromModuleDirectory(d: FsPath) returns (r: Option<BuildType>)
    ensures r == MainBuildType(d)
  {
    if !d.Directory? {
      return None;
    }
    if IsFileIn(d.entries, "pom.xml") {
      return Some(Maven);
    }
    for i := 0 to |GradleFileNames|
      invariant forall j :: 0 <= j < i ==> !IsFileIn(d.entries, GradleFileNames[j])
    {
      if IsFileIn(d.entries, GradleFileNames[i]) {
        return Some(Gradle);
      }
    }
    assert !IsFileIn(d.entries, GradleFileNames[0]);
    assert !IsFileIn(d.entries, GradleFileNames[1]);
    return None;
  }

  /** Nothing that is not a directory is a module or has a build type. */
  lemma NotADirectoryIsNothing()
    ensures !IsModuleDir(NotADirectory) && MainBuildType(NotADirectory).None?
  {
  }

  /** pom.xml wins over gradle scripts present beside it. */
  lemma MavenTakesPrecedence(entries: map<string, EntryKind>)
    requires IsFileIn(entries, "pom.xml")
    ensures MainBuildType(Directory(entries)) == Some(Maven)
  {
  }

  /** Without pom.xml, a gradle script gives Gradle and its absence gives no build type. */
  lemma GradleWithoutPom(entries: map<string, EntryKind>)
    requires !IsFileIn(entries, "pom.xml")
    ensures MainBuildType(Directory(entries)) == Some(Gradle) <==>
      (IsFileIn(entries, "build.gradle") || IsFileIn(entries, "build.gradle.kts"))
    ensures MainBuildType(Directory(entries)).None? <==>
      !(IsFileIn(entries, "build.gradle") || IsFileIn(entries, "build.gradle.kts"))
  {
  }

  /** Every module has a build type. */
  lemma ModuleHasBuildType(d: FsPath)
    requires IsModuleDir(d)
    ensures MainBuildType(d).Some?
  {
  }

  /** `src` need not be a directory: a plain file called src is enough. */
  lemma SrcMayBeAFile()
    ensures IsModuleDir(Directory(map["pom.xml" := RegularFile, "src" := RegularFile]))
  {
  }

  /** A descriptor that is a directory, not a file, does not make a module. */
  lemma DescriptorMustBeAFile()
    ensures !IsModuleDir(Directory(map["pom.xml" := Subdirectory, "src" := Subdirectory]))
  {
  }

  /** The part of JavaIndexService this core owns: its exclusion patterns. */
  class JavaIndexService {
    const baseDirectory: string
    const languageIdentifier: string
    const languageFileExtension: string
    var excludePatterns: seq<string>

    /** The constructor passes "java" and ".java" up and installs the default patterns. */
    constructor (baseDirectory: string)
      ensures this.baseDirectory == baseDirectory
      ensures languageIdentifier == "java" && languageFileExtension == ".java"
      ensures excludePatterns == DefaultExcludePatterns
    {
      this.baseDirectory := baseDirectory;
      languageIdentifier := "java";
      languageFileExtension := ".java";
      excludePatterns := DefaultExcludePatterns;
    }

    /** setExcludePatterns: null installs the defaults, any list replaces them verbatim. */
    method SetExcludePatterns(patterns: Option<seq<string>>)
      modifies this`excludePatterns
      ensures excludePatterns == (if patterns.None? then DefaultExcludePatterns else patterns.value)
    {
      if patterns.None? {
        excludePatterns := DefaultExcludePatterns;
      } else {
        excludePatterns := patterns.value;
      }
    }
  }
}
