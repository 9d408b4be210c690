/** The terminal manifest of a release candidate and the inventory that pins its files. */
module TerminalManifest {
  import opened Wrappers
  import opened Names

  type Path = string
  type Bytes = seq<bv8>
  type Tree = map<Path, Bytes>

  const ChecksumsPath: Path := "dist/SHA256SUMS"
  const SbomPath: Path := "dist/sbom-spdx.json"
  const ManifestPath: Path := "dist/release-terminal-manifest.json"
  const NotesPath: Path := "release_notes.md"
  const InventoryPath: Path := "attestation-subjects.sha256"
  const FixedSubjects: seq<Path> := [ChecksumsPath, SbomPath, ManifestPath]

  /** `targets` is sorted; `topology` is the one digest every target shares. */
  datatype Evidence = Evidence(targets: seq<Name>, topology: string)

  datatype ArchiveRow = ArchiveRow(path: Path, sha256: string, target: string)

  datatype EvidenceRow = EvidenceRow(path: Path, sha256: string)

  datatype Manifest = Manifest(
    sourceSha: string, tag: string, version: string, topology: string,
    archives: seq<ArchiveRow>, checksums: string, archiveCount: nat, sbom: string, packageCount: nat,
    evidenceTargets: seq<Name>, evidence: seq<EvidenceRow>, subjects: seq<Path>)

  /** The deterministic functions the scripts call: SHA-256, UTF-8, JSON, and the checks of the SHA256SUMS,
      SPDX and build-evidence contents. `judge` sees every file but the two outputs. */
  datatype Tools = Tools(
    digest: Bytes -> string,
    utf8: string -> Bytes,
    canonical: Manifest -> Bytes,
    checksums: Bytes -> Option<map<Name, string>>,
    spdx: Bytes -> Option<nat>,
    judge: (Tree, map<Name, string>, string, string) -> Option<Evidence>)

  predicate IsHex40(s: string) {
    |s| == 40 && forall i :: 0 <= i < 40 ==> '0' <= s[i] <= '9' || 'a' <= s[i] <= 'f'
  }

  predicate IsArchiveName(name: Name) {
    EndsWith(name, ".tar.gz") || EndsWith(name, ".zip")
  }

  /** The target an archive name spells, empty when it is not `perllsp-<version>-<target>.<extension>`. */
  function Target(version: string, name: Name): string {
    var prefix := "perllsp-" + version + "-";
    if !StartsWith(name, prefix) then ""
    else if EndsWith(name, ".tar.gz") && |prefix| <= |name| - 7 then name[|prefix|..|name| - 7]
    else if EndsWith(name, ".zip") && |prefix| <= |name| - 4 then name[|prefix|..|name| - 4]
    else ""
  }

  predicate ArchiveOk(c: Tools, files: Tree, entries: map<Name, string>, version: string, name: Name)
    requires name in entries
  {
    Target(version, name) != "" && "dist/" + name in files && c.digest(files["dist/" + name]) == entries[name]
  }

  /** Every listed archive is present with its digest, and no two share a target. */
  ghost predicate ArchivesOk(c: Tools, files: Tree, entries: map<Name, string>, version: string) {
    && (forall a :: a in entries ==> ArchiveOk(c, files, entries, version, a))
    && (forall a, b :: a in entries && b in entries && Target(version, a) == Target(version, b) ==> a == b)
  }

  /** An archive directly in `dist` that SHA256SUMS does not list. */
  predicate Extra(entries: map<Name, string>, p: Path) {
    && StartsWith(p, "dist/") && '/' !in p[5..] && IsArchiveName(p[5..]) && p[5..] !in entries
  }

  predicate IsRecord(p: Path, base: string) {
    StartsWith(p, "evidence/") && EndsWith(p, "/" + base)
  }

  function Records(files: Tree, base: string): set<Path> {
    set p | p in files && IsRecord(p, base)
  }

  function EvidenceFiles(files: Tree): (s: set<Path>)
    ensures s <= files.Keys
  {
    Records(files, "release-build-identity.json") + Records(files, "release-build-receipt.json")
    + Records(files, "release-topology.json") + Records(files, "release-package-evidence.json")
  }

  predicate SameCounts(files: Tree) {
    var n := |Records(files, "release-build-identity.json")|;
    && n != 0 && n == |Records(files, "release-build-receipt.json")|
    && n == |Records(files, "release-topology.json")| && n == |Records(files, "release-package-evidence.json")|
  }

  function Inputs(files: Tree): Tree {
    files - {ManifestPath, InventoryPath}
  }

  ghost function ArchivePaths(entries: map<Name, string>): set<Path> {
    set name | name in entries :: "dist/" + name
  }

  ghost function Targets(entries: map<Name, string>, version: string): set<Name> {
    set name | name in entries :: Target(version, name)
  }

  ghost function SubjectSet(files: Tree, entries: map<Name, string>): set<Path> {
    ArchivePaths(entries) + EvidenceFiles(files) + {ChecksumsPath, SbomPath, ManifestPath}
    + if NotesPath in files then {NotesPath} else {}
  }

  /** `tag[1:]`. */
  function Version(tag: string): string {
    if tag == "" then "" else tag[1..]
  }

  predicate Readable(c: Tools, files: Tree) {
    && ChecksumsPath in files && c.checksums(files[ChecksumsPath]).Some?
    && SbomPath in files && c.spdx(files[SbomPath]).Some?
  }

  /** When a manifest can be built. */
  ghost predicate Eligible(c: Tools, files: Tree, sha: string, tag: string) {
    && IsHex40(sha) && StartsWith(tag, "v") && |tag| >= 2 && Readable(c, files)
    && var entries := c.checksums(files[ChecksumsPath]).value;
       var e := c.judge(Inputs(files), entries, sha, Version(tag));
    && ArchivesOk(c, files, entries, Version(tag))
    && (forall p :: p in files ==> !Extra(entries, p))
    && SameCounts(files) && e.Some? && IsListing(e.value.targets, Targets(entries, Version(tag)))
    && files.Keys <= SubjectSet(files, entries) + {InventoryPath}
  }

  function ArchiveRows(entries: map<Name, string>, version: string, names: seq<Name>): seq<ArchiveRow>
    requires forall n :: n in names ==> n in entries
  {
    seq(|names|, i requires 0 <= i < |names| =>
      ArchiveRow("dist/" + names[i], entries[names[i]], Target(version, names[i])))
  }

  function EvidenceRows(c: Tools, files: Tree, paths: seq<Path>): seq<EvidenceRow>
    requires forall p :: p in paths ==> p in files
  {
    seq(|paths|, i requires 0 <= i < |paths| => EvidenceRow(paths[i], c.digest(files[paths[i]])))
  }

  function Prefixed(names: seq<Name>): seq<Path> {
    seq(|names|, i requires 0 <= i < |names| => "dist/" + names[i])
  }

  /** `terminal_subject_paths`. */
  function TerminalSubjectPaths(archives: seq<Path>, evidence: seq<Path>, notes: bool): seq<Path> {
    archives + evidence + FixedSubjects + if notes then [NotesPath] else []
  }

  /** `m` is the manifest of these files, its rows built from the sorted lists `names` and `evidence`. */
  ghost predicate IsManifestFrom(c: Tools, files: Tree, sha: string, tag: string, m: Manifest,
                                 names: seq<Name>, evidence: seq<Path>)
    requires Readable(c, files)
  {
    var entries := c.checksums(files[ChecksumsPath]).value;
    var e := c.judge(Inputs(files), entries, sha, Version(tag));
    && IsListing(names, entries.Keys) && IsListing(evidence, EvidenceFiles(files)) && e.Some?
    && m == Manifest(sha, tag, Version(tag), e.value.topology,
                     ArchiveRows(entries, Version(tag), names),
                     c.digest(files[ChecksumsPath]), |entries|,
                     c.digest(files[SbomPath]), c.spdx(files[SbomPath]).value,
                     e.value.targets, EvidenceRows(c, files, evidence),
                     TerminalSubjectPaths(Prefixed(names), evidence, NotesPath in files))
  }

  ghost predicate IsManifest(c: Tools, files: Tree, sha: string, tag: string, m: Manifest) {
    Eligible(c, files, sha, tag) && exists names, evidence :: IsManifestFrom(c, files, sha, tag, m, names, evidence)
  }

  /** `lines`: one row per subject, its digest, two blanks, its path, a newline. */
  function Line(c: Tools, files: Tree, p: Path): string
    requires p in files
  {
    c.digest(files[p]) + "  " + p + "\n"
  }

  function Text(c: Tools, files: Tree, paths: seq<Path>): string
    requires forall p :: p in paths ==> p in files
  {
    if paths == [] then "" else Text(c, files, paths[..|paths| - 1]) + Line(c, files, paths[|paths| - 1])
  }

  ghost predicate InventoryFrom(c: Tools, files: Tree, s: seq<Path>, bytes: Bytes) {
    (forall p :: p in s ==> p in files) && bytes == c.utf8(Text(c, files, s))
  }

  /** The inventory of a list of subjects, all present. */
  ghost predicate IsInventory(c: Tools, files: Tree, subjects: seq<Path>, bytes: Bytes) {
    exists s :: IsListing(s, Elements(subjects)) && InventoryFrom(c, files, s, bytes)
  }

  /** What `--check` accepts. */
  ghost predicate Passes(c: Tools, files: Tree, sha: string, tag: string) {
    && ManifestPath in files && InventoryPath in files
    && exists m :: IsManifest(c, files, sha, tag, m) && files[ManifestPath] == c.canonical(m)
                   && IsInventory(c, files, m.subjects, files[InventoryPath])
  }

  /** What writing leaves: the two outputs are replaced and nothing else changes. */
  ghost predicate Written(c: Tools, before: Tree, after: Tree, sha: string, tag: string) {
    exists m, bytes :: WrittenAs(c, before, after, sha, tag, m, bytes)
  }

  ghost predicate WrittenAs(c: Tools, before: Tree, after: Tree, sha: string, tag: string, m: Manifest, bytes: Bytes) {
    && IsManifest(c, before, sha, tag, m)
    && after == before[ManifestPath := c.canonical(m)][InventoryPath := bytes]
    && IsInventory(c, before[ManifestPath := c.canonical(m)], m.subjects, bytes)
  }

  lemma AllTargets(entries: map<Name, string>, version: string, names: seq<Name>, targets: seq<Name>)
    requires IsListing(names, entries.Keys) && |targets| == |names| && NoDup(targets)
    requires forall k :: 0 <= k < |names| ==> targets[k] == Target(version, names[k])
    ensures Elements(targets) == Targets(entries, version)
    ensures forall a, b :: a in entries && b in entries && Target(version, a) == Target(version, b) ==> a == b
  {
    hide Target, Sorted;
    assert forall a :: a in entries <==> a in Elements(names);
    forall a, b | a in entries && b in entries && Target(version, a) == Target(version, b) ensures a == b {
      var i :| 0 <= i < |names| && names[i] == a;
      var j :| 0 <= j < |names| && names[j] == b;
      assert targets[i] == targets[j];
    }
    forall t | t in Targets(entries, version) ensures t in Elements(targets) {
      var a :| a in entries && Target(version, a) == t;
      var i :| 0 <= i < |names| && names[i] == a;
      assert targets[i] == t;
    }
    forall t | t in Elements(targets) ensures t in Targets(entries, version) {
      var i :| 0 <= i < |targets| && targets[i] == t;
      assert names[i] in Elements(names);
    }
  }

  lemma SubjectsListed(files: Tree, entries: map<Name, string>, names: seq<Name>, evidence: seq<Path>)
    requires IsListing(names, entries.Keys) && IsListing(evidence, EvidenceFiles(files))
    ensures Elements(TerminalSubjectPaths(Prefixed(names), evidence, NotesPath in files)) == SubjectSet(files, entries)
  {
    hide Sorted, NoDup, EvidenceFiles;
    var notes := if NotesPath in files then [NotesPath] else [];
    ElementsConcat(Prefixed(names), evidence);
    ElementsConcat(Prefixed(names) + evidence, FixedSubjects);
    ElementsConcat(Prefixed(names) + evidence + FixedSubjects, notes);
    forall p ensures p in Elements(Prefixed(names)) <==> p in ArchivePaths(entries) {
      if p in Elements(Prefixed(names)) {
        var i :| 0 <= i < |names| && Prefixed(names)[i] == p;
        assert names[i] in Elements(names);
      }
      if p in ArchivePaths(entries) {
        var n :| n in entries && p == "dist/" + n;
        assert n in Elements(names);
        var i :| 0 <= i < |names| && names[i] == n;
        assert Prefixed(names)[i] == p;
      }
    }
  }

  lemma ElementsConcat<T>(a: seq<T>, b: seq<T>)
    ensures Elements(a + b) == Elements(a) + Elements(b)
  {
  }

  method SortTargets(targets: seq<Name>) returns (r: seq<Name>)
    requires NoDup(targets)
    ensures IsListing(r, Elements(targets))
  {
    r := Sort(targets);
  }

  /** `len(paths) == len(set(paths))` says that no path repeats. */
  lemma {:induction false} CountDistinct<T>(s: seq<T>)
    ensures |Elements(s)| <= |s|
    ensures |Elements(s)| == |s| <==> NoDup(s)
  {
    if s == [] {
      assert Elements(s) == {};
    } else {
      var rest, x := s[..|s| - 1], s[|s| - 1];
      assert s == rest + [x];
      CountDistinct(rest);
      ElementsSnoc(rest, x);
      if NoDup(s) {
        LastIsNew(s);
      }
    }
  }

  lemma NoDupConcat<T>(a: seq<T>, b: seq<T>)
    requires NoDup(a) && NoDup(b) && Elements(a) !! Elements(b)
    ensures NoDup(a + b)
  {
    forall i, j | 0 <= i < j < |a + b| ensures (a + b)[i] != (a + b)[j] {
      if i < |a| <= j {
        assert a[i] in Elements(a) && b[j - |a|] in Elements(b);
      }
    }
  }

  lemma PrefixedDistinct(names: seq<Name>)
    requires NoDup(names)
    ensures NoDup(Prefixed(names))
  {
    forall i, j | 0 <= i < j < |names| ensures "dist/" + names[i] != "dist/" + names[j] {
      assert ("dist/" + names[i])[5..] == names[i] && ("dist/" + names[j])[5..] == names[j];
    }
  }

  predicate ArchiveLike(p: Path) {
    p != [] && p[0] == 'd' && (p[|p| - 1] == 'z' || p[|p| - 1] == 'p')
  }

  lemma ArchivePathLike(version: string, name: Name)
    requires Target(version, name) != ""
    ensures ArchiveLike("dist/" + name)
  {
    var p := "dist/" + name;
    if EndsWith(name, ".tar.gz") {
      assert name[|name| - 7..][6] == 'z';
    } else {
      assert name[|name| - 4..][3] == 'p';
    }
  }

  lemma RecordLike(files: Tree, p: Path)
    requires p in EvidenceFiles(files)
    ensures p != [] && p[0] == 'e'
  {
    hide EndsWith;
    assert p[..9] == "evidence/";
  }

  /** No archive, evidence record or fixed subject goes by the name of another. */
  lemma SubjectsApart(archives: seq<Path>, evidence: seq<Path>, notes: bool)
    requires NoDup(archives) && forall p :: p in archives ==> ArchiveLike(p)
    requires NoDup(evidence) && forall p :: p in evidence ==> p != [] && p[0] == 'e'
    ensures NoDup(TerminalSubjectPaths(archives, evidence, notes))
  {
    hide NoDup, Elements;
    var last := if notes then [NotesPath] else [];
    MembersOf(archives);
    MembersOf(evidence);
    MembersOf(FixedSubjects);
    MembersOf(last);
    FixedDistinct(notes);
    NoDupConcat(archives, evidence);
    ElementsConcat(archives, evidence);
    assert forall p :: p in FixedSubjects ==> p == ChecksumsPath || p == SbomPath || p == ManifestPath;
    NoDupConcat(archives + evidence, FixedSubjects);
    ElementsConcat(archives + evidence, FixedSubjects);
    NoDupConcat(archives + evidence + FixedSubjects, last);
  }

  lemma FixedDistinct(notes: bool)
    ensures NoDup(FixedSubjects) && NoDup(if notes then [NotesPath] else [])
    ensures ChecksumsPath[|ChecksumsPath| - 1] == 'S' && SbomPath[|SbomPath| - 1] == 'n'
    ensures ManifestPath[|ManifestPath| - 1] == 'n' && NotesPath[0] == 'r'
  {
    assert |ChecksumsPath| == 15 && |SbomPath| == 19 && |ManifestPath| == 35;
  }

  /** A manifest never names a subject twice, whatever the archives and the evidence are called. */
  lemma SubjectsDistinct(c: Tools, files: Tree, sha: string, tag: string, m: Manifest)
    requires IsManifest(c, files, sha, tag, m)
    ensures NoDup(m.subjects)
  {
    hide Sorted, NoDup, Elements, SameCounts, IsRecord, Target, ArchiveLike;
    var names, evidence :| IsManifestFrom(c, files, sha, tag, m, names, evidence);
    var entries := c.checksums(files[ChecksumsPath]).value;
    MembersOf(names);
    MembersOf(evidence);
    PrefixedDistinct(names);
    forall p | p in Prefixed(names) ensures ArchiveLike(p) {
      var i :| 0 <= i < |names| && p == Prefixed(names)[i];
      assert names[i] in names;
      assert ArchiveOk(c, files, entries, Version(tag), names[i]);
      ArchivePathLike(Version(tag), names[i]);
    }
    forall p | p in evidence ensures p != [] && p[0] == 'e' {
      RecordLike(files, p);
    }
    SubjectsApart(Prefixed(names), evidence, NotesPath in files);
  }

  lemma SubjectPresent(c: Tools, files: Tree, sha: string, tag: string, p: Path)
    requires Eligible(c, files, sha, tag) && p in SubjectSet(files, c.checksums(files[ChecksumsPath]).value)
    ensures (p in files || p == ManifestPath) && p != InventoryPath
  {
    hide IsListing, SameCounts, EvidenceFiles, Target, Extra, Targets;
    var entries := c.checksums(files[ChecksumsPath]).value;
    if p in ArchivePaths(entries) {
      var n :| n in entries && p == "dist/" + n;
      assert ArchiveOk(c, files, entries, Version(tag), n);
      assert p[0] == 'd';
    } else if p in EvidenceFiles(files) {
      RecordLike(files, p);
    } else {
      assert p[0] != 'a';
    }
    assert InventoryPath[0] == 'a';
  }

  /** Once the manifest file is there, so is every subject. */
  lemma SubjectsPresent(c: Tools, files: Tree, sha: string, tag: string, m: Manifest)
    requires IsManifest(c, files, sha, tag, m)
    ensures m.subjects != [] && forall p :: p in m.subjects ==> p in files || p == ManifestPath
    ensures files.Keys <= Elements(m.subjects) + {InventoryPath}
    ensures InventoryPath !in m.subjects && ManifestPath in m.subjects
  {
    hide IsListing, Elements, SameCounts, EvidenceFiles, SubjectSet, ArchivesOk, Extra, Targets, TerminalSubjectPaths,
         ArchiveRows, EvidenceRows, Prefixed;
    var names, evidence :| IsManifestFrom(c, files, sha, tag, m, names, evidence);
    var entries := c.checksums(files[ChecksumsPath]).value;
    SubjectsListed(files, entries, names, evidence);
    MembersOf(m.subjects);
    forall p | p in m.subjects ensures (p in files || p == ManifestPath) && p != InventoryPath {
      SubjectPresent(c, files, sha, tag, p);
    }
    ManifestIsSubject(files, entries);
  }

  lemma ManifestIsSubject(files: Tree, entries: map<Name, string>)
    ensures ManifestPath in SubjectSet(files, entries)
  {
  }

  lemma ManifestUnique(c: Tools, files: Tree, sha: string, tag: string, m: Manifest, m': Manifest)
    requires IsManifest(c, files, sha, tag, m) && IsManifest(c, files, sha, tag, m')
    ensures m == m'
  {
    hide IsListing, SameCounts, ArchivesOk, Extra, Targets, SubjectSet, ArchiveRows, EvidenceRows, Prefixed,
         TerminalSubjectPaths;
    var names, evidence :| IsManifestFrom(c, files, sha, tag, m, names, evidence);
    var names', evidence' :| IsManifestFrom(c, files, sha, tag, m', names', evidence');
    OneListing(names, names', c.checksums(files[ChecksumsPath]).value.Keys);
    OneListing(evidence, evidence', EvidenceFiles(files));
  }

  lemma InventoryUnique(c: Tools, files: Tree, subjects: seq<Path>, b: Bytes, b': Bytes)
    requires IsInventory(c, files, subjects, b) && IsInventory(c, files, subjects, b')
    ensures b == b'
  {
    hide IsListing;
    var s :| IsListing(s, Elements(subjects)) && InventoryFrom(c, files, s, b);
    var s' :| IsListing(s', Elements(subjects)) && InventoryFrom(c, files, s', b');
    OneListing(s, s', Elements(subjects));
  }

  lemma PassesEligible(c: Tools, files: Tree, sha: string, tag: string)
    requires Passes(c, files, sha, tag)
    ensures Eligible(c, files, sha, tag)
  {
    hide Eligible, IsManifestFrom, IsInventory;
  }

  /** The check, given the manifest it builds. */
  lemma PassesIff(c: Tools, files: Tree, sha: string, tag: string, m: Manifest)
    requires IsManifest(c, files, sha, tag, m)
    ensures Passes(c, files, sha, tag) <==>
      ManifestPath in files && InventoryPath in files && files[ManifestPath] == c.canonical(m)
      && IsInventory(c, files, m.subjects, files[InventoryPath])
  {
    hide IsManifest, IsInventory;
    if Passes(c, files, sha, tag) {
      var m' :| IsManifest(c, files, sha, tag, m') && files[ManifestPath] == c.canonical(m')
                && IsInventory(c, files, m'.subjects, files[InventoryPath]);
      ManifestUnique(c, files, sha, tag, m, m');
    }
  }

  lemma SameElsewhere(files: Tree, after: Tree, p: Path)
    requires Inputs(after) == Inputs(files) && p != ManifestPath && p != InventoryPath
    ensures p in after <==> p in files
    ensures p in after ==> after[p] == files[p]
  {
    assert p in Inputs(after) <==> p in after;
    assert p in Inputs(files) <==> p in files;
    if p in after {
      assert Inputs(after)[p] == after[p] && Inputs(files)[p] == files[p];
    }
  }

  lemma SameRecordsNamed(files: Tree, after: Tree, base: string)
    requires Inputs(after) == Inputs(files)
    ensures Records(after, base) == Records(files, base)
  {
    hide EndsWith, Inputs;
    forall p ensures p in Records(after, base) <==> p in Records(files, base) {
      if p != ManifestPath && p != InventoryPath {
        SameElsewhere(files, after, p);
      } else {
        assert p[0] != "evidence/"[0];
      }
    }
  }

  lemma SameRecords(files: Tree, after: Tree)
    requires Inputs(after) == Inputs(files)
    ensures EvidenceFiles(after) == EvidenceFiles(files) && SameCounts(after) == SameCounts(files)
    ensures forall p :: p in EvidenceFiles(files) ==> after[p] == files[p]
  {
    hide Records, Inputs;
    SameRecordsNamed(files, after, "release-build-identity.json");
    SameRecordsNamed(files, after, "release-build-receipt.json");
    SameRecordsNamed(files, after, "release-topology.json");
    SameRecordsNamed(files, after, "release-package-evidence.json");
    assert EvidenceFiles(after) == EvidenceFiles(files);
    forall p | p in EvidenceFiles(files) ensures after[p] == files[p] {
      RecordLike(files, p);
      SameElsewhere(files, after, p);
    }
  }

  lemma SameArchives(c: Tools, files: Tree, after: Tree, entries: map<Name, string>, version: string)
    requires Inputs(after) == Inputs(files)
    ensures ArchivesOk(c, after, entries, version) <==> ArchivesOk(c, files, entries, version)
    ensures (forall p :: p in after ==> !Extra(entries, p)) <==> (forall p :: p in files ==> !Extra(entries, p))
  {
    hide Target;
    forall name | name in entries
      ensures ArchiveOk(c, after, entries, version, name) <==> ArchiveOk(c, files, entries, version, name)
    {
      if Target(version, name) != "" {
        ArchivePathLike(version, name);
        NotOutputs();
        SameElsewhere(files, after, "dist/" + name);
      }
    }
    NotOutputs();
    forall p ensures Extra(entries, p) ==> (p in after <==> p in files) {
      if p != ManifestPath && p != InventoryPath {
        SameElsewhere(files, after, p);
      } else {
        OutputsAreNotExtra(entries);
      }
    }
  }

  lemma NotOutputs()
    ensures !ArchiveLike(ManifestPath) && !ArchiveLike(InventoryPath)
  {
  }

  lemma OutputsAreNotExtra(entries: map<Name, string>)
    ensures !Extra(entries, ManifestPath) && !Extra(entries, InventoryPath)
  {
    var name := ManifestPath[5..];
    assert name[|name| - 1] == 'n' && ".zip"[3] == 'p' && ".tar.gz"[6] == 'z';
  }

  lemma SameSubjects(files: Tree, after: Tree, entries: map<Name, string>)
    requires Inputs(after) == Inputs(files)
    ensures SubjectSet(after, entries) == SubjectSet(files, entries)
    ensures files.Keys <= SubjectSet(files, entries) + {InventoryPath} ==>
      after.Keys <= SubjectSet(after, entries) + {InventoryPath}
  {
    hide ArchivePaths, EvidenceFiles, Inputs;
    SameElsewhere(files, after, NotesPath);
    SameRecords(files, after);
    forall p | p in after ensures p in files || p == ManifestPath || p == InventoryPath {
      if p != ManifestPath && p != InventoryPath {
        SameElsewhere(files, after, p);
      }
    }
  }

  lemma SameEligible(c: Tools, files: Tree, after: Tree, sha: string, tag: string)
    requires Inputs(after) == Inputs(files) && Eligible(c, files, sha, tag)
    ensures Eligible(c, after, sha, tag) && after[ChecksumsPath] == files[ChecksumsPath]
    ensures after[SbomPath] == files[SbomPath]
  {
    hide IsListing, SameCounts, ArchivesOk, Extra, Targets, Inputs, EvidenceFiles, SubjectSet, IsHex40, StartsWith;
    var entries := c.checksums(files[ChecksumsPath]).value;
    SameElsewhere(files, after, ChecksumsPath);
    SameElsewhere(files, after, SbomPath);
    SameRecords(files, after);
    SameArchives(c, files, after, entries, Version(tag));
    SameSubjects(files, after, entries);
  }

  /** The outputs are not inputs: adding or replacing them changes no manifest. */
  lemma OutputsAreNotInputs(c: Tools, files: Tree, after: Tree, sha: string, tag: string, m: Manifest)
    requires IsManifest(c, files, sha, tag, m)
    requires Inputs(after) == Inputs(files)
    ensures IsManifest(c, after, sha, tag, m)
  {
    hide IsListing, Eligible, ArchiveRows, Prefixed, TerminalSubjectPaths, Inputs, EvidenceFiles;
    EligibleReadable(c, files, sha, tag);
    var names, evidence :| IsManifestFrom(c, files, sha, tag, m, names, evidence);
    SameEligible(c, files, after, sha, tag);
    EligibleReadable(c, after, sha, tag);
    SameElsewhere(files, after, NotesPath);
    SameRecords(files, after);
    ListingMembers(evidence, EvidenceFiles(files));
    assert EvidenceRows(c, after, evidence) == EvidenceRows(c, files, evidence);
    assert IsManifestFrom(c, after, sha, tag, m, names, evidence);
  }

  lemma EligibleReadable(c: Tools, files: Tree, sha: string, tag: string)
    requires Eligible(c, files, sha, tag)
    ensures Readable(c, files)
  {
  }

  lemma {:induction false} SameText(c: Tools, files: Tree, after: Tree, s: seq<Path>)
    requires forall p :: p in s ==> p in files && p in after && files[p] == after[p]
    ensures Text(c, files, s) == Text(c, after, s)
  {
    if s != [] {
      SameText(c, files, after, s[..|s| - 1]);
    }
  }

  /** A check right after a write succeeds. */
  lemma WriteThenCheck(c: Tools, before: Tree, after: Tree, sha: string, tag: string)
    requires Written(c, before, after, sha, tag)
    ensures Passes(c, after, sha, tag)
  {
    hide IsManifest, IsListing;
    var m, bytes :| WrittenAs(c, before, after, sha, tag, m, bytes);
    assert Inputs(after) == Inputs(before);
    OutputsAreNotInputs(c, before, after, sha, tag, m);
    SubjectsPresent(c, before, sha, tag, m);
    var mid := before[ManifestPath := c.canonical(m)];
    var s :| IsListing(s, Elements(m.subjects)) && InventoryFrom(c, mid, s, bytes);
    MembersOf(m.subjects);
    ListingMembers(s, Elements(m.subjects));
    SameText(c, mid, after, s);
    assert InventoryFrom(c, after, s, bytes);
    assert IsInventory(c, after, m.subjects, after[InventoryPath]);
  }

  /** Writing a candidate that passes changes nothing. */
  lemma CheckedIsFixed(c: Tools, before: Tree, after: Tree, sha: string, tag: string)
    requires Passes(c, before, sha, tag) && Written(c, before, after, sha, tag)
    ensures after == before
  {
    hide IsManifest, IsInventory;
    var m, bytes :| WrittenAs(c, before, after, sha, tag, m, bytes);
    PassesIff(c, before, sha, tag, m);
    assert before[ManifestPath := c.canonical(m)] == before;
    InventoryUnique(c, before, m.subjects, bytes, before[InventoryPath]);
  }

  predicate OneLine(s: string) {
    '\n' !in s
  }

  /** The shape of a SHA-256 hex digest, as far as the inventory's format needs it. */
  ghost predicate HexDigests(c: Tools) {
    forall b :: |c.digest(b)| == 64 && OneLine(c.digest(b))
  }

  /** Two texts ending in a line each have equal last lines and equal rests when they are equal. */
  lemma LastLines(a: string, b: string, x: string, y: string)
    requires a + x == b + y && |x| <= |y|
    requires x != [] && y != [] && OneLine(y[..|y| - 1])
    requires a == [] || a[|a| - 1] == '\n'
    ensures a == b && x == y
  {
    assert (a + x)[..|a|] == a && (b + y)[..|b|] == b && (a + x)[|a|..] == x && (b + y)[|b|..] == y;
  }

  lemma TextBack(c: Tools, f: Tree, s: seq<Path>)
    requires s != [] && forall p :: p in s ==> p in f
    ensures Text(c, f, s) == Text(c, f, s[..|s| - 1]) + Line(c, f, s[|s| - 1])
  {
  }

  lemma LastRows(a: string, b: string, x: string, y: string)
    requires a + x == b + y && x != [] && y != []
    requires OneLine(x[..|x| - 1]) && OneLine(y[..|y| - 1])
    requires (a == [] || a[|a| - 1] == '\n') && (b == [] || b[|b| - 1] == '\n')
    ensures a == b && x == y
  {
    hide OneLine;
    if |x| <= |y| {
      LastLines(a, b, x, y);
    } else {
      LastLines(b, a, y, x);
    }
  }

  lemma TextEnds(c: Tools, f: Tree, s: seq<Path>)
    requires forall p :: p in s ==> p in f
    ensures var t := Text(c, f, s); (t == [] <==> s == []) && (t != [] ==> t[|t| - 1] == '\n')
  {
  }

  lemma LineParts(c: Tools, f: Tree, p: Path)
    requires HexDigests(c) && p in f && OneLine(p)
    ensures var l := Line(c, f, p); l != [] && OneLine(l[..|l| - 1]) && l[..64] == c.digest(f[p]) && l[66..|l| - 1] == p
  {
    var l := Line(c, f, p);
    assert l[..|l| - 1] == c.digest(f[p]) + "  " + p;
  }

  /** The inventory's text gives back its list of paths and every digest. */
  lemma {:induction false} TextInjective(c: Tools, f: Tree, s: seq<Path>, g: Tree, t: seq<Path>)
    requires HexDigests(c)
    requires forall p :: p in s ==> p in f && OneLine(p)
    requires forall p :: p in t ==> p in g && OneLine(p)
    requires Text(c, f, s) == Text(c, g, t)
    ensures s == t && forall p :: p in s ==> c.digest(f[p]) == c.digest(g[p])
  {
    hide OneLine, HexDigests, Line, Text;
    TextEnds(c, f, s);
    TextEnds(c, g, t);
    if s != [] {
      var s', p, t', q := s[..|s| - 1], s[|s| - 1], t[..|t| - 1], t[|t| - 1];
      TextBack(c, f, s);
      TextBack(c, g, t);
      TextEnds(c, f, s');
      TextEnds(c, g, t');
      LineParts(c, f, p);
      LineParts(c, g, q);
      LastRows(Text(c, f, s'), Text(c, g, t'), Line(c, f, p), Line(c, g, q));
      TextInjective(c, f, s', g, t');
      assert s == s' + [p] && t == t' + [q];
    }
  }

  /** No path the inventory lists holds a newline. */
  ghost predicate OneLinePaths(files: Tree) {
    forall p :: p in files ==> OneLine(p)
  }

  /** The inventory pins the candidate: two candidates that pass with the same inventory hold the same files,
      and every file has the same digest in both, whatever their source commits and tags. */
  lemma InventoryPins(c: Tools, f: Tree, sha: string, tag: string, g: Tree, sha': string, tag': string)
    requires HexDigests(c) && forall x, y :: c.utf8(x) == c.utf8(y) ==> x == y
    requires OneLinePaths(f) && OneLinePaths(g)
    requires Passes(c, f, sha, tag) && Passes(c, g, sha', tag') && f[InventoryPath] == g[InventoryPath]
    ensures f.Keys == g.Keys && forall p :: p in f ==> c.digest(f[p]) == c.digest(g[p])
  {
    hide IsManifest, OneLine, IsListing, Elements, HexDigests;
    var m :| IsManifest(c, f, sha, tag, m) && f[ManifestPath] == c.canonical(m)
             && IsInventory(c, f, m.subjects, f[InventoryPath]);
    var m' :| IsManifest(c, g, sha', tag', m') && g[ManifestPath] == c.canonical(m')
              && IsInventory(c, g, m'.subjects, g[InventoryPath]);
    SubjectsPresent(c, f, sha, tag, m);
    SubjectsPresent(c, g, sha', tag', m');
    MembersOf(m.subjects);
    MembersOf(m'.subjects);
    var s :| IsListing(s, Elements(m.subjects)) && InventoryFrom(c, f, s, f[InventoryPath]);
    var t :| IsListing(t, Elements(m'.subjects)) && InventoryFrom(c, g, t, g[InventoryPath]);
    ListingMembers(s, Elements(m.subjects));
    ListingMembers(t, Elements(m'.subjects));
    TextInjective(c, f, s, g, t);
    assert forall p :: p in f <==> p in s || p == InventoryPath;
    assert forall p :: p in g <==> p in t || p == InventoryPath;
  }

  /** Without a digest collision between their files, the two candidates are identical. */
  lemma InventoryPinsContents(c: Tools, f: Tree, sha: string, tag: string, g: Tree, sha': string, tag': string)
    requires HexDigests(c) && forall x, y :: c.utf8(x) == c.utf8(y) ==> x == y
    requires OneLinePaths(f) && OneLinePaths(g)
    requires forall p :: p in f && p in g && c.digest(f[p]) == c.digest(g[p]) ==> f[p] == g[p]
    requires Passes(c, f, sha, tag) && Passes(c, g, sha', tag') && f[InventoryPath] == g[InventoryPath]
    ensures f == g
  {
    hide Passes, OneLinePaths, HexDigests;
    InventoryPins(c, f, sha, tag, g, sha', tag');
  }

  // ----- without any condition on the paths -----

  lemma {:induction false} TextFront(c: Tools, f: Tree, s: seq<Path>)
    requires s != [] && forall p :: p in s ==> p in f
    ensures Text(c, f, s) == Line(c, f, s[0]) + Text(c, f, s[1..])
  {
    hide Line;
    var front := s[..|s| - 1];
    if |s| == 1 {
      assert front == [] && s[1..] == [];
    } else {
      TextFront(c, f, front);
      assert front[1..] == s[1..][..|s| - 2] && s[1..][|s| - 2] == s[|s| - 1];
    }
  }

  /** Two texts that begin with a line each have equal first lines and equal rests when they are equal. */
  lemma FirstLines(x: string, a: string, y: string, b: string)
    requires x + a == y + b && x != [] && y != [] && |x| <= |y|
    requires x[|x| - 1] == '\n' && OneLine(x[..|x| - 1]) && y[|y| - 1] == '\n' && OneLine(y[..|y| - 1])
    ensures x == y && a == b
  {
    assert x == (x + a)[..|x|] && y == (y + b)[..|y|] && a == (x + a)[|x|..] && b == (y + b)[|y|..];
  }

  /** Subjects in `dist` are single lines and sort before all others. */
  ghost predicate DistFirst(s: seq<Path>) {
    && (forall p :: p in s ==> p != [] && (p[0] == 'd' ==> OneLine(p)))
    && forall i, j :: 0 <= i < j < |s| && s[j] != [] && s[j][0] == 'd' ==> s[i] != [] && s[i][0] == 'd'
  }

  lemma DistFirstRest(s: seq<Path>)
    requires DistFirst(s) && s != []
    ensures DistFirst(s[1..])
  {
    hide OneLine;
    var r := s[1..];
    assert forall p :: p in r ==> p in s;
    forall i, j | 0 <= i < j < |r| && r[j] != [] && r[j][0] == 'd' ensures r[i] != [] && r[i][0] == 'd' {
      assert r[i] == s[i + 1] && r[j] == s[j + 1];
    }
  }

  /** A row of `dist` in one inventory is a row, with the same digest, of the other. */
  lemma {:induction false} DistRow(c: Tools, f: Tree, s: seq<Path>, g: Tree, t: seq<Path>, p: Path)
    requires HexDigests(c) && DistFirst(s) && DistFirst(t)
    requires (forall q :: q in s ==> q in f) && (forall q :: q in t ==> q in g)
    requires Text(c, f, s) == Text(c, g, t) && p in s && p != [] && p[0] == 'd'
    ensures p in t && c.digest(f[p]) == c.digest(g[p])
  {
    hide OneLine, HexDigests, Line, Text, DistFirst;
    FirstIsDist(s, p);
    TextEnds(c, f, s);
    TextEnds(c, g, t);
    TextFront(c, f, s);
    TextFront(c, g, t);
    var x, y := Line(c, f, s[0]), Line(c, g, t[0]);
    NotEmptyPath(t);
    RowStart(c, f, s[0]);
    RowStart(c, g, t[0]);
    assert (x + Text(c, f, s[1..]))[66] == x[66] && (y + Text(c, g, t[1..]))[66] == y[66];
    FirstIsDist(t, t[0]);
    LineParts(c, f, s[0]);
    LineParts(c, g, t[0]);
    if |x| <= |y| {
      FirstLines(x, Text(c, f, s[1..]), y, Text(c, g, t[1..]));
    } else {
      FirstLines(y, Text(c, g, t[1..]), x, Text(c, f, s[1..]));
    }
    if p != s[0] {
      DistFirstRest(s);
      DistFirstRest(t);
      assert p in s[1..];
      DistRow(c, f, s[1..], g, t[1..], p);
    }
  }

  lemma NotEmptyPath(s: seq<Path>)
    requires DistFirst(s) && s != []
    ensures s[0] != []
  {
    assert s[0] in s;
  }

  lemma FirstIsDist(s: seq<Path>, p: Path)
    requires DistFirst(s) && p in s && p[0] == 'd'
    ensures s[0] != [] && s[0][0] == 'd' && OneLine(s[0])
  {
    hide OneLine;
    var j :| 0 <= j < |s| && s[j] == p;
  }

  lemma RowStart(c: Tools, f: Tree, p: Path)
    requires HexDigests(c) && p in f && p != []
    ensures var l := Line(c, f, p); |l| > 66 && l[66] == p[0] && l[|l| - 1] == '\n'
  {
    var d := c.digest(f[p]);
    assert |d| == 64 && Line(c, f, p) == d + ("  " + (p + "\n"));
  }

  lemma {:induction false} SamePathsSameDigests(c: Tools, f: Tree, g: Tree, s: seq<Path>)
    requires HexDigests(c) && (forall p :: p in s ==> p in f && p in g) && Text(c, f, s) == Text(c, g, s)
    ensures forall p :: p in s ==> c.digest(f[p]) == c.digest(g[p])
  {
    hide OneLine;
    if s != [] {
      var r, p := s[..|s| - 1], s[|s| - 1];
      var a, b, x, y := Text(c, f, r), Text(c, g, r), Line(c, f, p), Line(c, g, p);
      assert |x| == |y|;
      assert a == (a + x)[..|a|] && b == (b + y)[..|b|] && x == (a + x)[|a|..] && y == (b + y)[|b|..];
      assert x[..64] == c.digest(f[p]) && y[..64] == c.digest(g[p]);
      SamePathsSameDigests(c, f, g, r);
      assert s == r + [p];
    }
  }

  /** The names in SHA256SUMS come from the lines of a text, so none holds a newline. */
  ghost predicate OneLineNames(c: Tools) {
    forall b :: c.checksums(b).Some? ==> forall n :: n in c.checksums(b).value ==> OneLine(n)
  }

  lemma SubjectsDistFirst(c: Tools, files: Tree, sha: string, tag: string, m: Manifest, s: seq<Path>)
    requires IsManifest(c, files, sha, tag, m) && OneLineNames(c) && IsListing(s, Elements(m.subjects))
    ensures DistFirst(s)
  {
    hide Elements, SameCounts, EvidenceFiles, SubjectSet, ArchivesOk, Extra, Targets, TerminalSubjectPaths,
         ArchiveRows, EvidenceRows, Prefixed, OneLine, NoDup, Sorted;
    var names, evidence :| IsManifestFrom(c, files, sha, tag, m, names, evidence);
    var entries := c.checksums(files[ChecksumsPath]).value;
    SubjectsListed(files, entries, names, evidence);
    MembersOf(s);
    forall p | p in s ensures PathShape(p) {
      SubjectShape(c, files, entries, p);
    }
    SortedByHead(s);
  }

  predicate PathShape(p: Path) {
    p != [] && (p[0] == 'd' || p[0] == 'e' || p[0] == 'r') && (p[0] == 'd' ==> OneLine(p))
  }

  lemma SortedByHead(s: seq<Path>)
    requires Sorted(s) && forall p :: p in s ==> PathShape(p)
    ensures DistFirst(s)
  {
    hide OneLine;
    forall i, j | 0 <= i < j < |s| && s[j] != [] && s[j][0] == 'd' ensures s[i] != [] && s[i][0] == 'd' {
      assert Leq(s[i], s[j]) && PathShape(s[i]);
    }
  }

  lemma SubjectShape(c: Tools, files: Tree, entries: map<Name, string>, p: Path)
    requires p in SubjectSet(files, entries) && forall n :: n in entries ==> OneLine(n)
    ensures PathShape(p)
  {
    hide EvidenceFiles;
    if p in ArchivePaths(entries) {
      var n :| n in entries && p == "dist/" + n;
    } else if p in EvidenceFiles(files) {
      RecordLike(files, p);
    }
  }

  /** The inventory pins the candidate whatever the evidence paths hold: it has a row for the manifest, whose
      digest fixes the list of subjects. It takes that the two manifests do not collide, that their text
      determines them, and that archive names are single lines. */
  lemma ManifestPins(c: Tools, f: Tree, sha: string, tag: string, g: Tree, sha': string, tag': string)
    requires HexDigests(c) && OneLineNames(c)
    requires (forall x, y :: c.utf8(x) == c.utf8(y) ==> x == y)
    requires (forall m, m' :: c.canonical(m) == c.canonical(m') ==> m == m')
    requires Passes(c, f, sha, tag) && Passes(c, g, sha', tag') && f[InventoryPath] == g[InventoryPath]
    requires c.digest(f[ManifestPath]) == c.digest(g[ManifestPath]) ==> f[ManifestPath] == g[ManifestPath]
    ensures f.Keys == g.Keys && forall p :: p in f ==> c.digest(f[p]) == c.digest(g[p])
  {
    hide IsManifest, OneLine, IsListing, Elements, HexDigests, OneLineNames, DistFirst;
    var m :| IsManifest(c, f, sha, tag, m) && f[ManifestPath] == c.canonical(m)
             && IsInventory(c, f, m.subjects, f[InventoryPath]);
    var m' :| IsManifest(c, g, sha', tag', m') && g[ManifestPath] == c.canonical(m')
              && IsInventory(c, g, m'.subjects, g[InventoryPath]);
    SubjectsPresent(c, f, sha, tag, m);
    SubjectsPresent(c, g, sha', tag', m');
    MembersOf(m.subjects);
    MembersOf(m'.subjects);
    var s :| IsListing(s, Elements(m.subjects)) && InventoryFrom(c, f, s, f[InventoryPath]);
    var t :| IsListing(t, Elements(m'.subjects)) && InventoryFrom(c, g, t, g[InventoryPath]);
    ListingMembers(s, Elements(m.subjects));
    ListingMembers(t, Elements(m'.subjects));
    SubjectsDistFirst(c, f, sha, tag, m, s);
    SubjectsDistFirst(c, g, sha', tag', m', t);
    DistRow(c, f, s, g, t, ManifestPath);
    OneListing(s, t, Elements(m.subjects));
    SamePathsSameDigests(c, f, g, s);
    assert forall p :: p in f <==> p in s || p == InventoryPath;
    assert forall p :: p in g <==> p in t || p == InventoryPath;
  }

  /** The rows alone do not say which paths they list: one path that holds a newline can spell a whole further
      row. What makes the inventory unambiguous all the same is the manifest's own row (`ManifestPins`). */
  lemma RowsAloneAreAmbiguous(c: Tools, x: Bytes, y: Bytes)
    ensures var p := "a\n" + c.digest(y) + "  b";
      Text(c, map[p := x], [p]) == Text(c, map["a" := x, "b" := y], ["a", "b"])
  {
    var p := "a\n" + c.digest(y) + "  b";
    var g: Tree := map["a" := x, "b" := y];
    assert ["a", "b"][..1] == ["a"];
    calc {
      Text(c, map[p := x], [p]);
      c.digest(x) + "  " + ("a\n" + c.digest(y) + "  b") + "\n";
      (c.digest(x) + "  " + "a" + "\n") + (c.digest(y) + "  " + "b" + "\n");
      Text(c, g, ["a"]) + Line(c, g, "b");
    }
  }

  class Candidate {
    const tools: Tools
    var files: Tree

    constructor (c: Tools, tree: Tree)
      ensures tools == c && files == tree
    {
      tools, files := c, tree;
    }

    /** The loop over `sorted(entries.items())`. */
    method ReadArchives(entries: map<Name, string>, version: string)
      returns (ok: bool, names: seq<Name>, rows: seq<ArchiveRow>, targets: seq<Name>)
      ensures ok <==> ArchivesOk(tools, files, entries, version)
      ensures IsListing(names, entries.Keys)
      ensures ok ==> rows == ArchiveRows(entries, version, names)
      ensures ok ==> NoDup(targets) && Elements(targets) == Targets(entries, version)
    {
      hide Target, IsListing;
      names := Listing(entries.Keys);
      ListingDistinct(names, entries.Keys);
      rows, targets := [], [];
      for i := 0 to |names|
        invariant |rows| == i && forall k :: 0 <= k < i ==> rows[k] == ArchiveRows(entries, version, names)[k]
        invariant |targets| == i && forall k :: 0 <= k < i ==> targets[k] == Target(version, names[k])
        invariant forall k :: 0 <= k < i ==> ArchiveOk(tools, files, entries, version, names[k])
        invariant NoDup(targets)
      {
        var name := names[i];
        var target := Target(version, name);
        if target == "" || "dist/" + name !in files || tools.digest(files["dist/" + name]) != entries[name] {
          assert !ArchiveOk(tools, files, entries, version, name);
          return false, names, rows, targets;
        }
        if target in targets {
          var k :| 0 <= k < i && targets[k] == target;
          assert names[k] in entries && names[k] != name;
          return false, names, rows, targets;
        }
        targets := targets + [target];
        rows := rows + [ArchiveRow("dist/" + name, entries[name], target)];
      }
      ok := true;
      AllTargets(entries, version, names, targets);
    }

    method BuildManifest(sha: string, tag: string) returns (r: Option<Manifest>)
      ensures r.Some? <==> Eligible(tools, files, sha, tag)
      ensures r.Some? ==> IsManifest(tools, files, sha, tag, r.value)
    {
      hide ArchivesOk, IsListing, SameCounts, EvidenceFiles, ArchiveRows, Prefixed, Inputs, IsHex40, StartsWith, Extra,
           SubjectSet, EvidenceRows, TerminalSubjectPaths, Targets, NoDup;
      if !IsHex40(sha) || !StartsWith(tag, "v") || |tag| < 2 {
        return None;
      }
      var version := tag[1..];
      if ChecksumsPath !in files || tools.checksums(files[ChecksumsPath]).None? {
        return None;
      }
      var entries := tools.checksums(files[ChecksumsPath]).value;
      var ok, names, archives, targets := ReadArchives(entries, version);
      if !ok || exists p :: p in files && Extra(entries, p) {
        return None;
      }
      if SbomPath !in files || tools.spdx(files[SbomPath]).None? || !SameCounts(files) {
        return None;
      }
      var e := tools.judge(Inputs(files), entries, sha, version);
      if e.None? {
        return None;
      }
      var sorted := SortTargets(targets);
      if sorted != e.value.targets {
        DifferentListing(sorted, e.value.targets, Targets(entries, version));
        return None;
      }
      var evidence := Listing(EvidenceFiles(files));
      var subjects := TerminalSubjectPaths(Prefixed(names), evidence, NotesPath in files);
      SubjectsListed(files, entries, names, evidence);
      if exists p :: p in files && p !in subjects && p != InventoryPath {
        return None;
      }
      var m := Manifest(sha, tag, version, e.value.topology, archives, tools.digest(files[ChecksumsPath]), |entries|,
                        tools.digest(files[SbomPath]), tools.spdx(files[SbomPath]).value, e.value.targets,
                        EvidenceRows(tools, files, evidence), subjects);
      assert IsManifestFrom(tools, files, sha, tag, m, names, evidence);
      r := Some(m);
    }

    /** `expected_inventory`. */
    method ExpectedInventory(subjects: seq<Path>) returns (r: Option<Bytes>)
      ensures r.Some? <==> subjects != [] && NoDup(subjects) && forall p :: p in subjects ==> p in files
      ensures r.Some? ==> IsInventory(tools, files, subjects, r.value)
    {
      hide IsListing, NoDup, Line;
      CountDistinct(subjects);
      var distinct := set p | p in subjects;
      assert distinct == Elements(subjects);
      if subjects == [] || |subjects| != |distinct| {
        return None;
      }
      var paths := Listing(distinct);
      var text := "";
      for i := 0 to |paths|
        invariant forall k :: 0 <= k < i ==> paths[k] in files
        invariant text == Text(tools, files, paths[..i])
      {
        if paths[i] !in files {
          assert paths[i] in paths && paths[i] in distinct;
          return None;
        }
        assert paths[..i + 1][..i] == paths[..i];
        text := text + Line(tools, files, paths[i]);
      }
      assert paths[..|paths|] == paths;
      r := Some(tools.utf8(text));
      assert InventoryFrom(tools, files, paths, r.value);
    }

    /** `write_outputs`. Writing fails only when no manifest can be built, and then changes nothing. */
    method WriteOutputs(sha: string, tag: string) returns (ok: bool)
      modifies this
      ensures ok <==> Eligible(tools, old(files), sha, tag)
      ensures ok ==> Written(tools, old(files), files, sha, tag)
      ensures !ok ==> files == old(files)
    {
      hide Eligible, IsManifest, IsInventory;
      var m := BuildManifest(sha, tag);
      if m.None? {
        return false;
      }
      files := files[ManifestPath := tools.canonical(m.value)];
      SubjectsDistinct(tools, old(files), sha, tag, m.value);
      SubjectsPresent(tools, old(files), sha, tag, m.value);
      var inventory := ExpectedInventory(m.value.subjects);
      files := files[InventoryPath := inventory.value];
      ok := true;
      assert WrittenAs(tools, old(files), files, sha, tag, m.value, inventory.value);
    }

    /** `check_outputs`. */
    method CheckOutputs(sha: string, tag: string) returns (ok: bool)
      ensures ok <==> Passes(tools, files, sha, tag)
    {
      hide Eligible, IsManifest, IsInventory;
      var m := BuildManifest(sha, tag);
      if m.None? {
        if Passes(tools, files, sha, tag) {
          PassesEligible(tools, files, sha, tag);
        }
        return false;
      }
      PassesIff(tools, files, sha, tag, m.value);
      if ManifestPath !in files || files[ManifestPath] != tools.canonical(m.value) || InventoryPath !in files {
        return false;
      }
      var inventory := ExpectedInventory(m.value.subjects);
      SubjectsDistinct(tools, files, sha, tag, m.value);
      SubjectsPresent(tools, files, sha, tag, m.value);
      ok := files[InventoryPath] == inventory.value;
      if IsInventory(tools, files, m.value.subjects, files[InventoryPath]) {
        InventoryUnique(tools, files, m.value.subjects, files[InventoryPath], inventory.value);
      }
    }
  }
}
