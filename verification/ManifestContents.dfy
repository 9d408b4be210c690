/** What a terminal manifest says, field by field, in terms of the candidate's files and their names. */
module ManifestContents {
  import opened Wrappers
  import opened Names
  import opened TerminalManifest

  const EXTENSIONS: set<string> := {".tar.gz", ".zip"}

  /** `name` is the canonical archive name for this version and target. */
  ghost predicate Canonical(version: string, name: Name, target: string) {
    target != "" && exists e :: e in EXTENSIONS && name == "perllsp-" + version + "-" + target + e
  }

  lemma EndOf(s: string, t: string, e: string)
    requires s == t + e
    ensures EndsWith(s, e) && s[..|s| - |e|] == t
  {
  }

  lemma OnlyEnd(s: string, e: string)
    requires EndsWith(s, e)
    ensures s == s[..|s| - |e|] + e
  {
  }

  lemma LastOf(s: string, e: string)
    requires EndsWith(s, e) && e != []
    ensures s != [] && s[|s| - 1] == e[|e| - 1]
  {
    assert s[|s| - |e|..][|e| - 1] == s[|s| - 1];
  }

  lemma NotBoth(s: string)
    requires EndsWith(s, ".zip")
    ensures !EndsWith(s, ".tar.gz")
  {
    LastOf(s, ".zip");
    if EndsWith(s, ".tar.gz") {
      LastOf(s, ".tar.gz");
    }
  }

  /** The target the build reads out of an archive name is the one the canonical name spells. */
  lemma TargetIs(version: string, name: Name, target: string)
    ensures target != "" ==> (Target(version, name) == target <==> Canonical(version, name, target))
  {
    hide EndsWith, StartsWith;
    if target != "" && Target(version, name) == target {
      TargetSpelled(version, name, target);
    }
    if Canonical(version, name, target) {
      var e :| e in EXTENSIONS && name == "perllsp-" + version + "-" + target + e;
      TargetRead("perllsp-" + version + "-", version, name, target, e);
    }
  }

  lemma TargetSpelled(version: string, name: Name, target: string)
    requires target != "" && Target(version, name) == target
    ensures Canonical(version, name, target)
  {
    hide EndsWith;
    var prefix := "perllsp-" + version + "-";
    var e := if EndsWith(name, ".tar.gz") && |prefix| <= |name| - 7 then ".tar.gz" else ".zip";
    OnlyEnd(name, e);
    assert name[..|name| - |e|] == name[..|prefix|] + name[|prefix|..|name| - |e|];
    assert name == prefix + target + e && e in EXTENSIONS;
  }

  lemma TargetRead(prefix: string, version: string, name: Name, target: string, e: string)
    requires prefix == "perllsp-" + version + "-" && target != "" && e in EXTENSIONS && name == prefix + target + e
    ensures Target(version, name) == target
  {
    hide EndsWith;
    EndOf(name, prefix + target, e);
    assert StartsWith(name, prefix) && name[|prefix|..|name| - |e|] == target;
    if e == ".zip" { NotBoth(name); }
  }

  ghost predicate Unlisted(entries: map<Name, string>, p: Path, name: Name) {
    && p == "dist/" + name && '/' !in name && name !in entries
    && exists e :: e in EXTENSIONS && EndsWith(name, e)
  }

  /** An archive that the checksums do not list stands directly in `dist`. */
  lemma ExtraIs(entries: map<Name, string>, p: Path)
    ensures Extra(entries, p) <==>
      exists name: Name :: Unlisted(entries, p, name)
  {
    if Extra(entries, p) {
      var name := p[5..];
      assert p == "dist/" + name;
      assert EndsWith(name, ".tar.gz") || EndsWith(name, ".zip");
      assert ".tar.gz" in EXTENSIONS && ".zip" in EXTENSIONS && Unlisted(entries, p, name);
    }
    if name: Name :| Unlisted(entries, p, name) {
      assert p[..5] == "dist/" && p[5..] == name;
    }
  }

  /** A record of this name stands somewhere below `evidence`. */
  lemma RecordIs(p: Path, base: string)
    ensures IsRecord(p, base) <==> p == "evidence/" + base || exists d: string :: p == "evidence/" + d + "/" + base
  {
    Below("evidence/", p, base);
  }

  /** Starting with a directory and ending with a name below some directory is lying below the first one. */
  lemma Below(head: string, p: Path, base: string)
    requires |head| > 0 && head[|head| - 1] == '/' && forall k :: 0 <= k < |head| - 1 ==> head[k] != '/'
    ensures StartsWith(p, head) && EndsWith(p, "/" + base) <==>
      p == head + base || exists d: string :: p == head + d + "/" + base
  {
    hide StartsWith, EndsWith;
    StartsWithIs(p, head);
    EndsWithIs(p, "/" + base);
    if StartsWith(p, head) && EndsWith(p, "/" + base) {
      var x :| p == head + x;
      var y :| p == y + ("/" + base);
      Overlap(head, p, x, y, base);
    }
    if p == head + base {
      assert p == head[..|head| - 1] + ("/" + base);
    }
    if d: string :| p == head + d + "/" + base {
      assert p == head + (d + "/" + base) && p == (head + d) + ("/" + base);
    }
  }

  lemma Overlap(head: string, p: Path, x: string, y: string, base: string)
    requires |head| > 0 && head[|head| - 1] == '/' && forall k :: 0 <= k < |head| - 1 ==> head[k] != '/'
    requires p == head + x && p == y + ("/" + base)
    ensures p == head + base || exists d: string :: p == head + d + "/" + base
  {
    assert p[|y|] == '/';
    if |y| < |head| {
      assert p[|y|] == head[|y|];
      assert x == p[|head|..] && base == p[|y| + 1..];
    } else {
      var d := y[|head|..];
      assert y == p[..|y|] && y[..|head|] == p[..|head|] == head;
      assert p == head + d + "/" + base;
    }
  }

  const RECORDS: set<string> := {"release-build-identity.json", "release-build-receipt.json",
                                 "release-topology.json", "release-package-evidence.json"}

  lemma EvidenceAre(files: Tree, p: Path)
    ensures p in EvidenceFiles(files) <==> p in files && exists base :: base in RECORDS && IsRecord(p, base)
  {
  }

  /** One archive row: its file, listed with this digest, which the file has, and its target. */
  ghost predicate ArchiveRowOk(c: Tools, files: Tree, entries: map<Name, string>, version: string, r: ArchiveRow,
                               name: Name)
  {
    && name in entries && r.path == "dist/" + name && r.sha256 == entries[name]
    && r.path in files && c.digest(files[r.path]) == r.sha256 && Canonical(version, name, r.target)
  }

  /** One row for every listed archive, in the order of the names. */
  ghost predicate ArchivesSaid(c: Tools, files: Tree, entries: map<Name, string>, m: Manifest, names: seq<Name>) {
    && IsListing(names, entries.Keys) && |m.archives| == |names| == m.archiveCount
    && forall i :: 0 <= i < |names| ==> ArchiveRowOk(c, files, entries, m.version, m.archives[i], names[i])
  }

  /** One row for every record below `evidence`, in the order of the paths. */
  ghost predicate EvidenceSaid(c: Tools, files: Tree, m: Manifest, paths: seq<Path>) {
    && Sorted(paths) && NoDup(paths) && |m.evidence| == |paths|
    && (forall p :: p in paths <==> p in files && exists base :: base in RECORDS && IsRecord(p, base))
    && forall i :: 0 <= i < |paths| ==>
         paths[i] in files && m.evidence[i].path == paths[i] && m.evidence[i].sha256 == c.digest(files[paths[i]])
  }

  /** The subjects in the producer's order: archives, records, the three fixed files, and notes if there are any. */
  ghost predicate SubjectsSaid(files: Tree, m: Manifest) {
    var a, e := |m.archives|, |m.evidence|;
    && |m.subjects| == a + e + (if "release_notes.md" in files then 4 else 3)
    && (forall i :: 0 <= i < a ==> m.subjects[i] == m.archives[i].path)
    && (forall i :: 0 <= i < e ==> m.subjects[a + i] == m.evidence[i].path)
    && m.subjects[a + e..][..3] == ["dist/SHA256SUMS", "dist/sbom-spdx.json", "dist/release-terminal-manifest.json"]
    && ("release_notes.md" in files ==> m.subjects[a + e + 3] == "release_notes.md")
  }

  /** Everything a manifest says. */
  lemma ManifestSays(c: Tools, files: Tree, sha: string, tag: string, m: Manifest)
    returns (entries: map<Name, string>, names: seq<Name>, paths: seq<Path>)
    requires IsManifest(c, files, sha, tag, m)
    ensures m.sourceSha == sha && m.tag == tag == "v" + m.version && m.version != ""
    ensures "dist/SHA256SUMS" in files && c.checksums(files["dist/SHA256SUMS"]) == Some(entries)
    ensures m.checksums == c.digest(files["dist/SHA256SUMS"])
    ensures "dist/sbom-spdx.json" in files && m.sbom == c.digest(files["dist/sbom-spdx.json"])
    ensures c.spdx(files["dist/sbom-spdx.json"]) == Some(m.packageCount)
    ensures ArchivesSaid(c, files, entries, m, names) && EvidenceSaid(c, files, m, paths) && SubjectsSaid(files, m)
    ensures Sorted(m.evidenceTargets) && NoDup(m.evidenceTargets)
    ensures forall t :: t in m.evidenceTargets <==> exists r :: r in m.archives && r.target == t
  {
    hide IsListing, ArchivesOk, ArchivesSaid, EvidenceSaid, SubjectsSaid, Eligible, IsManifestFrom, Sorted, NoDup;
    assert Eligible(c, files, sha, tag);
    EligibleParts(c, files, sha, tag);
    entries := c.checksums(files[ChecksumsPath]).value;
    names, paths :| IsManifestFrom(c, files, sha, tag, m, names, paths);
    ManifestParts(c, files, sha, tag, m, names, paths);
    TargetsAre(c, files, sha, tag, m, entries, names, paths);
    VersionIs(tag);
    ArchivesAre(c, files, entries, m, names);
    EvidenceIs(c, files, m, paths);
    TargetsSaid(c, files, entries, m, names);
    SubjectsAre(files, m, names, paths);
  }

  lemma EligibleParts(c: Tools, files: Tree, sha: string, tag: string)
    requires Eligible(c, files, sha, tag)
    ensures Readable(c, files) && StartsWith(tag, "v") && |tag| >= 2
    ensures ArchivesOk(c, files, c.checksums(files[ChecksumsPath]).value, Version(tag))
  {
    hide ArchivesOk, IsListing, Extra, SameCounts, IsHex40;
  }

  lemma ManifestParts(c: Tools, files: Tree, sha: string, tag: string, m: Manifest, names: seq<Name>, paths: seq<Path>)
    requires Readable(c, files) && IsManifestFrom(c, files, sha, tag, m, names, paths)
    ensures var entries := c.checksums(files[ChecksumsPath]).value;
      && IsListing(names, entries.Keys) && IsListing(paths, EvidenceFiles(files))
      && (forall n :: n in names ==> n in entries) && (forall p :: p in paths ==> p in files)
      && m.sourceSha == sha && m.tag == tag && m.version == Version(tag)
      && m.archives == ArchiveRows(entries, m.version, names) && m.archiveCount == |entries|
      && m.checksums == c.digest(files[ChecksumsPath]) && m.sbom == c.digest(files[SbomPath])
      && m.packageCount == c.spdx(files[SbomPath]).value && m.evidence == EvidenceRows(c, files, paths)
      && m.subjects == TerminalSubjectPaths(Prefixed(names), paths, NotesPath in files)
  {
    hide IsListing, EvidenceFiles, ArchiveRows, EvidenceRows, TerminalSubjectPaths, Prefixed;
    ListingMembers(names, c.checksums(files[ChecksumsPath]).value.Keys);
    ListingMembers(paths, EvidenceFiles(files));
  }

  lemma TargetsAre(c: Tools, files: Tree, sha: string, tag: string, m: Manifest, entries: map<Name, string>,
                   names: seq<Name>, paths: seq<Path>)
    requires Eligible(c, files, sha, tag) && c.checksums(files[ChecksumsPath]) == Some(entries)
    requires IsManifestFrom(c, files, sha, tag, m, names, paths)
    ensures IsListing(m.evidenceTargets, Targets(entries, m.version))
  {
    hide IsListing, EvidenceFiles, ArchiveRows, EvidenceRows, TerminalSubjectPaths, Prefixed, ArchivesOk, Extra,
         SameCounts, IsHex40, SubjectSet;
  }

  lemma VersionIs(tag: string)
    requires StartsWith(tag, "v") && |tag| >= 2
    ensures tag == "v" + Version(tag) && Version(tag) != ""
  {
    assert tag[..1] == "v" && tag == tag[..1] + tag[1..];
  }

  lemma ArchivesAre(c: Tools, files: Tree, entries: map<Name, string>, m: Manifest, names: seq<Name>)
    requires IsListing(names, entries.Keys) && m.archiveCount == |entries| && ArchivesOk(c, files, entries, m.version)
    requires (forall n :: n in names ==> n in entries) && m.archives == ArchiveRows(entries, m.version, names)
    ensures ArchivesSaid(c, files, entries, m, names)
  {
    hide Sorted, NoDup, Target, Canonical;
    ListingDistinct(names, entries.Keys);
    NoDupLength(names);
    forall i | 0 <= i < |names| ensures ArchiveRowOk(c, files, entries, m.version, m.archives[i], names[i]) {
      assert names[i] in entries;
      assert ArchiveOk(c, files, entries, m.version, names[i]);
      TargetIs(m.version, names[i], m.archives[i].target);
    }
  }

  lemma EvidenceIs(c: Tools, files: Tree, m: Manifest, paths: seq<Path>)
    requires IsListing(paths, EvidenceFiles(files)) && (forall p :: p in paths ==> p in files)
    requires m.evidence == EvidenceRows(c, files, paths)
    ensures EvidenceSaid(c, files, m, paths)
  {
    hide Sorted, NoDup, IsRecord, EvidenceFiles;
    ListingMembers(paths, EvidenceFiles(files));
    forall p ensures p in paths <==> p in files && exists base :: base in RECORDS && IsRecord(p, base) {
      EvidenceAre(files, p);
    }
  }

  lemma TargetsSaid(c: Tools, files: Tree, entries: map<Name, string>, m: Manifest, names: seq<Name>)
    requires IsListing(names, entries.Keys) && m.archives == ArchiveRows(entries, m.version, names)
    requires IsListing(m.evidenceTargets, Targets(entries, m.version))
    ensures Sorted(m.evidenceTargets) && NoDup(m.evidenceTargets)
    ensures forall t :: t in m.evidenceTargets <==> exists r :: r in m.archives && r.target == t
  {
    hide Sorted, NoDup, Target;
    ListingMembers(names, entries.Keys);
    ListingMembers(m.evidenceTargets, Targets(entries, m.version));
    forall t ensures t in Targets(entries, m.version) <==> exists r :: r in m.archives && r.target == t {
      if t in Targets(entries, m.version) {
        var a :| a in entries && Target(m.version, a) == t;
        var i :| 0 <= i < |names| && names[i] == a;
        assert m.archives[i] in m.archives && m.archives[i].target == t;
      }
      if r :| r in m.archives && r.target == t {
        var i :| 0 <= i < |m.archives| && m.archives[i] == r;
        assert names[i] in entries;
      }
    }
  }

  lemma SubjectsAre(files: Tree, m: Manifest, names: seq<Name>, paths: seq<Path>)
    requires m.subjects == TerminalSubjectPaths(Prefixed(names), paths, NotesPath in files)
    requires |m.archives| == |names| && forall i :: 0 <= i < |names| ==> m.archives[i].path == "dist/" + names[i]
    requires |m.evidence| == |paths| && forall i :: 0 <= i < |paths| ==> m.evidence[i].path == paths[i]
    ensures SubjectsSaid(files, m)
  {
    var a, e := |names|, |paths|;
    assert m.subjects[a + e..][..3] == FixedSubjects;
  }

  /** The inventory is the concatenation of one line per subject. */
  lemma {:induction false} TextIs(c: Tools, files: Tree, p: Path, a: seq<Path>, b: seq<Path>)
    requires p in files && forall q :: q in a + b ==> q in files
    ensures Text(c, files, []) == "" && Text(c, files, [p]) == c.digest(files[p]) + "  " + p + "\n"
    ensures (forall q :: q in a ==> q in files) && forall q :: q in b ==> q in files
    ensures Text(c, files, a + b) == Text(c, files, a) + Text(c, files, b)
  {
    assert Text(c, files, [p]) == Text(c, files, []) + Line(c, files, p) by {
      assert [p][..0] == [];
    }
    forall q | q in a || q in b ensures q in files {
      assert q in a + b;
    }
    if b == [] {
      assert a + b == a;
    } else {
      var front, last := b[..|b| - 1], b[|b| - 1];
      assert (a + b)[..|a + b| - 1] == a + front;
      TextIs(c, files, p, a, front);
    }
  }
}
