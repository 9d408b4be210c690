/** `derive_downloader_targets`: which release targets the TypeScript downloader constructs in live code. */
module DownloaderTargets {
  import opened Names
  import opened TypescriptMask
  import opened ExecutableSearch
  import opened WindowsTargets

  type Target = string

  const ARCH_CHOICE := "return arch === " + "'arm64' ? "
  const APPLE_ARM := "'aarch64-" + "apple-darwin'"
  const APPLE_INTEL := "'x86_64-" + "apple-darwin'"
  const DARWIN := (ARCH_CHOICE + APPLE_ARM) + (" : " + APPLE_INTEL)
  const LINUX_RETURN := "return `${archPrefix}" + ("-unknown-" + "linux-${libc}`")
  const LINUX_PREFIX := "archPrefix = arch === " + ("'arm64' ? " + "'aarch64' : 'x86_64'")
  const LINUX_GNU := "value === 'gnu'"
  const LINUX_MUSL := "value === 'musl'"
  const DARWIN_TARGETS: set<Target> := {"aarch64-apple-darwin", "x86_64-apple-darwin"}

  /** The needles start with ASCII letters. */
  ghost predicate AsciiLetters(u: Classes) {
    PythonLike(u) && forall c :: 'a' <= c <= 'z' ==> u.alpha(c)
  }

  /** The needle occurs with its leading identifier in code. */
  ghost predicate InCode(u: Classes, source: string, needle: string)
    requires PythonLike(u)
  {
    exists k :: OccursAt(source, needle, k) && AnchorIsCode(u, source, false, needle, k)
  }

  /** The pair `a`, `b` of characters does not occur at or after `from`. */
  ghost predicate PairAbsent(s: string, a: char, b: char, from: nat) {
    forall k :: from <= k < |s| - 1 ==> s[k] != a || s[k + 1] != b
  }

  lemma PairAbsentConcat(s: string, t: string, a: char, b: char, from: nat)
    requires PairAbsent(s, a, b, from) && PairAbsent(t, a, b, 0)
    requires s != [] && t != [] && from < |s| && (s[|s| - 1] != a || t[0] != b)
    ensures PairAbsent(s + t, a, b, from)
  {
  }

  /** A pair that never recurs, with nothing up to it equal to the last character, rules borders out. */
  lemma NoBorder(s: string, o: nat)
    requires o + 1 < |s| && PairAbsent(s, s[o], s[o + 1], o + 1)
    requires forall i :: 0 <= i <= o ==> s[i] != s[|s| - 1]
    ensures BorderFree(s)
  {
    forall d | 0 < d < |s| ensures s[d..] != s[..|s| - d] {
      var n := |s| - d;
      if n <= o + 1 {
        assert s[..n][n - 1] == s[n - 1] && s[d..][n - 1] == s[|s| - 1];
      } else {
        assert s[..n][o] == s[o] && s[d..][o] == s[d + o];
        assert s[..n][o + 1] == s[o + 1] && s[d..][o + 1] == s[d + o + 1];
      }
    }
  }

  /** A piece of a needle: it neither holds the pair nor starts with its second character. */
  ghost predicate Piece(s: string, a: char, b: char) {
    s != [] && s[0] != b && PairAbsent(s, a, b, 0)
  }

  lemma PieceConcat(s: string, t: string, a: char, b: char)
    requires Piece(s, a, b) && Piece(t, a, b)
    ensures Piece(s + t, a, b)
  {
  }

  /** A head that holds the pair at `o`, followed by a piece. */
  lemma NoBorderIn(head: string, tail: string, o: nat, last: char)
    requires o + 1 < |head| && PairAbsent(head, head[o], head[o + 1], o + 1) && Piece(tail, head[o], head[o + 1])
    requires tail[|tail| - 1] == last && forall i :: 0 <= i <= o ==> head[i] != last
    ensures BorderFree(head + tail)
  {
    hide BorderFree, PairAbsent, Piece;
    assert tail != [] && tail[0] != head[o + 1] && PairAbsent(tail, head[o], head[o + 1], 0) by {
      PieceParts(tail, head[o], head[o + 1]);
    }
    PairAbsentConcat(head, tail, head[o], head[o + 1], o + 1);
    NoBorder(head + tail, o);
  }

  lemma PieceParts(s: string, a: char, b: char)
    requires Piece(s, a, b)
    ensures s != [] && s[0] != b && PairAbsent(s, a, b, 0)
  {
  }

  lemma DarwinPieces()
    ensures PairAbsent(ARCH_CHOICE, 'r', 'e', 1) && ARCH_CHOICE[..2] == "re"
    ensures Piece(APPLE_ARM, 'r', 'e') && Piece(APPLE_INTEL, 'r', 'e') && Piece(" : ", 'r', 'e')
    ensures APPLE_INTEL[|APPLE_INTEL| - 1] == '\''
  {
  }

  /** None of the needles can overlap itself, so the search for each of them is exact. */
  lemma DarwinHasNoBorder()
    ensures BorderFree(DARWIN)
  {
    hide BorderFree, PairAbsent, Piece;
    DarwinPieces();
    Assembled(ARCH_CHOICE, APPLE_ARM, " : ", APPLE_INTEL);
  }

  lemma Assembled(p: string, q: string, r: string, s: string)
    requires |p| >= 2 && p[..2] == "re" && PairAbsent(p, 'r', 'e', 1)
    requires Piece(q, 'r', 'e') && Piece(r, 'r', 'e') && Piece(s, 'r', 'e') && s[|s| - 1] == '\''
    ensures BorderFree((p + q) + (r + s))
  {
    hide BorderFree, PairAbsent;
    PieceConcat(r, s, 'r', 'e');
    PieceConcat(q, r + s, 'r', 'e');
    assert p[0] == p[..2][0] && p[1] == p[..2][1];
    NoBorderIn(p, q + (r + s), 0, '\'');
    assert (p + q) + (r + s) == p + (q + (r + s));
  }

  lemma LinuxReturnHasNoBorder()
    ensures BorderFree(LINUX_RETURN)
  {
    hide BorderFree;
    PieceConcat("-unknown-", "linux-${libc}`", 'e', 't');
    NoBorderIn("return `${archPrefix}", "-unknown-" + "linux-${libc}`", 1, '`');
  }

  lemma LinuxPrefixHasNoBorder()
    ensures BorderFree(LINUX_PREFIX)
  {
    hide BorderFree;
    PieceConcat("'arm64' ? ", "'aarch64' : 'x86_64'", 'h', 'P');
    NoBorderIn("archPrefix = arch === ", "'arm64' ? " + "'aarch64' : 'x86_64'", 3, '\'');
  }

  lemma LinuxLibcHasNoBorder()
    ensures BorderFree(LINUX_GNU) && BorderFree(LINUX_MUSL)
  {
    hide BorderFree;
    NoBorder(LINUX_GNU, 0);
    NoBorder(LINUX_MUSL, 0);
  }

  lemma NeedleExact(u: Classes, source: string, needle: string)
    requires AsciiLetters(u) && needle != [] && 'a' <= needle[0] <= 'z' && BorderFree(needle)
    ensures Admits(u, source, Masked(u, source, false), needle) <==> InCode(u, source, needle)
  {
    hide Masked, BorderFree, Admits, OccursAt, AnchorIsCode;
    AdmittedIffInCode(u, source, false, needle);
  }

  predicate IsLinux(t: Target) {
    EndsWith(t, "-unknown-linux-gnu") || EndsWith(t, "-unknown-linux-musl")
  }

  ghost predicate ConstructsLinux(u: Classes, source: string)
    requires PythonLike(u)
  {
    && InCode(u, source, LINUX_RETURN) && InCode(u, source, LINUX_PREFIX)
    && InCode(u, source, LINUX_GNU) && InCode(u, source, LINUX_MUSL)
  }

  method Occurs(u: Classes, source: string, mask: string, needle: string) returns (found: bool)
    requires AsciiLetters(u) && mask == Masked(u, source, false) && |mask| == |source|
    requires needle != [] && 'a' <= needle[0] <= 'z' && BorderFree(needle)
    ensures found <==> InCode(u, source, needle)
  {
    hide BorderFree, Masked, InCode, Admits;
    found := HasExecutableSubstring(u, source, mask, needle);
    NeedleExact(u, source, needle);
  }

  /** What the downloader must do in live code for the target to count. */
  ghost predicate Constructs(u: Classes, source: string, t: Target)
    requires PythonLike(u)
  {
    || (t in DARWIN_TARGETS && InCode(u, source, DARWIN))
    || (t == X64_TARGET && ReturnsTarget(u, source, X64, X64_TARGET))
    || (t == ARM64_TARGET && ReturnsTarget(u, source, ARM64, ARM64_TARGET))
    || (IsLinux(t) && ConstructsLinux(u, source))
  }

  /** The loop over the Windows targets. */
  method FindWindowsTargets(u: Classes, source: string, mask: string) returns (found: set<Target>)
    requires AsciiClasses(u) && mask == Masked(u, source, false)
    ensures found <= {X64_TARGET, ARM64_TARGET}
    ensures X64_TARGET in found <==> ReturnsTarget(u, source, X64, X64_TARGET)
    ensures ARM64_TARGET in found <==> ReturnsTarget(u, source, ARM64, ARM64_TARGET)
  {
    hide Masked, ReturnsTarget, PlainTarget;
    X64IsPlain();
    Arm64IsPlain();
    var strictMask := Mask(u, source, true);
    found := {};
    var x64 := FindWindowsTarget(u, source, mask, strictMask, X64, X64_TARGET);
    if x64 {
      found := found + {X64_TARGET};
    }
    var arm64 := FindWindowsTarget(u, source, mask, strictMask, ARM64, ARM64_TARGET);
    if arm64 {
      found := found + {ARM64_TARGET};
    }
  }

  /** A workflow target counts as managed exactly when the construction it needs occurs in code: one that
      stands only in a comment, a string or a regex literal admits nothing, and one in code is never missed. */
  method DeriveDownloaderTargets(u: Classes, source: string, workflow: set<Target>) returns (managed: set<Target>)
    requires AsciiLetters(u) && AsciiClasses(u)
    ensures managed == set t | t in workflow && Constructs(u, source, t)
  {
    hide InCode, BorderFree, Masked, ReturnsTarget, IsLinux, ConstructsLinux;
    var mask := Mask(u, source, false);
    managed := {};
    var darwin := Occurs(u, source, mask, DARWIN) by {
      DarwinHasNoBorder();
    }
    if darwin {
      managed := managed + DARWIN_TARGETS;
    }
    var windows := FindWindowsTargets(u, source, mask);
    managed := managed + windows;
    var linux := FindLinux(u, source, mask);
    if linux {
      managed := managed + set t | t in workflow && IsLinux(t);
    }
    managed := managed * workflow;
  }

  /** The four searches for the Linux construction. */
  method FindLinux(u: Classes, source: string, mask: string) returns (found: bool)
    requires AsciiLetters(u) && mask == Masked(u, source, false)
    ensures found <==> ConstructsLinux(u, source)
  {
    hide InCode, BorderFree, Masked;
    LinuxReturnHasNoBorder();
    LinuxPrefixHasNoBorder();
    LinuxLibcHasNoBorder();
    var returned := Occurs(u, source, mask, LINUX_RETURN);
    var prefix := Occurs(u, source, mask, LINUX_PREFIX);
    var gnu := Occurs(u, source, mask, LINUX_GNU);
    var musl := Occurs(u, source, mask, LINUX_MUSL);
    found := returned && prefix && gnu && musl;
  }
}
