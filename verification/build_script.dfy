/**
  The build script's decisions about the vendored SDK: which git tag a
  version specifier from `Cargo.toml` resolves to, whether an SDK already
  checked out is that version, and which platform library directory the
  target selects. Running git, reading files and the environment are
  parameters: the output of `git ls-remote` (or its failure), whether the
  SDK directory exists, and the contents of its `VERSION` file.
 */
module BuildScript {
  import opened Wrappers
  import opened Strings

  /** A tag from `git ls-remote` that matched `vX.Y.` followed by a `u32` patch number. */
  datatype Candidate = Candidate(tag: string, patch: nat)

  /** The specifier, `v` removed, has three dot-separated parts that all parse as `u32`. */
  predicate IsFullVersion(spec: string) {
    var parts := Split(StripV(spec), '.');
    |parts| == 3 && forall k :: 0 <= k < 3 ==> ParseU32(parts[k]).Some?
  }

  /** A string without the separator is one part. */
  lemma {:induction false} SplitNoSeparator(a: string, c: char)
    requires c !in a
    ensures Split(a, c) == [a]
    decreases |a|
  {
    if |a| > 0 {
      SplitNoSeparator(a[1..], c);
      assert a == [a[0]] + a[1..];
    }
  }

  /** A separator-free prefix followed by the separator is the first part; the rest splits on its own. */
  lemma {:induction false} SplitAfterPart(a: string, rest: string, c: char)
    requires c !in a
    ensures Split(a + [c] + rest, c) == [a] + Split(rest, c)
    decreases |a|
  {
    if |a| == 0 {
      assert a + [c] + rest == [c] + rest;
      assert ([c] + rest)[1..] == rest;
    } else {
      assert a + [c] + rest == [a[0]] + (a[1..] + [c] + rest);
      SplitCons(a[0], a[1..] + [c] + rest, c);
      SplitAfterPart(a[1..], rest, c);
      assert a == [a[0]] + a[1..];
    }
  }

  /**
    Three `u32` numbers joined by dots are a full version, with or without a
    leading `v`; `X.Y` style specifiers are not, since they split into two
    parts.
   */
  lemma FullVersionOfParts(a: string, b: string, c: string)
    requires ParseU32(a).Some? && ParseU32(b).Some? && ParseU32(c).Some?
    ensures IsFullVersion(a + "." + b + "." + c)
    ensures IsFullVersion("v" + a + "." + b + "." + c)
    ensures !IsFullVersion(a + "." + b)
  {
    FullVersionPlain(a, b, c);
    FullVersionWithV(a, b, c);
    PartialNotFull(a, b);
  }

  lemma FullVersionPlain(a: string, b: string, c: string)
    requires ParseU32(a).Some? && ParseU32(b).Some? && ParseU32(c).Some?
    ensures IsFullVersion(a + "." + b + "." + c)
  {
    var spec := a + "." + b + "." + c;
    ThreeParts(a, b, c);
    assert StripV(spec) == spec by {
      assert spec[0] == a[0];
    }
    FullVersionFromParts(spec, a, b, c);
  }

  lemma FullVersionWithV(a: string, b: string, c: string)
    requires ParseU32(a).Some? && ParseU32(b).Some? && ParseU32(c).Some?
    ensures IsFullVersion("v" + a + "." + b + "." + c)
  {
    var spec := a + "." + b + "." + c;
    var vspec := "v" + a + "." + b + "." + c;
    ThreeParts(a, b, c);
    assert vspec == "v" + spec;
    assert StripV(vspec) == spec by {
      assert vspec[..1] == "v";
      assert vspec[1..] == spec;
    }
    FullVersionFromParts(vspec, a, b, c);
  }

  lemma FullVersionFromParts(spec: string, a: string, b: string, c: string)
    requires Split(StripV(spec), '.') == [a, b, c]
    requires ParseU32(a).Some? && ParseU32(b).Some? && ParseU32(c).Some?
    ensures IsFullVersion(spec)
  {
  }

  lemma PartialNotFull(a: string, b: string)
    requires ParseU32(a).Some? && ParseU32(b).Some?
    ensures !IsFullVersion(a + "." + b)
  {
    var partial := a + "." + b;
    TwoParts(a, b);
    assert StripV(partial) == partial by {
      assert partial[0] == a[0];
    }
  }

  lemma ThreeParts(a: string, b: string, c: string)
    requires '.' !in a && '.' !in b && '.' !in c
    ensures Split(a + "." + b + "." + c, '.') == [a, b, c]
  {
    SplitNoSeparator(c, '.');
    assert b + "." + c == b + ['.'] + c;
    SplitAfterPart(b, c, '.');
    assert a + "." + b + "." + c == a + ['.'] + (b + "." + c);
    SplitAfterPart(a, b + "." + c, '.');
  }

  lemma TwoParts(a: string, b: string)
    requires '.' !in a && '.' !in b
    ensures Split(a + "." + b, '.') == [a, b]
  {
    SplitNoSeparator(b, '.');
    assert a + "." + b == a + ['.'] + b;
    SplitAfterPart(a, b, '.');
  }

  /** Splitting a string that starts with a non-separator extends the first part only. */
  lemma SplitCons(x: char, s: string, c: char)
    requires x != c
    ensures var parts := Split([x] + s, c);
            && |parts| == |Split(s, c)|
            && parts[0] == [x] + Split(s, c)[0]
            && parts[1..] == Split(s, c)[1..]
  {
    assert ([x] + s)[1..] == s;
  }

  /** `s` is `StripV(s)` with its `v`, if it had one, put back. */
  lemma StripVSplit(s: string)
    requires StartsWith(s, "v")
    ensures var parts := Split(s, '.');
            && |parts| == |Split(StripV(s), '.')|
            && parts[0] == "v" + Split(StripV(s), '.')[0]
            && parts[1..] == Split(StripV(s), '.')[1..]
  {
    assert s == ['v'] + StripV(s);
    SplitCons('v', StripV(s), '.');
  }

  /** How the parts of `"v" + StripV(spec)` relate to those of `StripV(spec)`, whichever way `spec` starts. */
  lemma NormalisedParts(spec: string)
    ensures var parts := Split("v" + StripV(spec), '.');
            && |parts| == |Split(StripV(spec), '.')|
            && parts[0] == "v" + Split(StripV(spec), '.')[0]
  {
    if StartsWith(spec, "v") {
      StripVSplit(spec);
      assert "v" + StripV(spec) == spec;
    } else {
      SplitCons('v', spec, '.');
    }
  }

  /**
    The full-version path: the specifier is used as the tag, with a `v` put
    in front when it has none (the dot count test is then always met).
   */
  function FullVersionTag(spec: string): (tag: string)
    requires IsFullVersion(spec)
    ensures StartsWith(tag, "v") && StripV(tag) == StripV(spec)
  {
    if !StartsWith(spec, "v") && Count(spec, '.') == 2 then "v" + spec else spec
  }

  /** Without a leading `v` the specifier always gets one, so only the `v` can differ. */
  lemma FullVersionAddsV(spec: string)
    requires IsFullVersion(spec) && !StartsWith(spec, "v")
    ensures FullVersionTag(spec) == "v" + spec
  {
    assert StripV(spec) == spec;
  }

  /**
    Normalisation and validation of a partial specifier: `X.Y` gets a `v`
    and the result must be `vX.Y` with a non-empty `X`. The digits are not
    checked.
   */
  function DynamicBase(spec: string): (r: Result<string, string>)
    ensures r.Ok? <==> var parts := Split(StripV(spec), '.'); |parts| == 2 && |parts[0]| > 0
    ensures r.Ok? ==> r.value == "v" + StripV(spec)
  {
    var specParts := Split(StripV(spec), '.');
    var base := if !StartsWith(spec, "v") && |specParts| == 2 then "v" + spec else spec;
    var baseParts := Split(base, '.');
    NormalisedParts(spec);
    if !(StartsWith(base, "v") && |baseParts| == 2 && |baseParts[0]| > 1) then
      Err("Version specifier '" + spec + "' (normalized to '" + base + "') is not in 'vX.Y' format")
    else
      Ok(base)
  }

  /** The tag named on one `git ls-remote` line, if it is `expected` followed by a `u32` patch number. */
  function CandidateOfLine(line: string, expected: string): (c: Option<Candidate>)
    ensures c.Some? ==> var fields := SplitWhitespace(line);
              && |fields| == 2 && StartsWith(fields[1], "refs/tags/")
              && c.value.tag == TrimStartMatches(fields[1], "refs/tags/")
    ensures c.Some? ==> StartsWith(c.value.tag, expected)
    ensures c.Some? ==> ParseU32(TrimStartMatches(c.value.tag, expected)) == Some(c.value.patch)
  {
    var fields := SplitWhitespace(line);
    if |fields| == 2 && StartsWith(fields[1], "refs/tags/") then
      var tag := TrimStartMatches(fields[1], "refs/tags/");
      if StartsWith(tag, expected) then
        match ParseU32(TrimStartMatches(tag, expected))
        case Some(patch) => Some(Candidate(tag, patch))
        case None => None
      else None
    else None
  }

  /**
    A well-formed `git ls-remote` line, `<hash> refs/tags/<expected><patch>`,
    names the tag `<expected><patch>` with the patch's value, when the
    expected prefix is a `v…` version prefix and the patch parses as `u32`.
   */
  lemma CandidateOfTagLine(hash: string, expected: string, patch: string)
    requires |hash| > 0 && NoWhitespace(hash)
    requires StartsWith(expected, "v") && NoWhitespace(expected)
    requires ParseU32(patch).Some?
    ensures CandidateOfLine(hash + " refs/tags/" + expected + patch, expected)
            == Some(Candidate(expected + patch, ParseU32(patch).value))
  {
    var tag := expected + patch;
    var ref := "refs/tags/" + tag;
    var line := hash + " refs/tags/" + expected + patch;
    TagLineShape(hash, expected, patch);
    NoWhitespaceAppend(expected, patch);
    NoWhitespaceAppend("refs/tags/", tag);
    TwoFields(hash, ref);
    TrimRefsTags(tag);
    TrimExpected(expected, patch);
    CandidateOfFields(line, expected, hash, ref, tag, patch);
  }

  /** `CandidateOfLine` step by step: the second field, its tag, and the tag's patch number. */
  lemma CandidateOfFields(line: string, expected: string, hash: string, ref: string, tag: string, patch: string)
    requires SplitWhitespace(line) == [hash, ref]
    requires StartsWith(ref, "refs/tags/") && TrimStartMatches(ref, "refs/tags/") == tag
    requires StartsWith(tag, expected) && TrimStartMatches(tag, expected) == patch
    requires ParseU32(patch).Some?
    ensures CandidateOfLine(line, expected) == Some(Candidate(tag, ParseU32(patch).value))
  {
  }

  lemma TagLineShape(hash: string, expected: string, patch: string)
    ensures hash + " refs/tags/" + expected + patch == hash + " " + ("refs/tags/" + (expected + patch))
  {
  }

  lemma NoWhitespaceAppend(a: string, b: string)
    requires NoWhitespace(a) && NoWhitespace(b)
    ensures NoWhitespace(a + b)
  {
    assert forall k :: |a| <= k < |a + b| ==> (a + b)[k] == b[k - |a|];
  }

  /** Two words separated by one blank are the two fields of the line. */
  lemma TwoFields(x: string, y: string)
    requires |x| > 0 && NoWhitespace(x) && |y| > 0 && NoWhitespace(y)
    ensures SplitWhitespace(x + " " + y) == [x, y]
  {
    SplitWhitespaceWord(y, "");
    assert y + "" == y;
    SplitWhitespaceSkip(" ", y);
    SplitWhitespaceWord(x, " " + y);
    assert x + " " + y == x + (" " + y);
  }

  /** A `refs/tags/` reference to a `v…` tag names exactly that tag. */
  lemma TrimRefsTags(tag: string)
    requires StartsWith(tag, "v")
    ensures StartsWith("refs/tags/" + tag, "refs/tags/")
    ensures TrimStartMatches("refs/tags/" + tag, "refs/tags/") == tag
  {
    var ref := "refs/tags/" + tag;
    assert ref[..10] == "refs/tags/" && ref[10..] == tag;
    assert !StartsWith(tag, "refs/tags/") by {
      assert tag[0] == 'v';
    }
  }

  /** Removing a `v…` prefix from the tag leaves the patch, which starts with a digit or `+`. */
  lemma TrimExpected(expected: string, patch: string)
    requires StartsWith(expected, "v") && ParseU32(patch).Some?
    ensures StartsWith(expected + patch, expected)
    ensures TrimStartMatches(expected + patch, expected) == patch
  {
    var tag := expected + patch;
    assert tag[..|expected|] == expected && tag[|expected|..] == patch;
    assert !StartsWith(patch, expected) by {
      assert patch[0] != 'v';
    }
  }

  /** The present values of a sequence of options, in order. */
  function Somes(os: seq<Option<Candidate>>): (vs: seq<Candidate>)
    ensures |vs| <= |os|
    ensures |vs| == CountSomes(os)
    ensures forall x :: x in vs ==> Some(x) in os
  {
    if |os| == 0 then [] else
      var rest := Somes(os[1..]);
      assert forall x :: Some(x) in os[1..] ==> Some(x) in os;
      if os[0].Some? then [os[0].value] + rest else rest
  }

  /** How many entries of a sequence of options are present. */
  function CountSomes(os: seq<Option<Candidate>>): nat
  {
    if |os| == 0 then 0 else (if os[0].Some? then 1 else 0) + CountSomes(os[1..])
  }

  /**
    Order and multiplicity: a present entry lands in `Somes` at its rank
    among the present entries, so `Somes` keeps every one of them, once, in
    the original order.
   */
  lemma {:induction false} SomesAtRank(os: seq<Option<Candidate>>, k: nat)
    requires k < |os| && os[k].Some?
    ensures CountSomes(os[..k]) < |Somes(os)| && Somes(os)[CountSomes(os[..k])] == os[k].value
    decreases k
  {
    if k > 0 {
      assert os[..k][1..] == os[1..][..k - 1];
      SomesAtRank(os[1..], k - 1);
    }
  }

  /** No present value is dropped. */
  lemma {:induction false} SomesComplete(os: seq<Option<Candidate>>, k: nat)
    requires k < |os| && os[k].Some?
    ensures os[k].value in Somes(os)
  {
    if k > 0 {
      assert os[1..][k - 1] == os[k];
      SomesComplete(os[1..], k - 1);
    }
  }

  /** What each line of the output names, line by line. */
  function LineCandidates(lines: seq<string>, expected: string): (os: seq<Option<Candidate>>)
    ensures |os| == |lines|
    ensures forall k :: 0 <= k < |lines| ==> os[k] == CandidateOfLine(lines[k], expected)
  {
    if |lines| == 0 then []
    else
      var rest := LineCandidates(lines[1..], expected);
      assert forall k :: 0 < k < |lines| ==> lines[1..][k - 1] == lines[k];
      [CandidateOfLine(lines[0], expected)] + rest
  }

  /** The candidates of the output's lines, in output order. */
  function Candidates(lines: seq<string>, expected: string): (cs: seq<Candidate>)
    ensures |cs| <= |lines|
    ensures forall c :: c in cs ==> exists k :: 0 <= k < |lines| && CandidateOfLine(lines[k], expected) == Some(c)
    ensures forall c :: c in cs ==>
              StartsWith(c.tag, expected) && ParseU32(TrimStartMatches(c.tag, expected)) == Some(c.patch)
  {
    var os := LineCandidates(lines, expected);
    LineCandidatesSound(lines, expected, os);
    Somes(os)
  }

  lemma LineCandidatesSound(lines: seq<string>, expected: string, os: seq<Option<Candidate>>)
    requires |os| == |lines| && forall k :: 0 <= k < |lines| ==> os[k] == CandidateOfLine(lines[k], expected)
    ensures forall c :: Some(c) in os ==> exists k :: 0 <= k < |lines| && CandidateOfLine(lines[k], expected) == Some(c)
    ensures forall c :: Some(c) in os ==>
              StartsWith(c.tag, expected) && ParseU32(TrimStartMatches(c.tag, expected)) == Some(c.patch)
  {
    forall c | Some(c) in os
      ensures exists k :: 0 <= k < |lines| && CandidateOfLine(lines[k], expected) == Some(c)
      ensures StartsWith(c.tag, expected) && ParseU32(TrimStartMatches(c.tag, expected)) == Some(c.patch)
    {
      var k :| 0 <= k < |os| && os[k] == Some(c);
      assert CandidateOfLine(lines[k], expected) == Some(c);
    }
  }

  /** No matching line is dropped: a line naming a `vX.Y.<u32>` tag contributes its candidate. */
  lemma CandidatesComplete(lines: seq<string>, expected: string, k: nat)
    requires k < |lines| && CandidateOfLine(lines[k], expected).Some?
    ensures CandidateOfLine(lines[k], expected).value in Candidates(lines, expected)
  {
    SomesComplete(LineCandidates(lines, expected), k);
  }

  /**
    The candidate `sort_by` on the patch number leaves last: the sort is
    stable and ascending, so it is the last of those with the greatest patch.
   */
  function Latest(cs: seq<Candidate>): (i: nat)
    requires |cs| > 0
    ensures i < |cs|
    ensures forall k :: 0 <= k < |cs| ==> cs[k].patch <= cs[i].patch
    ensures forall k :: i < k < |cs| ==> cs[k].patch < cs[i].patch
  {
    if |cs| == 1 then 0
    else
      var j := Latest(cs[..|cs| - 1]);
      assert forall k :: 0 <= k < |cs| - 1 ==> cs[..|cs| - 1][k] == cs[k];
      if cs[|cs| - 1].patch >= cs[j].patch then |cs| - 1 else j
  }

  /**
    `resolve_actual_tag`: a full version is used directly (git is not asked);
    otherwise the specifier is normalised to `vX.Y`, the tags `git ls-remote`
    lists (`lsRemote`, or the error running it gave) are filtered to
    `vX.Y.<u32>`, and the one with the greatest patch number wins.
   */
  function ResolveActualTag(spec: string, lsRemote: Result<string, string>): (r: Result<string, string>)
    ensures IsFullVersion(spec) ==> r == Ok(FullVersionTag(spec))
    ensures !IsFullVersion(spec) && DynamicBase(spec).Err? ==> r.Err?
    ensures !IsFullVersion(spec) && lsRemote.Err? ==> r.Err?
    ensures !IsFullVersion(spec) && r.Ok? ==>
              && DynamicBase(spec).Ok? && lsRemote.Ok?
              && var cs := Candidates(Lines(lsRemote.value), DynamicBase(spec).value + ".");
                 && |cs| > 0
                 && r.value == cs[Latest(cs)].tag
                 && StartsWith(r.value, "v" + StripV(spec) + ".")
                 && forall k :: 0 <= k < |cs| ==> cs[k].patch <= cs[Latest(cs)].patch
    ensures !IsFullVersion(spec) && DynamicBase(spec).Ok? && lsRemote.Ok? ==>
              (r.Ok? <==> |Candidates(Lines(lsRemote.value), DynamicBase(spec).value + ".")| > 0)
  {
    if IsFullVersion(spec) then Ok(FullVersionTag(spec))
    else
      match DynamicBase(spec)
      case Err(e) => Err(e)
      case Ok(base) =>
        match lsRemote
        case Err(e) => Err("git ls-remote command failed: " + e)
        case Ok(out) =>
          var cs := Candidates(Lines(out), base + ".");
          if |cs| == 0 then Err("No tags found matching the pattern '" + base + ".Z'")
          else Ok(cs[Latest(cs)].tag)
  }

  /** A specifier that is already a full version resolves to itself, with its `v`, whatever git would say. */
  lemma FullVersionIgnoresGit(spec: string, out1: Result<string, string>, out2: Result<string, string>)
    requires IsFullVersion(spec)
    ensures ResolveActualTag(spec, out1) == ResolveActualTag(spec, out2)
    ensures ResolveActualTag(spec, out1).Ok? && StartsWith(ResolveActualTag(spec, out1).value, "v")
  {
  }

  /**
    `check_existing_sdk`: the SDK directory exists, its `VERSION` file could
    be read (`None` when it is missing or unreadable), it has a first line,
    and that line, trimmed, equals the tag without its `v`.
   */
  function IsSdkCurrent(dirExists: bool, versionFile: Option<string>, tag: string): (current: bool)
    ensures current ==> dirExists && versionFile.Some? && |versionFile.value| > 0
    ensures current <==> dirExists && versionFile.Some? && |Lines(versionFile.value)| > 0
                         && Trim(Lines(versionFile.value)[0]) == StripV(tag)
  {
    if !dirExists then false
    else
      match versionFile
      case None => false
      case Some(content) =>
        var lines := Lines(content);
        if |lines| == 0 then false
        else Trim(lines[0]) == StripV(tag)
  }

  /**
    Round trip: an SDK checked out at `tag` whose `VERSION` file starts with
    the version itself (no `v`, no blanks) on a line of its own is current
    for `tag`, and for no tag naming another version.
   */
  lemma VersionFileRoundTrip(tag: string, other: string, rest: string)
    requires NoWhitespace(StripV(tag))
    ensures IsSdkCurrent(true, Some(StripV(tag) + "\n" + rest), tag)
    ensures StripV(other) != StripV(tag) ==> !IsSdkCurrent(true, Some(StripV(tag) + "\n" + rest), other)
  {
    var v := StripV(tag);
    var content := v + "\n" + rest;
    assert '\n' !in v by {
      assert IsWhitespace('\n');
    }
    assert |v| == 0 || v[|v| - 1] != '\r' by {
      assert IsWhitespace('\r');
    }
    FirstLineOf(v, rest);
    assert Lines(content)[0] == v;
    TrimNoWhitespace(v);
    assert Trim(Lines(content)[0]) == v;
  }

  /** `main`'s decision: the tag to vendor, and whether it must be cloned (no current SDK is present). */
  function PlanVendoring(spec: string, lsRemote: Result<string, string>, dirExists: bool, versionFile: Option<string>)
    : (r: Result<(string, bool), string>)
    ensures r.Ok? <==> ResolveActualTag(spec, lsRemote).Ok?
    ensures r.Ok? ==> r.value.0 == ResolveActualTag(spec, lsRemote).value
    ensures r.Ok? ==> (r.value.1 <==> !IsSdkCurrent(dirExists, versionFile, r.value.0))
  {
    match ResolveActualTag(spec, lsRemote)
    case Err(e) => Err(e)
    case Ok(tag) => Ok((tag, !IsSdkCurrent(dirExists, versionFile, tag)))
  }

  /**
    Vendoring is idempotent: once the tag is checked out and its `VERSION`
    file names that version, the next build resolving to the same tag skips
    the clone.
   */
  lemma SecondBuildSkipsClone(spec: string, lsRemote: Result<string, string>, rest: string)
    requires ResolveActualTag(spec, lsRemote).Ok?
    requires NoWhitespace(StripV(ResolveActualTag(spec, lsRemote).value))
    ensures var tag := ResolveActualTag(spec, lsRemote).value;
            PlanVendoring(spec, lsRemote, true, Some(StripV(tag) + "\n" + rest)) == Ok((tag, false))
  {
    var tag := ResolveActualTag(spec, lsRemote).value;
    VersionFileRoundTrip(tag, tag, rest);
  }

  /** The targets the SDK ships libraries for. */
  predicate SupportedTarget(os: string, arch: string, pointerWidth: string) {
    || (os == "windows" && (pointerWidth == "64" || pointerWidth == "32"))
    || (os == "linux" && (arch == "x86_64" || arch == "aarch64" || StartsWith(arch, "arm")))
  }

  /** The platform library directory under `Nuitrack/lib` for a target, or the unsupported-target error. */
  function PlatformLibDir(os: string, arch: string, pointerWidth: string): (r: Result<string, string>)
    ensures r.Ok? <==> SupportedTarget(os, arch, pointerWidth)
    ensures r.Ok? ==> r.value in {"win64", "win32", "linux64", "linux_arm64", "linux_arm"}
    ensures r.Ok? && os == "windows" ==> (r.value == "win64" <==> pointerWidth == "64")
    ensures r.Ok? ==> (r.value in {"win64", "win32"} <==> os == "windows")
    ensures r.Ok? && os == "linux" ==>
              && (r.value == "linux64" <==> arch == "x86_64")
              && (r.value == "linux_arm64" <==> arch == "aarch64")
              && (r.value == "linux_arm" <==> arch != "x86_64" && arch != "aarch64" && StartsWith(arch, "arm"))
    ensures r.Err? ==> StartsWith(r.error, "Unsupported ")
  {
    if os == "windows" then
      if pointerWidth == "64" then Ok("win64")
      else if pointerWidth == "32" then Ok("win32")
      else Err("Unsupported pointer width for Windows: " + pointerWidth)
    else if os == "linux" then
      if arch == "x86_64" then Ok("linux64")
      else if arch == "aarch64" then Ok("linux_arm64")
      else if StartsWith(arch, "arm") then Ok("linux_arm")
      else Err("Unsupported architecture for Linux: " + arch)
    else Err("Unsupported target OS for Nuitrack SDK: " + os)
  }

  /** On Linux the architecture decides the directory; the pointer width plays no part there, and the OS name is matched exactly. */
  lemma LinuxIgnoresPointerWidth(arch: string, w1: string, w2: string)
    ensures PlatformLibDir("linux", arch, w1) == PlatformLibDir("linux", arch, w2)
    ensures PlatformLibDir("Linux", arch, w1).Err?
  {
  }
}
