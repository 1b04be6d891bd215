/** `DelphiPathResolver`: picks the Delphi installation that best matches a project's
    `ProjectVersion`, first among configured directories and then among the installations
    found under the two standard Embarcadero roots. */
module DelphiPathResolver {
  import opened Wrappers
  import opened Text
  import opened Files

  /** `int.MaxValue`: `int.TryParse` rejects larger numbers. */
  const Int32Max: nat := 2147483647

  /** The two components of `System.Version` that the resolver compares. */
  datatype Version = Version(major: nat, minor: nat)

  /** An installation found by the scan: its directory, the version read from the
      directory's name, and that name. */
  datatype Installation = Installation(path: string, version: Version, versionString: string)

  const StandardBasePaths: seq<string> := [
    "C:\\Program Files (x86)\\Embarcadero\\Studio",
    "C:\\Program Files\\Embarcadero\\Studio"
  ]

  // ---------------------------------------------------------------------------------------
  // Version parsing: the first match of the pattern (\d+)\.(\d+), range-checked by
  // int.TryParse.

  /** End of the run of decimal digits that starts at `i`. */
  function DigitRunEnd(s: string, i: nat): (j: nat)
    requires i <= |s|
    ensures i <= j <= |s|
    ensures forall k :: i <= k < j ==> IsDigit(s[k])
    ensures j == |s| || !IsDigit(s[j])
    decreases |s| - i
  {
    if i < |s| && IsDigit(s[i]) then DigitRunEnd(s, i + 1) else i
  }

  /** The pattern matches at `i`: a digit run starting there is followed by a dot and a digit.
      (Backtracking cannot help: a shorter run would be followed by a digit, not a dot.) */
  predicate MatchesAt(s: string, i: nat)
    requires i <= |s|
  {
    var j := DigitRunEnd(s, i);
    i < j && j + 1 < |s| && s[j] == '.' && IsDigit(s[j + 1])
  }

  /** The leftmost match at or after `i`. */
  function FirstMatch(s: string, i: nat): (m: Option<nat>)
    requires i <= |s|
    ensures m.Some? ==> i <= m.value < |s| && MatchesAt(s, m.value)
    ensures m.Some? ==> forall k :: i <= k < m.value ==> !MatchesAt(s, k)
    ensures m.None? ==> forall k :: i <= k <= |s| ==> !MatchesAt(s, k)
    decreases |s| - i
  {
    if i == |s| then None
    else if MatchesAt(s, i) then Some(i)
    else FirstMatch(s, i + 1)
  }

  /** `ParseVersion`: `None` for a null or blank text; otherwise the two numbers of the
      leftmost `digits.digits` in the text, or `None` when there is none or a number does
      not fit an `int`. */
  function ParseVersion(text: Option<string>): (v: Option<Version>)
    ensures IsNullOrWhiteSpace(text) ==> v.None?
    ensures v.Some? ==> v.value.major <= Int32Max && v.value.minor <= Int32Max
  {
    if IsNullOrWhiteSpace(text) then None
    else
      var s := text.value;
      match FirstMatch(s, 0)
      case None => None
      case Some(i) =>
        var j := DigitRunEnd(s, i);
        var k := DigitRunEnd(s, j + 1);
        assert AllDigits(s[i..j]) && AllDigits(s[j + 1..k]);
        VersionOfRuns(s[i..j], s[j + 1..k])
  }

  /** The version `int.TryParse` makes of the two digit runs of a match: `None` when either
      does not fit an `int`. */
  function VersionOfRuns(major: string, minor: string): (v: Option<Version>)
    requires AllDigits(major) && AllDigits(minor)
    ensures v.Some? ==> v.value.major <= Int32Max && v.value.minor <= Int32Max
  {
    var m, n := DigitsValue(major), DigitsValue(minor);
    if m <= Int32Max && n <= Int32Max then Some(Version(m, n)) else None
  }

  /** A stretch of digits that nothing continues is the digit run that starts it. */
  lemma {:induction false} RunEnd(s: string, i: nat, j: nat)
    requires i <= j <= |s|
    requires forall k :: i <= k < j ==> IsDigit(s[k])
    requires j == |s| || !IsDigit(s[j])
    ensures DigitRunEnd(s, i) == j
    decreases j - i
  {
    if i < j {
      RunEnd(s, i + 1, j);
    }
  }

  /** In `prefix + a + "." + b + suffix`, with `a` and `b` digit strings, a digit-free
      prefix and a suffix that does not continue `b`, the leftmost match is at `a`, and its
      two digit runs are `a` and `b`: the version read is that of `a` and `b`. */
  lemma DecoratedMatch(prefix: string, a: string, b: string, suffix: string)
    requires a != [] && b != [] && AllDigits(a) && AllDigits(b)
    requires forall k :: 0 <= k < |prefix| ==> !IsDigit(prefix[k])
    requires suffix == [] || !IsDigit(suffix[0])
    ensures ParseVersion(Some(prefix + a + "." + b + suffix)) == VersionOfRuns(a, b)
  {
    var s := prefix + a + "." + b + suffix;
    var i, j, k := |prefix|, |prefix| + |a|, |prefix| + |a| + 1 + |b|;
    DecoratedRuns(prefix, a, b, suffix);
    DigitFreeFront(prefix, a, b, suffix);
    MatchFromRuns(s, i, j, k, a, b);
  }

  /** The two digit runs of `prefix + a + "." + b + suffix`. */
  lemma DecoratedRuns(prefix: string, a: string, b: string, suffix: string)
    requires a != [] && b != [] && AllDigits(a) && AllDigits(b)
    requires suffix == [] || !IsDigit(suffix[0])
    ensures var s := prefix + a + "." + b + suffix;
      var i, j := |prefix|, |prefix| + |a|;
      DigitRunEnd(s, i) == j && j + 1 < |s| && DigitRunEnd(s, j + 1) == j + 1 + |b|
      && s[i..j] == a && s[j + 1..j + 1 + |b|] == b && MatchesAt(s, i) && IsDigit(s[i])
  {
    var s := prefix + a + "." + b + suffix;
    var i, j, e := |prefix|, |prefix| + |a|, |prefix| + |a| + 1 + |b|;
    assert forall k :: i <= k < j ==> s[k] == a[k - i];
    assert s[j] == '.';
    assert forall k :: j + 1 <= k < e ==> s[k] == b[k - j - 1];
    assert e < |s| ==> s[e] == suffix[0];
    RunEnd(s, i, j);
    RunEnd(s, j + 1, e);
    assert s[i..j] == a;
    assert s[j + 1..e] == b;
  }

  /** A digit-free prefix stays digit-free at the front of a longer text. */
  lemma DigitFreeFront(prefix: string, a: string, b: string, suffix: string)
    requires forall k :: 0 <= k < |prefix| ==> !IsDigit(prefix[k])
    ensures forall k :: 0 <= k < |prefix| ==> !IsDigit((prefix + a + "." + b + suffix)[k])
  {
  }

  /** No match starts inside a digit-free stretch at the front of a text. */
  lemma NoMatchBefore(s: string, i: nat)
    requires i <= |s|
    requires forall k :: 0 <= k < i ==> !IsDigit(s[k])
    ensures forall k :: 0 <= k < i ==> !MatchesAt(s, k)
  {
    forall k | 0 <= k < i
      ensures !MatchesAt(s, k)
    {
      assert DigitRunEnd(s, k) == k;
    }
  }

  /** A match with none before it is the leftmost one. */
  lemma FirstMatchAt(s: string, i: nat)
    requires i <= |s| && MatchesAt(s, i)
    requires forall k :: 0 <= k < i ==> !MatchesAt(s, k)
    ensures FirstMatch(s, 0) == Some(i)
  {
  }

  /** Reading a version back from a name that decorates `major.minor` with a digit-free
      prefix and a suffix that does not continue the number gives `major.minor`, or nothing
      when a component does not fit an `int`. */
  lemma ParseDecoratedVersion(prefix: string, major: nat, minor: nat, suffix: string)
    requires forall k :: 0 <= k < |prefix| ==> !IsDigit(prefix[k])
    requires suffix == [] || !IsDigit(suffix[0])
    ensures ParseVersion(Some(prefix + NatToString(major) + "." + NatToString(minor) + suffix))
      == if major <= Int32Max && minor <= Int32Max then Some(Version(major, minor)) else None
  {
    var a, b := NatToString(major), NatToString(minor);
    DecoratedMatch(prefix, a, b, suffix);
    DigitsValueOfNatToString(major);
    DigitsValueOfNatToString(minor);
  }

  /** `ParseVersion` of a text that is digit-free up to a match at `i`, with digit runs `a`
      up to `j` and `b` up to `k`. */
  lemma MatchFromRuns(s: string, i: nat, j: nat, k: nat, a: string, b: string)
    requires i < j && j + 1 <= k <= |s| && IsDigit(s[i]) && MatchesAt(s, i)
    requires forall n :: 0 <= n < i ==> !IsDigit(s[n])
    requires DigitRunEnd(s, i) == j && DigitRunEnd(s, j + 1) == k
    requires s[i..j] == a && s[j + 1..k] == b && AllDigits(a) && AllDigits(b)
    ensures ParseVersion(Some(s)) == VersionOfRuns(a, b)
  {
    NotBlankAt(s, i);
    NoMatchBefore(s, i);
    FirstMatchAt(s, i);
    ParseFromRuns(s, i, j, k, a, b);
  }

  /** `ParseVersion` of a non-blank text whose leftmost match is at `i`, with digit runs `a`
      up to `j` and `b` up to `k`. */
  lemma ParseFromRuns(s: string, i: nat, j: nat, k: nat, a: string, b: string)
    requires !IsBlank(s) && i <= j && j + 1 <= k <= |s|
    requires FirstMatch(s, 0) == Some(i) && DigitRunEnd(s, i) == j && DigitRunEnd(s, j + 1) == k
    requires s[i..j] == a && s[j + 1..k] == b && AllDigits(a) && AllDigits(b)
    ensures ParseVersion(Some(s)) == VersionOfRuns(a, b)
  {
  }

  /** The directory names the scan and the matching read: `22.0` reads as 22.0. */
  lemma ParseVersionExamples()
    ensures ParseVersion(Some("22.0")) == Some(Version(22, 0))
  {
    assert "22.0" == TwoDigitName(22);
    TwoDigitParse(22);
  }

  /** A decorated name such as `Studio 22.0` reads as 22.0 too. */
  lemma DecoratedNameExample()
    ensures ParseVersion(Some("Studio 22.0")) == Some(Version(22, 0))
  {
    var prefix := "Studio ";
    assert forall k :: 0 <= k < |prefix| ==> !IsDigit(prefix[k]);
    assert "22.0" == TwoDigitName(22);
    DecoratedTwoDigit(prefix, 22);
    assert prefix + "22.0" == "Studio 22.0";
  }

  /** A text with no dot reads as no version. */
  lemma NoDotNoVersion(s: string)
    requires forall k :: 0 <= k < |s| ==> s[k] != '.'
    ensures ParseVersion(Some(s)) == None
  {
    forall k | 0 <= k <= |s|
      ensures !MatchesAt(s, k)
    {
      var j := DigitRunEnd(s, k);
      if j < |s| {
        assert s[j] != '.';
      }
    }
  }

  /** The version a directory's own name carries. */
  function VersionOf(path: string): Option<Version> {
    ParseVersion(Some(GetFileName(path)))
  }

  // ---------------------------------------------------------------------------------------
  // Best match.

  /** The paths `FindBestMatch` considers: not blank, and an existing directory. */
  predicate Survives(fs: FileSystem, path: string) {
    !IsBlank(path) && DirectoryExists(fs, path)
  }

  /** The surviving paths, in their original order. */
  function Survivors(paths: seq<string>, fs: FileSystem): (list: seq<string>)
    ensures |list| <= |paths|
    ensures forall p :: p in list <==> p in paths && Survives(fs, p)
  {
    if paths == [] then []
    else if Survives(fs, paths[0]) then [paths[0]] + Survivors(paths[1..], fs)
    else Survivors(paths[1..], fs)
  }

  /** The first survivor is the first path that survives. */
  lemma {:induction false} FirstSurvivor(paths: seq<string>, fs: FileSystem, i: nat)
    requires i < |paths| && Survives(fs, paths[i])
    requires forall k :: 0 <= k < i ==> !Survives(fs, paths[k])
    ensures Survivors(paths, fs) != [] && Survivors(paths, fs)[0] == paths[i]
  {
    if i > 0 {
      FirstSurvivor(paths[1..], fs, i - 1);
    }
  }

  /** The positions, from `from` on, of the surviving paths, in increasing order: every
      surviving position appears, and no other. */
  function SurvivingPositions(paths: seq<string>, fs: FileSystem, from: nat): (idx: seq<nat>)
    requires from <= |paths|
    ensures forall k :: 0 <= k < |idx| ==> from <= idx[k] < |paths| && Survives(fs, paths[idx[k]])
    ensures forall k, l :: 0 <= k < l < |idx| ==> idx[k] < idx[l]
    ensures forall i :: from <= i < |paths| && Survives(fs, paths[i]) ==> i in idx
    decreases |paths| - from
  {
    if from == |paths| then []
    else if Survives(fs, paths[from]) then [from] + SurvivingPositions(paths, fs, from + 1)
    else SurvivingPositions(paths, fs, from + 1)
  }

  /** `Survivors` is the order-keeping filter: the k-th survivor of `paths[from..]` is the
      path at the k-th surviving position from `from` on. */
  lemma {:induction false} SurvivorsAtPositions(paths: seq<string>, fs: FileSystem, from: nat)
    requires from <= |paths|
    ensures |Survivors(paths[from..], fs)| == |SurvivingPositions(paths, fs, from)|
    ensures forall k :: 0 <= k < |Survivors(paths[from..], fs)| ==>
      Survivors(paths[from..], fs)[k] == paths[SurvivingPositions(paths, fs, from)[k]]
    decreases |paths| - from
  {
    if from < |paths| {
      SurvivorsAtPositions(paths, fs, from + 1);
      var tail := paths[from..];
      assert tail[0] == paths[from] && tail[1..] == paths[from + 1..];
      var rest, later := Survivors(paths[from + 1..], fs), SurvivingPositions(paths, fs, from + 1);
      if Survives(fs, paths[from]) {
        assert Survivors(tail, fs) == [paths[from]] + rest;
        assert SurvivingPositions(paths, fs, from) == [from] + later;
        PrependAtPositions(paths, from, rest, later);
      } else {
        assert Survivors(tail, fs) == rest;
        assert SurvivingPositions(paths, fs, from) == later;
      }
    }
  }

  /** Putting a path and its position in front keeps a list of paths matched with a list of
      positions. */
  lemma PrependAtPositions(paths: seq<string>, i: nat, rest: seq<string>, later: seq<nat>)
    requires i < |paths| && |rest| == |later|
    requires forall k :: 0 <= k < |rest| ==> later[k] < |paths| && rest[k] == paths[later[k]]
    ensures forall k :: 0 <= k < |rest| + 1 ==> ([i] + later)[k] < |paths| && ([paths[i]] + rest)[k] == paths[([i] + later)[k]]
  {
  }

  /** Filtering a split list filters each part in place: the survivors before a position
      come before the survivors from it on. */
  lemma {:induction false} SurvivorsSplit(paths: seq<string>, fs: FileSystem, i: nat)
    requires i <= |paths|
    ensures Survivors(paths, fs) == Survivors(paths[..i], fs) + Survivors(paths[i..], fs)
  {
    if i > 0 {
      SurvivorsSplit(paths[1..], fs, i - 1);
      assert paths[1..][..i - 1] == paths[..i][1..];
      assert paths[1..][i - 1..] == paths[i..];
    } else {
      assert paths[..0] == [];
      assert paths[0..] == paths;
    }
  }

  /** The four strategies, in the order they are tried. */
  datatype Tier = Exact | SameMajor | NextMajor | Highest

  /** Whether a candidate's version takes part in a strategy for the target version. */
  predicate InTier(tier: Tier, target: Version, v: Version) {
    match tier
    case Exact => v == target
    case SameMajor => v.major == target.major
    case NextMajor => v.major > target.major
    case Highest => true
  }

  /** The sort key of a strategy, larger is better: exact match keeps the first; same major
      prefers the highest minor; next major the lowest major, then the highest minor; the
      fallback the highest major, then the highest minor. */
  function Rank(tier: Tier, v: Version): (int, int) {
    match tier
    case Exact => (0, 0)
    case SameMajor => (0, v.minor)
    case NextMajor => (-(v.major as int), v.minor)
    case Highest => (v.major, v.minor)
  }

  predicate RankLe(a: (int, int), b: (int, int)) {
    a.0 < b.0 || (a.0 == b.0 && a.1 <= b.1)
  }

  /** A candidate takes part in the strategy: it has a version, in the strategy's range. */
  predicate Eligible(tier: Tier, target: Version, v: Option<Version>) {
    v.Some? && InTier(tier, target, v.value)
  }

  /** The stable `OrderByDescending(..).FirstOrDefault()` over the eligible candidates: the
      position of the first eligible version whose rank no other eligible one exceeds. */
  function BestIndex(vs: seq<Option<Version>>, tier: Tier, target: Version): (r: Option<nat>)
    ensures r.None? <==> forall i :: 0 <= i < |vs| ==> !Eligible(tier, target, vs[i])
    ensures r.Some? ==> r.value < |vs| && Eligible(tier, target, vs[r.value])
    ensures r.Some? ==> forall i :: 0 <= i < |vs| && Eligible(tier, target, vs[i]) ==>
      RankLe(Rank(tier, vs[i].value), Rank(tier, vs[r.value].value))
    ensures r.Some? ==> forall i :: 0 <= i < r.value && Eligible(tier, target, vs[i]) ==>
      Rank(tier, vs[i].value) != Rank(tier, vs[r.value].value)
  {
    if vs == [] then None
    else
      var here := Eligible(tier, target, vs[0]);
      match BestIndex(vs[1..], tier, target)
      case None => if here then Some(0) else None
      case Some(j) =>
        if here && RankLe(Rank(tier, vs[j + 1].value), Rank(tier, vs[0].value)) then Some(0) else Some(j + 1)
  }

  /** The versions the candidate directories' names carry. */
  function Versions(list: seq<string>): (vs: seq<Option<Version>>)
    ensures |vs| == |list|
    ensures forall i :: 0 <= i < |list| ==> vs[i] == VersionOf(list[i])
  {
    if list == [] then [] else [VersionOf(list[0])] + Versions(list[1..])
  }

  /** The position `FindBestMatch` picks among candidates with the given versions: the first
      when there is one candidate, no target, or no candidate with a version; otherwise the
      first strategy that has an eligible candidate decides. */
  function Choose(vs: seq<Option<Version>>, target: Option<Version>): (i: nat)
    requires vs != []
    ensures i < |vs|
  {
    if |vs| == 1 || target.None? then 0
    else
      var t := target.value;
      match BestIndex(vs, Highest, t)
      case None => 0
      case Some(highest) =>
        match BestIndex(vs, Exact, t)
        case Some(i) => i
        case None =>
          match BestIndex(vs, SameMajor, t)
          case Some(i) => i
          case None =>
            match BestIndex(vs, NextMajor, t)
            case Some(i) => i
            case None => highest
  }

  /** `FindBestMatch`: among the surviving paths, the only one; or the first when the
      target version is missing or no path names a version; otherwise the first exact
      match, else the same major with the highest minor, else the lowest higher major
      with its highest minor, else the highest version. */
  function FindBestMatch(projectVersion: Option<string>, paths: seq<string>, fs: FileSystem): (r: Option<string>)
    ensures r.None? <==> forall p :: p in paths ==> !Survives(fs, p)
    ensures r.Some? ==> r.value in paths && Survives(fs, r.value)
  {
    var list := Survivors(paths, fs);
    if list == [] then None
    else
      assert list[0] in list;
      Some(list[Choose(Versions(list), ParseVersion(projectVersion))])
  }

  /** Without a target version, or when no candidate has a version, the first candidate is
      chosen. */
  lemma ChooseFirstWithoutVersions(vs: seq<Option<Version>>, target: Option<Version>)
    requires vs != []
    requires target.None? || forall i :: 0 <= i < |vs| ==> vs[i].None?
    ensures Choose(vs, target) == 0
  {
    if target.Some? && |vs| > 1 {
      assert BestIndex(vs, Highest, target.value).None?;
    }
  }

  /** When a candidate has exactly the target version, the first such candidate is chosen. */
  lemma ChooseExact(vs: seq<Option<Version>>, t: Version, e: nat)
    requires |vs| > 1 && e < |vs| && vs[e] == Some(t)
    ensures vs[Choose(vs, Some(t))] == Some(t)
    ensures forall k :: 0 <= k < Choose(vs, Some(t)) ==> vs[k] != Some(t)
  {
    assert Eligible(Highest, t, vs[e]) && Eligible(Exact, t, vs[e]);
  }

  /** In terms of the given paths: when the target version parses and `paths[i]` is the
      earliest surviving path whose name carries it, `FindBestMatch` returns `paths[i]`. */
  lemma ExactMatchInInputOrder(projectVersion: Option<string>, paths: seq<string>, fs: FileSystem, i: nat)
    requires ParseVersion(projectVersion).Some?
    requires i < |paths| && Survives(fs, paths[i]) && VersionOf(paths[i]) == ParseVersion(projectVersion)
    requires forall k :: 0 <= k < i && Survives(fs, paths[k]) ==> VersionOf(paths[k]) != ParseVersion(projectVersion)
    ensures FindBestMatch(projectVersion, paths, fs) == Some(paths[i])
  {
    var t := ParseVersion(projectVersion).value;
    SurvivorsSplit(paths, fs, i);
    var before := Survivors(paths[..i], fs);
    var tail := paths[i..];
    assert tail[0] == paths[i] && tail[1..] == paths[i + 1..];
    var list := Survivors(paths, fs);
    assert list == before + [paths[i]] + Survivors(paths[i + 1..], fs);
    var vs := Versions(list);
    var e := |before|;
    assert list[e] == paths[i];
    forall k | 0 <= k < e
      ensures vs[k] != Some(t)
    {
      assert list[k] == before[k];
      assert before[k] in before;
      var j :| 0 <= j < i && paths[..i][j] == before[k];
      assert paths[j] == before[k];
    }
    if |list| > 1 {
      ChooseExact(vs, t, e);
    }
  }

  /** Otherwise, when a candidate has the target's major version, the chosen one has that
      major and the highest minor among them, and is the first with that minor. */
  lemma ChooseSameMajor(vs: seq<Option<Version>>, t: Version, m: nat)
    requires |vs| > 1 && m < |vs| && vs[m].Some? && vs[m].value.major == t.major
    requires forall k :: 0 <= k < |vs| ==> vs[k] != Some(t)
    ensures var c := Choose(vs, Some(t));
      vs[c].Some? && vs[c].value.major == t.major
    ensures var c := Choose(vs, Some(t));
      forall k :: 0 <= k < |vs| && vs[k].Some? && vs[k].value.major == t.major ==>
        vs[k].value.minor <= vs[c].value.minor && (k < c ==> vs[k].value.minor < vs[c].value.minor)
  {
    assert Eligible(Highest, t, vs[m]) && Eligible(SameMajor, t, vs[m]);
    assert BestIndex(vs, Exact, t).None?;
    var c := Choose(vs, Some(t));
    assert Some(c) == BestIndex(vs, SameMajor, t);
    forall k | 0 <= k < |vs| && vs[k].Some? && vs[k].value.major == t.major
      ensures vs[k].value.minor <= vs[c].value.minor
      ensures k < c ==> vs[k].value.minor < vs[c].value.minor
    {
      assert Eligible(SameMajor, t, vs[k]);
    }
  }

  /** Otherwise, when a candidate has a higher major version, the chosen one has the lowest
      higher major and, among those, the highest minor, and is the first such. */
  lemma ChooseNextMajor(vs: seq<Option<Version>>, t: Version, h: nat)
    requires |vs| > 1 && h < |vs| && vs[h].Some? && vs[h].value.major > t.major
    requires forall k :: 0 <= k < |vs| && vs[k].Some? ==> vs[k].value.major != t.major
    ensures var c := Choose(vs, Some(t));
      vs[c].Some? && vs[c].value.major > t.major
    ensures var c := Choose(vs, Some(t));
      forall k :: 0 <= k < |vs| && vs[k].Some? && vs[k].value.major > t.major ==>
        (vs[c].value.major < vs[k].value.major
         || (vs[c].value.major == vs[k].value.major && vs[k].value.minor <= vs[c].value.minor))
        && (k < c ==> vs[k] != vs[c])
  {
    assert Eligible(Highest, t, vs[h]) && Eligible(NextMajor, t, vs[h]);
    assert BestIndex(vs, Exact, t).None?;
    assert BestIndex(vs, SameMajor, t).None?;
    var c := Choose(vs, Some(t));
    assert Some(c) == BestIndex(vs, NextMajor, t);
    forall k | 0 <= k < |vs| && vs[k].Some? && vs[k].value.major > t.major
      ensures vs[c].value.major < vs[k].value.major
         || (vs[c].value.major == vs[k].value.major && vs[k].value.minor <= vs[c].value.minor)
      ensures k < c ==> vs[k] != vs[c]
    {
      assert Eligible(NextMajor, t, vs[k]);
    }
  }

  /** Otherwise, when every version is below the target's major, the highest version is
      chosen, the first one of it. */
  lemma ChooseHighest(vs: seq<Option<Version>>, t: Version, v: nat)
    requires |vs| > 1 && v < |vs| && vs[v].Some?
    requires forall k :: 0 <= k < |vs| && vs[k].Some? ==> vs[k].value.major < t.major
    ensures var c := Choose(vs, Some(t));
      vs[c].Some?
    ensures var c := Choose(vs, Some(t));
      forall k :: 0 <= k < |vs| && vs[k].Some? ==>
        (vs[k].value.major < vs[c].value.major
         || (vs[k].value.major == vs[c].value.major && vs[k].value.minor <= vs[c].value.minor))
        && (k < c ==> vs[k] != vs[c])
  {
    assert Eligible(Highest, t, vs[v]);
    assert BestIndex(vs, Exact, t).None?;
    assert BestIndex(vs, SameMajor, t).None?;
    assert BestIndex(vs, NextMajor, t).None?;
    var c := Choose(vs, Some(t));
    assert Some(c) == BestIndex(vs, Highest, t);
    forall k | 0 <= k < |vs| && vs[k].Some?
      ensures vs[k].value.major < vs[c].value.major
         || (vs[k].value.major == vs[c].value.major && vs[k].value.minor <= vs[c].value.minor)
      ensures k < c ==> vs[k] != vs[c]
    {
      assert Eligible(Highest, t, vs[k]);
    }
  }

  /** With installations 21.0 and 23.0 and a project at 22.0, there is no exact or
      same-major match, so the next higher major, 23.0, is picked. */
  lemma NextMajorExample(fs: FileSystem)
    requires "21.0" in fs.dirs && "23.0" in fs.dirs
    ensures FindBestMatch(Some("22.0"), ["21.0", "23.0"], fs) == Some("23.0")
  {
    assert "21.0" == TwoDigitName(21) && "22.0" == TwoDigitName(22) && "23.0" == TwoDigitName(23);
    NextMajorBetween(fs, 21, 22, 23);
  }

  /** Between installations `lower.0` and `upper.0`, a project at a major in between picks
      `upper.0`. */
  lemma NextMajorBetween(fs: FileSystem, lower: nat, target: nat, upper: nat)
    requires 10 <= lower < target < upper < 100
    requires TwoDigitName(lower) in fs.dirs && TwoDigitName(upper) in fs.dirs
    ensures FindBestMatch(Some(TwoDigitName(target)), [TwoDigitName(lower), TwoDigitName(upper)], fs)
      == Some(TwoDigitName(upper))
  {
    var pl, pu := TwoDigitName(lower), TwoDigitName(upper);
    TwoInstallations(fs, lower, upper);
    ChooseBetween(lower, target, upper);
    TwoDigitParse(target);
  }

  /** Two directories `lower.0` and `upper.0` both survive, and carry their versions. */
  lemma TwoInstallations(fs: FileSystem, lower: nat, upper: nat)
    requires 10 <= lower < 100 && 10 <= upper < 100
    requires TwoDigitName(lower) in fs.dirs && TwoDigitName(upper) in fs.dirs
    ensures var paths := [TwoDigitName(lower), TwoDigitName(upper)];
      Survivors(paths, fs) == paths && Versions(paths) == [Some(Version(lower, 0)), Some(Version(upper, 0))]
  {
    TwoDigitVersion(lower);
    TwoDigitVersion(upper);
    SurvivorsOfTwo(fs, TwoDigitName(lower), TwoDigitName(upper));
  }

  /** Between versions `lower.0` and `upper.0`, a target major in between picks the second. */
  lemma ChooseBetween(lower: nat, target: nat, upper: nat)
    requires lower < target < upper
    ensures Choose([Some(Version(lower, 0)), Some(Version(upper, 0))], Some(Version(target, 0))) == 1
  {
    ChooseNextMajor([Some(Version(lower, 0)), Some(Version(upper, 0))], Version(target, 0), 1);
  }

  /** Two surviving paths both survive, in order. */
  lemma SurvivorsOfTwo(fs: FileSystem, p: string, q: string)
    requires Survives(fs, p) && Survives(fs, q)
    ensures Survivors([p, q], fs) == [p, q]
  {
    assert [p, q][1..] == [q] && [q][1..] == [];
  }

  /** The name `n.0` of a two-digit major version. */
  function TwoDigitName(n: nat): (name: string)
    requires 10 <= n < 100
    ensures |name| == 4 && name[2] == '.' && name[3] == '0' && AllDigits(name[..2])
  {
    [DigitChar(n / 10), DigitChar(n % 10), '.', '0']
  }

  /** The text `n.0` reads as version n.0. */
  lemma TwoDigitParse(n: nat)
    requires 10 <= n < 100
    ensures ParseVersion(Some(TwoDigitName(n))) == Some(Version(n, 0))
  {
    assert NatToString(n) == [DigitChar(n / 10), DigitChar(n % 10)];
    assert NatToString(0) == "0";
    ParseDecoratedVersion("", n, 0, "");
    assert "" + NatToString(n) + "." + NatToString(0) + "" == TwoDigitName(n);
  }

  /** A digit-free prefix before `n.0` does not change the version read. */
  lemma DecoratedTwoDigit(prefix: string, n: nat)
    requires 10 <= n < 100
    requires forall k :: 0 <= k < |prefix| ==> !IsDigit(prefix[k])
    ensures ParseVersion(Some(prefix + TwoDigitName(n))) == Some(Version(n, 0))
  {
    assert NatToString(n) == [DigitChar(n / 10), DigitChar(n % 10)];
    assert NatToString(0) == "0";
    ParseDecoratedVersion(prefix, n, 0, "");
    assert prefix + NatToString(n) + "." + NatToString(0) + "" == prefix + TwoDigitName(n);
  }

  /** A directory named `n.0` is not blank and carries version n.0. */
  lemma TwoDigitVersion(n: nat)
    requires 10 <= n < 100
    ensures !IsBlank(TwoDigitName(n))
    ensures VersionOf(TwoDigitName(n)) == Some(Version(n, 0))
  {
    var name := TwoDigitName(n);
    TwoDigitParse(n);
    FileNameOfPlainName(name);
    NotBlankAt(name, 0);
  }

  // ---------------------------------------------------------------------------------------
  // Scanning the standard locations.

  /** A directory holds a Delphi installation when it has a `bin` directory with one of the
      compilers or the IDE in it. */
  predicate IsValidDelphiInstall(fs: FileSystem, path: string) {
    var bin := Combine(path, "bin");
    DirectoryExists(fs, bin)
    && (FileExists(fs, Combine(bin, "dcc32.exe"))
        || FileExists(fs, Combine(bin, "dcc64.exe"))
        || FileExists(fs, Combine(bin, "bds.exe")))
  }

  /** The installation a listed subdirectory contributes, if any. */
  function InstallAt(fs: FileSystem, dir: string): seq<Installation> {
    var version := VersionOf(dir);
    if version.Some? && IsValidDelphiInstall(fs, dir) then [Installation(dir, version.value, GetFileName(dir))] else []
  }

  /** The installations among a list of subdirectories, in listing order. */
  function InstallsIn(fs: FileSystem, subdirs: seq<string>): seq<Installation> {
    if subdirs == [] then []
    else InstallsIn(fs, subdirs[..|subdirs| - 1]) + InstallAt(fs, subdirs[|subdirs| - 1])
  }

  /** The subdirectories of a root the scan reads: none when the root is missing or cannot
      be listed. */
  function Listing(fs: FileSystem, root: string): seq<string> {
    if DirectoryExists(fs, root) && GetDirectories(fs, root).Some? then GetDirectories(fs, root).value else []
  }

  /** The installations found under the given roots, root by root. */
  function ScannedInstalls(fs: FileSystem, roots: seq<string>): seq<Installation> {
    if roots == [] then []
    else ScannedInstalls(fs, roots[..|roots| - 1]) + InstallsIn(fs, Listing(fs, roots[|roots| - 1]))
  }

  /** An installation is found among listed subdirectories exactly when one of them is its
      directory, names its version and holds a valid installation. */
  lemma InstallsInMembership(fs: FileSystem, subdirs: seq<string>, x: Installation)
    ensures x in InstallsIn(fs, subdirs) <==>
      x.path in subdirs && VersionOf(x.path) == Some(x.version)
      && IsValidDelphiInstall(fs, x.path) && x.versionString == GetFileName(x.path)
  {
    FoundIff(fs, subdirs, x);
  }

  /** What a directory must be to contribute `x`: it names the version and holds a valid
      installation, and `x` records its name. */
  predicate Contributes(fs: FileSystem, x: Installation) {
    VersionOf(x.path) == Some(x.version) && IsValidDelphiInstall(fs, x.path) && x.versionString == GetFileName(x.path)
  }

  /** `InstallsInMembership` stated over `Contributes`, by induction on the listing. */
  lemma {:induction false} FoundIff(fs: FileSystem, subdirs: seq<string>, x: Installation)
    ensures x in InstallsIn(fs, subdirs) <==> x.path in subdirs && Contributes(fs, x)
  {
    if subdirs != [] {
      var init, last := subdirs[..|subdirs| - 1], subdirs[|subdirs| - 1];
      FoundIff(fs, init, x);
      InstallAtMembership(fs, last, x);
      assert subdirs == init + [last];
    }
  }

  /** What one listed subdirectory contributes. */
  lemma InstallAtMembership(fs: FileSystem, dir: string, x: Installation)
    ensures x in InstallAt(fs, dir) <==> x.path == dir && Contributes(fs, x)
  {
  }

  /** The scan finds an installation exactly when a root exists, can be listed, and lists
      a directory that names the installation's version and holds a valid installation. */
  lemma {:induction false} ScannedMembership(fs: FileSystem, roots: seq<string>, x: Installation)
    ensures x in ScannedInstalls(fs, roots) <==>
      (exists r :: r in roots && x.path in Listing(fs, r))
      && VersionOf(x.path) == Some(x.version)
      && IsValidDelphiInstall(fs, x.path) && x.versionString == GetFileName(x.path)
  {
    if roots != [] {
      var init := roots[..|roots| - 1];
      var last := roots[|roots| - 1];
      ScannedMembership(fs, init, x);
      InstallsInMembership(fs, Listing(fs, last), x);
      assert roots == init + [last];
      if x.path in Listing(fs, last) {
        assert last in roots;
      }
      if exists r :: r in roots && x.path in Listing(fs, r) {
        var r :| r in roots && x.path in Listing(fs, r);
        assert r in init || r == last;
      }
    }
  }

  lemma Appended(a: seq<Installation>, b: seq<Installation>, c: seq<Installation>)
    ensures (a + b) + c == a + (b + c)
  {
  }

  /** One more listed subdirectory adds what it contributes. */
  lemma InstallsInStep(fs: FileSystem, subdirs: seq<string>, d: nat)
    requires d < |subdirs|
    ensures InstallsIn(fs, subdirs[..d + 1]) == InstallsIn(fs, subdirs[..d]) + InstallAt(fs, subdirs[d])
  {
    assert subdirs[..d + 1][..d] == subdirs[..d];
  }

  /** One more root adds the installations its listing holds. */
  lemma ScannedStep(fs: FileSystem, roots: seq<string>, b: nat)
    requires b < |roots|
    ensures ScannedInstalls(fs, roots[..b + 1]) == ScannedInstalls(fs, roots[..b]) + InstallsIn(fs, Listing(fs, roots[b]))
  {
    assert roots[..b + 1][..b] == roots[..b];
  }

  /** A root that is missing or cannot be listed adds nothing. */
  lemma NothingListed(fs: FileSystem, root: string, installations: seq<Installation>)
    requires !DirectoryExists(fs, root) || GetDirectories(fs, root).None?
    ensures installations + InstallsIn(fs, Listing(fs, root)) == installations
  {
    assert installations + [] == installations;
  }

  /** `ScanStandardLocations`: walks the standard roots and their listings, collecting the
      installations in order. */
  method ScanStandardLocations(fs: FileSystem) returns (installations: seq<Installation>)
    ensures installations == ScannedInstalls(fs, StandardBasePaths)
  {
    installations := [];
    var b := 0;
    while b < |StandardBasePaths|
      invariant 0 <= b <= |StandardBasePaths|
      invariant installations == ScannedInstalls(fs, StandardBasePaths[..b])
    {
      var basePath := StandardBasePaths[b];
      ScannedStep(fs, StandardBasePaths, b);
      if !DirectoryExists(fs, basePath) {
        NothingListed(fs, basePath, installations);
        b := b + 1;
        continue;
      }
      var listed := GetDirectories(fs, basePath);
      if listed.Some? {
        installations := CollectInstalls(fs, listed.value, installations);
      } else {
        NothingListed(fs, basePath, installations);
      }
      b := b + 1;
    }
    assert StandardBasePaths[..b] == StandardBasePaths;
  }

  /** The inner loop of `ScanStandardLocations`: appends the installation each listed
      subdirectory holds, in listing order. */
  method CollectInstalls(fs: FileSystem, subdirs: seq<string>, before: seq<Installation>)
    returns (installations: seq<Installation>)
    ensures installations == before + InstallsIn(fs, subdirs)
  {
    installations := before;
    var d := 0;
    while d < |subdirs|
      invariant 0 <= d <= |subdirs|
      invariant installations == before + InstallsIn(fs, subdirs[..d])
    {
      var dir := subdirs[d];
      var dirName := GetFileName(dir);
      var version := ParseVersion(Some(dirName));
      InstallsInStep(fs, subdirs, d);
      assert VersionOf(dir) == version;
      if version.Some? && IsValidDelphiInstall(fs, dir) {
        installations := installations + [Installation(dir, version.value, dirName)];
        assert InstallAt(fs, dir) == [Installation(dir, version.value, dirName)];
      } else {
        assert InstallAt(fs, dir) == [];
      }
      Appended(before, InstallsIn(fs, subdirs[..d]), InstallAt(fs, dir));
      d := d + 1;
    }
    assert subdirs[..d] == subdirs;
  }

  // ---------------------------------------------------------------------------------------
  // Resolution.

  function Paths(installs: seq<Installation>): (paths: seq<string>)
    ensures |paths| == |installs|
    ensures forall i :: 0 <= i < |installs| ==> paths[i] == installs[i].path
  {
    if installs == [] then [] else [installs[0].path] + Paths(installs[1..])
  }

  /** What `ResolveInstallPath` returns, given the installations the scan finds: a match
      among the configured paths first; otherwise nothing when the scan finds nothing, the
      only installation found, or the best match among those found. */
  function InstallPathFor(projectVersion: Option<string>, configured: Option<seq<string>>,
                          fs: FileSystem, found: seq<Installation>): (r: Option<string>)
    ensures configured.Some? && FindBestMatch(projectVersion, configured.value, fs).Some? ==>
      r == FindBestMatch(projectVersion, configured.value, fs)
    ensures r.None? <==>
      (configured.None? || forall p :: p in configured.value ==> !Survives(fs, p))
      && (found == [] || (|found| > 1 && forall i :: 0 <= i < |found| ==> !Survives(fs, found[i].path)))
    ensures r.Some? ==>
      (configured.Some? && r.value in configured.value && Survives(fs, r.value))
      || exists i :: 0 <= i < |found| && r.value == found[i].path
  {
    var configuredMatch := if configured.Some? then FindBestMatch(projectVersion, configured.value, fs) else None;
    if configuredMatch.Some? then configuredMatch
    else if found == [] then None
    else if |found| == 1 then Some(found[0].path)
    else
      var m := FindBestMatch(projectVersion, Paths(found), fs);
      assert m.Some? ==> exists i :: 0 <= i < |found| && m.value == found[i].path;
      assert m.None? <==> forall i :: 0 <= i < |found| ==> !Survives(fs, found[i].path) by {
        if m.None? {
          forall i | 0 <= i < |found| ensures !Survives(fs, found[i].path) {
            assert Paths(found)[i] in Paths(found);
          }
        }
      }
      m
  }

  /** `ResolveInstallPath`: scans the standard locations (when no configured path
      matches) and resolves the installation for the project version. */
  method ResolveInstallPath(projectVersion: Option<string>, configured: Option<seq<string>>, fs: FileSystem)
    returns (r: Option<string>)
    ensures r == InstallPathFor(projectVersion, configured, fs, ScannedInstalls(fs, StandardBasePaths))
  {
    if configured.Some? {
      var configuredMatch := FindBestMatch(projectVersion, configured.value, fs);
      if configuredMatch.Some? {
        return configuredMatch;
      }
    }
    var found := ScanStandardLocations(fs);
    if |found| == 0 {
      return None;
    }
    if |found| == 1 {
      return Some(found[0].path);
    }
    r := FindBestMatch(projectVersion, Paths(found), fs);
  }
}
