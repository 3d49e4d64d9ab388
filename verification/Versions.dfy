/** Versions as text, and back: what `bump_version` writes can be read again. */
module Versions {
  import opened Basics

  datatype Version = Version(major: nat, minor: nat, patch: nat, prerelease: Option<string>, build: Option<string>)

  // ---- writing ----

  function Digit(d: nat): char
    requires d < 10
  {
    '0' + d as char
  }

  function Decimal(n: nat): string {
    (if n < 10 then [] else Decimal(n / 10)) + [Digit(n % 10)]
  }

  /** `str(version)`, sections 2, 9 and 10 of Semantic Versioning 2.0.0 */
  function Text(v: Version): string {
    Decimal(v.major) + "." + Decimal(v.minor) + "." + Decimal(v.patch)
    + (if v.prerelease.Some? then "-" + v.prerelease.value else "")
    + (if v.build.Some? then "+" + v.build.value else "")
  }

  /** `is_pinned` */
  predicate IsPinned(requirement: string) {
    "=" <= requirement
  }

  /** What a dependency entry is updated to. */
  function Requirement(v: Version): string {
    (if v.prerelease.Some? then "=" else "") + Text(v.(build := None))
  }

  // ---- reading ----

  predicate IsDigit(c: char) {
    '0' <= c <= '9'
  }

  /** The position of the first `c`, or the length if there is none. */
  function Find(s: string, c: char): (n: nat)
    ensures n <= |s| && c !in s[..n] && (n < |s| ==> s[n] == c)
  {
    if s == "" || s[0] == c then 0 else
      assert forall k | 0 <= k <= Find(s[1..], c) :: s[..k + 1] == [s[0]] + s[1..][..k];
      1 + Find(s[1..], c)
  }

  /** A number in decimal notation, most significant digit first. */
  function ReadNumber(s: string): Option<nat> {
    if s == "" || !IsDigit(s[|s| - 1]) then None
    else
      var last := s[|s| - 1] as nat - '0' as nat;
      if |s| == 1 then Some(last) else
        match ReadNumber(s[..|s| - 1])
        case None => None
        case Some(n) => Some(10 * n + last)
  }

  /** `major.minor.patch[-prerelease][+build]` */
  function Parse(s: string): Option<Version> {
    var plus := Find(s, '+');
    var build := if plus < |s| then Some(s[plus + 1..]) else None;
    var core := s[..plus];
    var dash := Find(core, '-');
    var prerelease := if dash < |core| then Some(core[dash + 1..]) else None;
    ParseNumbers(core[..dash], prerelease, build)
  }

  function ParseNumbers(s: string, prerelease: Option<string>, build: Option<string>): Option<Version> {
    var dot := Find(s, '.');
    if dot == |s| then None else
      var rest := s[dot + 1..];
      var next := Find(rest, '.');
      if next == |rest| then None else
        match (ReadNumber(s[..dot]), ReadNumber(rest[..next]), ReadNumber(rest[next + 1..]))
        case (Some(major), Some(minor), Some(patch)) => Some(Version(major, minor, patch, prerelease, build))
        case _ => None
  }

  // ---- the round trip ----

  lemma {:induction false} DecimalIsDigits(n: nat)
    ensures Decimal(n) != [] && forall c | c in Decimal(n) :: IsDigit(c)
  {
    if n >= 10 { DecimalIsDigits(n / 10); }
  }

  /** Reading what was written for a number gives back the number. */
  lemma {:induction false} DecimalReads(n: nat)
    ensures ReadNumber(Decimal(n)) == Some(n)
  {
    if n >= 10 {
      DecimalReads(n / 10);
      DecimalIsDigits(n / 10);
      assert Decimal(n)[..|Decimal(n)| - 1] == Decimal(n / 10);
      assert n == 10 * (n / 10) + n % 10;
    }
  }

  lemma FindFirst(a: string, c: char, b: string)
    requires c !in a
    ensures Find(a + [c] + b, c) == |a|
  {
    var s, n := a + [c] + b, Find(a + [c] + b, c);
    assert s[|a|] == c;
    assert forall k | 0 <= k < n :: s[..n][k] == s[k];
    assert forall k | 0 <= k < |a| :: s[k] == a[k];
  }

  lemma FindNone(a: string, c: char)
    requires c !in a
    ensures Find(a, c) == |a|
  {
  }

  lemma DigitsOnly(n: nat, c: char)
    requires !IsDigit(c)
    ensures c !in Decimal(n)
  {
    DecimalIsDigits(n);
  }

  function Numbers(v: Version): string {
    Decimal(v.major) + "." + Decimal(v.minor) + "." + Decimal(v.patch)
  }

  lemma NumbersRead(v: Version)
    ensures ParseNumbers(Numbers(v), v.prerelease, v.build) == Some(v)
  {
    hide Decimal, ReadNumber, Find;
    var a, b, c := Decimal(v.major), Decimal(v.minor), Decimal(v.patch);
    DigitsOnly(v.major, '.');
    DigitsOnly(v.minor, '.');
    FindFirst(a, '.', b + "." + c);
    assert Numbers(v) == a + "." + (b + "." + c);
    FindFirst(b, '.', c);
    DecimalReads(v.major);
    DecimalReads(v.minor);
    DecimalReads(v.patch);
    assert (a + "." + (b + "." + c))[..|a|] == a && (a + "." + (b + "." + c))[|a| + 1..] == b + "." + c;
    assert (b + "." + c)[..|b|] == b && (b + "." + c)[|b| + 1..] == c;
  }

  /** Pre-release identifiers contain no `+` (section 9). */
  predicate WellFormed(v: Version) {
    v.prerelease.Some? ==> '+' !in v.prerelease.value
  }

  lemma NumbersPlain(v: Version)
    ensures '-' !in Numbers(v) && '+' !in Numbers(v)
  {
    hide Decimal;
    DigitsOnly(v.major, '-');
    DigitsOnly(v.minor, '-');
    DigitsOnly(v.patch, '-');
    DigitsOnly(v.major, '+');
    DigitsOnly(v.minor, '+');
    DigitsOnly(v.patch, '+');
  }

  /** The part before the build metadata. */
  function Core(v: Version): string {
    Numbers(v) + if v.prerelease.Some? then "-" + v.prerelease.value else ""
  }

  lemma CoreReads(v: Version)
    ensures var dash := Find(Core(v), '-');
            && Core(v)[..dash] == Numbers(v)
            && v.prerelease == if dash < |Core(v)| then Some(Core(v)[dash + 1..]) else None
  {
    hide Numbers, Find;
    NumbersPlain(v);
    if v.prerelease.Some? {
      FindFirst(Numbers(v), '-', v.prerelease.value);
      assert Core(v) == Numbers(v) + "-" + v.prerelease.value;
    } else {
      FindNone(Numbers(v), '-');
      assert Core(v) == Numbers(v);
    }
  }

  lemma PlusSplits(core: string, build: Option<string>)
    requires '+' !in core
    ensures var s := core + if build.Some? then "+" + build.value else "";
            var plus := Find(s, '+');
            && s[..plus] == core && build == if plus < |s| then Some(s[plus + 1..]) else None
  {
    hide Find;
    if build.Some? {
      FindFirst(core, '+', build.value);
      assert core + ("+" + build.value) == core + "+" + build.value;
    } else {
      FindNone(core, '+');
      assert core + "" == core;
    }
  }

  lemma CorePlain(v: Version)
    requires WellFormed(v)
    ensures '+' !in Core(v)
  {
    hide Numbers;
    NumbersPlain(v);
  }

  /** Every version with well-formed identifiers reads back from its text as itself. */
  lemma TextReads(v: Version)
    requires WellFormed(v)
    ensures Parse(Text(v)) == Some(v)
  {
    hide Numbers, Find, ParseNumbers, Text, Core;
    TextSplits(v);
    CorePlain(v);
    PlusSplits(Core(v), v.build);
    CoreReads(v);
    NumbersRead(v);
  }

  lemma TextSplits(v: Version)
    ensures Text(v) == Core(v) + if v.build.Some? then "+" + v.build.value else ""
  {
    hide Decimal;
  }

  // ---- requirements ----

  /** The requirement asks for `v` without its build metadata: pinned for pre-releases, and for nothing else. */
  ghost predicate AsksFor(requirement: string, v: Version) {
    if v.prerelease.Some? then
      requirement != "" && requirement[0] == '=' && Parse(requirement[1..]) == Some(v.(build := None))
    else
      Parse(requirement) == Some(v.(build := None))
  }

  lemma RequirementAsks(v: Version)
    requires WellFormed(v)
    ensures AsksFor(Requirement(v), v)
  {
    hide Text, Parse;
    TextReads(v.(build := None));
    if v.prerelease.Some? {
      assert Requirement(v)[1..] == Text(v.(build := None));
    } else {
      assert Requirement(v) == Text(v.(build := None));
    }
  }

  lemma TextStartsWithDigit(v: Version)
    ensures Text(v) != "" && IsDigit(Text(v)[0])
  {
    DecimalIsDigits(v.major);
    assert Decimal(v.major) <= Text(v);
    assert Text(v)[0] in Decimal(v.major);
  }

  /** Requirements are pinned for pre-releases and for nothing else. */
  lemma PinnedIffPrerelease(v: Version)
    ensures IsPinned(Requirement(v)) <==> v.prerelease.Some?
  {
    TextStartsWithDigit(v.(build := None));
    if v.prerelease.Some? {
      assert Requirement(v)[..1] == "=";
    } else {
      assert Requirement(v) == Text(v.(build := None));
    }
  }

  /** Requirements never carry build metadata. */
  lemma NoBuildMetadata(v: Version)
    requires WellFormed(v)
    ensures '+' !in Requirement(v)
  {
    hide Decimal;
    NumbersPlain(v);
    DigitsOnly(v.major, '+');
    DigitsOnly(v.minor, '+');
    DigitsOnly(v.patch, '+');
  }
}
