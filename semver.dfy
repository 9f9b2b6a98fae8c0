/** The `SemVer` value of src/semver.rs: three `u32` numbers, an optional
    pre-release string and an optional build string, with its constants,
    builders, component-wise addition, rendering and in-place increments. */
module Semver {
  import opened Decimal
  import opened Text

  const U32_MAX: nat := 0xFFFF_FFFF

  /** Rust's `u32`. */
  type U32 = n: nat | n <= U32_MAX

  datatype Option<T> = None | Some(value: T)

  /** Equality is structural over all five fields, build included, as the
      derived `PartialEq` is. */
  datatype SemVer = SemVer(
    major: U32,
    minor: U32,
    patch: U32,
    preRelease: Option<string>,
    build: Option<string>)

  /** `v` carries neither a pre-release nor a build. */
  predicate IsPlain(v: SemVer) {
    v.preRelease.None? && v.build.None?
  }

  const ZERO: SemVer := SemVer(0, 0, 0, None, None)
  const ONE_MAJOR: SemVer := SemVer(1, 0, 0, None, None)
  const ONE_MINOR: SemVer := SemVer(0, 1, 0, None, None)
  const ONE_PATCH: SemVer := SemVer(0, 0, 1, None, None)

  /** `SemVer::new`. */
  function New(major: U32, minor: U32, patch: U32): (v: SemVer)
    ensures v.major == major && v.minor == minor && v.patch == patch
    ensures IsPlain(v)
  {
    SemVer(major, minor, patch, None, None)
  }

  /** `SemVer::default()` is 0.1.0. */
  function Default(): (v: SemVer)
    ensures v.major == 0 && v.minor == 1 && v.patch == 0 && IsPlain(v)
  {
    ONE_MINOR
  }

  lemma DefaultIsNewZeroOneZero()
    ensures Default() == New(0, 1, 0) == ONE_MINOR
  {
  }

  /** `with_pre_release`: any string is accepted; only the pre-release changes. */
  function WithPreRelease(v: SemVer, preRelease: string): (r: SemVer)
    ensures r.preRelease == Some(preRelease)
    ensures r.major == v.major && r.minor == v.minor && r.patch == v.patch
    ensures r.build == v.build
  {
    v.(preRelease := Some(preRelease))
  }

  /** `with_build`: any string is accepted; only the build changes. */
  function WithBuild(v: SemVer, build: string): (r: SemVer)
    ensures r.build == Some(build)
    ensures r.major == v.major && r.minor == v.minor && r.patch == v.patch
    ensures r.preRelease == v.preRelease
  {
    v.(build := Some(build))
  }

  /** The two builders touch disjoint fields, so their order does not matter. */
  lemma BuildersCommute(v: SemVer, preRelease: string, build: string)
    ensures WithBuild(WithPreRelease(v, preRelease), build)
         == WithPreRelease(WithBuild(v, build), preRelease)
  {
  }

  /** A builder replaces what an earlier call of the same builder set. */
  lemma BuildersOverwrite(v: SemVer, s: string, t: string)
    ensures WithPreRelease(WithPreRelease(v, s), t) == WithPreRelease(v, t)
    ensures WithBuild(WithBuild(v, s), t) == WithBuild(v, t)
  {
  }

  /** The chain of the construction tests: new, then both builders. */
  lemma BuiltFromNew(major: U32, minor: U32, patch: U32, preRelease: string, build: string)
    ensures WithPreRelease(New(major, minor, patch), preRelease)
         == SemVer(major, minor, patch, Some(preRelease), None)
    ensures WithBuild(New(major, minor, patch), build)
         == SemVer(major, minor, patch, None, Some(build))
    ensures WithBuild(WithPreRelease(New(major, minor, patch), preRelease), build)
         == SemVer(major, minor, patch, Some(preRelease), Some(build))
  {
  }

  /** Equality sees the build: two builds make two different values. */
  lemma BuildTakesPartInEquality(v: SemVer, b: string, b': string)
    ensures WithBuild(v, b) == WithBuild(v, b') <==> b == b'
  {
  }

  /** `a + b` stays within `u32` in every field. */
  predicate AddFits(a: SemVer, b: SemVer) {
    a.major + b.major <= U32_MAX &&
    a.minor + b.minor <= U32_MAX &&
    a.patch + b.patch <= U32_MAX
  }

  /** `impl Add for SemVer`: field-wise sums; pre-release and build dropped. */
  function Add(a: SemVer, b: SemVer): (r: SemVer)
    requires AddFits(a, b)
    ensures r.major == a.major + b.major
    ensures r.minor == a.minor + b.minor
    ensures r.patch == a.patch + b.patch
    ensures IsPlain(r)
  {
    SemVer(a.major + b.major, a.minor + b.minor, a.patch + b.patch, None, None)
  }

  lemma AddCommutative(a: SemVer, b: SemVer)
    requires AddFits(a, b)
    ensures AddFits(b, a) && Add(a, b) == Add(b, a)
  {
  }

  lemma AddAssociative(a: SemVer, b: SemVer, c: SemVer)
    requires AddFits(a, b) && AddFits(Add(a, b), c)
    ensures AddFits(b, c) && AddFits(a, Add(b, c))
    ensures Add(Add(a, b), c) == Add(a, Add(b, c))
  {
  }

  /** ZERO is a two-sided identity exactly on the values without pre-release
      and build, since addition drops both. */
  lemma AddZeroIdentity(v: SemVer)
    ensures AddFits(v, ZERO) && AddFits(ZERO, v)
    ensures Add(v, ZERO) == v <==> IsPlain(v)
    ensures Add(ZERO, v) == v <==> IsPlain(v)
  {
  }

  /** Adding a unit constant agrees with the matching increment exactly on
      the values without pre-release and build. */
  lemma AddUnitIsIncrement(v: SemVer)
    ensures v.major < U32_MAX ==> (Add(v, ONE_MAJOR) == v.(major := v.major + 1) <==> IsPlain(v))
    ensures v.minor < U32_MAX ==> (Add(v, ONE_MINOR) == v.(minor := v.minor + 1) <==> IsPlain(v))
    ensures v.patch < U32_MAX ==> (Add(v, ONE_PATCH) == v.(patch := v.patch + 1) <==> IsPlain(v))
  {
  }

  /** `-pre` or `+build` when the part is present, nothing otherwise. */
  function Suffix(sign: char, part: Option<string>): (s: string)
    ensures part.None? <==> s == []
    ensures part.Some? ==> s[0] == sign && s[1..] == part.value
  {
    match part
    case None => ""
    case Some(text) => [sign] + text
  }

  /** `Display::fmt`: `major.minor.patch[-pre][+build]`. */
  function Render(v: SemVer): (s: string)
    ensures IsPlain(v) ==> forall i :: 0 <= i < |s| ==> s[i] == '.' || IsDigit(s[i])
    ensures ('-' in s || '+' in s) <==> !IsPlain(v)
  {
    Dec(v.major) + "." + Dec(v.minor) + "." + Dec(v.patch)
      + Suffix('-', v.preRelease) + Suffix('+', v.build)
  }

  /** A plain rendering has exactly two dots and no sign. */
  lemma RenderNewShape(major: U32, minor: U32, patch: U32)
    ensures Count(Render(New(major, minor, patch)), '.') == 2
    ensures '-' !in Render(New(major, minor, patch))
    ensures '+' !in Render(New(major, minor, patch))
  {
    var a, b, c := Dec(major), Dec(minor), Dec(patch);
    assert Render(New(major, minor, patch)) == a + "." + b + "." + c;
    assert Count(".", '.') == 1;
    CountConcat(a, ".", '.');
    CountConcat(a + ".", b, '.');
    CountConcat(a + "." + b, ".", '.');
    CountConcat(a + "." + b + ".", c, '.');
  }

  /** The part after the patch number: a `-pre` suffix, then a `+build` suffix. */
  function Tail(v: SemVer): string {
    Suffix('-', v.preRelease) + Suffix('+', v.build)
  }

  /** Rendering written as number, dot, rest, nested to the right. */
  lemma RenderLayout(v: SemVer)
    ensures Render(v)
         == Dec(v.major) + ("." + (Dec(v.minor) + ("." + (Dec(v.patch) + Tail(v)))))
  {
  }

  /** Reads the numeral at the front of `s`, up to the first character of
      `stop`, and returns its value with the rest of `s`. */
  function ReadNumber(s: string, stop: set<char>): Option<(U32, string)> {
    var k := FirstIn(s, stop);
    if 0 < k && IsDigits(s[..k]) && ValueOf(s[..k]) <= U32_MAX
    then Some((ValueOf(s[..k]), s[k..]))
    else None
  }

  /** Reads the text after the patch number back as pre-release and build:
      after a `-`, the pre-release runs up to the first `+`; after a `+`,
      the build runs to the end. */
  function ReadTail(t: string): Option<(Option<string>, Option<string>)> {
    if t == [] then Some((None, None))
    else if t[0] == '-' then
      var r := t[1..];
      var k := FirstIn(r, {'+'});
      Some((Some(r[..k]), if k == |r| then None else Some(r[k + 1..])))
    else if t[0] == '+' then Some((None, Some(t[1..])))
    else None
  }

  /** Reads a rendered version back into its five fields. */
  function Read(s: string): Option<SemVer> {
    match ReadNumber(s, {'.'})
    case None => None
    case Some((major, r1)) =>
      if r1 == [] then None else
      match ReadNumber(r1[1..], {'.'})
      case None => None
      case Some((minor, r2)) =>
        if r2 == [] then None else
        match ReadNumber(r2[1..], {'-', '+'})
        case None => None
        case Some((patch, tail)) =>
          match ReadTail(tail)
          case None => None
          case Some((preRelease, build)) => Some(SemVer(major, minor, patch, preRelease, build))
  }

  /** A numeral followed by text that opens with a stop character reads
      back as the number and that text. */
  lemma ReadNumberDec(n: U32, t: string, stop: set<char>)
    requires forall c :: c in stop ==> !IsDigit(c)
    requires StartsIn(t, stop)
    ensures ReadNumber(Dec(n) + t, stop) == Some((n, t))
  {
    var d := Dec(n);
    assert Avoids(d, stop);
    FirstInAfter(d, t, stop);
    assert (d + t)[..|d|] == d;
    assert (d + t)[|d|..] == t;
    ValueOfDec(n);
  }

  /** The suffixes read back as the pre-release and build they came from,
      provided the pre-release holds no `+`. */
  lemma ReadTailOf(v: SemVer)
    requires v.preRelease.Some? ==> '+' !in v.preRelease.value
    ensures ReadTail(Tail(v)) == Some((v.preRelease, v.build))
  {
    var b := Suffix('+', v.build);
    if v.preRelease.Some? {
      var p := v.preRelease.value;
      assert Tail(v)[1..] == p + b;
      assert Avoids(p, {'+'}) by {
        forall i | 0 <= i < |p| ensures p[i] !in {'+'} {
          assert p[i] in p;
        }
      }
      FirstInAfter(p, b, {'+'});
      assert (p + b)[..|p|] == p;
      assert (p + b)[|p|..] == b;
    } else {
      assert Tail(v) == b;
    }
  }

  /** Reading a rendering back gives the version it came from, provided the
      pre-release holds no `+`. */
  lemma ReadRender(v: SemVer)
    requires v.preRelease.Some? ==> '+' !in v.preRelease.value
    ensures Read(Render(v)) == Some(v)
  {
    RenderLayout(v);
    var t2 := Dec(v.patch) + Tail(v);
    var t1 := Dec(v.minor) + ("." + t2);
    ReadNumberDec(v.major, "." + t1, {'.'});
    assert ("." + t1)[1..] == t1;
    ReadNumberDec(v.minor, "." + t2, {'.'});
    assert ("." + t2)[1..] == t2;
    ReadNumberDec(v.patch, Tail(v), {'-', '+'});
    ReadTailOf(v);
  }

  /** Rendering loses nothing when no pre-release contains `+`. */
  lemma RenderInjective(v: SemVer, w: SemVer)
    requires v.preRelease.Some? ==> '+' !in v.preRelease.value
    requires w.preRelease.Some? ==> '+' !in w.preRelease.value
    ensures Render(v) == Render(w) <==> v == w
  {
    ReadRender(v);
    ReadRender(w);
  }

  /** Versions from `new` render the same only when their triples agree. */
  lemma RenderNewInjective(major: U32, minor: U32, patch: U32, major': U32, minor': U32, patch': U32)
    ensures Render(New(major, minor, patch)) == Render(New(major', minor', patch'))
        <==> major == major' && minor == minor' && patch == patch'
  {
    RenderInjective(New(major, minor, patch), New(major', minor', patch'));
  }

  /** Without validation a `+` inside the pre-release makes two different
      values render alike. */
  lemma RenderAmbiguous(major: U32, minor: U32, patch: U32, pre: string, build: string)
    ensures WithPreRelease(New(major, minor, patch), pre + "+" + build)
         != WithBuild(WithPreRelease(New(major, minor, patch), pre), build)
    ensures Render(WithPreRelease(New(major, minor, patch), pre + "+" + build))
         == Render(WithBuild(WithPreRelease(New(major, minor, patch), pre), build))
  {
  }

  /** A place holding a `SemVer` that is updated in place, as a `let mut`
      binding or a `&mut SemVer` is in the source. */
  class SemVerCell {
    var major: U32
    var minor: U32
    var patch: U32
    var preRelease: Option<string>
    var build: Option<string>

    /** The value currently held. */
    function Value(): SemVer
      reads this
    {
      SemVer(major, minor, patch, preRelease, build)
    }

    constructor (v: SemVer)
      ensures Value() == v
    {
      major, minor, patch := v.major, v.minor, v.patch;
      preRelease, build := v.preRelease, v.build;
    }

    /** `inc_major`: adds one to major and changes nothing else. */
    method IncMajor()
      requires major < U32_MAX
      modifies this
      ensures major == old(major) + 1
      ensures minor == old(minor) && patch == old(patch)
      ensures preRelease == old(preRelease) && build == old(build)
      ensures Value() == old(Value()).(major := old(major) + 1)
    {
      major := major + 1;
    }

    /** `inc_minor`: adds one to minor and changes nothing else. */
    method IncMinor()
      requires minor < U32_MAX
      modifies this
      ensures minor == old(minor) + 1
      ensures major == old(major) && patch == old(patch)
      ensures preRelease == old(preRelease) && build == old(build)
      ensures Value() == old(Value()).(minor := old(minor) + 1)
    {
      minor := minor + 1;
    }

    /** `inc_patch`: adds one to patch and changes nothing else. */
    method IncPatch()
      requires patch < U32_MAX
      modifies this
      ensures patch == old(patch) + 1
      ensures major == old(major) && minor == old(minor)
      ensures preRelease == old(preRelease) && build == old(build)
      ensures Value() == old(Value()).(patch := old(patch) + 1)
    {
      patch := patch + 1;
    }
  }

  /** `RangeSemVer`: declared with its two bounds and no operations. */
  datatype RangeSemVer = RangeSemVer(min: SemVer, max: SemVer)
}
