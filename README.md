# SemVer value type

A model of the `SemVer` value type of the `semantic_version` Rust crate
(`src/semver.rs`). A `SemVer` holds three `u32` numbers (major, minor,
patch), an optional pre-release string and an optional build string. The
model covers its constants `ZERO`, `ONE_MAJOR`, `ONE_MINOR` and `ONE_PATCH`,
the constructors `new` and `Default`, the builders `with_pre_release` and
`with_build`, the in-place increments `inc_major`, `inc_minor` and
`inc_patch`, the component-wise `Add`, and the `Display` rendering
`major.minor.patch[-pre][+build]`. The `RangeSemVer` record is mirrored as a
datatype. It has no operations.

Layout:

- `decimal.dfy` (module `Decimal`): the decimal numeral that `Display` for
  `u32` writes, with its reading-back function `ValueOf` and the proof that
  the numeral determines the number.
- `text.dfy` (module `Text`): counting characters, and finding the first
  character of a set in a string. The rendering proofs need both.
- `semver.dfy` (module `Semver`): the `SemVer` datatype, its constants and
  pure operations, the `SemVerCell` class for the three `&mut self`
  increments, and the lemmas. `Read` reads a rendered version back into its
  five fields; it is not an operation of the crate, only the partner that
  states what each part of the rendered text means (`ReadRender`).

Values are a Dafny `datatype`, so `==` is structural over all five fields.
The derived `PartialEq` is structural too, so the build metadata takes part
in equality. `u32` is the subset type `U32` of naturals up to 2^32 - 1.

Where the code and the design of semantic versioning disagree, the model
follows the code:

- The increments add one to their own field only (src/semver.rs:74-84).
  They do not reset the lower fields, which sections 7 and 8 of Semantic
  Versioning 2.0.0 ask for (patch to 0 when minor grows; minor and patch
  to 0 when major grows). They also leave pre-release and build in place.
- The builders accept any string (src/semver.rs:58-72 carry a "need
  validation" note). As a result rendering is not injective:
  `RenderAmbiguous` shows two different values with the same text when a
  pre-release contains `+`. `RenderInjective` proves that rendering loses
  nothing once no pre-release contains `+`.
- Equality includes the build metadata, whereas Semantic Versioning 2.0.0
  (section 10) excludes build metadata from precedence.

## Model

| member | source | states |
|---|---|---|
| `Decimal.Dec` | src/semver.rs:105-109 | a `u32` is written as a non-empty run of decimal digits whose first digit is `0` exactly when the number is 0 (no leading zero) |
| `Decimal.ValueOfDec` | src/semver.rs:105-109 | reading the written numeral back gives the number it came from |
| `Decimal.DecInjective` | src/semver.rs:105-109 | two numbers are written the same exactly when they are equal |
| `Semver.New` | src/semver.rs:48-56 | `new(a, b, c)` has major a, minor b, patch c, and no pre-release or build |
| `Semver.Default` | src/semver.rs:87-91 | the default version is 0.1.0 with no pre-release or build |
| `Semver.DefaultIsNewZeroOneZero` | src/semver.rs:135-144 | `default()`, `new(0, 1, 0)` and `ONE_MINOR` are the same value |
| `Semver.WithPreRelease` | src/semver.rs:58-64 | any string is accepted and becomes the pre-release; major, minor, patch and build are unchanged |
| `Semver.WithBuild` | src/semver.rs:66-72 | any string is accepted and becomes the build; major, minor, patch and pre-release are unchanged |
| `Semver.BuildersCommute` | src/semver.rs:58-72 | setting the build after the pre-release keeps the pre-release, and the order of the two builders does not matter |
| `Semver.BuildersOverwrite` | src/semver.rs:58-72 | a second call of the same builder replaces what the first one set |
| `Semver.BuiltFromNew` | src/semver.rs:146-185 | `new` followed by one or both builders gives exactly the record with those strings, as the construction tests expect |
| `Semver.BuildTakesPartInEquality` | src/semver.rs:4 | two values that differ only in their build are different values |
| `Semver.Add` | src/semver.rs:113-124 | each number of `a + b` is the sum of the operands' numbers; pre-release and build are absent whatever the operands carried; requires that no sum exceeds `u32` |
| `Semver.AddCommutative` | src/semver.rs:113-124 | `a + b == b + a`, and the overflow bound is symmetric |
| `Semver.AddAssociative` | src/semver.rs:113-124 | `(a + b) + c == a + (b + c)` within `u32` |
| `Semver.AddZeroIdentity` | src/semver.rs:14-20 | `ZERO` is a left and right identity of `+` exactly on values without pre-release and build |
| `Semver.AddUnitIsIncrement` | src/semver.rs:22-44 | adding `ONE_MAJOR`, `ONE_MINOR` or `ONE_PATCH` equals incrementing that one field exactly when the value has no pre-release and no build |
| `Semver.Suffix` | src/semver.rs:95-103 | a part renders as nothing when absent, and as its sign followed by its text when present |
| `Semver.Render` | src/semver.rs:93-111 | a value without pre-release or build renders as digits and dots only; a `-` or `+` appears in the text exactly when a pre-release or build is present (which numeral is which field is stated by `Semver.ReadRender`) |
| `Semver.RenderNewShape` | src/semver.rs:105-109 | the rendering of `new(a, b, c)` holds exactly two `.` and no `-` or `+` |
| `Semver.RenderNewInjective` | src/semver.rs:105-109 | `new(a, b, c)` and `new(a', b', c')` render the same exactly when the triples are equal |
| `Semver.ReadNumberDec` | src/semver.rs:105-109 | a field's numeral, read up to the separator that follows it, gives back the field's value and leaves the separator and the rest |
| `Semver.ReadTailOf` | src/semver.rs:95-109 | the text after the patch number is empty, `-pre`, `+build` or `-pre+build`, and reads back as the pre-release and build when the pre-release holds no `+` |
| `Semver.ReadRender` | src/semver.rs:93-111 | the rendering is major, `.`, minor, `.`, patch as decimal numerals, then `-pre` if present, then `+build` if present: reading it back field by field gives the version, provided the pre-release holds no `+` |
| `Semver.RenderInjective` | src/semver.rs:93-111 | two values render the same exactly when they are equal, provided neither pre-release contains `+` |
| `Semver.RenderAmbiguous` | src/semver.rs:58-72 | because the builders do not validate, a pre-release `p+b` and the pair pre-release `p`, build `b` are different values with the same rendering |
| `Semver.SemVerCell.IncMajor` | src/semver.rs:74-76 | major grows by exactly one; minor, patch, pre-release and build are unchanged; requires major below 2^32 - 1 |
| `Semver.SemVerCell.IncMinor` | src/semver.rs:78-80 | minor grows by exactly one; major, patch, pre-release and build are unchanged; requires minor below 2^32 - 1 |
| `Semver.SemVerCell.IncPatch` | src/semver.rs:82-84 | patch grows by exactly one; major, minor, pre-release and build are unchanged; requires patch below 2^32 - 1 |

## Left out

- Overflow of `u32`: `Add` and the increments require that the result fits, instead of modelling Rust's panic in debug builds or wrap-around in release builds.
- The `Formatter` and `write!` plumbing: rendering is a pure function returning the string, and a formatting error cannot occur.
- `RangeSemVer` (src/semver.rs:126-129) has no constructor or operations, so it is a datatype without contracts.
- Validation of pre-release and build text: the source has none, so none is modelled.
- src/scanner.rs: `scan_tokens` and `scan_token` are unimplemented, so there is no scanning behaviour to model.
- src/token.rs: declarations only, with no operations.
- Precedence comparison, parsing, leading-zero rules and range containment: none of them exist in the code.
- The tests at src/semver.rs:187-210 only fail unconditionally and state no behaviour.
