/** Release versions of the desktop app: the strings the release scripts build, and their
    precedence as section 11 of SemVer 2.0.0 defines it. */
module Versions {
  import opened Wrappers

  // ---------------------------------------------------------------------------------------------
  // Precedence
  // ---------------------------------------------------------------------------------------------

  datatype Identifier = Numeric(number: nat) | Alphanumeric(text: string)

  datatype Version = Version(major: nat, minor: nat, patch: nat, prerelease: seq<Identifier>)

  function CompareInts(a: int, b: int): int {
    if a < b then -1 else if a > b then 1 else 0
  }

  function CompareChars(a: char, b: char): int {
    CompareInts(a as int, b as int)
  }

  /** Dictionary order: the first difference decides, a proper prefix comes first. */
  function Lexicographic<T>(a: seq<T>, b: seq<T>, compare: (T, T) -> int): int {
    if a == [] then if b == [] then 0 else -1
    else if b == [] then 1
    else
      var first := compare(a[0], b[0]);
      if first != 0 then first else Lexicographic(a[1..], b[1..], compare)
  }

  /** Numbers by value, other identifiers in ASCII order, numbers before the others. */
  function CompareIdentifiers(a: Identifier, b: Identifier): int {
    match (a, b)
    case (Numeric(x), Numeric(y)) => CompareInts(x, y)
    case (Numeric(_), Alphanumeric(_)) => -1
    case (Alphanumeric(_), Numeric(_)) => 1
    case (Alphanumeric(x), Alphanumeric(y)) => Lexicographic(x, y, CompareChars)
  }

  function CompareCores(a: Version, b: Version): int {
    if a.major != b.major then CompareInts(a.major, b.major)
    else if a.minor != b.minor then CompareInts(a.minor, b.minor)
    else CompareInts(a.patch, b.patch)
  }

  /** Negative, zero or positive as `a` precedes, equals or follows `b`. */
  function Order(a: Version, b: Version): int {
    if CompareCores(a, b) != 0 then CompareCores(a, b)
    else if a.prerelease == [] || b.prerelease == [] then
      CompareInts(if a.prerelease == [] then 1 else 0, if b.prerelease == [] then 1 else 0)
    else Lexicographic(a.prerelease, b.prerelease, CompareIdentifiers)
  }

  ghost predicate Total<T(!new)>(compare: (T, T) -> int) {
    && (forall a, b :: compare(a, b) == 0 <==> a == b)
    && (forall a, b :: compare(a, b) < 0 <==> compare(b, a) > 0)
    && (forall a, b, c :: compare(a, b) < 0 && compare(b, c) < 0 ==> compare(a, c) < 0)
  }

  lemma {:induction false} LexicographicDecides<T(!new)>(a: seq<T>, b: seq<T>, compare: (T, T) -> int)
    requires Total(compare)
    ensures Lexicographic(a, b, compare) == 0 <==> a == b
    ensures Lexicographic(a, b, compare) < 0 <==> Lexicographic(b, a, compare) > 0
  {
    if a != [] && b != [] {
      assert a == [a[0]] + a[1..] && b == [b[0]] + b[1..];
      LexicographicDecides(a[1..], b[1..], compare);
    }
  }

  lemma {:induction false} LexicographicChains<T(!new)>(a: seq<T>, b: seq<T>, c: seq<T>, compare: (T, T) -> int)
    requires Total(compare)
    requires Lexicographic(a, b, compare) < 0 && Lexicographic(b, c, compare) < 0
    ensures Lexicographic(a, c, compare) < 0
  {
    if a != [] && b != [] && c != [] {
      if compare(a[0], b[0]) == 0 && compare(b[0], c[0]) == 0 {
        LexicographicChains(a[1..], b[1..], c[1..], compare);
      }
    }
  }

  lemma IdentifiersDecide(a: Identifier, b: Identifier)
    ensures CompareIdentifiers(a, b) == 0 <==> a == b
    ensures CompareIdentifiers(a, b) < 0 <==> CompareIdentifiers(b, a) > 0
  {
    if a.Alphanumeric? && b.Alphanumeric? { LexicographicDecides(a.text, b.text, CompareChars); }
  }

  lemma IdentifiersChain(a: Identifier, b: Identifier, c: Identifier)
    requires CompareIdentifiers(a, b) < 0 && CompareIdentifiers(b, c) < 0
    ensures CompareIdentifiers(a, c) < 0
  {
    if a.Alphanumeric? && b.Alphanumeric? && c.Alphanumeric? {
      LexicographicChains(a.text, b.text, c.text, CompareChars);
    }
  }

  lemma IdentifiersTotal()
    ensures Total(CompareIdentifiers)
  {
    hide CompareIdentifiers;
    forall a, b
      ensures CompareIdentifiers(a, b) == 0 <==> a == b
      ensures CompareIdentifiers(a, b) < 0 <==> CompareIdentifiers(b, a) > 0
    {
      IdentifiersDecide(a, b);
    }
    forall a, b, c | CompareIdentifiers(a, b) < 0 && CompareIdentifiers(b, c) < 0 ensures CompareIdentifiers(a, c) < 0 {
      IdentifiersChain(a, b, c);
    }
  }

  /** Precedence is a strict total order in which only equal versions tie. */
  lemma OrderDecides(a: Version, b: Version)
    ensures Order(a, b) == 0 <==> a == b
    ensures Order(a, b) < 0 <==> Order(b, a) > 0
  {
    IdentifiersTotal();
    LexicographicDecides(a.prerelease, b.prerelease, CompareIdentifiers);
  }

  lemma OrderChains(a: Version, b: Version, c: Version)
    requires Order(a, b) <= 0 && Order(b, c) <= 0
    ensures Order(a, c) <= 0
    ensures Order(a, c) == 0 ==> a == b == c
  {
    OrderDecides(a, b);
    OrderDecides(b, c);
    OrderDecides(a, c);
    if a != b && b != c {
      OrderChainsStrictly(a, b, c);
    }
  }

  lemma OrderChainsStrictly(a: Version, b: Version, c: Version)
    requires Order(a, b) < 0 && Order(b, c) < 0
    ensures Order(a, c) < 0
  {
    IdentifiersTotal();
    if CompareCores(a, b) == 0 == CompareCores(b, c)
       && a.prerelease != [] && b.prerelease != [] && c.prerelease != [] {
      LexicographicChains(a.prerelease, b.prerelease, c.prerelease, CompareIdentifiers);
    }
  }

  // ---------------------------------------------------------------------------------------------
  // Section 11 of SemVer 2.0.0, written out
  // ---------------------------------------------------------------------------------------------

  /** The texts first differ in a smaller ASCII character, or `a` is the beginning of `b`. */
  ghost predicate TextPrecedes(a: string, b: string) {
    exists i :: 0 <= i <= |a| && i < |b| && a[..i] == b[..i] && (i < |a| ==> a[i] < b[i])
  }

  /** Section 11.4.1 to 11.4.3: numbers by value and before texts, texts by their characters. */
  ghost predicate IdentifierPrecedes(a: Identifier, b: Identifier) {
    || (a.Numeric? && b.Numeric? && a.number < b.number)
    || (a.Numeric? && b.Alphanumeric?)
    || (a.Alphanumeric? && b.Alphanumeric? && TextPrecedes(a.text, b.text))
  }

  /** Section 11.4: the first difference decides, and more identifiers win over their own beginning. */
  ghost predicate IdentifiersPrecede(a: seq<Identifier>, b: seq<Identifier>) {
    exists i :: 0 <= i <= |a| && i < |b| && a[..i] == b[..i] && (i < |a| ==> IdentifierPrecedes(a[i], b[i]))
  }

  /** Section 11.3: a prerelease precedes its release. */
  ghost predicate PrereleasePrecedes(a: seq<Identifier>, b: seq<Identifier>) {
    a != [] && (b == [] || IdentifiersPrecede(a, b))
  }

  /** Section 11.2: major, then minor, then patch, then what is before the release. */
  ghost predicate Precedes(a: Version, b: Version) {
    || a.major < b.major
    || (a.major == b.major && a.minor < b.minor)
    || (a.major == b.major && a.minor == b.minor && a.patch < b.patch)
    || (a.major == b.major && a.minor == b.minor && a.patch == b.patch
        && PrereleasePrecedes(a.prerelease, b.prerelease))
  }

  /** Dictionary order compares the first elements that differ. */
  lemma {:induction false} LexicographicMeaning<T(!new)>(a: seq<T>, b: seq<T>, compare: (T, T) -> int)
    requires Total(compare)
    ensures Lexicographic(a, b, compare) < 0
       <==> exists i :: 0 <= i <= |a| && i < |b| && a[..i] == b[..i] && (i < |a| ==> compare(a[i], b[i]) < 0)
  {
    if a == [] || b == [] {
      assert b != [] ==> a[..0] == b[..0];
    } else if compare(a[0], b[0]) == 0 {
      LexicographicMeaning(a[1..], b[1..], compare);
      SameFirst(a, b, compare);
    } else {
      assert a[..0] == b[..0] && forall i :: 0 < i <= |a| && i < |b| ==> a[..i][0] == a[0] && b[..i][0] == b[0];
    }
  }

  lemma SameFirst<T(!new)>(a: seq<T>, b: seq<T>, compare: (T, T) -> int)
    requires Total(compare) && a != [] && b != [] && a[0] == b[0]
    ensures (exists i :: 0 <= i <= |a| && i < |b| && a[..i] == b[..i] && (i < |a| ==> compare(a[i], b[i]) < 0))
       <==> exists i :: && 0 <= i <= |a[1..]| && i < |b[1..]| && a[1..][..i] == b[1..][..i]
                        && (i < |a[1..]| ==> compare(a[1..][i], b[1..][i]) < 0)
  {
    if i :| 0 <= i <= |a| && i < |b| && a[..i] == b[..i] && (i < |a| ==> compare(a[i], b[i]) < 0) {
      assert i > 0 && a[1..][..i - 1] == a[..i][1..] && b[1..][..i - 1] == b[..i][1..];
    }
    if i :| && 0 <= i <= |a[1..]| && i < |b[1..]| && a[1..][..i] == b[1..][..i]
            && (i < |a[1..]| ==> compare(a[1..][i], b[1..][i]) < 0)
    {
      assert a[..i + 1] == [a[0]] + a[1..][..i] && b[..i + 1] == [b[0]] + b[1..][..i];
    }
  }

  lemma IdentifierOrder(a: Identifier, b: Identifier)
    ensures CompareIdentifiers(a, b) < 0 <==> IdentifierPrecedes(a, b)
  {
    if a.Alphanumeric? && b.Alphanumeric? {
      LexicographicMeaning(a.text, b.text, CompareChars);
      hide Lexicographic;
    }
  }

  /** Versions are ordered as section 11 of SemVer 2.0.0 says, for every two versions. */
  lemma OrderIsPrecedence(a: Version, b: Version)
    ensures Order(a, b) < 0 <==> Precedes(a, b)
    ensures Order(a, b) > 0 <==> Precedes(b, a)
  {
    OrderDecides(a, b);
    LessIsPrecedence(a, b);
    LessIsPrecedence(b, a);
    hide Order, Precedes;
    OrderDecides(b, a);
  }

  lemma LessIsPrecedence(a: Version, b: Version)
    ensures Order(a, b) < 0 <==> Precedes(a, b)
  {
    IdentifiersTotal();
    LexicographicMeaning(a.prerelease, b.prerelease, CompareIdentifiers);
    forall x, y ensures CompareIdentifiers(x, y) < 0 <==> IdentifierPrecedes(x, y) { IdentifierOrder(x, y); }
    hide Lexicographic, CompareIdentifiers, IdentifierPrecedes, Total;
  }

  // ---------------------------------------------------------------------------------------------
  // Nightlies
  // ---------------------------------------------------------------------------------------------

  ghost predicate Stable(v: Version) {
    v.prerelease == []
  }

  function Nightly(base: Version, date: nat, run: nat): Version {
    Version(base.major, base.minor, base.patch + 1, [Alphanumeric("nightly"), Numeric(date), Numeric(run)])
  }

  /** A nightly follows its base and precedes exactly the stable versions that follow the base. */
  lemma NightlyPlacement(base: Version, date: nat, run: nat, stable: Version)
    requires Stable(base) && Stable(stable)
    ensures Order(base, Nightly(base, date, run)) < 0
    ensures Order(Nightly(base, date, run), stable) < 0 <==> Order(base, stable) < 0
  {}

  lemma NightlyPrereleases(date: nat, run: nat, date': nat, run': nat)
    ensures Lexicographic([Alphanumeric("nightly"), Numeric(date), Numeric(run)],
                          [Alphanumeric("nightly"), Numeric(date'), Numeric(run')], CompareIdentifiers)
         == if date != date' then CompareInts(date, date') else CompareInts(run, run')
  {
    var word := Alphanumeric("nightly");
    var p, q := [word, Numeric(date), Numeric(run)], [word, Numeric(date'), Numeric(run')];
    LexicographicDecides(word.text, word.text, CompareChars);
    assert p[1..] == [Numeric(date), Numeric(run)] && q[1..] == [Numeric(date'), Numeric(run')];
    assert p[1..][1..] == [Numeric(run)] && q[1..][1..] == [Numeric(run')];
    assert Lexicographic([Numeric(run)], [Numeric(run')], CompareIdentifiers) == CompareInts(run, run');
  }

  /** Nightlies are ordered as their (base, date, run) triples are. */
  lemma NightlyOrder(base: Version, date: nat, run: nat, base': Version, date': nat, run': nat)
    requires Stable(base) && Stable(base')
    ensures Order(Nightly(base, date, run), Nightly(base', date', run')) < 0
       <==> Order(base, base') < 0 || (base == base' && (date < date' || (date == date' && run < run')))
  {
    NightlyPrereleases(date, run, date', run');
  }

  // ---------------------------------------------------------------------------------------------
  // The strings releaseVersion builds
  // ---------------------------------------------------------------------------------------------

  datatype Channel = StableChannel | NightlyChannel

  datatype VersionResult = Released(text: string) | UnstableBase | BadRunNumber

  predicate Digit(c: char) { '0' <= c <= '9' }

  predicate Digits(s: string) {
    s != [] && forall i :: 0 <= i < |s| ==> Digit(s[i])
  }

  function DecimalValue(s: string): nat
    requires forall i :: 0 <= i < |s| ==> Digit(s[i])
  {
    if s == [] then 0
    else
      assert Digit(s[|s| - 1]);
      DecimalValue(s[..|s| - 1]) * 10 + (s[|s| - 1] as int - '0' as int)
  }

  function DigitOf(n: nat): (c: char)
    requires n < 10
    ensures Digit(c) && c as int - '0' as int == n
  {
    ('0' as int + n) as char
  }

  function Decimal(n: nat): string {
    if n < 10 then [DigitOf(n)] else Decimal(n / 10) + [DigitOf(n % 10)]
  }

  lemma {:induction false} DecimalRoundTrip(n: nat)
    ensures Digits(Decimal(n)) && DecimalValue(Decimal(n)) == n
  {
    if n < 10 {
      assert Decimal(n)[..0] == [];
    } else {
      DecimalRoundTrip(n / 10);
      assert Decimal(n)[..|Decimal(n)| - 1] == Decimal(n / 10);
    }
  }

  /** The position of the first `separator`, or the length. */
  function Find(s: string, separator: char): (i: nat)
    ensures i <= |s| && separator !in s[..i] && (i < |s| ==> s[i] == separator)
  {
    if s == [] || s[0] == separator then 0
    else
      var rest := Find(s[1..], separator);
      assert s[..1 + rest] == [s[0]] + s[1..][..rest];
      1 + rest
  }

  function Split(s: string, separator: char): (parts: seq<string>)
    ensures |parts| >= 1
    decreases |s|
  {
    var i := Find(s, separator);
    if i == |s| then [s] else [s[..i]] + Split(s[i + 1..], separator)
  }

  lemma {:induction false} FindFirst(head: string, tail: string, separator: char)
    requires separator !in head
    ensures Find(head + [separator] + tail, separator) == |head|
  {
    if head != [] {
      FindFirst(head[1..], tail, separator);
      assert (head + [separator] + tail)[1..] == head[1..] + [separator] + tail;
    }
  }

  lemma {:induction false} FindNone(s: string, separator: char)
    requires separator !in s
    ensures Find(s, separator) == |s|
  {
    if s != [] {
      FindNone(s[1..], separator);
    }
  }

  lemma SplitFirst(head: string, tail: string, separator: char)
    requires separator !in head
    ensures Split(head + [separator] + tail, separator) == [head] + Split(tail, separator)
  {
    var s := head + [separator] + tail;
    FindFirst(head, tail, separator);
    assert s[..|head|] == head && s[|head| + 1..] == tail;
  }

  lemma SplitLast(s: string, separator: char)
    requires separator !in s
    ensures Split(s, separator) == [s]
  {
    FindNone(s, separator);
  }

  lemma SplitStep(s: string, separator: char) returns (tail: string)
    requires |Split(s, separator)| > 1
    ensures s == Split(s, separator)[0] + [separator] + tail
    ensures Split(s, separator)[1..] == Split(tail, separator)
  {
    var i := Find(s, separator);
    tail := s[i + 1..];
    assert s == s[..i] + [separator] + tail;
  }

  lemma SplitThree(s: string, separator: char)
    requires |Split(s, separator)| == 3
    ensures var p := Split(s, separator); s == p[0] + [separator] + p[1] + [separator] + p[2]
  {
    var tail := SplitStep(s, separator);
    var last := SplitStep(tail, separator);
    assert Split(last, separator) == [Split(s, separator)[2]];
  }

  function ReadCore(s: string): Option<seq<nat>> {
    var parts := Split(s, '.');
    if |parts| == 3 && Digits(parts[0]) && Digits(parts[1]) && Digits(parts[2])
    then Some([DecimalValue(parts[0]), DecimalValue(parts[1]), DecimalValue(parts[2])])
    else None
  }

  function ReadIdentifier(s: string): Identifier {
    if Digits(s) then Numeric(DecimalValue(s)) else Alphanumeric(s)
  }

  function ReadPrerelease(s: string): seq<Identifier> {
    var parts := Split(s, '.');
    seq(|parts|, i requires 0 <= i < |parts| => ReadIdentifier(parts[i]))
  }

  /** The version a string denotes: X.Y.Z, or X.Y.Z-identifiers. */
  function ReadVersion(s: string): Option<Version> {
    var dash := Find(s, '-');
    match ReadCore(s[..dash])
    case None => None
    case Some(core) =>
      if dash == |s| then Some(Version(core[0], core[1], core[2], []))
      else Some(Version(core[0], core[1], core[2], ReadPrerelease(s[dash + 1..])))
  }

  function CoreText(major: string, minor: string, patch: string): string {
    major + "." + minor + "." + patch
  }

  function NightlySuffix(date: string, runNumber: string): string {
    "nightly" + ['.'] + (date + ['.'] + runNumber)
  }

  /** releaseVersion: `date` is the YYYYMMDD text of the build day. */
  function ReleaseVersion(base: string, channel: Channel, date: string, runNumber: string): VersionResult {
    if ReadCore(base).None? then UnstableBase
    else if channel.StableChannel? then Released(base)
    else if !Digits(runNumber) || runNumber[0] == '0' then BadRunNumber
    else
      var parts := Split(base, '.');
      Released(CoreText(parts[0], parts[1], Decimal(DecimalValue(parts[2]) + 1)) + ['-']
               + NightlySuffix(date, runNumber))
  }

  lemma DigitsExclude(s: string, c: char)
    requires Digits(s) && !Digit(c)
    ensures c !in s
  {}

  lemma ReadCoreOf(a: string, b: string, c: string)
    requires Digits(a) && Digits(b) && Digits(c)
    ensures ReadCore(CoreText(a, b, c)) == Some([DecimalValue(a), DecimalValue(b), DecimalValue(c)])
  {
    DigitsExclude(a, '.');
    DigitsExclude(b, '.');
    DigitsExclude(c, '.');
    assert a + "." + b + "." + c == a + ['.'] + (b + "." + c);
    SplitFirst(a, b + "." + c, '.');
    SplitFirst(b, c, '.');
    SplitLast(c, '.');
  }

  lemma ReadSuffix(date: string, run: string)
    requires Digits(date) && Digits(run)
    ensures ReadPrerelease(NightlySuffix(date, run))
         == [Alphanumeric("nightly"), Numeric(DecimalValue(date)), Numeric(DecimalValue(run))]
  {
    DigitsExclude(date, '.');
    DigitsExclude(run, '.');
    SplitFirst("nightly", date + ['.'] + run, '.');
    SplitFirst(date, run, '.');
    SplitLast(run, '.');
    assert ReadIdentifier("nightly") == Alphanumeric("nightly") by { assert !Digit("nightly"[0]); }
    assert ReadPrerelease(NightlySuffix(date, run))
        == [ReadIdentifier("nightly"), ReadIdentifier(date), ReadIdentifier(run)];
  }

  lemma ReadDashed(core: string, numbers: seq<nat>, tail: string)
    requires '-' !in core && |numbers| == 3 && ReadCore(core) == Some(numbers)
    ensures ReadVersion(core + ['-'] + tail)
         == Some(Version(numbers[0], numbers[1], numbers[2], ReadPrerelease(tail)))
  {
    FindFirst(core, tail, '-');
    assert (core + ['-'] + tail)[..|core|] == core && (core + ['-'] + tail)[|core| + 1..] == tail;
  }

  /** What releaseVersion adds one to is the last of three digit strings, and no part holds a dash. */
  lemma BaseParts(base: string)
    requires ReadCore(base).Some?
    ensures var p := Split(base, '.'); base == CoreText(p[0], p[1], p[2])
    ensures '-' !in base
  {
    SplitThree(base, '.');
    var p := Split(base, '.');
    DigitsExclude(p[0], '-');
    DigitsExclude(p[1], '-');
    DigitsExclude(p[2], '-');
  }

  lemma StableDenotes(base: string)
    requires ReadCore(base).Some?
    ensures var n := ReadCore(base).value; |n| == 3 && ReadVersion(base) == Some(Version(n[0], n[1], n[2], []))
  {
    BaseParts(base);
    FindNone(base, '-');
    assert base[..|base|] == base;
  }

  /** The core of a nightly: the base with its patch one higher. */
  lemma NightlyCore(p: seq<string>)
    requires |p| == 3 && Digits(p[0]) && Digits(p[1]) && Digits(p[2])
    ensures var core := CoreText(p[0], p[1], Decimal(DecimalValue(p[2]) + 1));
            '-' !in core
            && ReadCore(core) == Some([DecimalValue(p[0]), DecimalValue(p[1]), DecimalValue(p[2]) + 1])
  {
    var patch := Decimal(DecimalValue(p[2]) + 1);
    DecimalRoundTrip(DecimalValue(p[2]) + 1);
    ReadCoreOf(p[0], p[1], patch);
    DigitsExclude(p[0], '-');
    DigitsExclude(p[1], '-');
    DigitsExclude(patch, '-');
  }

  lemma NightlyDenotes(base: string, date: string, runNumber: string)
    requires ReadCore(base).Some? && Digits(date) && Digits(runNumber) && runNumber[0] != '0'
    ensures ReadVersion(base).Some?
    ensures var r := ReleaseVersion(base, NightlyChannel, date, runNumber);
            r.Released? && ReadVersion(r.text)
              == Some(Nightly(ReadVersion(base).value, DecimalValue(date), DecimalValue(runNumber)))
  {
    hide NightlySuffix, CoreText, ReadVersion, Decimal;
    StableDenotes(base);
    var p := Split(base, '.');
    NightlyCore(p);
    var core := CoreText(p[0], p[1], Decimal(DecimalValue(p[2]) + 1));
    ReadDashed(core, [DecimalValue(p[0]), DecimalValue(p[1]), DecimalValue(p[2]) + 1], NightlySuffix(date, runNumber));
    ReadSuffix(date, runNumber);
  }

  /** releaseVersion refuses exactly the bases that are not X.Y.Z and, for nightlies, the run numbers
      that are not positive; what it builds denotes the base, or the base's nightly of that day and run. */
  lemma ReleaseVersionDenotes(base: string, channel: Channel, date: string, runNumber: string)
    requires Digits(date)
    ensures var r := ReleaseVersion(base, channel, date, runNumber);
            && (r.UnstableBase? <==> ReadCore(base).None?)
            && (r.BadRunNumber? <==> ReadCore(base).Some? && channel.NightlyChannel?
                                     && !(Digits(runNumber) && runNumber[0] != '0'))
            && (r.Released? ==>
                  && ReadVersion(base).Some? && Stable(ReadVersion(base).value)
                  && ReadVersion(r.text)
                     == if channel.StableChannel? then ReadVersion(base)
                        else Some(Nightly(ReadVersion(base).value, DecimalValue(date), DecimalValue(runNumber))))
  {
    if ReadCore(base).Some? {
      StableDenotes(base);
      if channel.NightlyChannel? && Digits(runNumber) && runNumber[0] != '0' {
        NightlyDenotes(base, date, runNumber);
      }
    }
  }
}
