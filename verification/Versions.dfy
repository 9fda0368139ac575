/** The update check's version ordering: gui/src/updates.rs. */
module Versions {
  import opened Bytes

  datatype Ordering = Less | Equal | Greater

  function Flip(o: Ordering): Ordering {
    match o
    case Less => Greater
    case Equal => Equal
    case Greater => Less
  }

  // ---- Reading a version string ----

  /** `split('.')`: always at least one piece. */
  function Split(s: string): (pieces: seq<string>)
    ensures |pieces| >= 1
  {
    if s == "" then [""]
    else
      var rest := Split(s[1..]);
      if s[0] == '.' then [""] + rest else [[s[0]] + rest[0]] + rest[1..]
  }

  /** The text before the first `-`, or all of it. */
  function BeforeDash(s: string): string {
    if s == "" || s[0] == '-' then "" else [s[0]] + BeforeDash(s[1..])
  }

  predicate AllDigits(s: string) { forall i :: 0 <= i < |s| ==> '0' <= s[i] <= '9' }

  function Value(s: string): nat
    requires AllDigits(s)
  {
    if s == "" then 0 else 10 * Value(s[..|s| - 1]) + (s[|s| - 1] as int - '0' as int)
  }

  /** `parse::<u64>()`: one leading `+` is allowed, then at least one digit, and the value fits 64 bits. */
  function ParseU64(s: string): Option<nat> {
    var digits := if |s| > 1 && s[0] == '+' then s[1..] else s;
    if digits != "" && AllDigits(digits) && Value(digits) < 0x1_0000_0000_0000_0000 then Some(Value(digits)) else None
  }

  function OrZero(v: Option<nat>): nat { if v.Some? then v.value else 0 }

  datatype Version = Version(parts: seq<nat>, suffix: bool)

  function Numbers(pieces: seq<string>): (ns: seq<nat>)
    ensures |ns| == |pieces| && forall i :: 0 <= i < |ns| ==> ns[i] == OrZero(ParseU64(pieces[i]))
  {
    seq(|pieces|, i requires 0 <= i < |pieces| => OrZero(ParseU64(pieces[i])))
  }

  function Parse(s: string): Version { Version(Numbers(Split(BeforeDash(s))), '-' in s) }

  // ---- The order ----

  /** Missing components are zero. */
  function Part(v: Version, i: nat): nat { if i < |v.parts| then v.parts[i] else 0 }

  ghost predicate SameParts(a: Version, b: Version) { forall i: nat :: Part(a, i) == Part(b, i) }

  /** `i` is the first component in which the two differ. */
  ghost predicate FirstDiffer(a: Version, b: Version, i: nat) {
    Part(a, i) != Part(b, i) && forall j: nat :: j < i ==> Part(a, j) == Part(b, j)
  }

  ghost predicate Older(a: Version, b: Version) {
    (SameParts(a, b) && a.suffix && !b.suffix) || exists i: nat :: FirstDiffer(a, b, i) && Part(a, i) < Part(b, i)
  }

  ghost function Order(a: Version, b: Version): Ordering {
    if Older(a, b) then Less else if Older(b, a) then Greater else Equal
  }

  /** Two versions have one first difference at most, and the same one in either direction. */
  lemma FirstDifferIsUnique(a: Version, b: Version, i: nat, k: nat)
    requires FirstDiffer(a, b, i) && (FirstDiffer(a, b, k) || FirstDiffer(b, a, k))
    ensures i == k && FirstDiffer(b, a, i)
  {
  }

  lemma {:induction false} FindDifference(a: Version, b: Version, k: nat) returns (i: nat)
    requires Part(a, k) != Part(b, k)
    ensures FirstDiffer(a, b, i)
  {
    if j: nat :| j < k && Part(a, j) != Part(b, j) {
      i := FindDifference(a, b, j);
    } else {
      i := k;
    }
  }

  /** The first difference decides. */
  lemma DifferenceDecides(a: Version, b: Version, i: nat)
    requires FirstDiffer(a, b, i)
    ensures Order(a, b) == if Part(a, i) < Part(b, i) then Less else Greater
  {
    FirstDifferIsUnique(a, b, i, i);
    forall k: nat | FirstDiffer(a, b, k) || FirstDiffer(b, a, k)
      ensures k == i
    {
      FirstDifferIsUnique(a, b, i, k);
    }
  }

  /** Without a difference the suffixes decide. */
  lemma SuffixDecides(a: Version, b: Version)
    requires SameParts(a, b)
    ensures Order(a, b) == if a.suffix == b.suffix then Equal else if a.suffix then Less else Greater
  {
    assert forall i: nat :: !FirstDiffer(a, b, i) && !FirstDiffer(b, a, i);
  }

  method CompareVersion(a: string, b: string) returns (r: Ordering)
    ensures r == Order(Parse(a), Parse(b))
  {
    var va, vb := Parse(a), Parse(b);
    var len := if |va.parts| >= |vb.parts| then |va.parts| else |vb.parts|;
    for i := 0 to len
      invariant forall j: nat :: j < i ==> Part(va, j) == Part(vb, j)
    {
      var x, y := Part(va, i), Part(vb, i);
      if x != y {
        DifferenceDecides(va, vb, i);
        return if x < y then Less else Greater;
      }
    }
    SuffixDecides(va, vb);
    match (va.suffix, vb.suffix) {
      case (false, true) => return Greater;
      case (true, false) => return Less;
      case (_, _) => return Equal;
    }
  }

  method IsNewer(candidate: string, baseline: string) returns (newer: bool)
    ensures newer <==> Older(Parse(baseline), Parse(candidate))
  {
    var cmp := CompareVersion(candidate, baseline);
    OrderFlips(Parse(candidate), Parse(baseline));
    newer := cmp == Greater;
  }

  // ---- A total preorder ----

  lemma {:induction false} OrderFlips(a: Version, b: Version)
    ensures Order(b, a) == Flip(Order(a, b))
    ensures Order(a, a) == Equal
    ensures Order(a, b) == Equal <==> SameParts(a, b) && a.suffix == b.suffix
  {
    SuffixDecides(a, a);
    if SameParts(a, b) {
      SuffixDecides(a, b);
      SuffixDecides(b, a);
    } else {
      var k: nat :| Part(a, k) != Part(b, k);
      var i := FindDifference(a, b, k);
      FirstDifferIsUnique(a, b, i, i);
      DifferenceDecides(a, b, i);
      DifferenceDecides(b, a, i);
    }
  }

  /** Being older passes on, whatever the numbers of components. */
  lemma OlderIsTransitive(a: Version, b: Version, c: Version)
    requires Older(a, b) && Older(b, c)
    ensures Older(a, c)
  {
    if SameParts(a, b) {
      if !SameParts(b, c) {
        var k: nat :| FirstDiffer(b, c, k) && Part(b, k) < Part(c, k);
        assert FirstDiffer(a, c, k);
      }
    } else {
      var i: nat :| FirstDiffer(a, b, i) && Part(a, i) < Part(b, i);
      if SameParts(b, c) {
        assert FirstDiffer(a, c, i);
      } else {
        var k: nat :| FirstDiffer(b, c, k) && Part(b, k) < Part(c, k);
        assert FirstDiffer(a, c, if i <= k then i else k);
      }
    }
  }

  /** Equal versions are interchangeable. */
  lemma {:induction false} EqualsInterchange(a: Version, b: Version, c: Version)
    requires Order(a, b) == Equal
    ensures Order(a, c) == Order(b, c)
  {
    OrderFlips(a, b);
    if SameParts(a, c) {
      SuffixDecides(a, c);
      SuffixDecides(b, c);
    } else {
      var k: nat :| Part(a, k) != Part(c, k);
      var i := FindDifference(a, c, k);
      DifferenceDecides(a, c, i);
      DifferenceDecides(b, c, i);
    }
  }

  /** "No newer than" passes on. */
  lemma {:induction false} OrderIsTransitive(a: Version, b: Version, c: Version)
    requires Order(a, b) != Greater && Order(b, c) != Greater
    ensures Order(a, c) != Greater
    ensures Order(a, c) == Equal <==> Order(a, b) == Equal && Order(b, c) == Equal
  {
    OrderFlips(a, b);
    OrderFlips(b, c);
    if Order(a, b) == Equal {
      EqualsInterchange(a, b, c);
    } else if Order(b, c) == Equal {
      EqualsInterchange(b, c, a);
      OrderFlips(a, c);
    } else {
      OlderIsTransitive(a, b, c);
    }
  }

  // ---- Rendering, and what reading gives back ----

  function Digits(n: nat): (s: string)
    ensures s != "" && AllDigits(s) && Value(s) == n
  {
    var last := [(n % 10 + '0' as int) as char];
    if n < 10 then last else Digits(n / 10) + last
  }

  lemma {:induction false} SplitPiece(p: string, s: string)
    requires '.' !in p
    ensures Split(p) == [p] && Split(p + "." + s) == [p] + Split(s)
  {
    if p == "" {
      assert p + "." + s == "." + s && ("." + s)[1..] == s;
    } else {
      SplitPiece(p[1..], s);
      assert (p + "." + s)[1..] == p[1..] + "." + s;
      assert [p[0]] + p[1..] == p;
    }
  }

  lemma {:induction false} DashStops(p: string, s: string)
    requires '-' !in p
    ensures BeforeDash(p) == p && BeforeDash(p + "-" + s) == p
  {
    if p == "" {
      assert p + "-" + s == "-" + s;
    } else {
      DashStops(p[1..], s);
      assert (p + "-" + s)[1..] == p[1..] + "-" + s;
      assert [p[0]] + p[1..] == p;
    }
  }

  function CoreText(x: nat, y: nat, z: nat): (s: string)
    ensures '-' !in s
  {
    Digits(x) + "." + Digits(y) + "." + Digits(z)
  }

  lemma ThreePieces(p: string, q: string, t: string)
    requires '.' !in p && '.' !in q && '.' !in t
    ensures Split(p + "." + q + "." + t) == [p, q, t]
  {
    SplitPiece(t, "");
    SplitPiece(q, t);
    SplitPiece(p, q + "." + t);
    assert p + "." + q + "." + t == p + "." + (q + "." + t);
  }

  predicate Fits(n: nat) { n < 0x1_0000_0000_0000_0000 }

  lemma DigitsParse(n: nat)
    ensures ParseU64(Digits(n)) == if Fits(n) then Some(n) else None
  {
    assert '0' <= Digits(n)[0] <= '9';
  }

  /** One plus sign in front is allowed, as in the standard library; nothing and a plus alone are no numbers. */
  lemma PlusIsRead(n: nat)
    ensures ParseU64("+" + Digits(n)) == ParseU64(Digits(n))
    ensures ParseU64("") == ParseU64("+") == None
  {
    var s := "+" + Digits(n);
    assert s[1..] == Digits(n) && '0' <= Digits(n)[0] <= '9' && |s| > 1;
    assert "+"[0] == '+' && !AllDigits("+");
  }

  /** Three plain numbers are read back, and whatever follows a dash is only noticed. */
  lemma ParseCore(x: nat, y: nat, z: nat, suffix: string)
    requires Fits(x) && Fits(y) && Fits(z)
    ensures Parse(CoreText(x, y, z)) == Version([x, y, z], false)
    ensures Parse(CoreText(x, y, z) + "-" + suffix) == Version([x, y, z], true)
  {
    ThreePieces(Digits(x), Digits(y), Digits(z));
    DashStops(CoreText(x, y, z), suffix);
    DigitsParse(x);
    DigitsParse(y);
    DigitsParse(z);
    assert (CoreText(x, y, z) + "-" + suffix)[|CoreText(x, y, z)|] == '-';
  }

  // ---- Semantic Versioning 2.0.0, section 11 ----

  datatype Identifier = Numeric(n: nat) | Text(s: string)

  datatype SemVer = SemVer(major: nat, minor: nat, patch: nat, pre: seq<Identifier>)

  function CompareNat(x: nat, y: nat): Ordering { if x < y then Less else if x > y then Greater else Equal }

  function CompareText(s: string, t: string): Ordering {
    if s == t then Equal
    else if s == "" then Less
    else if t == "" then Greater
    else if s[0] != t[0] then (if s[0] < t[0] then Less else Greater)
    else CompareText(s[1..], t[1..])
  }

  function CompareIdentifier(s: Identifier, t: Identifier): Ordering {
    match (s, t)
    case (Numeric(x), Numeric(y)) => CompareNat(x, y)
    case (Numeric(_), Text(_)) => Less
    case (Text(_), Numeric(_)) => Greater
    case (Text(x), Text(y)) => CompareText(x, y)
  }

  function ComparePre(s: seq<Identifier>, t: seq<Identifier>): Ordering {
    if s == [] && t == [] then Equal
    else if s == [] then Less
    else if t == [] then Greater
    else if CompareIdentifier(s[0], t[0]) != Equal then CompareIdentifier(s[0], t[0])
    else ComparePre(s[1..], t[1..])
  }

  predicate SameCore(a: SemVer, b: SemVer) { a.major == b.major && a.minor == b.minor && a.patch == b.patch }

  function Precedence(a: SemVer, b: SemVer): Ordering {
    if a.major != b.major then CompareNat(a.major, b.major)
    else if a.minor != b.minor then CompareNat(a.minor, b.minor)
    else if a.patch != b.patch then CompareNat(a.patch, b.patch)
    else if a.pre == [] && b.pre == [] then Equal
    else if a.pre == [] then Greater
    else if b.pre == [] then Less
    else ComparePre(a.pre, b.pre)
  }

  function PreText(pre: seq<Identifier>): string {
    if pre == [] then ""
    else
      var first := match pre[0] case Numeric(n) => Digits(n) case Text(s) => s;
      if |pre| == 1 then first else first + "." + PreText(pre[1..])
  }

  function Render(v: SemVer): string {
    CoreText(v.major, v.minor, v.patch) + if v.pre == [] then "" else "-" + PreText(v.pre)
  }

  predicate Plain(v: SemVer) { Fits(v.major) && Fits(v.minor) && Fits(v.patch) }

  lemma {:induction false} TextsTieOnlyWhenEqual(s: string, t: string)
    ensures CompareText(s, t) == Equal <==> s == t
  {
    if s != "" && t != "" && s[0] == t[0] {
      TextsTieOnlyWhenEqual(s[1..], t[1..]);
    }
  }

  lemma {:induction false} PresTieOnlyWhenEqual(s: seq<Identifier>, t: seq<Identifier>)
    ensures ComparePre(s, t) == Equal <==> s == t
  {
    if s != [] && t != [] {
      if s[0].Text? && t[0].Text? {
        TextsTieOnlyWhenEqual(s[0].s, t[0].s);
      }
      PresTieOnlyWhenEqual(s[1..], t[1..]);
      assert s == [s[0]] + s[1..] && t == [t[0]] + t[1..];
    }
  }

  lemma ParseRendered(v: SemVer)
    requires Plain(v)
    ensures Parse(Render(v)) == Version([v.major, v.minor, v.patch], v.pre != [])
  {
    var core := CoreText(v.major, v.minor, v.patch);
    ParseCore(v.major, v.minor, v.patch, PreText(v.pre));
    if v.pre == [] {
      assert Render(v) == core;
    } else {
      assert Render(v) == core + "-" + PreText(v.pre);
    }
  }

  /** Three components decide from the left. */
  lemma OrderOfTriples(a: Version, b: Version)
    requires |a.parts| == 3 && |b.parts| == 3
    ensures a.parts != b.parts ==>
              Order(a, b) == (if a.parts[0] != b.parts[0] then CompareNat(a.parts[0], b.parts[0])
                              else if a.parts[1] != b.parts[1] then CompareNat(a.parts[1], b.parts[1])
                              else CompareNat(a.parts[2], b.parts[2]))
    ensures a.parts == b.parts ==> SameParts(a, b)
  {
    if a.parts != b.parts {
      var i: nat := if a.parts[0] != b.parts[0] then 0 else if a.parts[1] != b.parts[1] then 1 else 2;
      assert a.parts == [a.parts[0], a.parts[1], a.parts[2]] && b.parts == [b.parts[0], b.parts[1], b.parts[2]];
      assert FirstDiffer(a, b, i);
      DifferenceDecides(a, b, i);
    }
  }

  /** The comparison is SemVer precedence except between two different prereleases of one version. */
  lemma {:induction false} SemVerIff(a: SemVer, b: SemVer)
    requires Plain(a) && Plain(b)
    ensures Order(Parse(Render(a)), Parse(Render(b))) == Precedence(a, b)
            <==> !(SameCore(a, b) && a.pre != [] && b.pre != [] && a.pre != b.pre)
  {
    ParseRendered(a);
    ParseRendered(b);
    var va, vb := Parse(Render(a)), Parse(Render(b));
    OrderOfTriples(va, vb);
    if SameCore(a, b) {
      SuffixDecides(va, vb);
      PresTieOnlyWhenEqual(a.pre, b.pre);
    }
  }

  /** Two release candidates of one version compare as equal. */
  lemma CandidatesTie(a: SemVer, b: SemVer)
    requires a == SemVer(1, 0, 0, [Text("rc"), Numeric(1)]) && b == SemVer(1, 0, 0, [Text("rc"), Numeric(2)])
    ensures Order(Parse(Render(a)), Parse(Render(b))) == Equal && Precedence(a, b) == Less
  {
    ParseRendered(a);
    ParseRendered(b);
    SuffixDecides(Parse(Render(a)), Parse(Render(b)));
    assert ComparePre(a.pre, b.pre) == ComparePre(a.pre[1..], b.pre[1..]);
  }

  /** A number followed by `+` is not a number. */
  lemma MetadataDoesNotParse(z: nat, build: string)
    ensures ParseU64(Digits(z) + "+" + build) == None
  {
    var s := Digits(z) + "+" + build;
    assert s[0] == Digits(z)[0] && s[|Digits(z)|] == '+';
  }

  lemma FirstOfText(p: string, s: string)
    requires p != ""
    ensures (p + s)[0] == p[0] && (p + s)[1..] == p[1..] + s && [p[0]] + (p[1..] + s) == p + s
  {
  }

  /** Text in front of the first dot stays in the first piece. */
  lemma {:induction false} SplitFirst(p: string, s: string)
    requires '.' !in p
    ensures Split(p + s) == [p + Split(s)[0]] + Split(s)[1..]
  {
    if p == "" {
      assert p + s == s && p + Split(s)[0] == Split(s)[0];
      assert Split(s) == [Split(s)[0]] + Split(s)[1..];
    } else {
      SplitFirst(p[1..], s);
      FirstOfText(p, s);
      FirstOfText(p, Split(s)[0]);
      assert (p + s)[0] != '.';
    }
  }

  lemma {:induction false} DashComesLater(p: string, s: string)
    requires '-' !in p
    ensures BeforeDash(p + s) == p + BeforeDash(s)
  {
    if p == "" {
      assert p + s == s && p + BeforeDash(s) == BeforeDash(s);
    } else {
      DashComesLater(p[1..], s);
      FirstOfText(p, s);
      FirstOfText(p, BeforeDash(s));
      assert (p + s)[0] != '-';
    }
  }

  lemma Prepend<T>(a: T, b: T, c: T, t: seq<T>)
    ensures [a] + ([b] + t) == [a, b] + t && [a] + ([b, c] + t) == [a, b, c] + t
  {
  }

  lemma OnePieceThen(q: string, r: string, d: string)
    requires '.' !in q && '.' !in r
    ensures Split(q + "." + (r + d)) == [q, r + Split(d)[0]] + Split(d)[1..]
  {
    SplitFirst(r, d);
    SplitPiece(q, r + d);
    Prepend(q, r + Split(d)[0], "", Split(d)[1..]);
  }

  lemma TwoPiecesThen(p: string, q: string, r: string, d: string)
    requires '.' !in p && '.' !in q && '.' !in r
    ensures Split(p + "." + (q + "." + (r + d))) == [p, q, r + Split(d)[0]] + Split(d)[1..]
  {
    OnePieceThen(q, r, d);
    SplitPiece(p, q + "." + (r + d));
    Prepend(p, q, r + Split(d)[0], Split(d)[1..]);
  }

  lemma Regroup(p: string, q: string, r: string, dot: string, plus: string, d: string)
    ensures p + dot + q + dot + r + plus + d == p + dot + (q + dot + (r + plus + d))
  {
  }

  /** The pieces of a version whose patch is followed by `+` and `d`. */
  lemma MetadataPieces(x: nat, y: nat, z: nat, d: string)
    ensures Split(CoreText(x, y, z) + "+" + d)
            == [Digits(x), Digits(y), Digits(z) + "+" + Split(d)[0]] + Split(d)[1..]
  {
    TwoPiecesThen(Digits(x), Digits(y), Digits(z) + "+", d);
    Regroup(Digits(x), Digits(y), Digits(z), ".", "+", d);
  }

  /** What the pieces of `build` after the first read as. */
  function ExtraParts(build: string): seq<nat> { Numbers(Split(BeforeDash(build))[1..]) }

  lemma NumbersOfCore(x: nat, y: nat, piece: string, rest: seq<string>)
    requires Fits(x) && Fits(y) && ParseU64(piece) == None
    ensures Numbers([Digits(x), Digits(y), piece] + rest) == [x, y, 0] + Numbers(rest)
  {
    DigitsParse(x);
    DigitsParse(y);
  }

  /** With any metadata the patch reads as zero, and the metadata's further pieces as further components. */
  lemma ParseWithMetadata(x: nat, y: nat, z: nat, build: string)
    requires Fits(x) && Fits(y)
    ensures Parse(CoreText(x, y, z) + "+" + build) == Version([x, y, 0] + ExtraParts(build), '-' in build)
  {
    var d := BeforeDash(build);
    DashComesLater(CoreText(x, y, z) + "+", build);
    MetadataPieces(x, y, z, d);
    MetadataDoesNotParse(z, Split(d)[0]);
    NumbersOfCore(x, y, Digits(z) + "+" + Split(d)[0], Split(d)[1..]);
  }

  /** A release, and what its text with metadata reads as. */
  lemma ExtraPartsIff(x: nat, y: nat, z: nat, extra: seq<nat>, suffix: bool)
    ensures Order(Version([x, y, 0] + extra, suffix), Version([x, y, z], false)) == Equal
            <==> z == 0 && !suffix && forall i :: 0 <= i < |extra| ==> extra[i] == 0
  {
    var va, vb := Version([x, y, 0] + extra, suffix), Version([x, y, z], false);
    OrderFlips(va, vb);
    assert Part(va, 2) == 0 && Part(vb, 2) == z;
    forall i | 0 <= i < |extra|
      ensures Part(va, i + 3) == extra[i] && Part(vb, i + 3) == 0
    {
    }
    if z == 0 && forall i :: 0 <= i < |extra| ==> extra[i] == 0 {
      forall i: nat
        ensures Part(va, i) == Part(vb, i)
      {
        if 3 <= i < 3 + |extra| {
          assert Part(va, i) == extra[i - 3];
        }
      }
    }
  }

  /** No dotted piece of the text after the first reads as a number other than zero. */
  predicate LaterPiecesAreZero(s: string) {
    var pieces := Split(s);
    forall i :: 1 <= i < |pieces| ==> OrZero(ParseU64(pieces[i])) == 0
  }

  /**
   * Build metadata, which precedence ignores: a release with it compares equal to the release without
   * it exactly when the patch is zero, the metadata has no dash, and no piece of the metadata after its
   * first dot reads as a number other than zero.
   */
  lemma MetadataIff(x: nat, y: nat, z: nat, build: string)
    requires Fits(x) && Fits(y) && Fits(z)
    ensures Order(Parse(CoreText(x, y, z) + "+" + build), Parse(CoreText(x, y, z))) == Equal
            <==> z == 0 && '-' !in build && LaterPiecesAreZero(build)
  {
    ParseWithMetadata(x, y, z, build);
    ParseCore(x, y, z, "");
    ExtraPartsIff(x, y, z, ExtraParts(build), '-' in build);
    if '-' !in build {
      DashStops(build, "");
      ExtraPartsOf(build);
    }
  }

  lemma ExtraPartsOf(build: string)
    requires BeforeDash(build) == build
    ensures (forall i :: 0 <= i < |ExtraParts(build)| ==> ExtraParts(build)[i] == 0)
            <==> LaterPiecesAreZero(build)
  {
    var extra, pieces := ExtraParts(build), Split(build);
    if j :| 1 <= j < |pieces| && OrZero(ParseU64(pieces[j])) != 0 {
      assert extra[j - 1] != 0;
    }
    if i :| 0 <= i < |extra| && extra[i] != 0 {
      assert OrZero(ParseU64(pieces[i + 1])) != 0;
    }
  }

  /** A missing component is a zero: appending `.0` to a version without a suffix changes nothing. */
  lemma {:induction false} SplitAppend(s: string, p: string)
    requires '.' !in p
    ensures Split(s + "." + p) == Split(s) + [p]
  {
    if s == "" {
      SplitPiece("", p);
      SplitPiece(p, "");
    } else {
      SplitAppend(s[1..], p);
      assert (s + "." + p)[1..] == s[1..] + "." + p;
    }
  }

  lemma ZeroPadding(s: string)
    requires '-' !in s
    ensures Order(Parse(s + ".0"), Parse(s)) == Equal
  {
    DashStops(s, "");
    DashStops(s + ".0", "");
    SplitAppend(s, "0");
    assert s + ".0" == s + "." + "0";
    assert Digits(0) == "0";
    DigitsParse(0);
    OrderFlips(Parse(s + ".0"), Parse(s));
  }
}
