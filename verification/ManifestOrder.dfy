/**
 * The order of migration paths and the validation of a manifest
 * (src/d1_migration_manifest.rs). A text is a sequence of Unicode scalar values.
 * The leading number of a segment is a parameter: any value of an ordered type,
 * or none.
 */
module ManifestOrder {
  import opened Prelude
  import opened LexOrder

  const MAX_MIGRATION_COUNT: nat := 1000
  const MAX_MIGRATION_BYTES: nat := 5 * 1024 * 1024
  const MAX_MANIFEST_BYTES: nat := 16 * 1024 * 1024
  const U64_MAX: nat := 0xFFFF_FFFF_FFFF_FFFF

  type Scalar = c: int | 0 <= c < 0xD800 || 0xE000 <= c <= 0x10FFFF

  type Text = seq<Scalar>

  const SLASH: Scalar := 47

  // ---- UTF-16 ----

  function Utf16Of(c: Scalar): (r: seq<int>)
    ensures 1 <= |r| <= 2
  {
    if c < 0x10000 then [c] else [0xD800 + (c - 0x10000) / 0x400, 0xDC00 + (c - 0x10000) % 0x400]
  }

  function Utf16(t: Text): seq<int> {
    if t == [] then [] else Utf16Of(t[0]) + Utf16(t[1..])
  }

  lemma FirstUnitDecides(a: Scalar, x: seq<int>, b: Scalar, y: seq<int>)
    requires Utf16Of(a) + x == Utf16Of(b) + y
    ensures a == b && x == y
  {
    var s := Utf16Of(a) + x;
    assert s[0] == Utf16Of(a)[0] == Utf16Of(b)[0];
    assert (a < 0x10000) == (b < 0x10000);
    if a >= 0x10000 { assert s[1] == Utf16Of(a)[1] == Utf16Of(b)[1]; }
    assert s[|Utf16Of(a)|..] == x && s[|Utf16Of(b)|..] == y;
  }

  lemma {:induction false} Utf16Injective(a: Text, b: Text)
    requires Utf16(a) == Utf16(b)
    ensures a == b
  {
    if a != [] && b != [] {
      FirstUnitDecides(a[0], Utf16(a[1..]), b[0], Utf16(b[1..]));
      Utf16Injective(a[1..], b[1..]);
      assert a == [a[0]] + a[1..] && b == [b[0]] + b[1..];
    }
  }

  // ---- Segments ----

  type Numbering = Text -> Option<real>

  predicate NumberLess(left: Option<real>, right: Option<real>) {
    match (left, right)
    case (Some(l), Some(r)) => l < r
    case (Some(_), None) => true
    case _ => false
  }

  predicate UnitsLess(a: seq<int>, b: seq<int>) {
    LexLess(IntLess, a, b)
  }

  /** Numbered segments first, by number; ties and unnumbered segments by UTF-16 units. */
  predicate SegmentLess(numbering: Numbering, left: Text, right: Text) {
    || NumberLess(numbering(left), numbering(right))
    || (!NumberLess(numbering(right), numbering(left)) && UnitsLess(Utf16(left), Utf16(right)))
  }

  datatype Ordering = Less | Equal | Greater

  function UnitsCmp(a: seq<int>, b: seq<int>): Ordering {
    if a == b then Equal else if UnitsLess(a, b) then Less else Greater
  }

  function SegmentCmp(numbering: Numbering, left: Text, right: Text): Ordering {
    match (numbering(left), numbering(right))
    case (Some(l), Some(r)) =>
      if l != r then (if l < r then Less else Greater) else UnitsCmp(Utf16(left), Utf16(right))
    case (Some(_), None) => Less
    case (None, Some(_)) => Greater
    case (None, None) => UnitsCmp(Utf16(left), Utf16(right))
  }

  lemma UnitsStrictTotal()
    ensures StrictTotal(UnitsLess)
  {
    IntStrictTotal();
    LexStrictTotal(IntLess);
    var lex := (a: seq<int>, b: seq<int>) => LexLess(IntLess, a, b);
    forall a, b ensures UnitsLess(a, b) == lex(a, b) {}
  }

  /** The comparison of segments is a strict total order; equal means the same segment. */
  lemma SegmentStrictTotal(numbering: Numbering)
    ensures StrictTotal((a: Text, b: Text) => SegmentLess(numbering, a, b))
  {
    UnitsStrictTotal();
    forall a: Text, b: Text ensures a == b || SegmentLess(numbering, a, b) || SegmentLess(numbering, b, a) {
      if Utf16(a) == Utf16(b) { Utf16Injective(a, b); }
    }
  }

  lemma SegmentCmpMeaning(numbering: Numbering, a: Text, b: Text)
    ensures SegmentCmp(numbering, a, b) == Less <==> SegmentLess(numbering, a, b)
    ensures SegmentCmp(numbering, a, b) == Equal <==> a == b
  {
    UnitsStrictTotal();
    if Utf16(a) == Utf16(b) { Utf16Injective(a, b); }
    assert !UnitsLess(Utf16(a), Utf16(a));
    assert Utf16(a) == Utf16(b) || UnitsLess(Utf16(a), Utf16(b)) || UnitsLess(Utf16(b), Utf16(a));
  }

  // ---- Paths ----

  /** The parts between slashes. */
  function Split(t: Text): (r: seq<Text>)
    ensures r != []
  {
    if t == [] then [[]]
    else if t[0] == SLASH then [[]] + Split(t[1..])
    else [[t[0]] + Split(t[1..])[0]] + Split(t[1..])[1..]
  }

  function Join(segments: seq<Text>): Text {
    if segments == [] then []
    else if |segments| == 1 then segments[0]
    else segments[0] + [SLASH] + Join(segments[1..])
  }

  lemma {:induction false} JoinSplit(t: Text)
    ensures Join(Split(t)) == t
  {
    if t != [] {
      JoinSplit(t[1..]);
      var rest := Split(t[1..]);
      if t[0] == SLASH {
        assert Split(t)[1..] == rest;
      } else {
        assert Split(t)[0] == [t[0]] + rest[0] && Split(t)[1..] == rest[1..];
      }
    }
  }

  predicate PathLess(numbering: Numbering, left: Text, right: Text) {
    LexLess((a: Text, b: Text) => SegmentLess(numbering, a, b), Split(left), Split(right))
  }

  lemma PathStrictTotal(numbering: Numbering)
    ensures StrictTotal((a: Text, b: Text) => PathLess(numbering, a, b))
  {
    var segment := (a: Text, b: Text) => SegmentLess(numbering, a, b);
    SegmentStrictTotal(numbering);
    LexStrictTotal(segment);
    var lists := (a: seq<Text>, b: seq<Text>) => LexLess(segment, a, b);
    forall a: Text, b: Text ensures PathLess(numbering, a, b) == lists(Split(a), Split(b)) {}
    forall a: Text, b: Text | Split(a) == Split(b) ensures a == b {
      JoinSplit(a);
      JoinSplit(b);
    }
  }

  /** Compare segment by segment; the first difference decides, then the number of segments. */
  method PathCmp(numbering: Numbering, left: Text, right: Text) returns (r: Ordering)
    ensures r == Less <==> PathLess(numbering, left, right)
    ensures r == Equal <==> left == right
  {
    ghost var less := (a: Text, b: Text) => SegmentLess(numbering, a, b);
    var ls, rs := Split(left), Split(right);
    if Split(left) == Split(right) {
      JoinSplit(left);
      JoinSplit(right);
    }
    SegmentStrictTotal(numbering);
    var i := 0;
    while i < |ls| && i < |rs|
      invariant 0 <= i <= |ls| && i <= |rs| && ls[..i] == rs[..i]
      invariant LexLess(less, ls, rs) == LexLess(less, ls[i..], rs[i..])
    {
      SegmentCmpMeaning(numbering, ls[i], rs[i]);
      var ordering := SegmentCmp(numbering, ls[i], rs[i]);
      if ordering != Equal {
        return ordering;
      }
      assert ls[i..][1..] == ls[i + 1..] && rs[i..][1..] == rs[i + 1..];
      i := i + 1;
    }
    if i == |ls| && i == |rs| { assert ls == ls[..i] && rs == rs[..i]; }
    return if |ls| < |rs| then Less else if |ls| == |rs| then Equal else Greater;
  }

  // ---- The manifest ----

  /** A migration; its digest is known by the text it was taken of, `None` when it is not a digest at all. */
  datatype Entry = Entry(name: Text, sql: Text, sizeBytes: nat, sqlDigestOf: Option<Text>)

  datatype Refusal =
    | EmptyManifest
    | TooManyMigrations
    | InvalidName
    | NotLexical
    | SizeMismatch
    | ManifestTooLarge
    | EmptySql
    | DigestMismatch

  predicate Whitespace(c: Scalar) {
    9 <= c <= 13 || c in {0x20, 0x85, 0xA0, 0x1680, 0x2028, 0x2029, 0x202F, 0x205F, 0x3000} || 0x2000 <= c <= 0x200A
  }

  function Utf8Size(t: Text): nat {
    if t == [] then 0
    else
      var c := t[|t| - 1];
      Utf8Size(t[..|t| - 1]) + (if c < 0x80 then 1 else if c < 0x800 then 2 else if c < 0x10000 then 3 else 4)
  }

  predicate EndsWith(t: Text, tail: Text) {
    |t| >= |tail| && t[|t| - |tail|..] == tail
  }

  predicate SegmentAllowed(s: Text) {
    s != [] && s != [46] && s != [46, 46]
  }

  predicate ValidPath(t: Text) {
    && t != [] && !Whitespace(t[0]) && !Whitespace(t[|t| - 1])
    && Utf8Size(t) <= 255
    && EndsWith(t, [46, 115, 113, 108])
    && 92 !in t && 0 !in t
    && forall i :: 0 <= i < |Split(t)| ==> SegmentAllowed(Split(t)[i])
  }

  predicate Blank(t: Text) {
    forall i :: 0 <= i < |t| ==> Whitespace(t[i])
  }

  predicate EntrySizeOk(e: Entry) {
    e.sizeBytes <= MAX_MIGRATION_BYTES && e.sizeBytes == Utf8Size(e.sql)
  }

  predicate EntryOk(e: Entry) {
    ValidPath(e.name) && EntrySizeOk(e) && !Blank(e.sql) && e.sqlDigestOf == Some(e.sql)
  }

  function TotalBytes(manifest: seq<Entry>): nat {
    if manifest == [] then 0 else TotalBytes(manifest[..|manifest| - 1]) + Utf8Size(manifest[|manifest| - 1].sql)
  }

  ghost predicate NeighboursOrdered(numbering: Numbering, manifest: seq<Entry>) {
    forall i {:trigger FollowsAt(numbering, manifest, i)} :: 0 <= i < |manifest| ==> FollowsAt(numbering, manifest, i)
  }

  ghost predicate ManifestOk(numbering: Numbering, manifest: seq<Entry>) {
    && 1 <= |manifest| <= MAX_MIGRATION_COUNT
    && (forall i {:trigger EntryOk(manifest[i])} :: 0 <= i < |manifest| ==> EntryOk(manifest[i]))
    && NeighboursOrdered(numbering, manifest)
    && TotalBytes(manifest) <= MAX_MANIFEST_BYTES
  }

  /** The checks on one migration that do not look at its neighbours. */
  method CheckEntry(e: Entry, total: nat) returns (r: Result<nat, Refusal>)
    requires ValidPath(e.name) && total <= MAX_MANIFEST_BYTES
    ensures r.Ok? <==> EntryOk(e) && total + Utf8Size(e.sql) <= MAX_MANIFEST_BYTES
    ensures r.Ok? ==> r.value == total + Utf8Size(e.sql)
    ensures r.Err? ==> r.error in {SizeMismatch, ManifestTooLarge, EmptySql, DigestMismatch}
  {
    if !EntrySizeOk(e) {
      return Err(SizeMismatch);
    }
    assert total + e.sizeBytes <= U64_MAX;
    if total + e.sizeBytes > MAX_MANIFEST_BYTES {
      return Err(ManifestTooLarge);
    }
    if Blank(e.sql) {
      return Err(EmptySql);
    }
    if e.sqlDigestOf != Some(e.sql) {
      return Err(DigestMismatch);
    }
    return Ok(total + e.sizeBytes);
  }

  predicate Follows(numbering: Numbering, previous: Option<Text>, name: Text) {
    previous.None? || PathLess(numbering, previous.value, name)
  }

  /** The checks on the next migration, given the name before it and the bytes so far. */
  method CheckNext(numbering: Numbering, previous: Option<Text>, e: Entry, total: nat) returns (r: Result<nat, Refusal>)
    requires total <= MAX_MANIFEST_BYTES
    ensures r.Ok? <==>
      Follows(numbering, previous, e.name) && EntryOk(e) && total + Utf8Size(e.sql) <= MAX_MANIFEST_BYTES
    ensures r.Ok? ==> r.value == total + Utf8Size(e.sql)
    ensures r == Err(NotLexical) ==> !Follows(numbering, previous, e.name)
  {
    if !ValidPath(e.name) {
      return Err(InvalidName);
    }
    if previous.Some? {
      var ordering := PathCmp(numbering, previous.value, e.name);
      if ordering != Less {
        return Err(NotLexical);
      }
    }
    r := CheckEntry(e, total);
  }

  ghost predicate FollowsAt(numbering: Numbering, manifest: seq<Entry>, i: nat)
    requires i < |manifest|
  {
    Follows(numbering, if i == 0 then None else Some(manifest[i - 1].name), manifest[i].name)
  }

  lemma {:induction false} TotalOfPrefix(manifest: seq<Entry>, n: nat)
    requires n <= |manifest|
    ensures TotalBytes(manifest[..n]) <= TotalBytes(manifest)
  {
    if n < |manifest| {
      TotalOfPrefix(manifest[..|manifest| - 1], n);
      assert manifest[..|manifest| - 1][..n] == manifest[..n];
    } else {
      assert manifest[..n] == manifest;
    }
  }

  /** The first `i` migrations pass, with `total` bytes. */
  ghost predicate PrefixOk(numbering: Numbering, manifest: seq<Entry>, i: nat, total: nat)
    requires i <= |manifest|
  {
    && (forall k {:trigger EntryOk(manifest[k])} :: 0 <= k < i ==> EntryOk(manifest[k]))
    && (forall k {:trigger FollowsAt(numbering, manifest, k)} :: 0 <= k < i ==> FollowsAt(numbering, manifest, k))
    && total == TotalBytes(manifest[..i]) <= MAX_MANIFEST_BYTES
  }

  lemma PrefixStep(numbering: Numbering, manifest: seq<Entry>, i: nat, total: nat)
    requires i < |manifest| && PrefixOk(numbering, manifest, i, total)
    ensures var more := total + Utf8Size(manifest[i].sql);
            && more == TotalBytes(manifest[..i + 1])
            && (PrefixOk(numbering, manifest, i + 1, more) <==>
                FollowsAt(numbering, manifest, i) && EntryOk(manifest[i]) && more <= MAX_MANIFEST_BYTES)
  {
    assert manifest[..i + 1][..i] == manifest[..i];
  }

  lemma PrefixOfAccepted(numbering: Numbering, manifest: seq<Entry>, i: nat)
    requires i <= |manifest| && ManifestOk(numbering, manifest)
    ensures PrefixOk(numbering, manifest, i, TotalBytes(manifest[..i]))
  {
    TotalOfPrefix(manifest, i);
  }

  lemma WholePrefix(numbering: Numbering, manifest: seq<Entry>, total: nat)
    requires 1 <= |manifest| <= MAX_MIGRATION_COUNT && PrefixOk(numbering, manifest, |manifest|, total)
    ensures ManifestOk(numbering, manifest)
  {
    assert manifest[..|manifest|] == manifest;
  }

  method ValidateManifest(numbering: Numbering, manifest: seq<Entry>) returns (r: Result<seq<Entry>, Refusal>)
    ensures r.Ok? <==> ManifestOk(numbering, manifest)
    ensures r.Ok? ==> r.value == manifest
  {
    if |manifest| == 0 {
      return Err(EmptyManifest);
    }
    if |manifest| > MAX_MIGRATION_COUNT {
      return Err(TooManyMigrations);
    }
    var total := 0;
    for i := 0 to |manifest|
      invariant PrefixOk(numbering, manifest, i, total)
    {
      var checked := CheckNext(numbering, if i == 0 then None else Some(manifest[i - 1].name), manifest[i], total);
      PrefixStep(numbering, manifest, i, total);
      if checked.Err? {
        if ManifestOk(numbering, manifest) { PrefixOfAccepted(numbering, manifest, i + 1); }
        return Err(checked.error);
      }
      total := checked.value;
    }
    WholePrefix(numbering, manifest, total);
    return Ok(manifest);
  }

  /** Comparing neighbours only, validation still makes all names distinct and ordered throughout. */
  lemma AcceptedNamesOrdered(numbering: Numbering, manifest: seq<Entry>, i: nat, j: nat)
    requires ManifestOk(numbering, manifest) && i < j < |manifest|
    ensures PathLess(numbering, manifest[i].name, manifest[j].name) && manifest[i].name != manifest[j].name
  {
    PathStrictTotal(numbering);
    var less := (a: Text, b: Text) => PathLess(numbering, a, b);
    var names := seq(|manifest|, k requires 0 <= k < |manifest| => manifest[k].name);
    forall k | 0 <= k < |names| - 1
        ensures less(names[k], names[k + 1]) { assert FollowsAt(numbering, manifest, k + 1); }
    AdjacentIsGlobal(less, names, i, j);
  }
}
