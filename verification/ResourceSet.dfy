/** The guarded resources of a content lock (`lock_policy.rs`): one optional primary and a map of
    secondaries by path, validated by two loops that check in different orders. A `BTreeMap` is
    given by its entries in iteration order; MIME parsing is the parameter `mime`. */
module ResourceSet {
  import opened Common

  const CONTENT_PREFIX: string := "/priv/app.locks/content/"

  type U64 = n: int | 0 <= n <= U64_MAX
  type Hash = seq<bv8>

  datatype Guarded = Guarded(path: string, hash: Hash, contentType: string, size: U64)

  datatype Reason = InvalidPath | InvalidContentType | ZeroSize

  datatype SetError = EmptyResourceSet
                    | InvalidPrimary(reason: Reason)
                    | InvalidSecondary(path: string, reason: Reason)
                    | DuplicatePath(path: string)
                    | SizeOverflow

  datatype Outcome = Valid | Invalid(error: SetError)

  /** `secondary` pairs each key with its value; `Guarded.path` is the key. */
  datatype Lock = Lock(primary: Option<Guarded>, secondary: seq<Guarded>)

  /** Map keys are unique. */
  predicate IsMap(entries: seq<Guarded>) {
    forall i, j :: 0 <= i < j < |entries| ==> entries[i].path != entries[j].path
  }

  predicate Contains(s: string, part: string) {
    exists i :: 0 <= i <= |s| && part <= s[i..]
  }

  /** `GuardedResource::new`: what is wrong with a descriptor, if anything. */
  function Flaw(g: Guarded, mime: string -> bool): Option<Reason> {
    if !(CONTENT_PREFIX <= g.path) || g.path == CONTENT_PREFIX
       || Contains(g.path, "..") || Contains(g.path, "//") || Contains(g.path, "://") then Some(InvalidPath)
    else if !mime(g.contentType) then Some(InvalidContentType)
    else if g.size == 0 then Some(ZeroSize)
    else None
  }

  /** A descriptor is sound exactly when its path lies properly under the content prefix without a
      parent step, an empty segment or a scheme, its type parses and it is not empty; what is wrong
      first, in that order, is what is named. */
  lemma FlawMeans(g: Guarded, mime: string -> bool)
    ensures Flaw(g, mime).None? <==> SafePath(g.path) && mime(g.contentType) && g.size > 0
    ensures Flaw(g, mime) == Some(InvalidPath) <==> !SafePath(g.path)
    ensures Flaw(g, mime) == Some(InvalidContentType) <==> SafePath(g.path) && !mime(g.contentType)
    ensures Flaw(g, mime) == Some(ZeroSize) <==> SafePath(g.path) && mime(g.contentType) && g.size == 0
  {
    assert |CONTENT_PREFIX| == 24;
    PairAt(g.path, "..");
    PairAt(g.path, "//");
    SchemeHasSlashes(g.path);
  }

  lemma PairAt(p: string, q: string)
    requires |q| == 2
    ensures Contains(p, q) <==> exists i :: 0 <= i < |p| - 1 && p[i] == q[0] && p[i + 1] == q[1]
  {
    if i :| 0 <= i <= |p| && q <= p[i..] {
      assert p[i..][0] == p[i] == q[0] && p[i..][1] == p[i + 1] == q[1];
    }
    if i :| 0 <= i < |p| - 1 && p[i] == q[0] && p[i + 1] == q[1] {
      assert p[i..][0] == q[0] && p[i..][1] == q[1];
      assert q <= p[i..];
    }
  }

  lemma SchemeHasSlashes(p: string)
    ensures Contains(p, "://") ==> Contains(p, "//")
  {
    if i :| 0 <= i <= |p| && "://" <= p[i..] {
      assert p[i..][1] == '/' && p[i..][2] == '/';
      assert p[i + 1..][0] == '/' && p[i + 1..][1] == '/';
      assert "//" <= p[i + 1..];
    }
  }

  /** Character by character: the prefix, something after it, and nowhere two dots or two slashes in a row. */
  predicate SafePath(path: string) {
    && |path| > 24 && path[..24] == "/priv/app.locks/content/"
    && (forall i :: 0 <= i < |path| - 1 ==> !(path[i] == '.' && path[i + 1] == '.'))
    && (forall i :: 0 <= i < |path| - 1 ==> !(path[i] == '/' && path[i + 1] == '/'))
  }

  // ---------------------------------------------------------------- meaning

  function Sum(entries: seq<Guarded>): nat {
    if entries == [] then 0 else Sum(entries[..|entries| - 1]) + entries[|entries| - 1].size
  }

  function PrimarySize(l: Lock): nat { if l.primary.Some? then l.primary.value.size else 0 }

  /** The true total, in unbounded integers. */
  function Total(l: Lock): nat { PrimarySize(l) + Sum(l.secondary) }

  /** What a lock must satisfy: something guarded, every descriptor sound, the primary not also a
      secondary, and a total that fits 64 bits. */
  predicate Acceptable(l: Lock, mime: string -> bool) {
    && (l.primary.Some? || l.secondary != [])
    && (l.primary.Some? ==> Flaw(l.primary.value, mime).None?)
    && (l.primary.Some? ==> forall i :: 0 <= i < |l.secondary| ==> l.secondary[i].path != l.primary.value.path)
    && (forall i :: 0 <= i < |l.secondary| ==> Flaw(l.secondary[i], mime).None?)
    && Total(l) <= U64_MAX
  }

  lemma {:induction false} SumGrows(entries: seq<Guarded>, k: nat)
    requires k <= |entries|
    ensures Sum(entries[..k]) <= Sum(entries)
  {
    if k < |entries| {
      var most := entries[..|entries| - 1];
      SumGrows(most, k);
      assert most[..k] == entries[..k];
    } else {
      assert entries[..k] == entries;
    }
  }

  // ---------------------------------------------------------------- the loops

  function Mapped(entries: seq<Guarded>, path: string): (r: bool)
    ensures r <==> exists i :: 0 <= i < |entries| && entries[i].path == path
  {
    if entries == [] then false
    else entries[0].path == path ||
         (assert forall i :: 0 < i < |entries| ==> entries[i] == entries[1..][i - 1];
          Mapped(entries[1..], path))
  }

  /** The checks both validators make before the loop over the secondaries. */
  function HeadError(l: Lock, mime: string -> bool): Option<SetError> {
    if l.primary.None? then (if l.secondary == [] then Some(EmptyResourceSet) else None)
    else
      var flaw := Flaw(l.primary.value, mime);
      if flaw.Some? then Some(InvalidPrimary(flaw.value))
      else if Mapped(l.secondary, l.primary.value.path) then Some(DuplicatePath(l.primary.value.path))
      else None
  }

  /** The first flawed secondary, or the number of secondaries. */
  function FirstFlawed(entries: seq<Guarded>, mime: string -> bool): (k: nat)
    ensures k <= |entries|
    ensures forall i :: 0 <= i < k ==> Flaw(entries[i], mime).None?
    ensures k < |entries| ==> Flaw(entries[k], mime).Some?
  {
    if entries == [] || Flaw(entries[0], mime).Some? then 0 else 1 + FirstFlawed(entries[1..], mime)
  }

  lemma FirstFlawedUnique(entries: seq<Guarded>, mime: string -> bool, k: nat)
    requires k <= |entries|
    requires forall i :: 0 <= i < k ==> Flaw(entries[i], mime).None?
    requires k < |entries| ==> Flaw(entries[k], mime).Some?
    ensures FirstFlawed(entries, mime) == k
  {}

  /** `total_resource_size`: None is the overflow error. */
  method TotalResourceSize(l: Lock) returns (r: Option<U64>)
    ensures r == if Total(l) <= U64_MAX then Some(Total(l)) else None
  {
    var total := PrimarySize(l);
    for i := 0 to |l.secondary|
      invariant total == PrimarySize(l) + Sum(l.secondary[..i]) <= U64_MAX
    {
      assert l.secondary[..i + 1][..i] == l.secondary[..i];
      SumGrows(l.secondary, i + 1);
      if total + l.secondary[i].size > U64_MAX { return None; }
      total := total + l.secondary[i].size;
    }
    assert l.secondary[..|l.secondary|] == l.secondary;
    return Some(total);
  }

  /** `validate_resource_set` (v1): every secondary first, the total afterwards. */
  method ValidateV1(l: Lock, mime: string -> bool) returns (r: Outcome)
    ensures r == V1(l, mime)
  {
    var head := HeadError(l, mime);
    if head.Some? { return Invalid(head.value); }
    for i := 0 to |l.secondary|
      invariant forall j :: 0 <= j < i ==> Flaw(l.secondary[j], mime).None?
    {
      var flaw := Flaw(l.secondary[i], mime);
      if flaw.Some? {
        FirstFlawedUnique(l.secondary, mime, i);
        return Invalid(InvalidSecondary(l.secondary[i].path, flaw.value));
      }
    }
    FirstFlawedUnique(l.secondary, mime, |l.secondary|);
    var total := TotalResourceSize(l);
    if total.None? { return Invalid(SizeOverflow); }
    return Valid;
  }

  /** `validate_v2_resource_set`: each secondary is checked and added in the same pass. */
  method ValidateV2(l: Lock, mime: string -> bool) returns (r: Outcome)
    ensures r == V2(l, mime)
  {
    var head := HeadError(l, mime);
    if head.Some? { return Invalid(head.value); }
    var total := PrimarySize(l);
    for i := 0 to |l.secondary|
      invariant forall j :: 0 <= j < i ==> Flaw(l.secondary[j], mime).None?
      invariant total == PrimarySize(l) + Sum(l.secondary[..i]) <= U64_MAX
    {
      var flaw := Flaw(l.secondary[i], mime);
      if flaw.Some? {
        FirstFlawedUnique(l.secondary, mime, i);
        return Invalid(InvalidSecondary(l.secondary[i].path, flaw.value));
      }
      OverflowIsEarly(l, mime, i);
      if total + l.secondary[i].size > U64_MAX { return Invalid(SizeOverflow); }
      total := total + l.secondary[i].size;
    }
    FirstFlawedUnique(l.secondary, mime, |l.secondary|);
    return Valid;
  }

  /** The verdict that looks at all descriptors before the total. */
  function V1(l: Lock, mime: string -> bool): Outcome {
    var k := FirstFlawed(l.secondary, mime);
    if HeadError(l, mime).Some? then Invalid(HeadError(l, mime).value)
    else if k < |l.secondary| then Invalid(InvalidSecondary(l.secondary[k].path, Flaw(l.secondary[k], mime).value))
    else if Total(l) > U64_MAX then Invalid(SizeOverflow)
    else Valid
  }

  /** The sizes that precede the first flawed secondary already overflow. */
  predicate OverflowsFirst(l: Lock, mime: string -> bool) {
    PrimarySize(l) + Sum(l.secondary[..FirstFlawed(l.secondary, mime)]) > U64_MAX
  }

  /** The verdict of the single pass. */
  function V2(l: Lock, mime: string -> bool): Outcome {
    var k := FirstFlawed(l.secondary, mime);
    if HeadError(l, mime).Some? then Invalid(HeadError(l, mime).value)
    else if OverflowsFirst(l, mime) then Invalid(SizeOverflow)
    else if k < |l.secondary| then Invalid(InvalidSecondary(l.secondary[k].path, Flaw(l.secondary[k], mime).value))
    else Valid
  }

  lemma OverflowIsEarly(l: Lock, mime: string -> bool, i: nat)
    requires i < |l.secondary|
    requires forall j :: 0 <= j <= i ==> Flaw(l.secondary[j], mime).None?
    ensures Sum(l.secondary[..i + 1]) == Sum(l.secondary[..i]) + l.secondary[i].size
    ensures PrimarySize(l) + Sum(l.secondary[..i + 1]) > U64_MAX ==> OverflowsFirst(l, mime)
  {
    var k := FirstFlawed(l.secondary, mime);
    assert l.secondary[..i + 1][..i] == l.secondary[..i];
    assert l.secondary[..k][..i + 1] == l.secondary[..i + 1];
    SumGrows(l.secondary[..k], i + 1);
  }

  // ---------------------------------------------------------------- the laws

  /** Both validators accept exactly the acceptable locks. */
  lemma ValidatorsAgree(l: Lock, mime: string -> bool)
    ensures V1(l, mime) == Valid <==> Acceptable(l, mime)
    ensures V2(l, mime) == Valid <==> Acceptable(l, mime)
  {
    var k := FirstFlawed(l.secondary, mime);
    if k == |l.secondary| { assert l.secondary[..k] == l.secondary; }
  }

  /** They answer alike unless an overflow comes before a flawed secondary: then v1 names the
      descriptor and v2 the overflow. */
  lemma ValidatorsDifferIff(l: Lock, mime: string -> bool)
    ensures V1(l, mime) != V2(l, mime) <==>
            HeadError(l, mime).None? && FirstFlawed(l.secondary, mime) < |l.secondary| && OverflowsFirst(l, mime)
    ensures V1(l, mime) != V2(l, mime) ==>
        V1(l, mime).Invalid? && V1(l, mime).error.InvalidSecondary? && V2(l, mime) == Invalid(SizeOverflow)
  {
    var k := FirstFlawed(l.secondary, mime);
    if k == |l.secondary| { assert l.secondary[..k] == l.secondary; }
  }

  /** Such a lock exists: a primary of 2^64 - 1 bytes, then a sound byte, then an empty resource. */
  lemma ValidatorsCanDiffer()
    ensures exists l: Lock, mime: string -> bool :: IsMap(l.secondary) && V1(l, mime) != V2(l, mime)
  {
    var a, b, c := CONTENT_PREFIX + "a", CONTENT_PREFIX + "b", CONTENT_PREFIX + "c";
    PlainPath('a'); PlainPath('b'); PlainPath('c');
    var mime: string -> bool := t => true;
    var l := Lock(Some(Guarded(a, [], "", U64_MAX)), [Guarded(b, [], "", 1), Guarded(c, [], "", 0)]);
    assert a[24] != b[24] && a[24] != c[24] && b[24] != c[24];
    assert FirstFlawed(l.secondary, mime) == 1;
    assert l.secondary[..1] == [l.secondary[0]];
    ValidatorsDifferIff(l, mime);
  }

  lemma PlainPath(c: char)
    requires 'a' <= c <= 'c'
    ensures var p := CONTENT_PREFIX + [c];
            !Contains(p, "..") && !Contains(p, "//") && !Contains(p, "://")
  {
    var p := CONTENT_PREFIX + [c];
    NoPart(p, "..");
    NoPart(p, "//");
    NoPart(p, "://");
  }

  lemma NoPart(p: string, q: string)
    requires |q| >= 2
    requires forall i :: 0 <= i < |p| - 1 ==> p[i] != q[0] || p[i + 1] != q[1]
    ensures !Contains(p, q)
  {
    forall i | 0 <= i <= |p|
      ensures !(q <= p[i..])
    {
      if i + 1 < |p| { assert p[i..][0] == p[i] && p[i..][1] == p[i + 1]; }
    }
  }

  /** Everything an accepted lock guards lies safely under the content prefix. */
  lemma AcceptedIsSafe(l: Lock, mime: string -> bool, g: Guarded)
    requires V1(l, mime) == Valid && g in Resources(l)
    ensures SafePath(g.path) && mime(g.contentType) && g.size > 0
  {
    ValidatorsAgree(l, mime);
    FlawMeans(g, mime);
  }

  /** `resource_for_path`. */
  function ResourceForPath(l: Lock, path: string): Option<Guarded> {
    if l.primary.Some? && l.primary.value.path == path then Some(l.primary.value)
    else Lookup(l.secondary, path)
  }

  /** `BTreeMap::get`. */
  function Lookup(entries: seq<Guarded>, path: string): (r: Option<Guarded>)
    ensures r.Some? ==> r.value in entries && r.value.path == path
    ensures r.None? ==> forall g :: g in entries ==> g.path != path
  {
    if entries == [] then None
    else if entries[0].path == path then Some(entries[0])
    else Lookup(entries[1..], path)
  }

  /** Every resource of a lock, as one set. */
  function Resources(l: Lock): set<Guarded> {
    (set g | g in l.secondary) + (if l.primary.Some? then {l.primary.value} else {})
  }

  /** In an accepted lock a path names at most one resource, the lookup finds exactly it, and what
      it finds is sound. */
  lemma LookupIsExact(l: Lock, mime: string -> bool, path: string)
    requires IsMap(l.secondary) && V1(l, mime) == Valid
    ensures forall g :: ResourceForPath(l, path) == Some(g) <==> g in Resources(l) && g.path == path
    ensures ResourceForPath(l, path).Some? ==> Flaw(ResourceForPath(l, path).value, mime).None?
  {
    ValidatorsAgree(l, mime);
  }

  lemma {:induction false} EntriesAreASet(entries: seq<Guarded>)
    requires IsMap(entries)
    ensures |set g | g in entries| == |entries|
  {
    if entries != [] {
      var most, last := entries[..|entries| - 1], entries[|entries| - 1];
      EntriesAreASet(most);
      assert entries == most + [last];
      assert (set g | g in entries) == (set g | g in most) + {last};
      assert last !in most;
    }
  }

  /** `resource_count` counts the resources of an accepted lock. */
  lemma CountIsExact(l: Lock, mime: string -> bool)
    requires IsMap(l.secondary) && V1(l, mime) == Valid
    ensures |Resources(l)| == (if l.primary.Some? then 1 else 0) + |l.secondary|
  {
    ValidatorsAgree(l, mime);
    EntriesAreASet(l.secondary);
    if l.primary.Some? {
      assert l.primary.value !in (set g | g in l.secondary);
    }
  }
}
