/** Canonical context references and the registry of warm contexts. */
module ContextStore {
  import opened Digests
  import opened Sums
  import opened Text

  datatype Ref = Ref(key: string, digest: string, sizeBytes: nat)

  datatype RefError = MissingKeyAndDigest | InvalidDigest | ZeroSize(key: string)

  function Identity(r: Ref): string {
    var digest := Lower(Trim(r.digest));
    if digest != "" then "sha256:" + digest else "key:" + Trim(r.key)
  }

  function Clean(r: Ref): Ref {
    r.(key := Trim(r.key), digest := Lower(Trim(r.digest)))
  }

  /** What is wrong with a reference, checked in the order of the code. */
  function Fault(r: Ref): Option<RefError> {
    var c := Clean(r);
    if c.key == "" && c.digest == "" then Some(MissingKeyAndDigest)
    else if c.digest != "" && !IsDigest(c.digest) then Some(InvalidDigest)
    else if c.sizeBytes == 0 then Some(ZeroSize(c.key))
    else None
  }

  // ---------------------------------------------------------------- normalization

  /** Aliases of one object keep the larger size and the least non-empty name. */
  function Merge(existing: Ref, r: Ref): Ref {
    existing.(
      sizeBytes := if r.sizeBytes > existing.sizeBytes then r.sizeBytes else existing.sizeBytes,
      key := if existing.key == "" || (r.key != "" && Less(r.key, existing.key)) then r.key else existing.key)
  }

  function Enter(table: map<string, Ref>, r: Ref): map<string, Ref> {
    var c := Clean(r);
    var id := Identity(c);
    table[id := if id in table then Merge(table[id], c) else c]
  }

  function Table(refs: seq<Ref>): map<string, Ref> {
    if refs == [] then map[] else Enter(Table(refs[..|refs| - 1]), refs[|refs| - 1])
  }

  ghost function SortedKeys(keys: set<string>): (ks: seq<string>)
    ensures |ks| == |keys|
  {
    if keys == {} then []
    else
      var k :| k in keys;
      var rest := SortedKeys(keys - {k});
      assert |multiset(Insert(k, rest))| == |multiset(rest)| + 1;
      Insert(k, rest)
  }

  lemma {:induction false} SortedKeysSorted(keys: set<string>)
    ensures StrictlySorted(SortedKeys(keys))
    ensures forall k :: k in SortedKeys(keys) <==> k in keys
  {
    if keys != {} {
      var k :| k in keys && SortedKeys(keys) == Insert(k, SortedKeys(keys - {k}));
      SortedKeysSorted(keys - {k});
      InsertSorted(k, SortedKeys(keys - {k}));
    }
  }

  ghost predicate ValidAt(refs: seq<Ref>, i: nat)
    requires i < |refs|
  {
    Fault(refs[i]).None?
  }

  ghost predicate AllValid(refs: seq<Ref>) {
    forall i | 0 <= i < |refs| :: ValidAt(refs, i)
  }

  ghost function Listing(table: map<string, Ref>): (out: seq<Ref>)
    ensures |out| == |SortedKeys(table.Keys)|
    ensures forall i | 0 <= i < |out| ::
      SortedKeys(table.Keys)[i] in table && out[i] == table[SortedKeys(table.Keys)[i]]
  {
    var ks := SortedKeys(table.Keys);
    SortedKeysSorted(table.Keys);
    seq(|ks|, i requires 0 <= i < |ks| => assert ks[i] in ks; table[ks[i]])
  }

  /** The normal form of valid references: one per identity, in identity order. */
  ghost function NormalForm(refs: seq<Ref>): seq<Ref> {
    Listing(Table(refs))
  }

  /** The references before index i are valid and the one at i is not. */
  ghost predicate FirstFault(refs: seq<Ref>, i: nat, error: RefError) {
    i < |refs| && AllValid(refs[..i]) && Fault(refs[i]) == Some(error)
  }

  lemma {:induction false} TableStep(refs: seq<Ref>, n: nat)
    requires n < |refs|
    ensures Table(refs[..n + 1]) == Enter(Table(refs[..n]), refs[n])
  {
    assert refs[..n + 1][..n] == refs[..n];
  }

  /** The keys of a map, ranged over in any order, then sort.Strings. */
  method SortedIdentities(byIdentity: map<string, Ref>) returns (sorted: seq<string>)
    ensures sorted == SortedKeys(byIdentity.Keys)
  {
    var identities: seq<string> := [];
    var unseen := byIdentity.Keys;
    while unseen != {}
      invariant Distinct(identities)
      invariant forall id :: id in byIdentity.Keys <==> id in identities || id in unseen
      invariant forall id | id in identities :: id !in unseen
      decreases |unseen|
    {
      var id :| id in unseen;
      unseen := unseen - {id};
      identities := identities + [id];
    }
    SortSorted(identities);
    SortedKeysSorted(byIdentity.Keys);
    sorted := Sort(identities);
    SortedUnique(sorted, SortedKeys(byIdentity.Keys));
  }

  /** One step of the loop over the references. */
  method EnterRef(byIdentity: map<string, Ref>, ref: Ref) returns (result: Result<map<string, Ref>, RefError>)
    ensures result == if Fault(ref).Some? then Err(Fault(ref).value) else Ok(Enter(byIdentity, ref))
  {
    var r := ref.(key := Trim(ref.key), digest := Lower(Trim(ref.digest)));
    if r.key == "" && r.digest == "" { return Err(MissingKeyAndDigest); }
    if r.digest != "" && !IsDigest(r.digest) { return Err(InvalidDigest); }
    if r.sizeBytes == 0 { return Err(ZeroSize(r.key)); }
    var identity := Identity(r);
    if identity !in byIdentity { return Ok(byIdentity[identity := r]); }
    var existing := byIdentity[identity];
    if r.sizeBytes > existing.sizeBytes { existing := existing.(sizeBytes := r.sizeBytes); }
    if existing.key == "" || (r.key != "" && Less(r.key, existing.key)) {
      existing := existing.(key := r.key);
    }
    result := Ok(byIdentity[identity := existing]);
  }

  method ListEntries(byIdentity: map<string, Ref>) returns (out: seq<Ref>)
    ensures out == Listing(byIdentity)
  {
    var sorted := SortedIdentities(byIdentity);
    out := [];
    for index := 0 to |sorted|
      invariant |out| == index
      invariant forall i | 0 <= i < index :: sorted[i] in byIdentity && out[i] == byIdentity[sorted[i]]
    {
      SortedMember(byIdentity.Keys, index);
      out := out + [byIdentity[sorted[index]]];
    }
  }

  lemma {:induction false} SortedMember(keys: set<string>, i: nat)
    requires i < |SortedKeys(keys)|
    ensures SortedKeys(keys)[i] in keys
  {
    SortedKeysSorted(keys);
    assert SortedKeys(keys)[i] in SortedKeys(keys);
  }

  lemma {:induction false} ValidStep(refs: seq<Ref>, n: nat)
    requires n < |refs| && AllValid(refs[..n])
    ensures Fault(refs[n]).None? ==> AllValid(refs[..n + 1])
    ensures Fault(refs[n]).Some? ==> FirstFault(refs, n, Fault(refs[n]).value) && !AllValid(refs)
  {
    if Fault(refs[n]).None? {
      var longer := refs[..n + 1];
      forall i | 0 <= i < |longer| ensures ValidAt(longer, i) {
        if i < n { assert ValidAt(refs[..n], i); }
      }
    } else {
      assert !ValidAt(refs, n);
    }
  }

  method NormalizeRefs(refs: seq<Ref>) returns (result: Result<seq<Ref>, RefError>)
    ensures AllValid(refs) ==> result == Ok(NormalForm(refs))
    ensures !AllValid(refs) ==> result.Err? && exists i :: FirstFault(refs, i, result.error)
  {
    var byIdentity: map<string, Ref> := map[];
    ghost var seen := refs[..0];
    for index := 0 to |refs|
      invariant seen == refs[..index] && byIdentity == Table(seen) && AllValid(seen)
    {
      TableStep(refs, index);
      ValidStep(refs, index);
      var entered := EnterRef(byIdentity, refs[index]);
      if entered.Err? { return Err(entered.error); }
      byIdentity := entered.value;
      seen := refs[..index + 1];
    }
    assert seen == refs;
    var out := ListEntries(byIdentity);
    result := Ok(out);
  }

  // ---------------------------------------------------------------- what the normal form means

  ghost predicate Names(refs: seq<Ref>, id: string, x: Ref) {
    x in refs && Identity(x) == id
  }

  ghost predicate LargestSize(refs: seq<Ref>, id: string, size: nat) {
    && (exists x :: Names(refs, id, x) && x.sizeBytes == size)
    && forall x | Names(refs, id, x) :: x.sizeBytes <= size
  }

  ghost predicate NotAfter(a: string, b: string) {
    a == b || Less(a, b)
  }

  ghost predicate LeastName(refs: seq<Ref>, id: string, key: string) {
    && (forall x | Names(refs, id, x) && Clean(x).key != "" :: key != "" && NotAfter(key, Clean(x).key))
    && (key != "" ==> exists x :: Names(refs, id, x) && Clean(x).key == key)
  }

  /** r is the canonical reference for identity id among refs. */
  ghost predicate Canonical(refs: seq<Ref>, id: string, r: Ref) {
    && Identity(r) == id && Clean(r) == r
    && LargestSize(refs, id, r.sizeBytes)
    && LeastName(refs, id, r.key)
  }

  ghost predicate SameMembersAs(refs: seq<Ref>, other: seq<Ref>) {
    forall x :: x in refs <==> x in other
  }

  lemma {:induction false} LeastNameUnique(refs: seq<Ref>, other: seq<Ref>, id: string, a: string, b: string)
    requires SameMembersAs(refs, other) && LeastName(refs, id, a) && LeastName(other, id, b)
    ensures a == b
  {
    if a != "" {
      var u :| Names(refs, id, u) && Clean(u).key == a;
      assert Names(other, id, u);
    }
    if b != "" {
      var v :| Names(other, id, v) && Clean(v).key == b;
      assert Names(refs, id, v);
    }
    LessIrreflexive(a);
    if Less(a, b) && Less(b, a) { LessTransitive(a, b, a); }
  }

  lemma {:induction false} CanonicalUnique(refs: seq<Ref>, other: seq<Ref>, id: string, r: Ref, q: Ref)
    requires SameMembersAs(refs, other)
    requires Canonical(refs, id, r) && Canonical(other, id, q)
    ensures r == q
  {
    var x :| Names(refs, id, x) && x.sizeBytes == r.sizeBytes;
    var y :| Names(other, id, y) && y.sizeBytes == q.sizeBytes;
    assert Names(other, id, x) && Names(refs, id, y);
    LeastNameUnique(refs, other, id, r.key, q.key);
    IdentityDecides(r, q);
  }

  lemma {:induction false} LowerIdempotent(s: string)
    ensures Lower(Lower(s)) == Lower(s)
  {}

  lemma {:induction false} CleanIdempotent(r: Ref)
    requires Fault(r).None?
    ensures Clean(Clean(r)) == Clean(r) && Identity(Clean(r)) == Identity(r) && Fault(Clean(r)).None?
  {
    TrimIdempotent(r.key);
    var d := Clean(r).digest;
    LowerIdempotent(Trim(r.digest));
    if d != "" { TrimFixed(d); } else { assert Trim(d) == d; }
  }

  lemma {:induction false} PrefixDecides(a: string, b: string)
    ensures "sha256:" + a != "key:" + b
    ensures "sha256:" + a == "sha256:" + b ==> a == b
    ensures "key:" + a == "key:" + b ==> a == b
  {
    assert ("sha256:" + a)[0] == 's' && ("key:" + b)[0] == 'k';
    assert ("sha256:" + a)[7..] == a && ("sha256:" + b)[7..] == b;
    assert ("key:" + a)[4..] == a && ("key:" + b)[4..] == b;
  }

  /** Equal identities mean equal digests, and equal names when there is no digest. */
  lemma {:induction false} IdentityDecides(r: Ref, q: Ref)
    requires Identity(r) == Identity(q)
    ensures Clean(r).digest == Clean(q).digest
    ensures Clean(r).digest == "" ==> Clean(r).key == Clean(q).key
  {
    PrefixDecides(Clean(r).digest, Clean(q).digest);
    PrefixDecides(Clean(r).key, Clean(q).key);
    PrefixDecides(Clean(r).digest, Clean(q).key);
    PrefixDecides(Clean(q).digest, Clean(r).key);
  }

  lemma {:induction false} MergeName(refs: seq<Ref>, r: Ref, key: string)
    requires LeastName(refs, Identity(r), key)
    ensures LeastName(refs + [r], Identity(r),
      if key == "" || (Clean(r).key != "" && Less(Clean(r).key, key)) then Clean(r).key else key)
  {
    var all, id, c := refs + [r], Identity(r), Clean(r).key;
    var merged := if key == "" || (c != "" && Less(c, key)) then c else key;
    assert Names(all, id, r);
    if key != "" {
      var u :| Names(refs, id, u) && Clean(u).key == key;
      assert Names(all, id, u);
    }
    LessTotal(c, key);
    forall y | Names(all, id, y) && Clean(y).key != "" ensures merged != "" && NotAfter(merged, Clean(y).key) {
      if y != r {
        assert Names(refs, id, y);
        if merged != key && Less(key, Clean(y).key) { LessTransitive(c, key, Clean(y).key); }
      }
    }
  }

  lemma {:induction false} MergeSize(refs: seq<Ref>, r: Ref, size: nat)
    requires LargestSize(refs, Identity(r), size)
    ensures LargestSize(refs + [r], Identity(r), if r.sizeBytes > size then r.sizeBytes else size)
  {
    var all, id := refs + [r], Identity(r);
    var x :| Names(refs, id, x) && x.sizeBytes == size;
    assert Names(all, id, x) && Names(all, id, r);
    assert forall y | Names(all, id, y) :: y == r || Names(refs, id, y);
  }

  lemma {:induction false} MergeIdentity(r: Ref, existing: Ref)
    requires Clean(existing) == existing && Clean(r) == r && Identity(r) == Identity(existing)
    ensures var merged := Merge(existing, r); Clean(merged) == merged && Identity(merged) == Identity(r)
  {
    IdentityDecides(r, existing);
  }

  lemma {:induction false} MergeCanonical(refs: seq<Ref>, r: Ref, existing: Ref)
    requires Fault(r).None? && Canonical(refs, Identity(r), existing)
    ensures Canonical(refs + [r], Identity(r), Merge(existing, Clean(r)))
  {
    CleanIdempotent(r);
    MergeIdentity(Clean(r), existing);
    MergeName(refs, r, existing.key);
    MergeSize(refs, r, existing.sizeBytes);
  }

  lemma {:induction false} FirstCanonical(refs: seq<Ref>, r: Ref)
    requires Fault(r).None? && forall x | x in refs :: Identity(x) != Identity(r)
    ensures Canonical(refs + [r], Identity(r), Clean(r))
  {
    CleanIdempotent(r);
    assert Names(refs + [r], Identity(r), r);
  }

  lemma {:induction false} CanonicalSkips(refs: seq<Ref>, r: Ref, id: string, q: Ref)
    requires Canonical(refs, id, q) && Identity(r) != id
    ensures Canonical(refs + [r], id, q)
  {
    assert forall x :: Names(refs + [r], id, x) <==> Names(refs, id, x);
  }

  ghost predicate Occurs(refs: seq<Ref>, id: string) {
    exists x :: Names(refs, id, x)
  }

  lemma {:induction false} OccursAppend(refs: seq<Ref>, r: Ref, id: string)
    ensures Occurs(refs + [r], id) <==> Occurs(refs, id) || Identity(r) == id
  {
    assert forall x :: Names(refs + [r], id, x) <==> Names(refs, id, x) || (x == r && Identity(r) == id);
    if Identity(r) == id { assert Names(refs + [r], id, r); }
    if Occurs(refs, id) {
      var x :| Names(refs, id, x);
      assert Names(refs + [r], id, x);
    }
  }

  /** The table has exactly the identities that occur and maps each to its canonical reference. */
  ghost predicate Faithful(refs: seq<Ref>, table: map<string, Ref>) {
    forall id :: FaithfulAt(refs, table, id)
  }

  ghost predicate FaithfulAt(refs: seq<Ref>, table: map<string, Ref>, id: string) {
    (id in table <==> Occurs(refs, id)) && (id in table ==> Canonical(refs, id, table[id]))
  }

  lemma {:induction false} EnterFaithful(before: seq<Ref>, table: map<string, Ref>, r: Ref)
    requires Fault(r).None? && Faithful(before, table)
    ensures Faithful(before + [r], Enter(table, r))
  {
    CleanIdempotent(r);
    forall id ensures FaithfulAt(before + [r], Enter(table, r), id) {
      OccursAppend(before, r, id);
      assert FaithfulAt(before, table, id);
      if id == Identity(r) {
        if id in table {
          MergeCanonical(before, r, table[id]);
        } else {
          assert forall x | x in before :: Names(before, id, x) || Identity(x) != id;
          FirstCanonical(before, r);
        }
      } else if id in table {
        CanonicalSkips(before, r, id, table[id]);
      }
    }
  }

  lemma {:induction false} EmptyFaithful(refs: seq<Ref>)
    requires refs == []
    ensures Faithful(refs, Table(refs))
  {
    forall id ensures FaithfulAt(refs, Table(refs), id) {
      assert id !in Table(refs) && !Occurs(refs, id);
    }
  }

  lemma {:induction false} FrontValid(refs: seq<Ref>)
    requires AllValid(refs) && refs != []
    ensures AllValid(refs[..|refs| - 1]) && Fault(refs[|refs| - 1]).None?
  {
    var n := |refs| - 1;
    forall i | 0 <= i < n ensures ValidAt(refs[..n], i) { assert ValidAt(refs, i); }
    assert ValidAt(refs, n);
  }

  lemma {:induction false} LastFaithful(refs: seq<Ref>)
    requires refs != [] && Fault(refs[|refs| - 1]).None?
    requires Faithful(refs[..|refs| - 1], Table(refs[..|refs| - 1]))
    ensures Faithful(refs, Table(refs))
  {
    var n := |refs| - 1;
    EnterFaithful(refs[..n], Table(refs[..n]), refs[n]);
    assert refs == refs[..n] + [refs[n]];
  }

  lemma {:induction false} TableFaithful(refs: seq<Ref>)
    requires AllValid(refs)
    ensures Faithful(refs, Table(refs))
  {
    if refs == [] {
      EmptyFaithful(refs);
    } else {
      FrontValid(refs);
      TableFaithful(refs[..|refs| - 1]);
      LastFaithful(refs);
    }
  }

  /** A faithful table is determined by the members of the list. */
  lemma {:induction false} FaithfulUnique(refs: seq<Ref>, other: seq<Ref>, table: map<string, Ref>, table': map<string, Ref>)
    requires SameMembersAs(refs, other) && Faithful(refs, table) && Faithful(other, table')
    ensures table == table'
  {
    forall id ensures id in table <==> id in table' {
      assert FaithfulAt(refs, table, id) && FaithfulAt(other, table', id);
      assert forall x :: Names(refs, id, x) <==> Names(other, id, x);
    }
    forall id | id in table ensures table[id] == table'[id] {
      assert FaithfulAt(refs, table, id) && FaithfulAt(other, table', id);
      CanonicalUnique(refs, other, id, table[id], table'[id]);
    }
  }

  lemma {:induction false} NormalFormAt(refs: seq<Ref>, i: nat)
    requires AllValid(refs) && i < |NormalForm(refs)|
    ensures var id := SortedKeys(Table(refs).Keys)[i];
      && id in Table(refs) && NormalForm(refs)[i] == Table(refs)[id]
      && Identity(NormalForm(refs)[i]) == id && Canonical(refs, id, NormalForm(refs)[i])
  {
    TableFaithful(refs);
    SortedKeysSorted(Table(refs).Keys);
    assert SortedKeys(Table(refs).Keys)[i] in SortedKeys(Table(refs).Keys);
    assert FaithfulAt(refs, Table(refs), SortedKeys(Table(refs).Keys)[i]);
  }

  lemma {:induction false} NormalFormCovers(refs: seq<Ref>, id: string) returns (i: nat)
    requires AllValid(refs) && Occurs(refs, id)
    ensures i < |NormalForm(refs)| && Identity(NormalForm(refs)[i]) == id
  {
    TableFaithful(refs);
    assert FaithfulAt(refs, Table(refs), id);
    SortedKeysSorted(Table(refs).Keys);
    assert id in SortedKeys(Table(refs).Keys);
    i :| 0 <= i < |SortedKeys(Table(refs).Keys)| && SortedKeys(Table(refs).Keys)[i] == id;
    NormalFormAt(refs, i);
  }

  /** The normal form lists exactly the identities that occur, once each and in strict order, and
      each entry is canonical: largest size, least non-empty name. */
  lemma {:induction false} NormalFormMeaning(refs: seq<Ref>)
    requires AllValid(refs)
    ensures var out := NormalForm(refs);
      && (forall i, j | 0 <= i < j < |out| :: Less(Identity(out[i]), Identity(out[j])))
      && (forall x | x in refs :: exists i | 0 <= i < |out| :: Identity(out[i]) == Identity(x))
      && (forall i | 0 <= i < |out| :: Canonical(refs, Identity(out[i]), out[i]))
  {
    var out := NormalForm(refs);
    SortedKeysSorted(Table(refs).Keys);
    forall i | 0 <= i < |out| ensures Canonical(refs, Identity(out[i]), out[i]) { NormalFormAt(refs, i); }
    forall i, j | 0 <= i < j < |out| ensures Less(Identity(out[i]), Identity(out[j])) {
      NormalFormAt(refs, i);
      NormalFormAt(refs, j);
    }
    forall x | x in refs ensures exists i | 0 <= i < |out| :: Identity(out[i]) == Identity(x) {
      assert Names(refs, Identity(x), x);
      var i := NormalFormCovers(refs, Identity(x));
    }
  }

  lemma {:induction false} SameTable(refs: seq<Ref>, other: seq<Ref>)
    requires Table(refs) == Table(other)
    ensures NormalForm(refs) == NormalForm(other)
  {}

  /** Order and repetition of the references do not matter. */
  lemma {:induction false} NormalFormIgnoresOrder(refs: seq<Ref>, other: seq<Ref>)
    requires AllValid(refs)
    requires forall x :: x in refs <==> x in other
    ensures AllValid(other) && NormalForm(refs) == NormalForm(other)
  {
    forall i | 0 <= i < |other| ensures ValidAt(other, i) {
      assert other[i] in refs;
      var k :| 0 <= k < |refs| && refs[k] == other[i];
      assert ValidAt(refs, k);
    }
    TableFaithful(refs);
    TableFaithful(other);
    FaithfulUnique(refs, other, Table(refs), Table(other));
    SameTable(refs, other);
  }

  lemma {:induction false} CanonicalValid(refs: seq<Ref>, id: string, r: Ref)
    requires AllValid(refs) && Canonical(refs, id, r)
    ensures Fault(r).None?
  {
    var x :| Names(refs, id, x) && x.sizeBytes == r.sizeBytes;
    var k :| 0 <= k < |refs| && refs[k] == x;
    assert ValidAt(refs, k);
    IdentityDecides(x, r);
  }

  /** In a list with one reference per identity, each is its own canonical reference. */
  lemma {:induction false} SingletonCanonical(out: seq<Ref>, i: nat)
    requires i < |out| && Clean(out[i]) == out[i]
    requires forall j | 0 <= j < |out| && j != i :: Identity(out[j]) != Identity(out[i])
    ensures Canonical(out, Identity(out[i]), out[i])
  {
    assert Names(out, Identity(out[i]), out[i]);
    assert forall x | Names(out, Identity(out[i]), x) :: x == out[i];
  }

  lemma {:induction false} DistinctIdentities(refs: seq<Ref>, i: nat, j: nat)
    requires AllValid(refs) && i < |NormalForm(refs)| && j < |NormalForm(refs)| && i != j
    ensures Identity(NormalForm(refs)[i]) != Identity(NormalForm(refs)[j])
  {
    NormalFormMeaning(refs);
    LessIrreflexive(Identity(NormalForm(refs)[i]));
  }

  function Identities(out: seq<Ref>): (ids: seq<string>)
    ensures |ids| == |out|
    ensures forall i | 0 <= i < |out| :: ids[i] == Identity(out[i])
  {
    seq(|out|, i requires 0 <= i < |out| => Identity(out[i]))
  }

  lemma {:induction false} NormalIdentities(refs: seq<Ref>)
    requires AllValid(refs)
    ensures StrictlySorted(Identities(NormalForm(refs)))
    ensures forall id :: id in Identities(NormalForm(refs)) <==> Occurs(refs, id)
  {
    var ids, ks := Identities(NormalForm(refs)), SortedKeys(Table(refs).Keys);
    forall i | 0 <= i < |ids| ensures ids[i] == ks[i] { NormalFormAt(refs, i); }
    assert ids == ks;
    SortedKeysSorted(Table(refs).Keys);
    TableFaithful(refs);
    forall id ensures id in ids <==> Occurs(refs, id) { assert FaithfulAt(refs, Table(refs), id); }
  }

  /** A list of clean references in strict identity order is already normal. */
  lemma {:induction false} NormalFormFixed(out: seq<Ref>)
    requires AllValid(out) && StrictlySorted(Identities(out))
    requires forall i | 0 <= i < |out| :: Clean(out[i]) == out[i]
    ensures NormalForm(out) == out
  {
    var ids, again := Identities(out), NormalForm(out);
    NormalIdentities(out);
    forall id ensures id in ids <==> Occurs(out, id) {
      if id in ids {
        var i :| 0 <= i < |ids| && ids[i] == id;
        assert Names(out, id, out[i]);
      }
      if Occurs(out, id) {
        var x :| Names(out, id, x);
        var i :| 0 <= i < |out| && out[i] == x;
        assert ids[i] == id;
      }
    }
    SortedUnique(ids, Identities(again));
    forall i | 0 <= i < |out| ensures again[i] == out[i] {
      forall j | 0 <= j < |out| && j != i ensures Identity(out[j]) != Identity(out[i]) {
        LessIrreflexive(ids[i]);
        assert Less(ids[i], ids[j]) || Less(ids[j], ids[i]);
      }
      SingletonCanonical(out, i);
      NormalFormAt(out, i);
      assert Identities(again)[i] == ids[i];
      CanonicalUnique(out, out, ids[i], again[i], out[i]);
    }
  }

  lemma {:induction false} NormalFormValid(refs: seq<Ref>)
    requires AllValid(refs)
    ensures AllValid(NormalForm(refs))
    ensures forall i | 0 <= i < |NormalForm(refs)| :: Clean(NormalForm(refs)[i]) == NormalForm(refs)[i]
  {
    var out := NormalForm(refs);
    forall i | 0 <= i < |out| ensures ValidAt(out, i) && Clean(out[i]) == out[i] {
      NormalFormAt(refs, i);
      CanonicalValid(refs, Identity(out[i]), out[i]);
    }
  }

  /** Normalizing twice changes nothing. */
  lemma {:induction false} NormalFormIdempotent(refs: seq<Ref>)
    requires AllValid(refs)
    ensures AllValid(NormalForm(refs)) && NormalForm(NormalForm(refs)) == NormalForm(refs)
  {
    NormalFormValid(refs);
    NormalIdentities(refs);
    NormalFormFixed(NormalForm(refs));
  }

  ghost predicate DifferentObjects(out: seq<Ref>) {
    forall i, j | 0 <= i < j < |out| :: Identity(out[i]) != Identity(out[j])
  }

  // ---------------------------------------------------------------- what a reference says

  /** Two references are of one object exactly if they have the same digest, or neither has one and they have the same
      name; case and outer space of a digest and outer space of a name do not count. */
  lemma {:induction false} SameObjectIff(r: Ref, q: Ref)
    ensures Identity(r) == Identity(q) <==>
      && Lower(Trim(r.digest)) == Lower(Trim(q.digest))
      && (Trim(r.digest) == "" ==> Trim(r.key) == Trim(q.key))
  {
    if Identity(r) == Identity(q) { IdentityDecides(r, q); }
  }

  /** What makes a reference acceptable, and what is reported otherwise. */
  lemma {:induction false} FaultMeaning(r: Ref)
    ensures Fault(r) == Some(MissingKeyAndDigest) <==> Trim(r.key) == "" && Trim(r.digest) == ""
    ensures Fault(r) == Some(InvalidDigest) <==> Trim(r.digest) != "" && !IsDigest(Lower(Trim(r.digest)))
    ensures Fault(r).None? <==>
      && r.sizeBytes > 0 && (Trim(r.key) != "" || Trim(r.digest) != "")
      && (Trim(r.digest) == "" || IsDigest(Lower(Trim(r.digest))))
    ensures forall k | Fault(r) == Some(ZeroSize(k)) :: k == Trim(r.key) && r.sizeBytes == 0
  {}

  // ---------------------------------------------------------------- the warm registry

  datatype Entry = Entry(
    identity: string, key: string, digest: string, sizeBytes: nat, hits: nat, addedAt: int, lastUsedAt: int)

  function AddOne(entries: map<string, Entry>, r: Ref, now: int): map<string, Entry> {
    var id := Identity(r);
    var e := if id in entries then entries[id] else Entry(id, r.key, r.digest, 0, 0, now, 0);
    entries[id := e.(
      sizeBytes := if r.sizeBytes > e.sizeBytes then r.sizeBytes else e.sizeBytes,
      key := if e.key == "" then r.key else e.key,
      digest := if e.digest == "" then r.digest else e.digest,
      lastUsedAt := now)]
  }

  function AddAll(entries: map<string, Entry>, refs: seq<Ref>, now: int): map<string, Entry> {
    if refs == [] then entries
    else AddOne(AddAll(entries, refs[..|refs| - 1], now), refs[|refs| - 1], now)
  }

  function TouchOne(entries: map<string, Entry>, r: Ref, now: int): map<string, Entry> {
    var id := Identity(r);
    if id !in entries then entries
    else entries[id := entries[id].(hits := (entries[id].hits + 1) % TWO_64, lastUsedAt := now)]
  }

  function TouchAll(entries: map<string, Entry>, refs: seq<Ref>, now: int): map<string, Entry> {
    if refs == [] then entries
    else TouchOne(TouchAll(entries, refs[..|refs| - 1], now), refs[|refs| - 1], now)
  }

  /** How much of one reference is warm. */
  function WarmSize(entries: map<string, Entry>, r: Ref): nat {
    var id := Identity(r);
    if id !in entries then 0
    else if entries[id].sizeBytes < r.sizeBytes then entries[id].sizeBytes else r.sizeBytes
  }

  function Total(refs: seq<Ref>): nat {
    if refs == [] then 0 else Total(refs[..|refs| - 1]) + refs[|refs| - 1].sizeBytes
  }

  function Warm(entries: map<string, Entry>, refs: seq<Ref>): nat {
    if refs == [] then 0
    else Warm(entries, refs[..|refs| - 1]) + WarmSize(entries, refs[|refs| - 1])
  }

  /** RequestedBytes and ReusableBytes: 64-bit totals over the normal form, 0 for invalid input. */
  ghost function Requested(refs: seq<Ref>): nat {
    if AllValid(refs) then Total(NormalForm(refs)) % TWO_64 else 0
  }

  ghost function Reusable(entries: map<string, Entry>, refs: seq<Ref>): nat {
    if AllValid(refs) then Warm(entries, NormalForm(refs)) % TWO_64 else 0
  }

  ghost function AffinityOf(entries: map<string, Entry>, refs: seq<Ref>): real {
    if Requested(refs) == 0 then 0.0 else Reusable(entries, refs) as real / Requested(refs) as real
  }

  method RequestedBytes(refs: seq<Ref>) returns (total: nat)
    ensures total == Requested(refs)
  {
    var normalized := NormalizeRefs(refs);
    if normalized.Err? { return 0; }
    total := SumSizes(normalized.value);
  }

  method SumSizes(out: seq<Ref>) returns (total: nat)
    ensures total == Total(out) % TWO_64
  {
    total := 0;
    for i := 0 to |out|
      invariant total == Total(out[..i]) % TWO_64
    {
      assert out[..i + 1][..i] == out[..i];
      total := (total + out[i].sizeBytes) % TWO_64;
    }
    assert out[..|out|] == out;
  }

  method ReusableBytes(entries: map<string, Entry>, refs: seq<Ref>) returns (total: nat)
    ensures total == Reusable(entries, refs)
  {
    var normalized := NormalizeRefs(refs);
    if normalized.Err? { return 0; }
    total := SumWarm(entries, normalized.value);
  }

  /** What the loop of ReusableBytes adds for one reference. */
  method ReusableOf(entries: map<string, Entry>, r: Ref) returns (reusable: nat)
    ensures reusable == WarmSize(entries, r)
  {
    var identity := Identity(r);
    if identity !in entries { return 0; }
    reusable := r.sizeBytes;
    if entries[identity].sizeBytes < reusable { reusable := entries[identity].sizeBytes; }
  }

  lemma {:induction false} WarmNext(entries: map<string, Entry>, out: seq<Ref>, i: nat)
    requires i < |out|
    ensures Warm(entries, out[..i + 1]) == Warm(entries, out[..i]) + WarmSize(entries, out[i])
  {
    assert out[..i + 1][..i] == out[..i];
  }

  /** total is what adding up to n in 64 bits gives. */
  predicate Wraps(total: nat, n: nat) {
    total == n % TWO_64
  }

  lemma {:induction false} WrapsNext(total: nat, n: nat, x: nat, more: nat)
    requires Wraps(total, n) && more == n + x
    ensures Wraps((total + x) % TWO_64, more)
  {
    WrapAdd(n, x);
  }

  method SumWarm(entries: map<string, Entry>, out: seq<Ref>) returns (total: nat)
    ensures Wraps(total, Warm(entries, out))
  {
    total := 0;
    for i := 0 to |out|
      invariant Wraps(total, Warm(entries, out[..i]))
    {
      WarmNext(entries, out, i);
      var reusable := ReusableOf(entries, out[i]);
      WrapsNext(total, Warm(entries, out[..i]), reusable, Warm(entries, out[..i + 1]));
      total := (total + reusable) % TWO_64;
    }
    assert out[..|out|] == out;
  }

  method Affinity(entries: map<string, Entry>, refs: seq<Ref>) returns (fraction: real)
    ensures fraction == AffinityOf(entries, refs)
  {
    var requested := RequestedBytes(refs);
    if requested == 0 { return 0.0; }
    var reusable := ReusableBytes(entries, refs);
    fraction := reusable as real / requested as real;
  }

  class Registry {
    var entries: map<string, Entry>

    constructor ()
      ensures entries == map[]
    {
      entries := map[];
    }

    method Add(refs: seq<Ref>, now: int) returns (result: Result<(), RefError>)
      modifies this
      ensures AllValid(refs) ==> result.Ok? && entries == AddAll(old(entries), NormalForm(refs), now)
      ensures !AllValid(refs) ==> result.Err? && entries == old(entries)
    {
      var normalized := NormalizeRefs(refs);
      if normalized.Err? { return Err(normalized.error); }
      AddListed(normalized.value, now);
      result := Ok(());
    }

    method AddListed(out: seq<Ref>, now: int)
      modifies this
      ensures entries == AddAll(old(entries), out, now)
    {
      for i := 0 to |out|
        invariant entries == AddAll(old(entries), out[..i], now)
      {
        assert out[..i + 1][..i] == out[..i];
        AddRef(out[i], now);
      }
      assert out[..|out|] == out;
    }

    method AddRef(r: Ref, now: int)
      modifies this
      ensures entries == AddOne(old(entries), r, now)
    {
      var identity := Identity(r);
      var entry := Entry(identity, r.key, r.digest, 0, 0, now, 0);
      if identity in entries { entry := entries[identity]; }
      if r.sizeBytes > entry.sizeBytes { entry := entry.(sizeBytes := r.sizeBytes); }
      if entry.key == "" { entry := entry.(key := r.key); }
      if entry.digest == "" { entry := entry.(digest := r.digest); }
      entry := entry.(lastUsedAt := now);
      entries := entries[identity := entry];
    }

    method Touch(refs: seq<Ref>, now: int) returns (result: Result<(), RefError>)
      modifies this
      ensures AllValid(refs) ==> result.Ok? && entries == TouchAll(old(entries), NormalForm(refs), now)
      ensures !AllValid(refs) ==> result.Err? && entries == old(entries)
    {
      var normalized := NormalizeRefs(refs);
      if normalized.Err? { return Err(normalized.error); }
      TouchListed(normalized.value, now);
      result := Ok(());
    }

    method TouchListed(out: seq<Ref>, now: int)
      modifies this
      ensures entries == TouchAll(old(entries), out, now)
    {
      for i := 0 to |out|
        invariant entries == TouchAll(old(entries), out[..i], now)
      {
        assert out[..i + 1][..i] == out[..i];
        TouchRef(out[i], now);
      }
      assert out[..|out|] == out;
    }

    method TouchRef(ref: Ref, now: int)
      modifies this
      ensures entries == TouchOne(old(entries), ref, now)
    {
      var identity := Identity(ref);
      if identity in entries {
        var entry := entries[identity];
        entry := entry.(hits := (entry.hits + 1) % TWO_64);
        entry := entry.(lastUsedAt := now);
        entries := entries[identity := entry];
      }
    }
  }

  // ---------------------------------------------------------------- what the registry records

  lemma {:induction false} FrontDistinct(out: seq<Ref>, id: string)
    requires DifferentObjects(out) && out != []
    ensures DifferentObjects(out[..|out| - 1])
    ensures Occurs(out, id) <==> Occurs(out[..|out| - 1], id) || Identity(out[|out| - 1]) == id
    ensures Occurs(out[..|out| - 1], id) ==> Identity(out[|out| - 1]) != id
  {
    var front, r := out[..|out| - 1], out[|out| - 1];
    assert out == front + [r];
    OccursAppend(front, r, id);
    if Occurs(front, id) {
      var x :| Names(front, id, x);
      var i :| 0 <= i < |front| && front[i] == x;
      assert out[i] == x;
    }
  }

  /** One more use at this time. */
  predicate UsedAgain(before: Entry, after: Entry, now: int) {
    after == before.(hits := (before.hits + 1) % TWO_64, lastUsedAt := now)
  }

  lemma {:induction false} TouchOneAt(entries: map<string, Entry>, r: Ref, now: int, id: string)
    ensures var later := TouchOne(entries, r, now);
      && (id in later <==> id in entries)
      && (id in entries && Identity(r) != id ==> later[id] == entries[id])
      && (id in entries && Identity(r) == id ==> UsedAgain(entries[id], later[id], now))
  {}

  lemma {:induction false} TouchAllAt(entries: map<string, Entry>, out: seq<Ref>, now: int, id: string)
    requires DifferentObjects(out)
    ensures var later := TouchAll(entries, out, now);
      && (id in later <==> id in entries)
      && (id in entries && !Occurs(out, id) ==> later[id] == entries[id])
      && (id in entries && Occurs(out, id) ==> UsedAgain(entries[id], later[id], now))
  {
    if out != [] {
      var front, r := out[..|out| - 1], out[|out| - 1];
      FrontDistinct(out, id);
      TouchAllAt(entries, front, now, id);
      TouchOneAt(TouchAll(entries, front, now), r, now, id);
    } else {
      assert !Occurs(out, id);
    }
  }

  /** What warming one reference leaves: the larger size, and name and digest where they were missing. */
  ghost predicate Warmed(entries: map<string, Entry>, r: Ref, now: int, e: Entry) {
    var id := Identity(r);
    && e.identity == (if id in entries then entries[id].identity else id)
    && (id in entries && entries[id].sizeBytes > r.sizeBytes ==> e.sizeBytes == entries[id].sizeBytes)
    && (id in entries && entries[id].sizeBytes <= r.sizeBytes ==> e.sizeBytes == r.sizeBytes)
    && (id !in entries ==> e.sizeBytes == r.sizeBytes && e.hits == 0 && e.addedAt == now)
    && (id in entries ==> e.hits == entries[id].hits && e.addedAt == entries[id].addedAt)
    && e.key == (if id in entries && entries[id].key != "" then entries[id].key else r.key)
    && e.digest == (if id in entries && entries[id].digest != "" then entries[id].digest else r.digest)
    && e.lastUsedAt == now
  }

  lemma {:induction false} AddOneAt(entries: map<string, Entry>, before: map<string, Entry>, r: Ref, now: int, id: string)
    ensures id in AddOne(before, r, now) <==> id in before || id == Identity(r)
    ensures id in before && id != Identity(r) ==> AddOne(before, r, now)[id] == before[id]
    ensures id == Identity(r) && (id in before <==> id in entries) && (id in entries ==> before[id] == entries[id]) ==>
      Warmed(entries, r, now, AddOne(before, r, now)[id])
  {}

  lemma {:induction false} AddAllAt(entries: map<string, Entry>, out: seq<Ref>, now: int, id: string)
    requires DifferentObjects(out)
    ensures var later := AddAll(entries, out, now);
      && (id in later <==> id in entries || Occurs(out, id))
      && (id in entries && !Occurs(out, id) ==> later[id] == entries[id])
      && (forall r | Names(out, id, r) :: Warmed(entries, r, now, later[id]))
  {
    if out != [] {
      var front, last := out[..|out| - 1], out[|out| - 1];
      FrontDistinct(out, id);
      AddAllAt(entries, front, now, id);
      AddOneAt(entries, AddAll(entries, front, now), last, now, id);
      forall r | Names(out, id, r) ensures r == last || Names(front, id, r) {
        var i :| 0 <= i < |out| && out[i] == r;
        if i < |front| { assert front[i] == r; }
      }
    } else {
      assert !Occurs(out, id);
    }
  }

  lemma {:induction false} NormalFormDistinct(refs: seq<Ref>)
    requires AllValid(refs)
    ensures DifferentObjects(NormalForm(refs))
  {
    forall i, j | 0 <= i < j < |NormalForm(refs)|
      ensures Identity(NormalForm(refs)[i]) != Identity(NormalForm(refs)[j])
    {
      DistinctIdentities(refs, i, j);
    }
  }

  /** Touch counts one more use, at this time, of exactly the entries that the references name. */
  lemma {:induction false} TouchMeaning(entries: map<string, Entry>, refs: seq<Ref>, now: int, id: string)
    requires AllValid(refs)
    ensures var later := TouchAll(entries, NormalForm(refs), now);
      && (id in later <==> id in entries)
      && (id in entries && !Occurs(refs, id) ==> later[id] == entries[id])
      && (id in entries && Occurs(refs, id) ==>
        UsedAgain(entries[id], later[id], now))
  {
    NormalFormDistinct(refs);
    OccursNormal(refs, id);
    TouchAllAt(entries, NormalForm(refs), now, id);
  }

  lemma {:induction false} OccursNormal(refs: seq<Ref>, id: string)
    requires AllValid(refs)
    ensures Occurs(NormalForm(refs), id) <==> Occurs(refs, id)
  {
    var out := NormalForm(refs);
    NormalIdentities(refs);
    if Occurs(out, id) {
      var x :| Names(out, id, x);
      var i :| 0 <= i < |out| && out[i] == x;
      assert Identities(out)[i] == id;
    }
    if Occurs(refs, id) {
      var i := NormalFormCovers(refs, id);
      assert Names(out, id, out[i]);
    }
  }

  /** Add enters exactly the objects that the references name, each with its canonical reference, and leaves the
      others alone. */
  lemma {:induction false} AddMeaning(entries: map<string, Entry>, refs: seq<Ref>, now: int, id: string)
    requires AllValid(refs)
    ensures var later := AddAll(entries, NormalForm(refs), now);
      && (id in later <==> id in entries || Occurs(refs, id))
      && (id in entries && !Occurs(refs, id) ==> later[id] == entries[id])
      && (Occurs(refs, id) ==> exists r :: Canonical(refs, id, r) && Warmed(entries, r, now, later[id]))
  {
    NormalFormDistinct(refs);
    OccursNormal(refs, id);
    AddAllAt(entries, NormalForm(refs), now, id);
    if Occurs(refs, id) {
      var i := NormalFormCovers(refs, id);
      NormalFormAt(refs, i);
      assert Names(NormalForm(refs), id, NormalForm(refs)[i]);
    }
  }

  lemma {:induction false} WarmAtMostTotal(entries: map<string, Entry>, out: seq<Ref>)
    ensures Warm(entries, out) <= Total(out)
  {
    if out != [] { WarmAtMostTotal(entries, out[..|out| - 1]); }
  }

  /** later holds everything that entries holds, at no smaller a size. */
  ghost predicate AtLeastAsWarm(entries: map<string, Entry>, later: map<string, Entry>) {
    forall id | id in entries :: id in later && entries[id].sizeBytes <= later[id].sizeBytes
  }

  lemma {:induction false} WarmMonotone(entries: map<string, Entry>, later: map<string, Entry>, out: seq<Ref>)
    requires AtLeastAsWarm(entries, later)
    ensures Warm(entries, out) <= Warm(later, out)
  {
    if out != [] {
      WarmMonotone(entries, later, out[..|out| - 1]);
      assert WarmSize(entries, out[|out| - 1]) <= WarmSize(later, out[|out| - 1]);
    }
  }

  lemma {:induction false} AddOneWarms(entries: map<string, Entry>, r: Ref, now: int)
    ensures AtLeastAsWarm(entries, AddOne(entries, r, now))
    ensures Identity(r) in AddOne(entries, r, now)
    ensures r.sizeBytes <= AddOne(entries, r, now)[Identity(r)].sizeBytes
  {}

  lemma {:induction false} WarmerTransitive(a: map<string, Entry>, b: map<string, Entry>, c: map<string, Entry>)
    requires AtLeastAsWarm(a, b) && AtLeastAsWarm(b, c)
    ensures AtLeastAsWarm(a, c)
  {}

  ghost predicate HoldsAll(entries: map<string, Entry>, refs: seq<Ref>) {
    forall r | r in refs :: Identity(r) in entries && r.sizeBytes <= entries[Identity(r)].sizeBytes
  }

  lemma {:induction false} HoldsOneMore(a: map<string, Entry>, b: map<string, Entry>, refs: seq<Ref>, r: Ref)
    requires HoldsAll(a, refs) && AtLeastAsWarm(a, b) && HoldsAll(b, [r])
    ensures HoldsAll(b, refs + [r])
  {
    assert r in [r];
  }

  lemma {:induction false} AddOneMore(entries: map<string, Entry>, before: map<string, Entry>,
                                      refs: seq<Ref>, r: Ref, now: int)
    requires AtLeastAsWarm(entries, before) && HoldsAll(before, refs)
    ensures AtLeastAsWarm(entries, AddOne(before, r, now)) && HoldsAll(AddOne(before, r, now), refs + [r])
  {
    var after := AddOne(before, r, now);
    AddOneWarms(before, r, now);
    WarmerTransitive(entries, before, after);
    HoldsOneMore(before, after, refs, r);
  }

  lemma {:induction false} AddAllWarms(entries: map<string, Entry>, refs: seq<Ref>, now: int)
    ensures AtLeastAsWarm(entries, AddAll(entries, refs, now))
    ensures HoldsAll(AddAll(entries, refs, now), refs)
  {
    if refs != [] {
      var n := |refs| - 1;
      AddAllWarms(entries, refs[..n], now);
      AddOneMore(entries, AddAll(entries, refs[..n], now), refs[..n], refs[n], now);
      assert refs == refs[..n] + [refs[n]];
    }
  }

  lemma {:induction false} FullyWarm(entries: map<string, Entry>, out: seq<Ref>)
    requires HoldsAll(entries, out)
    ensures Warm(entries, out) == Total(out)
  {
    if out != [] {
      assert out[|out| - 1] in out;
      FullyWarm(entries, out[..|out| - 1]);
    }
  }

  lemma {:induction false} TouchAllKeepsSizes(entries: map<string, Entry>, refs: seq<Ref>, now: int)
    ensures AtLeastAsWarm(entries, TouchAll(entries, refs, now))
    ensures AtLeastAsWarm(TouchAll(entries, refs, now), entries)
  {
    if refs != [] { TouchAllKeepsSizes(entries, refs[..|refs| - 1], now); }
  }

  ghost predicate NoWrap(refs: seq<Ref>) {
    AllValid(refs) ==> Total(NormalForm(refs)) < TWO_64
  }

  /** f of whole is part. */
  predicate IsShare(part: nat, whole: nat, f: real) {
    f * whole as real == part as real
  }

  lemma {:induction false} QuotientIsShare(part: nat, whole: nat)
    requires whole > 0
    ensures IsShare(part, whole, part as real / whole as real)
  {}

  /** The affinity is the share of the requested bytes that is warm. */
  lemma {:induction false} AffinityMeaning(entries: map<string, Entry>, refs: seq<Ref>)
    ensures Requested(refs) > 0 ==> IsShare(Reusable(entries, refs), Requested(refs), AffinityOf(entries, refs))
    ensures Requested(refs) == 0 ==> AffinityOf(entries, refs) == 0.0
  {
    if Requested(refs) > 0 { QuotientIsShare(Reusable(entries, refs), Requested(refs)); }
  }

  lemma {:induction false} Fraction(a: nat, b: nat)
    requires a <= b && b > 0
    ensures 0.0 <= a as real / b as real <= 1.0
  {}

  lemma {:induction false} SmallMod(n: nat)
    requires n < TWO_64
    ensures n % TWO_64 == n
  {}

  lemma {:induction false} UnwrappedFigures(entries: map<string, Entry>, refs: seq<Ref>)
    requires AllValid(refs) && Total(NormalForm(refs)) < TWO_64
    ensures Reusable(entries, refs) == Warm(entries, NormalForm(refs))
    ensures Requested(refs) == Total(NormalForm(refs))
    ensures Reusable(entries, refs) <= Requested(refs)
  {
    var out := NormalForm(refs);
    WarmAtMostTotal(entries, out);
    SmallMod(Warm(entries, out));
    SmallMod(Total(out));
  }

  /** Without 64-bit wrap a request never finds more warm bytes than it asks for, so the affinity
      handed to the dispatch policy lies between 0 and 1. */
  lemma {:induction false} AffinityInUnitInterval(entries: map<string, Entry>, refs: seq<Ref>)
    requires NoWrap(refs)
    ensures Reusable(entries, refs) <= Requested(refs)
    ensures 0.0 <= AffinityOf(entries, refs) <= 1.0
  {
    if AllValid(refs) { UnwrappedFigures(entries, refs); }
    if Requested(refs) > 0 { Fraction(Reusable(entries, refs), Requested(refs)); }
  }

  function Part(r: Ref, n: nat): nat {
    if r.sizeBytes < n then r.sizeBytes else n
  }

  function PartEntry(r: Ref, n: nat): Entry {
    Entry(Identity(r), r.key, r.digest, Part(r, n), 0, 0, 0)
  }

  /** A registry in which exactly n bytes of the listed references are warm. */
  function Filled(out: seq<Ref>, n: nat): map<string, Entry> {
    if out == [] then map[]
    else
      var r := out[|out| - 1];
      Filled(out[..|out| - 1], n - Part(r, n))[Identity(r) := PartEntry(r, n)]
  }

  lemma {:induction false} WarmIgnores(entries: map<string, Entry>, out: seq<Ref>, id: string, e: Entry)
    requires forall r | r in out :: Identity(r) != id
    ensures Warm(entries[id := e], out) == Warm(entries, out)
  {
    if out != [] {
      assert out[|out| - 1] in out;
      WarmIgnores(entries, out[..|out| - 1], id, e);
    }
  }

  lemma {:induction false} OneMoreWarm(entries: map<string, Entry>, front: seq<Ref>, r: Ref, n: nat)
    requires forall q | q in front :: Identity(q) != Identity(r)
    ensures Warm(entries[Identity(r) := PartEntry(r, n)], front + [r]) == Warm(entries, front) + Part(r, n)
  {
    var more := entries[Identity(r) := PartEntry(r, n)];
    assert (front + [r])[..|front|] == front;
    WarmIgnores(entries, front, Identity(r), PartEntry(r, n));
    assert WarmSize(more, r) == Part(r, n);
  }

  lemma {:induction false} LastDiffers(out: seq<Ref>)
    requires DifferentObjects(out) && out != []
    ensures DifferentObjects(out[..|out| - 1])
    ensures forall q | q in out[..|out| - 1] :: Identity(q) != Identity(out[|out| - 1])
    ensures out == out[..|out| - 1] + [out[|out| - 1]]
  {}

  lemma {:induction false} TotalLast(out: seq<Ref>)
    requires out != []
    ensures Total(out) == Total(out[..|out| - 1]) + out[|out| - 1].sizeBytes
  {}

  lemma {:induction false} FilledUnfolds(out: seq<Ref>, n: nat)
    requires out != []
    ensures var front, r := out[..|out| - 1], out[|out| - 1];
      Filled(out, n) == Filled(front, n - Part(r, n))[Identity(r) := PartEntry(r, n)]
  {}

  lemma {:induction false} FilledWarms(out: seq<Ref>, n: nat)
    requires DifferentObjects(out) && n <= Total(out)
    ensures Warm(Filled(out, n), out) == n
    decreases |out|
  {
    if out != [] {
      var front, r := out[..|out| - 1], out[|out| - 1];
      var rest: nat := n - Part(r, n);
      LastDiffers(out);
      FilledUnfolds(out, n);
      TotalLast(out);
      FilledWarms(front, rest);
      OneMoreWarm(Filled(front, rest), front, r, n);
    }
  }

  /** More warm bytes than requested are reported, for some registry, exactly when the request's total
      wraps in 64 bits and does not happen to wrap to the largest value. */
  lemma {:induction false} AffinityBoundExact(refs: seq<Ref>)
    requires AllValid(refs)
    ensures (forall entries: map<string, Entry> :: Reusable(entries, refs) <= Requested(refs))
      <==> NoWrap(refs) || Requested(refs) == TWO_64 - 1
  {
    var out := NormalForm(refs);
    if NoWrap(refs) {
      forall entries: map<string, Entry> ensures Reusable(entries, refs) <= Requested(refs) {
        UnwrappedFigures(entries, refs);
      }
    } else {
      NormalFormDistinct(refs);
      FilledWarms(out, TWO_64 - 1);
      SmallMod(TWO_64 - 1);
      assert Reusable(Filled(out, TWO_64 - 1), refs) == TWO_64 - 1;
    }
  }

  /** Warming any references never lowers what another request can reuse. */
  lemma {:induction false} AddIsMonotone(entries: map<string, Entry>, warmed: seq<Ref>, now: int, request: seq<Ref>)
    requires NoWrap(request)
    ensures Reusable(entries, request) <= Reusable(AddAll(entries, warmed, now), request)
  {
    if AllValid(request) {
      AddAllWarms(entries, warmed, now);
      WarmMonotone(entries, AddAll(entries, warmed, now), NormalForm(request));
      UnwrappedFigures(entries, request);
      UnwrappedFigures(AddAll(entries, warmed, now), request);
    }
  }

  lemma {:induction false} LastWarm(entries: map<string, Entry>, front: seq<Ref>, r: Ref, e: Entry)
    requires forall q | q in front :: Identity(q) != Identity(r)
    ensures Warm(entries[Identity(r) := e], front + [r])
      == Warm(entries, front) + if e.sizeBytes < r.sizeBytes then e.sizeBytes else r.sizeBytes
  {
    assert (front + [r])[..|front|] == front;
    WarmIgnores(entries, front, Identity(r), e);
  }

  lemma {:induction false} AddOneApart(entries: map<string, Entry>, id: string, e: Entry, r: Ref, now: int)
    requires Identity(r) != id
    ensures AddOne(entries[id := e], r, now) == AddOne(entries, r, now)[id := e]
  {}

  lemma {:induction false} AddOneAgain(entries: map<string, Entry>, e: Entry, r: Ref, now: int) returns (more: Entry)
    requires r.sizeBytes > e.sizeBytes
    ensures AddOne(entries[Identity(r) := e], r, now) == entries[Identity(r) := more]
    ensures more.sizeBytes == r.sizeBytes
  {
    more := AddOne(entries[Identity(r) := e], r, now)[Identity(r)];
  }

  /** The warm part of out after one reference has been warmed to a size. */
  function Bumped(entries: map<string, Entry>, out: seq<Ref>, r: Ref, size: nat, now: int): nat {
    Warm(AddOne(entries, r.(sizeBytes := size), now), out)
  }

  lemma {:induction false} OneMoreOfLast(entries: map<string, Entry>, front: seq<Ref>, r: Ref, n: nat, now: int)
    requires n < r.sizeBytes && forall q | q in front :: Identity(q) != Identity(r)
    ensures Bumped(entries[Identity(r) := PartEntry(r, n)], front + [r], r, n + 1, now) == Warm(entries, front) + n + 1
  {
    SameIdentity(r, n + 1);
    var more := AddOneAgain(entries, PartEntry(r, n), r.(sizeBytes := n + 1), now);
    LastWarm(entries, front, r, more);
  }

  lemma {:induction false} OneMoreBefore(entries: map<string, Entry>, front: seq<Ref>, r: Ref, e: Entry,
                                         q: Ref, size: nat, now: int)
    requires Identity(q) != Identity(r) && forall p | p in front :: Identity(p) != Identity(r)
    requires e.sizeBytes <= r.sizeBytes
    ensures Bumped(entries[Identity(r) := e], front + [r], q, size, now)
      == Bumped(entries, front, q, size, now) + e.sizeBytes
  {
    SameIdentity(q, size);
    AddOneApart(entries, Identity(r), e, q.(sizeBytes := size), now);
    LastWarm(AddOne(entries, q.(sizeBytes := size), now), front, r, e);
  }

  lemma {:induction false} SameIdentity(r: Ref, size: nat)
    ensures Identity(r.(sizeBytes := size)) == Identity(r)
  {}

  lemma {:induction false} OneMoreAtEnd(out: seq<Ref>, n: nat, now: int)
    requires out != [] && DifferentObjects(out) && n < out[|out| - 1].sizeBytes
    ensures Bumped(Filled(out, n), out, out[|out| - 1], n + 1, now) == n + 1
  {
    var front, r := out[..|out| - 1], out[|out| - 1];
    LastDiffers(out);
    FilledUnfolds(out, n);
    FilledWarms(front, 0);
    OneMoreOfLast(Filled(front, 0), front, r, n, now);
  }

  lemma {:induction false} OneMoreInFront(entries: map<string, Entry>, front: seq<Ref>, r: Ref, n: nat,
                                          q: Ref, size: nat, now: int)
    requires q in front && (forall p | p in front :: Identity(p) != Identity(r)) && n >= r.sizeBytes
    requires Bumped(entries, front, q, size, now) == n - r.sizeBytes + 1
    ensures Bumped(entries[Identity(r) := PartEntry(r, n)], front + [r], q, size, now) == n + 1
  {
    OneMoreBefore(entries, front, r, PartEntry(r, n), q, size, now);
  }

  /** As long as not everything is warm, warming a little more of one reference makes one more byte warm. */
  lemma {:induction false} OneMoreByte(out: seq<Ref>, n: nat, now: int) returns (q: Ref, size: nat)
    requires DifferentObjects(out) && n < Total(out)
    ensures q in out && 1 <= size <= q.sizeBytes
    ensures Bumped(Filled(out, n), out, q, size, now) == n + 1
    decreases |out|
  {
    var front, r := out[..|out| - 1], out[|out| - 1];
    LastDiffers(out);
    TotalLast(out);
    if n < r.sizeBytes {
      OneMoreAtEnd(out, n, now);
      return r, n + 1;
    } else {
      q, size := OneMoreByte(front, n - r.sizeBytes, now);
      FilledUnfolds(out, n);
      OneMoreInFront(Filled(front, n - r.sizeBytes), front, r, n, q, size, now);
    }
  }

  lemma {:induction false} AddOneRef(entries: map<string, Entry>, r: Ref, now: int)
    requires Fault(r).None? && Clean(r) == r
    ensures AllValid([r]) && NormalForm([r]) == [r] && AddAll(entries, NormalForm([r]), now) == AddOne(entries, r, now)
  {
    assert ValidAt([r], 0);
    NormalFormFixed([r]);
    assert [r][..0] == [];
  }

  lemma {:induction false} PartAcceptable(q: Ref, size: nat)
    requires Fault(q).None? && Clean(q) == q && size > 0
    ensures var r := q.(sizeBytes := size);
      Fault(r).None? && Clean(r) == r
  {
    assert Clean(q.(sizeBytes := size)) == Clean(q).(sizeBytes := size);
  }

  lemma {:induction false} NormalFormMember(request: seq<Ref>, q: Ref)
    requires AllValid(request) && q in NormalForm(request)
    ensures Fault(q).None? && Clean(q) == q
  {
    var out := NormalForm(request);
    NormalFormValid(request);
    var i :| 0 <= i < |out| && out[i] == q;
    assert ValidAt(out, i);
  }

  lemma {:induction false} WarmingPart(request: seq<Ref>, q: Ref, size: nat, entries: map<string, Entry>, now: int)
    requires AllValid(request) && q in NormalForm(request) && size > 0
    ensures AllValid([q.(sizeBytes := size)])
    ensures AddAll(entries, NormalForm([q.(sizeBytes := size)]), now) == AddOne(entries, q.(sizeBytes := size), now)
  {
    NormalFormMember(request, q);
    PartAcceptable(q, size);
    AddOneRef(entries, q.(sizeBytes := size), now);
  }

  lemma {:induction false} WrapLosesWarmth(request: seq<Ref>, now: int)
    returns (entries: map<string, Entry>, warmed: seq<Ref>)
    requires AllValid(request) && !NoWrap(request)
    ensures AllValid(warmed)
    ensures Reusable(entries, request) == TWO_64 - 1
    ensures Reusable(AddAll(entries, NormalForm(warmed), now), request) == 0
  {
    var out := NormalForm(request);
    NormalFormDistinct(request);
    entries := Filled(out, TWO_64 - 1);
    FilledWarms(out, TWO_64 - 1);
    SmallMod(TWO_64 - 1);
    var q, size := OneMoreByte(out, TWO_64 - 1, now);
    WarmingPart(request, q, size, entries, now);
    warmed := [q.(sizeBytes := size)];
  }

  /** Warming can never lower what a request can reuse, in any registry, exactly when its total does not wrap. */
  lemma {:induction false} AddIsMonotoneExact(request: seq<Ref>)
    requires AllValid(request)
    ensures (forall entries: map<string, Entry>, warmed: seq<Ref>, now: int | AllValid(warmed) ::
        Reusable(entries, request) <= Reusable(AddAll(entries, NormalForm(warmed), now), request))
      <==> NoWrap(request)
  {
    if NoWrap(request) {
      forall entries: map<string, Entry>, warmed: seq<Ref>, now: int | AllValid(warmed)
        ensures Reusable(entries, request) <= Reusable(AddAll(entries, NormalForm(warmed), now), request)
      {
        AddIsMonotone(entries, NormalForm(warmed), now, request);
      }
    } else {
      var entries, warmed := WrapLosesWarmth(request, 0);
    }
  }

  /** Warming a request makes all of it reusable. */
  lemma {:induction false} AddMakesReusable(entries: map<string, Entry>, refs: seq<Ref>, now: int)
    requires AllValid(refs)
    ensures Reusable(AddAll(entries, NormalForm(refs), now), refs) == Requested(refs)
  {
    var out := NormalForm(refs);
    var later := AddAll(entries, out, now);
    AddAllWarms(entries, out, now);
    FullyWarm(later, out);
    assert Warm(later, out) == Total(out);
  }

  /** Recording a reuse changes no request's figures. */
  lemma {:induction false} TouchIsNeutral(entries: map<string, Entry>, touched: seq<Ref>, now: int, request: seq<Ref>)
    ensures Reusable(TouchAll(entries, touched, now), request) == Reusable(entries, request)
  {
    var later := TouchAll(entries, touched, now);
    TouchAllKeepsSizes(entries, touched, now);
    var out := NormalForm(request);
    WarmMonotone(entries, later, out);
    WarmMonotone(later, entries, out);
    assert Warm(entries, out) == Warm(later, out);
  }

  const WRAPPING_REQUEST := [Ref("a", "", TWO_64 - 1), Ref("b", "", 2)]
  const WRAPPING_WARM := map["key:a" := Entry("key:a", "a", "", TWO_64 - 1, 0, 0, 0)]

  lemma {:induction false} PlainName(r: Ref)
    requires r.digest == "" && (r.key == "a" || r.key == "b") && r.sizeBytes > 0
    ensures Clean(r) == r && Identity(r) == "key:" + r.key && Fault(r).None?
  {
    TrimFixed(r.key);
    assert Trim("") == "" && Lower("") == "";
  }

  lemma {:induction false} WrappingIsNormal()
    ensures AllValid(WRAPPING_REQUEST) && NormalForm(WRAPPING_REQUEST) == WRAPPING_REQUEST
  {
    var refs := WRAPPING_REQUEST;
    PlainName(refs[0]);
    PlainName(refs[1]);
    assert "key:" + "a" == "key:a" && "key:" + "b" == "key:b";
    assert Identities(refs) == ["key:a", "key:b"];
    assert Less("a", "b") && Less(":a", ":b") && Less("y:a", "y:b") && Less("ey:a", "ey:b");
    assert Less("key:a", "key:b");
    assert StrictlySorted(Identities(refs));
    NormalFormFixed(refs);
  }

  lemma {:induction false} PairSums(entries: map<string, Entry>, r: Ref, q: Ref)
    ensures Total([r, q]) == r.sizeBytes + q.sizeBytes
    ensures Warm(entries, [r, q]) == WarmSize(entries, r) + WarmSize(entries, q)
  {
    assert [r, q][..1] == [r] && [r][..0] == [];
    assert Total([r]) == r.sizeBytes && Warm(entries, [r]) == WarmSize(entries, r);
  }

  /** With wrap the bound fails: this request counts as 1 byte of which 2^64 - 1 are warm. */
  lemma {:induction false} WrapBreaksAffinity()
    ensures AllValid(WRAPPING_REQUEST) && !NoWrap(WRAPPING_REQUEST)
    ensures Requested(WRAPPING_REQUEST) == 1 && Reusable(WRAPPING_WARM, WRAPPING_REQUEST) == TWO_64 - 1
  {
    WrappingIsNormal();
    PairSums(WRAPPING_WARM, WRAPPING_REQUEST[0], WRAPPING_REQUEST[1]);
    PlainName(WRAPPING_REQUEST[0]);
    PlainName(WRAPPING_REQUEST[1]);
    assert "key:" + "a" == "key:a" && "key:" + "b" == "key:b";
    assert "key:a" in WRAPPING_WARM && "key:b" !in WRAPPING_WARM by { assert "key:a"[4] != "key:b"[4]; }
    var total, warm := Total(WRAPPING_REQUEST), Warm(WRAPPING_WARM, WRAPPING_REQUEST);
    assert total == TWO_64 + 1 && warm == TWO_64 - 1;
    assert total % TWO_64 == 1 && warm % TWO_64 == TWO_64 - 1;
  }
}
