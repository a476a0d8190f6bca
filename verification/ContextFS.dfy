/** The content-addressed context store: blobs by digest, references by name, and garbage collection. */
module ContextFS {
  import opened Text
  import opened Digests

  const ALGORITHM := "sha256"

  datatype Blob = Blob(data: Bytes, modified: int)

  datatype Metadata = Metadata(algorithm: string, digest: string, sizeBytes: nat, createdAt: int)

  datatype Object = Object(digest: string, sizeBytes: nat, createdAt: int, deduplicated: bool)

  datatype Reference = Reference(name: string, algorithm: string, digest: string, sizeBytes: nat, updatedAt: int)

  datatype Stats = Stats(objects: nat, bytes: nat, references: nat)

  datatype Report = Report(removedObjects: nat, removedBytes: nat, retainedObjects: nat)

  datatype StoreError =
    | NameRequired | InvalidDigest | NoObject | NoReference | CorruptReference | NameCollision
    | Unavailable | SizeMismatch

  /** SHA-256 of contents, and of the names that reference files are called after. */
  datatype Hashes = Hashes(content: Bytes -> string, name: string -> string)

  /** blobs and metadata are keyed by file name, references by the digest of their name; metadata that
      cannot be decoded is None. */
  datatype State = State(blobs: map<string, Blob>, metadata: map<string, Option<Metadata>>,
                         refs: map<string, Reference>)

  const EMPTY: State := State(map[], map[], map[])

  // ---------------------------------------------------------------- what the operations do

  /** readReference accepts it. */
  predicate ValidReference(r: Reference) {
    r.name != "" && r.algorithm == ALGORITHM && IsDigest(r.digest)
  }

  predicate GoodMetadata(m: Option<Metadata>, digest: string, size: nat) {
    m.Some? && m.value.algorithm == ALGORITHM && m.value.digest == digest && m.value.sizeBytes == size
    && m.value.createdAt != 0
  }

  predicate HasGoodMetadata(s: State, digest: string)
    requires digest in s.blobs
  {
    digest in s.metadata && GoodMetadata(s.metadata[digest], digest, |s.blobs[digest].data|)
  }

  function FreshMetadata(s: State, digest: string): Metadata
    requires digest in s.blobs
  {
    Metadata(ALGORITHM, digest, |s.blobs[digest].data|, s.blobs[digest].modified)
  }

  /** ensureMetadataLocked: metadata that is missing or wrong is written again. */
  function Described(s: State, digest: string): State
    requires digest in s.blobs
  {
    if HasGoodMetadata(s, digest) then s
    else s.(metadata := s.metadata[digest := Some(FreshMetadata(s, digest))])
  }

  function AfterPut(h: Hashes, s: State, data: Bytes, now: int): State {
    var d := h.content(data);
    if d !in s.blobs then Described(s.(blobs := s.blobs[d := Blob(data, now)]), d)
    else if |s.blobs[d].data| != |data| then s
    else Described(s, d)
  }

  function AfterResolve(s: State, digest: string): State {
    if IsDigest(digest) && digest in s.blobs then Described(s, digest) else s
  }

  predicate CanBind(s: State, name: string, digest: string) {
    Trim(name) != "" && IsDigest(digest) && digest in s.blobs
  }

  function NewReference(s: State, name: string, digest: string, now: int): Reference
    requires digest in s.blobs
  {
    Reference(Trim(name), ALGORITHM, digest, |s.blobs[digest].data|, now)
  }

  function AfterBind(h: Hashes, s: State, name: string, digest: string, now: int): State {
    if !CanBind(s, name, digest) then s
    else Described(s, digest).(refs := s.refs[h.name(Trim(name)) := NewReference(s, name, digest, now)])
  }

  /** The reference file for name, if it is readable and really for that name. */
  function Found(h: Hashes, s: State, name: string): Result<Reference, StoreError> {
    var n := Trim(name);
    if n == "" then Err(NameRequired)
    else if h.name(n) !in s.refs then Err(NoReference)
    else if !ValidReference(s.refs[h.name(n)]) then Err(CorruptReference)
    else if s.refs[h.name(n)].name != n then Err(NameCollision)
    else Ok(s.refs[h.name(n)])
  }

  function AfterRelease(h: Hashes, s: State, name: string): State {
    if Found(h, s, name).Ok? then s.(refs := s.refs - {h.name(Trim(name))}) else s
  }

  function Lookup(h: Hashes, s: State, name: string): Result<Reference, StoreError> {
    var found := Found(h, s, name);
    if found.Ok? && found.value.digest !in s.blobs then Err(Unavailable) else found
  }

  ghost predicate Live(s: State, digest: string) {
    exists k | k in s.refs :: s.refs[k].digest == digest
  }

  /** Garbage: an object file that no reference names. Files with other names are left alone. */
  ghost predicate Garbage(s: State, digest: string) {
    digest in s.blobs && IsDigest(digest) && !Live(s, digest)
  }

  ghost function GarbageOf(s: State): set<string> {
    set d | d in s.blobs && Garbage(s, d)
  }

  predicate Readable(s: State) {
    forall k | k in s.refs :: ValidReference(s.refs[k])
  }

  ghost function AfterGC(s: State): State {
    if !Readable(s) then s
    else s.(blobs := s.blobs - GarbageOf(s), metadata := s.metadata - GarbageOf(s))
  }

  // ---------------------------------------------------------------- counting

  predicate IsObject(s: State, d: string) {
    d in s.blobs && IsDigest(d)
  }

  function Objects(s: State): set<string> {
    set d | d in s.blobs && IsObject(s, d)
  }

  function Size(s: State, d: string): nat {
    if d in s.blobs then |s.blobs[d].data| else 0
  }

  ghost function BytesIn(s: State, ds: set<string>): nat {
    if ds == {} then 0
    else
      var d :| d in ds;
      Size(s, d) + BytesIn(s, ds - {d})
  }

  lemma {:induction false} BytesInRemove(s: State, ds: set<string>, d: string)
    requires d in ds
    ensures BytesIn(s, ds) == Size(s, d) + BytesIn(s, ds - {d})
    decreases |ds|
  {
    var e :| e in ds && BytesIn(s, ds) == Size(s, e) + BytesIn(s, ds - {e});
    if e != d {
      BytesInRemove(s, ds - {e}, d);
      BytesInRemove(s, ds - {d}, e);
      assert ds - {e} - {d} == ds - {d} - {e};
    }
  }

  lemma {:induction false} BytesInAdd(s: State, ds: set<string>, d: string)
    requires d !in ds
    ensures BytesIn(s, ds + {d}) == Size(s, d) + BytesIn(s, ds)
  {
    BytesInRemove(s, ds + {d}, d);
    assert ds + {d} - {d} == ds;
  }

  lemma {:induction false} BytesInSplit(s: State, a: set<string>, b: set<string>)
    requires a !! b
    ensures BytesIn(s, a + b) == BytesIn(s, a) + BytesIn(s, b)
    decreases |b|
  {
    if b == {} {
      assert a + b == a;
    } else {
      var d :| d in b;
      BytesInSplit(s, a, b - {d});
      BytesInRemove(s, b, d);
      BytesInRemove(s, a + b, d);
      assert a + b - {d} == a + (b - {d});
    }
  }

  lemma {:induction false} BytesInSame(s: State, t: State, ds: set<string>)
    requires forall d | d in ds :: Size(s, d) == Size(t, d)
    ensures BytesIn(s, ds) == BytesIn(t, ds)
  {
    if ds != {} {
      var d :| d in ds;
      BytesInSame(s, t, ds - {d});
      BytesInRemove(s, ds, d);
      BytesInRemove(t, ds, d);
    }
  }

  // ---------------------------------------------------------------- whole runs

  datatype Op =
    | Put(data: Bytes, now: int)
    | Bind(name: string, digest: string, now: int)
    | Release(name: string)
    | Resolve(digest: string)
    | Collect

  ghost function Apply(h: Hashes, s: State, op: Op): State {
    match op
    case Put(data, now) => AfterPut(h, s, data, now)
    case Bind(name, digest, now) => AfterBind(h, s, name, digest, now)
    case Release(name) => AfterRelease(h, s, name)
    case Resolve(digest) => AfterResolve(s, digest)
    case Collect => AfterGC(s)
  }

  ghost function RunFrom(h: Hashes, s: State, ops: seq<Op>): State
    decreases |ops|
  {
    if ops == [] then s else RunFrom(h, Apply(h, s, ops[0]), ops[1..])
  }

  ghost predicate SoundHashes(h: Hashes) {
    forall b: Bytes :: IsDigest(h.content(b))
  }

  ghost predicate BlobHolds(h: Hashes, s: State, d: string)
    requires d in s.blobs
  {
    IsDigest(d) && h.content(s.blobs[d].data) == d
  }

  ghost predicate ReferenceHolds(h: Hashes, s: State, k: string)
    requires k in s.refs
  {
    && ValidReference(s.refs[k]) && Trim(s.refs[k].name) == s.refs[k].name
    && h.name(s.refs[k].name) == k
    && s.refs[k].digest in s.blobs && s.refs[k].sizeBytes == |s.blobs[s.refs[k].digest].data|
  }

  /** Every blob lies under its own digest, and every reference points to a blob that exists. */
  ghost predicate Inv(h: Hashes, s: State) {
    && (forall d | d in s.blobs :: BlobHolds(h, s, d))
    && (forall k | k in s.refs :: ReferenceHolds(h, s, k))
  }

  /** Reference file k and the blob it names are in s' as they are in s. */
  ghost predicate Kept(s: State, s': State, k: string)
    requires k in s.refs
  {
    && k in s'.refs && s'.refs[k] == s.refs[k]
    && s.refs[k].digest in s'.blobs && s.refs[k].digest in s.blobs
    && s'.blobs[s.refs[k].digest] == s.blobs[s.refs[k].digest]
  }

  lemma {:induction false} KeptHolds(h: Hashes, s: State, s': State, k: string)
    requires k in s.refs && ReferenceHolds(h, s, k) && Kept(s, s', k)
    ensures ReferenceHolds(h, s', k)
  {}

  lemma {:induction false} PutKeeps(h: Hashes, s: State, data: Bytes, now: int, k: string)
    requires k in s.refs && s.refs[k].digest in s.blobs
    ensures Kept(s, AfterPut(h, s, data, now), k)
  {}

  lemma {:induction false} BindKeeps(h: Hashes, s: State, name: string, digest: string, now: int, k: string)
    requires k in s.refs && s.refs[k].digest in s.blobs && h.name(Trim(name)) != k
    ensures Kept(s, AfterBind(h, s, name, digest, now), k)
  {}

  lemma {:induction false} ReleaseKeeps(h: Hashes, s: State, name: string, k: string)
    requires k in s.refs && s.refs[k].digest in s.blobs && h.name(Trim(name)) != k
    ensures Kept(s, AfterRelease(h, s, name), k)
  {}

  lemma {:induction false} CollectKeeps(s: State, k: string)
    requires k in s.refs && s.refs[k].digest in s.blobs
    ensures Kept(s, AfterGC(s), k)
  {
    assert Live(s, s.refs[k].digest);
  }

  lemma {:induction false} InvPut(h: Hashes, s: State, data: Bytes, now: int)
    requires SoundHashes(h) && Inv(h, s)
    ensures Inv(h, AfterPut(h, s, data, now))
  {
    var s' := AfterPut(h, s, data, now);
    forall d | d in s'.blobs ensures BlobHolds(h, s', d) {
      PutBlob(h, s, data, now, d);
    }
    forall k | k in s'.refs ensures ReferenceHolds(h, s', k) {
      assert ReferenceHolds(h, s, k);
      PutKeeps(h, s, data, now, k);
      KeptHolds(h, s, s', k);
    }
  }

  lemma {:induction false} PutBlob(h: Hashes, s: State, data: Bytes, now: int, d: string)
    requires SoundHashes(h) && d in AfterPut(h, s, data, now).blobs
    requires d in s.blobs ==> BlobHolds(h, s, d)
    ensures BlobHolds(h, AfterPut(h, s, data, now), d)
  {}

  lemma {:induction false} InvBind(h: Hashes, s: State, name: string, digest: string, now: int)
    requires Inv(h, s)
    ensures Inv(h, AfterBind(h, s, name, digest, now))
  {
    var s' := AfterBind(h, s, name, digest, now);
    forall d | d in s'.blobs ensures BlobHolds(h, s', d) {
      assert BlobHolds(h, s, d);
    }
    forall k | k in s'.refs ensures ReferenceHolds(h, s', k) {
      if CanBind(s, name, digest) && k == h.name(Trim(name)) {
        TrimIdempotent(name);
      } else {
        assert ReferenceHolds(h, s, k);
      }
    }
  }

  lemma {:induction false} InvRelease(h: Hashes, s: State, name: string)
    requires Inv(h, s)
    ensures Inv(h, AfterRelease(h, s, name))
  {
    var s' := AfterRelease(h, s, name);
    forall d | d in s'.blobs ensures BlobHolds(h, s', d) {
      assert BlobHolds(h, s, d);
    }
    forall k | k in s'.refs ensures ReferenceHolds(h, s', k) {
      assert ReferenceHolds(h, s, k);
    }
  }

  lemma {:induction false} InvResolve(h: Hashes, s: State, digest: string)
    requires Inv(h, s)
    ensures Inv(h, AfterResolve(s, digest))
  {
    var s' := AfterResolve(s, digest);
    forall d | d in s'.blobs ensures BlobHolds(h, s', d) {
      assert BlobHolds(h, s, d);
    }
    forall k | k in s'.refs ensures ReferenceHolds(h, s', k) {
      assert ReferenceHolds(h, s, k);
    }
  }

  lemma {:induction false} InvReadable(h: Hashes, s: State)
    requires Inv(h, s)
    ensures Readable(s)
    ensures forall d :: d in AfterGC(s).blobs <==> d in s.blobs && Live(s, d)
  {
    forall k | k in s.refs ensures ValidReference(s.refs[k]) {
      assert ReferenceHolds(h, s, k);
    }
    forall d | d in s.blobs ensures IsDigest(d) {
      assert BlobHolds(h, s, d);
    }
  }

  lemma {:induction false} InvCollect(h: Hashes, s: State)
    requires Inv(h, s)
    ensures Inv(h, AfterGC(s))
  {
    var s' := AfterGC(s);
    InvReadable(h, s);
    forall d | d in s'.blobs ensures BlobHolds(h, s', d) {
      assert BlobHolds(h, s, d);
    }
    forall k | k in s'.refs ensures ReferenceHolds(h, s', k) {
      assert ReferenceHolds(h, s, k) && Live(s, s.refs[k].digest);
    }
  }

  lemma {:induction false} StepInv(h: Hashes, s: State, op: Op)
    requires SoundHashes(h) && Inv(h, s)
    ensures Inv(h, Apply(h, s, op))
  {
    match op
    case Put(data, now) => InvPut(h, s, data, now);
    case Bind(name, digest, now) => InvBind(h, s, name, digest, now);
    case Release(name) => InvRelease(h, s, name);
    case Resolve(digest) => InvResolve(h, s, digest);
    case Collect => InvCollect(h, s);
  }

  /** Integrity in every state of every interleaving of puts, binds, releases and collections. */
  lemma {:induction false} RunInv(h: Hashes, s: State, ops: seq<Op>)
    requires SoundHashes(h) && Inv(h, s)
    ensures Inv(h, RunFrom(h, s, ops))
    decreases |ops|
  {
    if ops != [] {
      StepInv(h, s, ops[0]);
      RunInv(h, Apply(h, s, ops[0]), ops[1..]);
    }
  }

  // ---------------------------------------------------------------- garbage collection

  /** Exactly the unreferenced objects go, the rest is untouched, and every name resolves as before. */
  lemma {:induction false} CollectionIsExact(h: Hashes, s: State, name: string)
    requires Inv(h, s)
    ensures var s' := AfterGC(s);
      && (forall d :: d in s'.blobs <==> d in s.blobs && Live(s, d))
      && (forall d | d in s'.blobs :: s'.blobs[d] == s.blobs[d])
      && s'.refs == s.refs
      && Lookup(h, s', name) == Lookup(h, s, name)
  {
    InvReadable(h, s);
    if Found(h, s, name).Ok? {
      var k := h.name(Trim(name));
      assert ReferenceHolds(h, s, k);
      CollectKeeps(s, k);
    }
    SameLookup(h, s, AfterGC(s), name);
  }

  lemma {:induction false} SameLookup(h: Hashes, s: State, s': State, name: string)
    requires s'.refs == s.refs && (Found(h, s, name).Ok? ==> Kept(s, s', h.name(Trim(name))))
    ensures Lookup(h, s', name) == Lookup(h, s, name)
  {
    assert Found(h, s', name) == Found(h, s, name);
  }

  lemma {:induction false} CollectionIdempotent(s: State)
    ensures AfterGC(AfterGC(s)) == AfterGC(s)
  {
    var s' := AfterGC(s);
    assert forall d :: Live(s', d) <==> Live(s, d);
    assert Readable(s) ==> GarbageOf(s') == {};
  }

  /** What the report must say. */
  ghost function ReportOf(s: State): Report {
    Report(|GarbageOf(s)|, BytesIn(s, GarbageOf(s)), |Objects(s) - GarbageOf(s)|)
  }

  lemma {:induction false} ObjectsAfter(s: State)
    requires Readable(s)
    ensures Objects(AfterGC(s)) == Objects(s) - GarbageOf(s)
    ensures GarbageOf(s) <= Objects(s) && GarbageOf(AfterGC(s)) == {}
    ensures forall d | d in Objects(AfterGC(s)) :: Size(s, d) == Size(AfterGC(s), d)
  {
    var s' := AfterGC(s);
    forall d ensures Live(s', d) <==> Live(s, d) {}
    assert forall d | d in GarbageOf(s) :: IsObject(s, d);
  }

  lemma {:induction false} SplitCount<T>(whole: set<T>, part: set<T>)
    requires part <= whole
    ensures |part| + |whole - part| == |whole| && whole == (whole - part) + part
  {
    assert whole == (whole - part) + part;
  }

  /** removed + retained = objects before, retained = objects after, and the bytes add up; a second
      collection finds nothing to remove. */
  lemma {:induction false} ReportAddsUp(s: State)
    requires Readable(s)
    ensures var r, s' := ReportOf(s), AfterGC(s);
      && r.removedObjects + r.retainedObjects == |Objects(s)|
      && r.retainedObjects == |Objects(s')|
      && r.removedBytes + BytesIn(s', Objects(s')) == BytesIn(s, Objects(s))
      && ReportOf(s') == Report(0, 0, r.retainedObjects)
  {
    var s' := AfterGC(s);
    ObjectsAfter(s);
    SplitCount(Objects(s), GarbageOf(s));
    BytesInSplit(s, Objects(s'), GarbageOf(s));
    BytesInSame(s, s', Objects(s'));
    assert Objects(s') - {} == Objects(s');
  }

  // ---------------------------------------------------------------- what single operations do

  /** A release that succeeds makes the name unknown, and touches nothing but its reference file; any other changes
      nothing. */
  lemma {:induction false} ReleaseMeaning(h: Hashes, s: State, name: string)
    ensures var s' := Apply(h, s, Op.Release(name));
      && s'.blobs == s.blobs && s'.metadata == s.metadata
      && (Found(h, s, name).Ok? ==>
        Lookup(h, s', name) == Err(NoReference) && s'.refs == s.refs - {h.name(Trim(name))})
      && (Found(h, s, name).Err? ==> s' == s && Lookup(h, s', name).Err?)
  {}

  /** Every other name resolves as it did before the release. */
  lemma {:induction false} ReleaseDisturbsNoOther(h: Hashes, s: State, name: string, other: string)
    requires Trim(other) != Trim(name)
    ensures Lookup(h, s, other).Ok? || Lookup(h, AfterRelease(h, s, name), other).Ok? ==>
      Lookup(h, AfterRelease(h, s, name), other) == Lookup(h, s, other)
  {}

  lemma {:induction false} ReleaseLive(h: Hashes, s: State, name: string, digest: string)
    ensures Live(AfterRelease(h, s, name), digest) <==>
      exists k | k in s.refs :: s.refs[k].digest == digest && !(Found(h, s, name).Ok? && k == h.name(Trim(name)))
  {
    var s' := AfterRelease(h, s, name);
    if Live(s', digest) {
      var k :| k in s'.refs && s'.refs[k].digest == digest;
      assert k in s.refs && s.refs[k].digest == digest;
    }
    if k :| k in s.refs && s.refs[k].digest == digest && !(Found(h, s, name).Ok? && k == h.name(Trim(name))) {
      assert k in s'.refs && s'.refs[k].digest == digest;
    }
  }

  /** The object of a released name outlives the next collection exactly if another name still refers to it ... */
  lemma {:induction false} ReleaseThenCollect(h: Hashes, s: State, name: string)
    requires Inv(h, s) && Lookup(h, s, name).Ok?
    ensures var d, k := Lookup(h, s, name).value.digest, h.name(Trim(name));
      d in AfterGC(AfterRelease(h, s, name)).blobs <==>
        exists other | other in s.refs :: s.refs[other].digest == d && other != k
  {
    var d := Lookup(h, s, name).value.digest;
    InvRelease(h, s, name);
    InvReadable(h, AfterRelease(h, s, name));
    ReleaseLive(h, s, name, d);
  }

  lemma {:induction false} RunTwo(h: Hashes, s: State, ops: seq<Op>, a: Op, b: Op)
    ensures RunFrom(h, s, ops + [a, b]) == Apply(h, Apply(h, RunFrom(h, s, ops), a), b)
    decreases |ops|
  {
    if ops == [] {
      assert [] + [a, b] == [a, b] && [a, b][1..] == [b] && [b][1..] == [];
      assert RunFrom(h, s, [a, b]) == RunFrom(h, Apply(h, s, a), [b]);
      assert RunFrom(h, Apply(h, s, a), [b]) == RunFrom(h, Apply(h, Apply(h, s, a), b), []);
    } else {
      assert (ops + [a, b])[1..] == ops[1..] + [a, b];
      RunTwo(h, Apply(h, s, ops[0]), ops[1..], a, b);
    }
  }

  lemma {:induction false} RunInvEmpty(h: Hashes, ops: seq<Op>)
    requires SoundHashes(h)
    ensures Inv(h, RunFrom(h, EMPTY, ops))
  {
    RunInv(h, EMPTY, ops);
  }

  lemma {:induction false} CollectAfterRelease(h: Hashes, ops: seq<Op>, name: string) returns (released: State)
    ensures released == AfterRelease(h, RunFrom(h, EMPTY, ops), name)
    ensures RunFrom(h, EMPTY, ops + [Op.Release(name), Op.Collect]) == AfterGC(released)
  {
    RunTwo(h, EMPTY, ops, Op.Release(name), Op.Collect);
    released := AfterRelease(h, RunFrom(h, EMPTY, ops), name);
  }

  /** ... in every state of every run. */
  lemma {:induction false} ReleasedIsCollected(h: Hashes, ops: seq<Op>, name: string, s: State, d: string)
    requires SoundHashes(h) && s == RunFrom(h, EMPTY, ops)
    requires Lookup(h, s, name).Ok? && d == Lookup(h, s, name).value.digest
    ensures d in RunFrom(h, EMPTY, ops + [Op.Release(name), Op.Collect]).blobs <==>
      exists other | other in s.refs :: s.refs[other].digest == d && other != h.name(Trim(name))
  {
    RunInvEmpty(h, ops);
    var released := CollectAfterRelease(h, ops, name);
    ReleaseThenCollect(h, s, name);
  }

  /** A bind makes the name resolve to that very digest, with the size of the object there. */
  lemma {:induction false} BindMeaning(h: Hashes, s: State, name: string, digest: string, now: int)
    ensures var s' := Apply(h, s, Op.Bind(name, digest, now));
      && s'.blobs == s.blobs
      && (Trim(name) != "" && IsDigest(digest) && digest in s.blobs ==>
        && Lookup(h, s', name) == Ok(Reference(Trim(name), "sha256", digest, |s.blobs[digest].data|, now))
        && s'.refs.Keys == s.refs.Keys + {h.name(Trim(name))})
      && (!(Trim(name) != "" && IsDigest(digest) && digest in s.blobs) ==> s' == s)
      && forall k | k in s.refs && k != h.name(Trim(name)) :: s'.refs[k] == s.refs[k]
  {
    TrimIdempotent(name);
  }

  /** Whoever puts, resolves or binds an object finds its metadata right afterwards: as it was if it was right, else
      written from the object file. */
  lemma {:induction false} MetadataIsRepaired(s: State, digest: string)
    requires digest in s.blobs
    ensures var s' := Described(s, digest);
      && digest in s'.metadata && s'.metadata[digest].Some?
      && var m := s'.metadata[digest].value;
      && m.algorithm == "sha256" && m.digest == digest && m.sizeBytes == |s.blobs[digest].data|
      && (m.createdAt == 0 ==> s.blobs[digest].modified == 0)
      && (digest in s.metadata && s.metadata[digest].Some? && s.metadata[digest] != s'.metadata[digest] ==>
        var was := s.metadata[digest].value;
        was.algorithm != "sha256" || was.digest != digest || was.sizeBytes != m.sizeBytes || was.createdAt == 0)
      && (digest !in s.metadata || s.metadata[digest] != s'.metadata[digest] ==>
        m.createdAt == s.blobs[digest].modified)
      && s'.blobs == s.blobs && s'.refs == s.refs
      && s'.metadata.Keys == s.metadata.Keys + {digest}
      && forall d | d in s.metadata && d != digest :: s'.metadata[d] == s.metadata[d]
  {}

  // ---------------------------------------------------------------- references

  /** The operation writes the reference file of key k. */
  predicate Touches(h: Hashes, op: Op, k: string) {
    (op.Bind? && h.name(Trim(op.name)) == k) || (op.Release? && h.name(Trim(op.name)) == k)
  }

  lemma {:induction false} StepKeepsReference(h: Hashes, s: State, op: Op, k: string)
    requires SoundHashes(h) && Inv(h, s) && k in s.refs && !Touches(h, op, k)
    ensures Kept(s, Apply(h, s, op), k)
  {
    assert ReferenceHolds(h, s, k);
    match op
    case Put(data, now) => PutKeeps(h, s, data, now, k);
    case Bind(name, digest, now) => BindKeeps(h, s, name, digest, now, k);
    case Release(name) => ReleaseKeeps(h, s, name, k);
    case Resolve(digest) =>
    case Collect => CollectKeeps(s, k);
  }

  /** A bound object survives any run that does not rebind or release its name, collections included. */
  lemma {:induction false} BoundSurvives(h: Hashes, s: State, ops: seq<Op>, k: string)
    requires SoundHashes(h) && Inv(h, s) && k in s.refs
    requires forall i | 0 <= i < |ops| :: !Touches(h, ops[i], k)
    ensures var s', d := RunFrom(h, s, ops), s.refs[k].digest;
      && k in s'.refs && s'.refs[k] == s.refs[k]
      && d in s'.blobs && s'.blobs[d] == s.blobs[d]
      && Lookup(h, s', s.refs[k].name) == Ok(s.refs[k])
    decreases |ops|
  {
    assert ReferenceHolds(h, s, k);
    if ops != [] {
      StepKeepsReference(h, s, ops[0], k);
      StepInv(h, s, ops[0]);
      BoundSurvives(h, Apply(h, s, ops[0]), ops[1..], k);
    }
  }

  /** Binding one name changes how another resolves exactly if the two share a reference file. */
  lemma {:induction false} BindDisturbsOnlyCollisions(h: Hashes, s: State, name: string, digest: string, now: int, other: string)
    requires Inv(h, s) && CanBind(s, name, digest) && Trim(other) != Trim(name)
    requires Lookup(h, s, other).Ok?
    ensures Lookup(h, AfterBind(h, s, name, digest, now), other) == Lookup(h, s, other)
      <==> h.name(Trim(other)) != h.name(Trim(name))
  {}

  /** What was put is read back, unless a different content already lies under its digest. */
  lemma {:induction false} PutThenRead(h: Hashes, s: State, data: Bytes, now: int)
    requires Inv(h, s)
    ensures var d, s' := h.content(data), AfterPut(h, s, data, now);
      && s'.refs == s.refs && d in s'.blobs
      && (s'.blobs[d].data == data <==> (d in s.blobs ==> s.blobs[d].data == data))
      && (d !in s.blobs ==> s'.blobs[d] == Blob(data, now))
      && (forall e | e in s.blobs :: e in s'.blobs && s'.blobs[e] == s.blobs[e])
  {}

  /** An object that is put and never bound does not outlive the next collection. */
  lemma {:induction false} UnboundIsCollected(h: Hashes, s: State, data: Bytes, now: int)
    requires SoundHashes(h) && Inv(h, s)
    ensures h.content(data) in AfterGC(AfterPut(h, s, data, now)).blobs <==> Live(s, h.content(data))
  {
    InvPut(h, s, data, now);
    PutThenRead(h, s, data, now);
    InvReadable(h, AfterPut(h, s, data, now));
    SameReferences(s, AfterPut(h, s, data, now), h.content(data));
  }

  lemma {:induction false} SameReferences(s: State, t: State, digest: string)
    requires s.refs == t.refs
    ensures Live(s, digest) <==> Live(t, digest)
  {}

  // ---------------------------------------------------------------- the store itself

  /** A reference and the file it was read from. */
  datatype Entry = Entry(key: string, reference: Reference)

  /** entries are the reference files of refs, each once. */
  ghost predicate Enumerates(entries: seq<Entry>, refs: map<string, Reference>) {
    && (forall e | e in entries :: e.key in refs && refs[e.key] == e.reference)
    && DistinctKeys(entries)
    && |entries| == |refs|
    && (forall k | k in refs :: Entry(k, refs[k]) in entries)
  }

  ghost predicate DistinctKeys(entries: seq<Entry>) {
    forall i, j | 0 <= i < j < |entries| :: entries[i].key != entries[j].key
  }

  ghost predicate SortedByName(entries: seq<Entry>) {
    forall i, j | 0 <= i < j < |entries| :: !Less(entries[j].reference.name, entries[i].reference.name)
  }

  function InsertEntry(e: Entry, entries: seq<Entry>): (sorted: seq<Entry>)
    ensures |sorted| == |entries| + 1
  {
    if entries == [] || Less(e.reference.name, entries[0].reference.name) then [e] + entries
    else [entries[0]] + InsertEntry(e, entries[1..])
  }

  lemma {:induction false} InsertEntryMembers(e: Entry, entries: seq<Entry>, x: Entry)
    ensures x in InsertEntry(e, entries) <==> x == e || x in entries
  {
    if !(entries == [] || Less(e.reference.name, entries[0].reference.name)) {
      InsertEntryMembers(e, entries[1..], x);
      assert x in entries <==> x == entries[0] || x in entries[1..];
    }
  }

  lemma {:induction false} InsertEntrySorted(e: Entry, entries: seq<Entry>)
    requires SortedByName(entries)
    ensures SortedByName(InsertEntry(e, entries))
  {
    if entries == [] {
    } else if Less(e.reference.name, entries[0].reference.name) {
      forall j | 0 <= j < |entries| ensures !Less(entries[j].reference.name, e.reference.name) {
        if Less(entries[j].reference.name, e.reference.name) {
          LessTransitive(entries[j].reference.name, e.reference.name, entries[0].reference.name);
          LessIrreflexive(entries[j].reference.name);
        }
      }
    } else {
      var rest := InsertEntry(e, entries[1..]);
      InsertEntrySorted(e, entries[1..]);
      forall j | 0 <= j < |rest| ensures !Less(rest[j].reference.name, entries[0].reference.name) {
        assert rest[j] in rest;
        InsertEntryMembers(e, entries[1..], rest[j]);
      }
    }
  }

  lemma {:induction false} InsertEntryDistinct(e: Entry, entries: seq<Entry>)
    requires DistinctKeys(entries) && forall x | x in entries :: x.key != e.key
    ensures DistinctKeys(InsertEntry(e, entries))
  {
    if entries == [] || Less(e.reference.name, entries[0].reference.name) {
      assert forall j | 0 <= j < |entries| :: entries[j] in entries;
    } else {
      var rest := InsertEntry(e, entries[1..]);
      assert entries[0] in entries;
      InsertEntryDistinct(e, entries[1..]);
      forall j | 0 <= j < |rest| ensures rest[j].key != entries[0].key {
        assert rest[j] in rest;
        InsertEntryMembers(e, entries[1..], rest[j]);
      }
      assert InsertEntry(e, entries) == [entries[0]] + rest;
    }
  }

  lemma {:induction false} OneMoreKey<V>(m: map<string, V>, k: string, v: V)
    requires k !in m
    ensures |m[k := v]| == |m| + 1
  {
    assert m[k := v].Keys == m.Keys + {k};
    assert |m[k := v]| == |m[k := v].Keys| && |m| == |m.Keys|;
  }

  lemma {:induction false} InsertEntryEnumerates(k: string, entries: seq<Entry>, read: map<string, Reference>,
                                                 r: Reference)
    requires Enumerates(entries, read) && k !in read
    ensures Enumerates(InsertEntry(Entry(k, r), entries), read[k := r])
  {
    var e := Entry(k, r);
    var sorted, more := InsertEntry(e, entries), read[k := r];
    forall x ensures x in sorted <==> x == e || x in entries {
      InsertEntryMembers(e, entries, x);
    }
    forall x | x in entries ensures x.key != k {}
    InsertEntryDistinct(e, entries);
    OneMoreKey(read, k, r);
    forall l | l in more ensures Entry(l, more[l]) in sorted {
      if l != k { assert Entry(l, read[l]) in entries; }
    }
  }

  /** What ListEntries has read so far. */
  ghost predicate ReadSoFar(entries: seq<Entry>, read: map<string, Reference>, refs: map<string, Reference>) {
    && Enumerates(entries, read) && SortedByName(entries)
    && (forall k | k in read :: k in refs && read[k] == refs[k] && ValidReference(read[k]))
  }

  lemma {:induction false} ReadNext(entries: seq<Entry>, read: map<string, Reference>, refs: map<string, Reference>,
                                    k: string)
    requires ReadSoFar(entries, read, refs) && k in refs && k !in read && ValidReference(refs[k])
    ensures ReadSoFar(InsertEntry(Entry(k, refs[k]), entries), read[k := refs[k]], refs)
  {
    InsertEntryEnumerates(k, entries, read, refs[k]);
    InsertEntrySorted(Entry(k, refs[k]), entries);
  }

  lemma {:induction false} ReadAll(entries: seq<Entry>, read: map<string, Reference>, refs: map<string, Reference>)
    requires ReadSoFar(entries, read, refs) && forall k :: k in read <==> k in refs
    ensures Enumerates(entries, refs) && SortedByName(entries)
    ensures forall k | k in refs :: ValidReference(refs[k])
  {
    assert read == refs;
  }

  ghost function Referrers(s: State, digest: string): set<string> {
    set k | k in s.refs && s.refs[k].digest == digest
  }

  /** How many of the first i entries refer to digest ... */
  function CountFor(entries: seq<Entry>, i: nat, digest: string): nat
    requires i <= |entries|
  {
    if i == 0 then 0
    else CountFor(entries, i - 1, digest) + if entries[i - 1].reference.digest == digest then 1 else 0
  }

  /** ... and under which keys. */
  ghost function KeysFor(entries: seq<Entry>, i: nat, digest: string): set<string>
    requires i <= |entries|
  {
    if i == 0 then {}
    else if entries[i - 1].reference.digest == digest then
      KeysFor(entries, i - 1, digest) + {entries[i - 1].key}
    else KeysFor(entries, i - 1, digest)
  }

  class Store {
    const hashes: Hashes
    var blobs: map<string, Blob>
    var metadata: map<string, Option<Metadata>>
    var refs: map<string, Reference>

    ghost function Abs(): State
      reads this
    {
      State(blobs, metadata, refs)
    }

    /** Open on an empty directory. */
    constructor (h: Hashes)
      ensures Abs() == EMPTY && Inv(h, Abs()) && hashes == h
    {
      hashes := h;
      blobs, metadata, refs := map[], map[], map[];
    }

    /** ensureMetadataLocked. */
    method EnsureMetadata(digest: string) returns (m: Metadata)
      requires digest in blobs
      modifies this
      ensures Abs() == Described(old(Abs()), digest)
      ensures digest in metadata && metadata[digest] == Some(m)
      ensures m.digest == digest && m.sizeBytes == |blobs[digest].data|
      ensures blobs == old(blobs) && refs == old(refs)
    {
      if digest in metadata && GoodMetadata(metadata[digest], digest, |blobs[digest].data|) {
        return metadata[digest].value;
      }
      m := Metadata(ALGORITHM, digest, |blobs[digest].data|, blobs[digest].modified);
      metadata := metadata[digest := Some(m)];
    }

    /** Put. */
    method Put(data: Bytes, now: int) returns (r: Result<Object, StoreError>)
      modifies this
      ensures Abs() == AfterPut(hashes, old(Abs()), data, now)
      ensures var d := hashes.content(data);
        r.Ok? <==> (d in old(blobs) ==> |old(blobs)[d].data| == |data|)
      ensures r.Ok? ==>
        r.value.digest == hashes.content(data) && r.value.sizeBytes == |data|
        && (r.value.deduplicated <==> hashes.content(data) in old(blobs))
        && hashes.content(data) in metadata && metadata[hashes.content(data)].Some?
        && r.value.createdAt == metadata[hashes.content(data)].value.createdAt
      ensures r.Err? ==> r.error == SizeMismatch && Abs() == old(Abs())
    {
      var digest := hashes.content(data);
      var deduplicated := digest in blobs;
      if !deduplicated {
        blobs := blobs[digest := Blob(data, now)];
      }
      if |blobs[digest].data| != |data| {
        return Err(SizeMismatch);
      }
      var m := EnsureMetadata(digest);
      return Ok(Object(digest, m.sizeBytes, m.createdAt, deduplicated));
    }

    /** Resolve. */
    method Resolve(digest: string) returns (r: Result<Object, StoreError>)
      modifies this
      ensures Abs() == AfterResolve(old(Abs()), digest)
      ensures r.Ok? <==> IsDigest(digest) && digest in old(blobs)
      ensures r.Ok? ==> r.value.digest == digest && r.value.sizeBytes == |old(blobs)[digest].data|
      ensures r.Ok? ==>
        && digest in metadata && metadata[digest].Some?
        && r.value.createdAt == metadata[digest].value.createdAt && !r.value.deduplicated
      ensures r.Err? ==> r.error == (if IsDigest(digest) then NoObject else InvalidDigest)
    {
      if !IsDigest(digest) {
        return Err(InvalidDigest);
      }
      if digest !in blobs {
        return Err(NoObject);
      }
      var m := EnsureMetadata(digest);
      return Ok(Object(digest, m.sizeBytes, m.createdAt, false));
    }

    /** Bind. */
    method Bind(name: string, digest: string, now: int) returns (r: Result<Reference, StoreError>)
      modifies this
      ensures Abs() == AfterBind(hashes, old(Abs()), name, digest, now)
      ensures r.Ok? <==> CanBind(old(Abs()), name, digest)
      ensures r.Ok? ==> Lookup(hashes, Abs(), name) == r
      ensures r.Ok? ==> r.value == Reference(Trim(name), "sha256", digest, |old(blobs)[digest].data|, now)
      ensures r.Ok? ==> refs == old(refs)[hashes.name(Trim(name)) := r.value] && blobs == old(blobs)
      ensures r == Err(NameRequired) <==> Trim(name) == ""
      ensures r == Err(InvalidDigest) <==> Trim(name) != "" && !IsDigest(digest)
      ensures r == Err(NoObject) <==> Trim(name) != "" && IsDigest(digest) && digest !in old(blobs)
      ensures r.Err? ==> Abs() == old(Abs())
    {
      var n := Trim(name);
      if n == "" {
        return Err(NameRequired);
      }
      var resolved := Resolve(digest);
      if resolved.Err? {
        return Err(resolved.error);
      }
      var reference := Reference(n, ALGORITHM, digest, resolved.value.sizeBytes, now);
      refs := refs[hashes.name(n) := reference];
      TrimIdempotent(name);
      return Ok(reference);
    }

    /** ResolveRef. */
    method ResolveRef(name: string) returns (r: Result<Reference, StoreError>)
      ensures r == Lookup(hashes, Abs(), name)
      ensures Inv(hashes, Abs()) ==> r != Err(CorruptReference) && r != Err(Unavailable)
    {
      if Inv(hashes, Abs()) && Found(hashes, Abs(), name).Ok? {
        assert ReferenceHolds(hashes, Abs(), hashes.name(Trim(name)));
      }
      var n := Trim(name);
      if n == "" {
        return Err(NameRequired);
      }
      var k := hashes.name(n);
      if k !in refs {
        return Err(NoReference);
      }
      var reference := refs[k];
      InvValid(hashes, Abs(), k);
      if !ValidReference(reference) {
        return Err(CorruptReference);
      }
      if reference.name != n {
        return Err(NameCollision);
      }
      if reference.digest !in blobs {
        return Err(Unavailable);
      }
      return Ok(reference);
    }

    /** Release. */
    method Release(name: string) returns (r: Result<bool, StoreError>)
      modifies this
      ensures Abs() == AfterRelease(hashes, old(Abs()), name)
      ensures refs == if r == Ok(true) then old(refs) - {hashes.name(Trim(name))} else old(refs)
      ensures r == Ok(true) ==> hashes.name(Trim(name)) in old(refs)
      ensures blobs == old(blobs) && metadata == old(metadata)
      ensures r == Ok(true) <==> Found(hashes, old(Abs()), name).Ok?
      ensures r == Ok(false) <==> Found(hashes, old(Abs()), name) == Err(NoReference)
      ensures r.Err? ==> Found(hashes, old(Abs()), name).Err? && r.error == Found(hashes, old(Abs()), name).error
    {
      var n := Trim(name);
      if n == "" {
        return Err(NameRequired);
      }
      var k := hashes.name(n);
      if k !in refs {
        return Ok(false);
      }
      if !ValidReference(refs[k]) {
        return Err(CorruptReference);
      }
      if refs[k].name != n {
        return Err(NameCollision);
      }
      refs := refs - {k};
      return Ok(true);
    }

    /** listReferencesLocked, with the file each reference was read from. */
    method ListEntries() returns (r: Result<seq<Entry>, StoreError>)
      ensures r.Ok? <==> Readable(Abs())
      ensures r.Ok? ==> Enumerates(r.value, refs) && SortedByName(r.value)
    {
      var entries: seq<Entry> := [];
      ghost var read: map<string, Reference> := map[];
      var unread := refs.Keys;
      while unread != {}
        invariant unread <= refs.Keys && forall k :: k in read <==> k in refs && k !in unread
        invariant ReadSoFar(entries, read, refs)
        decreases |unread|
      {
        var k :| k in unread;
        if !ValidReference(refs[k]) {
          return Err(CorruptReference);
        }
        ReadNext(entries, read, refs, k);
        entries := InsertEntry(Entry(k, refs[k]), entries);
        read := read[k := refs[k]];
        unread := unread - {k};
      }
      ReadAll(entries, read, refs);
      return Ok(entries);
    }

    /** The counting loop of RefCount. */
    static method CountKeys(entries: seq<Entry>, digest: string) returns (count: nat)
      ensures count == CountFor(entries, |entries|, digest)
    {
      count := 0;
      var i := 0;
      while i < |entries|
        invariant 0 <= i <= |entries| && count == CountFor(entries, i, digest)
      {
        if entries[i].reference.digest == digest {
          count := count + 1;
        }
        i := i + 1;
      }
    }

    /** RefCount. */
    method RefCount(digest: string) returns (r: Result<nat, StoreError>)
      ensures r.Ok? <==> IsDigest(digest) && Readable(Abs())
      ensures r.Ok? ==> r.value == |Referrers(Abs(), digest)|
      ensures r.Ok? ==> (r.value == 0 <==> !Live(Abs(), digest))
    {
      if !IsDigest(digest) {
        return Err(InvalidDigest);
      }
      var entries := ListEntries();
      if entries.Err? {
        return Err(entries.error);
      }
      var count := CountKeys(entries.value, digest);
      AllReferrers(Abs(), entries.value, digest);
      LiveMeansReferred(Abs(), digest);
      return Ok(count);
    }

    /** The walk of Stats over the blob directory. */
    method CountObjects() returns (objects: nat, bytes: nat)
      ensures objects == |Objects(Abs())| && bytes == BytesIn(Abs(), Objects(Abs()))
    {
      objects, bytes := 0, 0;
      ghost var all := Objects(Abs());
      var unseen := blobs.Keys;
      Unseen(all, unseen);
      while unseen != {}
        invariant unseen <= blobs.Keys
        invariant objects == |all - unseen| && bytes == BytesIn(Abs(), all - unseen)
        decreases |unseen|
      {
        var name :| name in unseen;
        Visit(all, unseen, name);
        if IsDigest(name) {
          BytesInAdd(Abs(), all - unseen, name);
          objects, bytes := objects + 1, bytes + |blobs[name].data|;
        }
        unseen := unseen - {name};
      }
      assert all - {} == all;
    }

    /** Stats. */
    method Statistics() returns (r: Result<Stats, StoreError>)
      ensures r.Ok? <==> Readable(Abs())
      ensures r.Ok? ==> r.value == Stats(|Objects(Abs())|, BytesIn(Abs(), Objects(Abs())), |refs|)
    {
      var objects, bytes := CountObjects();
      var entries := ListEntries();
      if entries.Err? {
        return Err(entries.error);
      }
      return Ok(Stats(objects, bytes, |entries.value|));
    }

    /** The set of digests GC keeps. */
    method LiveDigests() returns (r: Result<set<string>, StoreError>)
      ensures r.Ok? <==> Readable(Abs())
      ensures r.Ok? ==> forall d :: d in r.value <==> Live(Abs(), d)
    {
      var entries := ListEntries();
      if entries.Err? {
        return Err(entries.error);
      }
      var live: set<string> := {};
      var i := 0;
      while i < |entries.value|
        invariant 0 <= i <= |entries.value|
        invariant forall d | d in live :: Live(Abs(), d)
        invariant forall j | 0 <= j < i :: entries.value[j].reference.digest in live
      {
        var e := entries.value[i];
        assert e in entries.value && e.key in refs;
        live := live + {e.reference.digest};
        i := i + 1;
      }
      forall d | Live(Abs(), d) ensures d in live {
        var k :| k in refs && refs[k].digest == d;
        assert Entry(k, refs[k]) in entries.value;
      }
      return Ok(live);
    }

    /** The removal of one object and its metadata. */
    method RemoveObject(digest: string)
      requires digest in blobs
      modifies this
      ensures blobs == old(blobs) - {digest} && metadata == old(metadata) - {digest} && refs == old(refs)
    {
      blobs, metadata := blobs - {digest}, metadata - {digest};
    }

    /** The callback of the walk of GC; gone and stay are the objects removed and retained so far. */
    method SweepOne(name: string, live: set<string>, r: Report,
                    ghost before: State, ghost gone: set<string>, ghost stay: set<string>)
      returns (r': Report, ghost gone': set<string>, ghost stay': set<string>)
      requires Abs() == Without(before, gone) && r == Tally(before, gone, stay)
      requires name in before.blobs && name !in gone && name !in stay
      modifies this
      ensures Abs() == Without(before, gone') && r' == Tally(before, gone', stay')
      ensures gone' == if IsDigest(name) && name !in live then gone + {name} else gone
      ensures stay' == if IsDigest(name) && name in live then stay + {name} else stay
    {
      r', gone', stay' := r, gone, stay;
      if IsDigest(name) {
        if name in live {
          r' := r.(retainedObjects := r.retainedObjects + 1);
          stay' := stay + {name};
        } else {
          RemoveNext(before, gone, stay, name);
          r' := r.(removedObjects := r.removedObjects + 1, removedBytes := r.removedBytes + |blobs[name].data|);
          RemoveObject(name);
          gone' := gone + {name};
        }
      }
    }

    /** The walk of GC over the blob directory. */
    method Sweep(live: set<string>, ghost garbage: set<string>, ghost kept: set<string>) returns (r: Report)
      requires forall d :: d in garbage <==> d in blobs && IsDigest(d) && d !in live
      requires forall d :: d in kept <==> d in blobs && IsDigest(d) && d in live
      modifies this
      ensures blobs == old(blobs) - garbage && metadata == old(metadata) - garbage && refs == old(refs)
      ensures r == Report(|garbage|, BytesIn(old(Abs()), garbage), |kept|)
    {
      ghost var before := Abs();
      ghost var gone: set<string>, stay: set<string> := {}, {};
      r := Report(0, 0, 0);
      WithoutNothing(before);
      var unseen := blobs.Keys;
      while unseen != {}
        invariant unseen <= before.blobs.Keys
        invariant forall d :: d in gone <==> d in garbage && d !in unseen
        invariant forall d :: d in stay <==> d in kept && d !in unseen
        invariant Abs() == Without(before, gone) && r == Tally(before, gone, stay)
        decreases |unseen|
      {
        var name :| name in unseen;
        r, gone, stay := SweepOne(name, live, r, before, gone, stay);
        unseen := unseen - {name};
      }
      assert gone == garbage && stay == kept;
    }

    /** GC. */
    method Collect() returns (r: Result<Report, StoreError>)
      modifies this
      ensures r.Ok? <==> old(Readable(Abs()))
      ensures Abs() == AfterGC(old(Abs()))
      ensures r.Ok? ==> r.value == ReportOf(old(Abs()))
    {
      ghost var before := Abs();
      var live := LiveDigests();
      if live.Err? {
        return Err(live.error);
      }
      var report := Sweep(live.value, GarbageOf(before), Objects(before) - GarbageOf(before));
      return Ok(report);
    }
  }

  lemma {:induction false} Unseen<T>(all: set<T>, unseen: set<T>)
    requires all <= unseen
    ensures all - unseen == {}
  {}

  ghost function Without(s: State, gone: set<string>): State {
    s.(blobs := s.blobs - gone, metadata := s.metadata - gone)
  }

  ghost function Tally(s: State, gone: set<string>, kept: set<string>): Report {
    Report(|gone|, BytesIn(s, gone), |kept|)
  }

  lemma {:induction false} WithoutNothing(s: State)
    ensures Without(s, {}) == s && Tally(s, {}, {}) == Report(0, 0, 0)
  {}

  lemma {:induction false} RemoveNext(s: State, gone: set<string>, kept: set<string>, d: string)
    requires d in s.blobs && d !in gone
    ensures d in Without(s, gone).blobs && Without(s, gone).blobs[d] == s.blobs[d]
    ensures Without(s, gone + {d}).blobs == Without(s, gone).blobs - {d}
    ensures Without(s, gone + {d}).metadata == Without(s, gone).metadata - {d}
    ensures Tally(s, gone + {d}, kept) == Report(|gone| + 1, BytesIn(s, gone) + |s.blobs[d].data|, |kept|)
  {
    BytesInAdd(s, gone, d);
  }

  /** What visiting d adds to the members of all seen so far. */
  lemma {:induction false} Visit<T>(all: set<T>, unseen: set<T>, d: T)
    requires d in unseen
    ensures d !in all - unseen
    ensures all - (unseen - {d}) == if d in all then all - unseen + {d} else all - unseen
  {}

  lemma {:induction false} LiveMeansReferred(s: State, digest: string)
    ensures |Referrers(s, digest)| == 0 <==> !Live(s, digest)
  {
    if Live(s, digest) {
      var k :| k in s.refs && s.refs[k].digest == digest;
      assert k in Referrers(s, digest);
    }
  }

  lemma {:induction false} InvValid(h: Hashes, s: State, k: string)
    requires k in s.refs
    ensures Inv(h, s) ==> ReferenceHolds(h, s, k)
  {}

  lemma {:induction false} KeysForIn(entries: seq<Entry>, i: nat, digest: string, k: string)
    requires i <= |entries|
    ensures k in KeysFor(entries, i, digest) <==>
      exists j | 0 <= j < i :: entries[j].key == k && entries[j].reference.digest == digest
  {
    if i > 0 { KeysForIn(entries, i - 1, digest, k); }
  }

  lemma {:induction false} CountForKeys(entries: seq<Entry>, i: nat, digest: string)
    requires i <= |entries| && DistinctKeys(entries)
    ensures CountFor(entries, i, digest) == |KeysFor(entries, i, digest)|
  {
    if i > 0 {
      CountForKeys(entries, i - 1, digest);
      KeysForIn(entries, i - 1, digest, entries[i - 1].key);
    }
  }

  lemma {:induction false} AllReferrers(s: State, entries: seq<Entry>, digest: string)
    requires Enumerates(entries, s.refs)
    ensures CountFor(entries, |entries|, digest) == |Referrers(s, digest)|
  {
    CountForKeys(entries, |entries|, digest);
    forall k ensures k in KeysFor(entries, |entries|, digest) <==> k in Referrers(s, digest) {
      KeysForIn(entries, |entries|, digest, k);
      if k in Referrers(s, digest) {
        assert Entry(k, s.refs[k]) in entries;
      }
    }
    assert KeysFor(entries, |entries|, digest) == Referrers(s, digest);
  }
}
