/** Every operation leaves the store's tree well formed. */
module OutputShape {
  import opened Digests
  import opened Paths
  import opened OutputTree
  import opened Outputs
  import opened OutputRoundTrip

  lemma {:induction false} BegunWellFormed(fs: Tree, id: string)
    requires WellFormed(fs) && IsName(id)
    ensures WellFormed(fs[[STAGING, id] := Dir])
  {
    var after := fs[[STAGING, id] := Dir];
    assert IsName(STAGING);
    forall p, i | p in after && 0 < i < |p| ensures IsDir(after, p[..i]) {
      if p == [STAGING, id] {
        assert p[..i] == [STAGING];
      } else {
        assert IsDir(fs, p[..i]);
      }
    }
  }

  lemma {:induction false} ProtectedWellFormed(fs: Tree, files: set<Path>)
    requires WellFormed(fs)
    ensures WellFormed(ProtectAll(fs, files))
  {
    var after := ProtectAll(fs, files);
    forall p, i | p in after && 0 < i < |p| ensures IsDir(after, p[..i]) {
      assert IsDir(fs, p[..i]);
    }
    assert IsDir(fs, [STAGING]) && IsDir(fs, [COMMITTED]);
  }

  lemma {:induction false} SealedWellFormed(fs: Tree, dir: Path, bytes: Bytes)
    requires WellFormed(fs) && IsDir(fs, dir) && dir + [MANIFEST] !in fs
    ensures WellFormed(Sealed(fs, dir, bytes))
  {
    var safe := ProtectAll(fs, Artifacts(fs, dir));
    var after := Sealed(fs, dir, bytes);
    ProtectedWellFormed(fs, Artifacts(fs, dir));
    assert IsName(MANIFEST) && IsNames(dir);
    assert IsNames(dir + [MANIFEST]);
    forall p, i | p in after && 0 < i < |p| ensures IsDir(after, p[..i]) {
      if p == dir + [MANIFEST] {
        assert p[..i] == dir[..i];
        if i < |dir| { assert IsDir(safe, dir[..i]); } else { assert dir[..i] == dir; }
        assert p[..i] != p;
      } else {
        assert IsDir(safe, p[..i]);
      }
    }
  }

  lemma {:induction false} MadeAllWellFormed(fs: Tree, dir: Path)
    requires WellFormed(fs) && CanMakeAll(fs, dir) && IsNames(dir)
    ensures WellFormed(MadeAll(fs, dir))
  {
    var after := MadeAll(fs, dir);
    forall p | p in after ensures p != [] && IsNames(p) {
      MadeAllAt(fs, dir, p);
    }
    forall p, i | p in after && 0 < i < |p| ensures IsDir(after, p[..i]) {
      MadeAllAt(fs, dir, p);
      MadeAllAt(fs, dir, p[..i]);
      if p in fs {
        assert IsDir(fs, p[..i]);
      } else {
        assert p[..i] == dir[..i];
      }
    }
    assert IsDir(fs, [STAGING]) && IsDir(fs, [COMMITTED]);
  }

  lemma {:induction false} RenamedWellFormed(fs: Tree, from: Path, to: Path)
    requires WellFormed(fs) && IsDir(fs, from) && |from| > 1 && |to| > 1 && IsNames(to)
    requires to !in fs && IsDir(fs, Parent(to)) && !(from <= to)
    ensures WellFormed(Renamed(fs, from, to))
  {
    var after := Renamed(fs, from, to);
    NothingBelow(fs, to);
    forall p | p in after ensures p != [] && IsNames(p) {
      RenamedName(fs, from, to, p);
    }
    forall p, i | p in after && 0 < i < |p| ensures IsDir(after, p[..i]) {
      RenamedParent(fs, from, to, p, i);
    }
    RenamedElsewhere(fs, from, to, [STAGING]);
    RenamedElsewhere(fs, from, to, [COMMITTED]);
  }

  lemma {:induction false} RenamedName(fs: Tree, from: Path, to: Path, p: Path)
    requires WellFormed(fs) && to != [] && IsNames(to) && forall q | q in fs :: !(to <= q)
    requires p in Renamed(fs, from, to)
    ensures p != [] && IsNames(p)
  {
    if to <= p {
      var q := p[|to|..];
      assert to + q == p;
      RenamedBelow(fs, from, to, q);
      assert IsNames(from + q);
      assert forall i | 0 <= i < |q| :: (from + q)[|from| + i] == q[i];
    } else {
      RenamedElsewhere(fs, from, to, p);
    }
  }

  lemma {:induction false} PrefixTransitive(a: Path, b: Path, c: Path)
    ensures a <= b && b <= c ==> a <= c
  {}

  lemma {:induction false} RenamedParentInside(fs: Tree, from: Path, to: Path, q: Path, k: nat)
    requires WellFormed(fs) && IsDir(fs, from)
    requires forall p | p in fs :: !(to <= p)
    requires from + q in fs && k < |q|
    ensures IsDir(Renamed(fs, from, to), to + q[..k])
  {
    RenamedBelow(fs, from, to, q[..k]);
    if k == 0 {
      assert from + q[..k] == from;
    } else {
      assert from + q[..k] == (from + q)[..|from| + k];
      PrefixDir(fs, from + q, from + q[..k]);
    }
  }

  lemma {:induction false} RenamedParentAbove(fs: Tree, from: Path, to: Path, i: nat)
    requires WellFormed(fs) && to != [] && IsDir(fs, Parent(to)) && !(from <= to) && 0 < i < |to|
    ensures IsDir(Renamed(fs, from, to), to[..i])
  {
    var d := to[..i];
    assert d == Parent(to)[..i] && d <= Parent(to) && d <= to;
    PrefixTransitive(from, d, to);
    RenamedElsewhere(fs, from, to, d);
    if i < |to| - 1 { PrefixDir(fs, Parent(to), d); }
  }

  lemma {:induction false} RenamedParent(fs: Tree, from: Path, to: Path, p: Path, i: nat)
    requires WellFormed(fs) && IsDir(fs, from) && to != [] && IsDir(fs, Parent(to)) && !(from <= to)
    requires forall q | q in fs :: !(to <= q)
    requires p in Renamed(fs, from, to) && 0 < i < |p|
    ensures IsDir(Renamed(fs, from, to), p[..i])
  {
    if to <= p {
      if i < |to| {
        assert p[..i] == to[..i];
        RenamedParentAbove(fs, from, to, i);
      } else {
        var q := p[|to|..];
        assert to + q == p && to + q[..i - |to|] == p[..i];
        RenamedBelow(fs, from, to, q);
        RenamedParentInside(fs, from, to, q, i - |to|);
      }
    } else {
      RenamedElsewhere(fs, from, to, p);
      assert IsDir(fs, p[..i]);
      PrefixTransitive(from, p[..i], p);
      PrefixTransitive(to, p[..i], p);
      RenamedElsewhere(fs, from, to, p[..i]);
    }
  }

  lemma {:induction false} PublishedWellFormed(fs: Tree, t: Transaction, bytes: Bytes)
    requires WellFormed(fs) && Begun(t) && t.final !in fs && t.staging + [MANIFEST] !in fs
    requires IsDir(fs, t.staging) && CanMakeAll(fs, Parent(t.final))
    ensures WellFormed(Published(fs, t, bytes))
  {
    BegunPaths(t);
    var sealed := Sealed(fs, t.staging, bytes);
    var parent := Parent(t.final);
    SealedWellFormed(fs, t.staging, bytes);
    forall i | 0 < i <= |parent| ensures parent[..i] in sealed ==> sealed[parent[..i]].Dir? {
      SealedAt(fs, t.staging, bytes, parent[..i]);
      assert parent[..i][0] == COMMITTED && (t.staging + [MANIFEST])[0] == STAGING;
    }
    MadeAllWellFormed(sealed, parent);
    var made := MadeAll(sealed, parent);
    MadeAllAt(sealed, parent, t.final);
    MadeAllAt(sealed, parent, t.staging);
    MadeAllAt(sealed, parent, parent);
    SealedAt(fs, t.staging, bytes, t.final);
    SealedAt(fs, t.staging, bytes, t.staging);
    assert parent[..|parent|] == parent;
    RenamedWellFormed(made, t.staging, t.final);
  }

  lemma {:induction false} RemovedWellFormed(fs: Tree, dir: Path)
    requires WellFormed(fs) && |dir| > 1
    ensures WellFormed(RemovedAll(fs, dir))
  {
    var after := RemovedAll(fs, dir);
    forall p, i | p in after && 0 < i < |p| ensures IsDir(after, p[..i]) {
      assert IsDir(fs, p[..i]);
      assert dir <= p[..i] ==> dir <= p;
    }
    assert IsDir(fs, [STAGING]) && IsDir(fs, [COMMITTED]);
  }
}
