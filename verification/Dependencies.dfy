/** normalizeDependencies: trimmed, free of repeats and sorted. */
module Dependencies {
  import opened Text

  datatype DependencyError = EmptyDependency | SelfDependency

  function Fault(agentID: string, dependency: string): Option<DependencyError> {
    var d := Trim(dependency);
    if d == "" then Some(EmptyDependency)
    else if d == agentID then Some(SelfDependency)
    else None
  }

  ghost predicate FirstFault(agentID: string, dependencies: seq<string>, i: nat, error: DependencyError) {
    && i < |dependencies|
    && Fault(agentID, dependencies[i]) == Some(error)
    && forall j | 0 <= j < i :: Fault(agentID, dependencies[j]).None?
  }

  predicate HasFault(agentID: string, dependencies: seq<string>) {
    exists i | 0 <= i < |dependencies| :: Fault(agentID, dependencies[i]).Some?
  }

  ghost predicate Mentions(dependencies: seq<string>, d: string) {
    exists i | 0 <= i < |dependencies| :: Trim(dependencies[i]) == d
  }

  ghost predicate Normalized(dependencies: seq<string>, result: seq<string>) {
    && StrictlySorted(result)
    && forall d :: d in result <==> Mentions(dependencies, d)
  }

  method Normalize(agentID: string, dependencies: seq<string>)
    returns (result: Result<seq<string>, DependencyError>)
    ensures result.Ok? ==> Normalized(dependencies, result.value)
    ensures result.Ok? ==> agentID !in result.value && "" !in result.value
    ensures result.Ok? <==> !HasFault(agentID, dependencies)
    ensures result.Ok? <==>
      forall i | 0 <= i < |dependencies| :: Trim(dependencies[i]) != "" && Trim(dependencies[i]) != agentID
    ensures result == Err(EmptyDependency) ==> exists i | 0 <= i < |dependencies| ::
      && Trim(dependencies[i]) == ""
      && forall j | 0 <= j < i :: Trim(dependencies[j]) != "" && Trim(dependencies[j]) != agentID
    ensures result == Err(SelfDependency) ==> exists i | 0 <= i < |dependencies| ::
      && Trim(dependencies[i]) == agentID && agentID != ""
      && forall j | 0 <= j < i :: Trim(dependencies[j]) != "" && Trim(dependencies[j]) != agentID
    ensures result.Err? ==> exists i :: FirstFault(agentID, dependencies, i, result.error)
  {
    var seen: set<string> := {};
    var kept: seq<string> := [];
    for index := 0 to |dependencies|
      invariant Distinct(kept)
      invariant forall d :: d in kept <==> d in seen
      invariant forall d :: d in seen <==> exists i | 0 <= i < index :: Trim(dependencies[i]) == d
      invariant forall i | 0 <= i < index :: Fault(agentID, dependencies[i]).None?
      invariant "" !in seen && agentID !in seen
    {
      var dependencyID := Trim(dependencies[index]);
      if dependencyID == "" {
        assert FirstFault(agentID, dependencies, index, EmptyDependency);
        return Err(EmptyDependency);
      }
      if dependencyID == agentID {
        assert FirstFault(agentID, dependencies, index, SelfDependency);
        return Err(SelfDependency);
      }
      if dependencyID !in seen {
        seen := seen + {dependencyID};
        kept := kept + [dependencyID];
      }
    }
    SortSorted(kept);
    assert forall d :: d in Sort(kept) <==> Mentions(dependencies, d);
    result := Ok(Sort(kept));
  }

  /** The normal form is determined by which IDs are named: order and repetition do not matter. */
  lemma {:induction false} NormalizedUnique(a: seq<string>, b: seq<string>, ra: seq<string>, rb: seq<string>)
    requires Normalized(a, ra) && Normalized(b, rb)
    requires forall d :: Mentions(a, d) <==> Mentions(b, d)
    ensures ra == rb
  {
    SortedUnique(ra, rb);
  }
}
