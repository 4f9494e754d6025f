/** The loops behind the consent checks (core/consent_purpose.go:283-301, core/pipeline.go:1481-1556). */
module ConsentChecks {
  import opened Prelude
  import opened ConsentPurposes
  import opened ConsentIntegrity

  datatype Check =
    | Passed
    | PurposeNotExist(purpose: PurposeId)
    | LocationNotSet(purpose: PurposeId)
    | PipelineNotFound

  /** Validates the purposes a pipeline is created with (`existing` is None), or updated to. Only the
      purposes an update adds are looked at; yet in a state that transactions can reach, an update passes
      exactly when every purpose it names exists and is located. */
  method CheckRequiredPurposes(s: State, w: WorkspaceId, existing: Option<PipelineId>, target: Target, purposes: seq<PurposeId>)
    returns (check: Check)
    ensures purposes == [] ==> check == Passed
    ensures purposes != [] && w !in s.workspaces ==> check == PurposeNotExist(purposes[0])
    ensures purposes != [] && w in s.workspaces && existing.Some? && existing.value !in s.pipelines ==> check == PipelineNotFound
    ensures purposes != [] && w in s.workspaces && existing.None? ==> (check.Passed? <==> Accepts(s, w, target, purposes))
    ensures purposes != [] && w in s.workspaces && existing.Some? && existing.value in s.pipelines ==>
      (check.Passed? <==> Accepts(s, w, target, Added(s.pipelines[existing.value].required, purposes)))
    ensures (&& Integrity(s) && existing.Some? && existing.value in s.pipelines && w in s.workspaces
             && s.pipelines[existing.value].workspace == w && s.pipelines[existing.value].target == target) ==>
      (check.Passed? <==> Accepts(s, w, target, purposes))
    ensures check.PurposeNotExist? && w in s.workspaces ==> check.purpose in purposes && !ExistsIn(s, w, check.purpose)
    ensures check.LocationNotSet? ==> check.purpose in purposes && ExistsIn(s, w, check.purpose) && !LocatedIn(s, w, check.purpose, target)
  {
    if |purposes| == 0 {
      return Passed;
    }
    if w !in s.workspaces {
      return PurposeNotExist(purposes[0]);
    }
    var added := purposes;
    if existing.Some? {
      if existing.value !in s.pipelines {
        return PipelineNotFound;
      }
      var current := s.pipelines[existing.value].required;
      added := NotAmong(current, purposes);
      if Integrity(s) { assert Intact(s, s.pipelines[existing.value]); }
      if |added| == 0 {
        return Passed;
      }
    }
    var missing := FirstMissing(s, w, added);
    if missing.Some? {
      return PurposeNotExist(missing.value);
    }
    for i := 0 to |added|
      invariant forall j :: 0 <= j < i ==> LocatedIn(s, w, added[j], target)
    {
      assert added[i] in added;
      if !Located(s.purposes[added[i]], target) {
        return LocationNotSet(added[i]);
      }
    }
    return Passed;
  }

  lemma AddedAssociates(a: seq<PurposeId>, b: seq<PurposeId>, c: seq<PurposeId>)
    ensures a + (b + c) == (a + b) + c
  {
  }

  lemma {:induction false} AddedSnoc(current: seq<PurposeId>, purposes: seq<PurposeId>, q: PurposeId)
    ensures Added(current, purposes + [q]) == Added(current, purposes) + (if q in current then [] else [q])
  {
    var last := if q in current then [] else [q];
    if purposes == [] {
      assert [] + [q] == [q] && [q][1..] == [];
      assert Added(current, [q]) == last + [];
    } else {
      var head := if purposes[0] in current then [] else [purposes[0]];
      AddedSnoc(current, purposes[1..], q);
      assert (purposes + [q])[0] == purposes[0] && (purposes + [q])[1..] == purposes[1..] + [q];
      AddedAssociates(head, Added(current, purposes[1..]), last);
    }
  }

  /** The purposes that are not among the current ones, in their order. */
  method NotAmong(current: seq<PurposeId>, purposes: seq<PurposeId>) returns (added: seq<PurposeId>)
    ensures added == Added(current, purposes)
  {
    added := [];
    for i := 0 to |purposes|
      invariant added == Added(current, purposes[..i])
    {
      AddedSnoc(current, purposes[..i], purposes[i]);
      assert purposes[..i] + [purposes[i]] == purposes[..i + 1];
      if purposes[i] !in current {
        added := added + [purposes[i]];
      }
    }
    assert purposes[..|purposes|] == purposes;
  }

  method FirstMissing(s: State, w: WorkspaceId, purposes: seq<PurposeId>) returns (missing: Option<PurposeId>)
    ensures missing.None? <==> forall q :: q in purposes ==> ExistsIn(s, w, q)
    ensures missing.Some? ==> missing.value in purposes && !ExistsIn(s, w, missing.value)
  {
    for i := 0 to |purposes|
      invariant forall j :: 0 <= j < i ==> ExistsIn(s, w, purposes[j])
    {
      if !ExistsIn(s, w, purposes[i]) {
        return Some(purposes[i]);
      }
    }
    return None;
  }

  const MAX_EVENT_LOCATIONS := 5
  const MAX_LOCATION_LENGTH := 1024

  datatype LocationError = TooMany | BadCode(code: string) | Duplicated(code: string)

  /** A purpose code is not empty, not too long and free of the NUL character. */
  predicate ValidCode(code: string) {
    0 < |code| <= MAX_LOCATION_LENGTH && '\0' !in code
  }

  /** Accepts at most five valid purpose codes, all distinct. */
  method ValidateEventLocations(codes: seq<string>) returns (error: Option<LocationError>)
    ensures error.None? <==>
      && |codes| <= 5
      && (forall i :: 0 <= i < |codes| ==> 1 <= |codes[i]| <= 1024 && forall k :: 0 <= k < |codes[i]| ==> codes[i][k] != '\0')
      && (forall i, j :: 0 <= i < j < |codes| ==> codes[i] != codes[j])
    ensures error.Some? && error.value.Duplicated? ==>
      exists i, j :: 0 <= i < j < |codes| && codes[i] == codes[j] == error.value.code
  {
    if |codes| > MAX_EVENT_LOCATIONS {
      return Some(TooMany);
    }
    var seen: set<string> := {};
    for i := 0 to |codes|
      invariant seen == set j | 0 <= j < i :: codes[j]
      invariant forall j :: 0 <= j < i ==> ValidCode(codes[j])
      invariant forall j, k :: 0 <= j < k < i ==> codes[j] != codes[k]
    {
      if !ValidCode(codes[i]) {
        return Some(BadCode(codes[i]));
      }
      if codes[i] in seen {
        return Some(Duplicated(codes[i]));
      }
      seen := seen + {codes[i]};
    }
    return None;
  }
}
