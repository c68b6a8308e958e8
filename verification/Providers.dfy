/** Provider registration and the completion test (provider_helpers.go). */
module Providers {
  import opened Types
  import opened Sets

  datatype Provider = Provider(operatorName: string, active: bool)

  /** Outcome of looking up the operator's own registration. */
  datatype Activity = ListFailed | Skip | Proceed

  /** Number of active entries of the list. */
  function ActiveCount(list: seq<Provider>): nat {
    if list == [] then 0
    else ActiveCount(list[..|list| - 1]) + if list[|list| - 1].active then 1 else 0
  }

  /** Names of the operators that have an active entry. */
  ghost function ActiveNames(list: seq<Provider>): set<string> {
    set i | 0 <= i < |list| && list[i].active :: list[i].operatorName
  }

  /** The first entry carrying the name is active. */
  ghost predicate SelfActive(list: seq<Provider>, name: string) {
    exists i :: 0 <= i < |list| && list[i] == Provider(name, true)
                && forall j :: 0 <= j < i ==> list[j].operatorName != name
  }

  ghost predicate UniqueNames(list: seq<Provider>) {
    forall i, j :: 0 <= i < j < |list| ==> list[i].operatorName != list[j].operatorName
  }

  ghost predicate UniqueActiveNames(list: seq<Provider>) {
    forall i, j :: 0 <= i < j < |list| && list[i].active && list[j].active
                   ==> list[i].operatorName != list[j].operatorName
  }

  predicate ShouldMarkAsCompleted(activeProviderCount: nat, contributorCount: nat) {
    activeProviderCount > 0 && contributorCount >= activeProviderCount
  }

  method CountActiveProviders(list: seq<Provider>) returns (activeCount: nat)
    ensures activeCount == ActiveCount(list)
  {
    activeCount := 0;
    for i := 0 to |list|
      invariant activeCount == ActiveCount(list[..i])
    {
      assert list[..i + 1][..i] == list[..i];
      if list[i].active {
        activeCount := activeCount + 1;
      }
    }
    assert list[..|list|] == list;
  }

  method CheckProviderActive(listing: Result<seq<Provider>, string>, operatorName: string)
    returns (activity: Activity)
    ensures activity.ListFailed? <==> listing.Err?
    ensures activity.Proceed? <==> listing.Ok? && SelfActive(listing.value, operatorName)
    ensures listing.Ok? ==>
              (activity.Proceed? <==>
                 exists i :: 0 <= i < |listing.value| && listing.value[i].operatorName == operatorName
                             && listing.value[i].active
                             && forall j :: 0 <= j < i ==> listing.value[j].operatorName != operatorName)
  {
    if listing.Err? {
      return ListFailed;
    }
    var list := listing.value;
    var thisProvider: Option<Provider> := None;
    for i := 0 to |list|
      invariant thisProvider.None?
      invariant forall j :: 0 <= j < i ==> list[j].operatorName != operatorName
    {
      if list[i].operatorName == operatorName {
        thisProvider := Some(list[i]);
        assert list[i].active ==> list[i] == Provider(operatorName, true);
        break;
      }
    }
    if thisProvider.None? || !thisProvider.value.active {
      return Skip;
    }
    return Proceed;
  }

  // ---------- what the count means ----------

  /** Counting entries never undercounts operators, and is exact precisely when no operator
      has two active entries. */
  lemma {:induction false} ActiveCountIsCardinality(list: seq<Provider>)
    ensures |ActiveNames(list)| <= ActiveCount(list)
    ensures |ActiveNames(list)| == ActiveCount(list) <==> UniqueActiveNames(list)
  {
    if list == [] {
      assert ActiveNames(list) == {};
    } else {
      var init, last := list[..|list| - 1], list[|list| - 1];
      ActiveCountIsCardinality(init);
      if last.active {
        assert ActiveNames(list) == ActiveNames(init) + {last.operatorName};
        if last.operatorName in ActiveNames(init) {
          var i :| 0 <= i < |init| && init[i].active && init[i].operatorName == last.operatorName;
          assert list[i].active && list[|list| - 1].active;
          assert !UniqueActiveNames(list);
          assert ActiveNames(list) == ActiveNames(init);
        } else {
          UniqueActiveExtends(list);
        }
      } else {
        assert ActiveNames(list) == ActiveNames(init);
        UniqueActiveExtends(list);
      }
    }
  }

  lemma UniqueActiveExtends(list: seq<Provider>)
    requires list != []
    requires list[|list| - 1].active ==> list[|list| - 1].operatorName !in ActiveNames(list[..|list| - 1])
    ensures UniqueActiveNames(list) <==> UniqueActiveNames(list[..|list| - 1])
  {
    var init := list[..|list| - 1];
    forall i, j | 0 <= i < j < |list| && list[i].active && list[j].active && UniqueActiveNames(init)
      ensures list[i].operatorName != list[j].operatorName
    {
      assert list[i] == init[i];
      if j < |init| {
        assert list[j] == init[j];
      } else {
        assert init[i].operatorName in ActiveNames(init);
      }
    }
    forall i, j | 0 <= i < j < |init| && init[i].active && init[j].active && UniqueActiveNames(list)
      ensures init[i].operatorName != init[j].operatorName
    {
      assert list[i] == init[i] && list[j] == init[j];
    }
  }

  /** With unique registrations, looking only at the first entry loses nothing. */
  lemma SelfActiveIsMembership(list: seq<Provider>, name: string)
    ensures SelfActive(list, name) ==> name in ActiveNames(list)
    ensures UniqueNames(list) ==> (SelfActive(list, name) <==> name in ActiveNames(list))
  {
    if UniqueNames(list) && name in ActiveNames(list) {
      var i :| 0 <= i < |list| && list[i].active && list[i].operatorName == name;
      assert list[i] == Provider(name, true);
    }
  }

  /** Nobody but active operators has contributed: then the count test says exactly that
      all of them have. */
  lemma CountTestIsEveryoneContributed(list: seq<Provider>, contributors: set<string>)
    requires UniqueActiveNames(list) && contributors <= ActiveNames(list)
    ensures ShouldMarkAsCompleted(ActiveCount(list), |contributors|)
            <==> ActiveNames(list) != {} && contributors == ActiveNames(list)
  {
    ActiveCountIsCardinality(list);
    SubsetCardinality(contributors, ActiveNames(list));
  }

  /** For arbitrary contributors (an operator may have been deactivated after it contributed)
      the test answers "has every active operator contributed?" wrongly exactly when the active
      operators still missing are at least one and at most as many as the departed contributors. */
  lemma CountTestExact(list: seq<Provider>, contributors: set<string>)
    requires UniqueActiveNames(list)
    ensures (ShouldMarkAsCompleted(ActiveCount(list), |contributors|)
             <==> ActiveNames(list) != {} && ActiveNames(list) <= contributors)
            <==> !(0 < |ActiveNames(list) - contributors| <= |contributors - ActiveNames(list)|)
  {
    var active := ActiveNames(list);
    ActiveCountIsCardinality(list);
    assert active == (active * contributors) + (active - contributors);
    assert contributors == (active * contributors) + (contributors - active);
    assert active <= contributors <==> active - contributors == {};
    assert active == {} ==> active - contributors == {};
  }
}
