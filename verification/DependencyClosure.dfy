/** The worklist that selects packages to fetch. */
module DependencyClosure {
  import opened Bytes

  datatype Package = Package(base: bool, needs: set<string>)

  type Catalog = map<string, Package>

  function BaseNames(packages: Catalog): set<string> {
    set name | name in packages && packages[name].base
  }

  function AllNeeds(packages: Catalog): set<string> {
    set name, needed | name in packages && needed in packages[name].needs :: needed
  }

  // Contains the base packages and the requested ones, and everything they need.
  ghost predicate Closed(packages: Catalog, requested: set<string>, names: set<string>) {
    && BaseNames(packages) + requested <= names
    && forall name :: name in names && name in packages ==> packages[name].needs <= names
  }

  // Contained in every closed set.
  ghost predicate Forced(packages: Catalog, requested: set<string>, names: set<string>) {
    forall closed :: Closed(packages, requested, closed) ==> names <= closed
  }

  method Listed(names: set<string>) returns (list: seq<string>)
    ensures forall name :: name in list <==> name in names
  {
    list := [];
    var rest := names;
    while rest != {}
      invariant rest <= names
      invariant forall name :: name in list <==> name in names - rest
    {
      var name :| name in rest;
      rest := rest - {name};
      list := list + [name];
    }
  }

  // The least closed set, or the name of a package that every closed set
  // contains and the catalog lacks: it succeeds exactly when every package it
  // must reach has metadata. Cyclic needs do not keep it from ending.
  method Select(packages: Catalog, requested: set<string>) returns (r: Result<set<string>, string>)
    ensures r.Ok? ==>
              && Closed(packages, requested, r.value) && Forced(packages, requested, r.value)
              && r.value <= packages.Keys
    ensures r.Err? ==> Forced(packages, requested, {r.error}) && r.error !in packages
    ensures r.Ok? <==> exists closed :: Closed(packages, requested, closed) && closed <= packages.Keys
  {
    ghost var universe := BaseNames(packages) + requested + AllNeeds(packages);
    var selected := BaseNames(packages) + requested;
    var pending := Listed(selected);
    while pending != []
      invariant BaseNames(packages) + requested <= selected <= universe
      invariant Forced(packages, requested, selected)
      invariant forall name :: name in pending ==> name in selected
      invariant forall name :: name in selected && name !in pending ==>
                                 name in packages && packages[name].needs <= selected
      decreases |universe - selected|, |pending|
    {
      var name := pending[|pending| - 1];
      ghost var waiting := pending;
      pending := pending[..|pending| - 1];
      assert waiting == pending + [name];
      assert Forced(packages, requested, {name});
      if name !in packages {
        MissingIsNotClosed(packages, requested, name);
        return Err(name);
      }
      selected, pending := AddNeeds(packages, requested, universe, selected, pending, name);
    }
    r := Ok(selected);
  }

  lemma {:induction false} MissingIsNotClosed(packages: Catalog, requested: set<string>, name: string)
    requires Forced(packages, requested, {name}) && name !in packages
    ensures !exists closed :: Closed(packages, requested, closed) && closed <= packages.Keys
  {
    forall closed | Closed(packages, requested, closed)
      ensures !(closed <= packages.Keys)
    {
      assert {name} <= closed;
    }
  }

  // Select and queue what `name` needs and is not selected yet.
  method AddNeeds(packages: Catalog, requested: set<string>, ghost universe: set<string>,
                  selected: set<string>, pending: seq<string>, name: string)
    returns (selected': set<string>, pending': seq<string>)
    requires name in packages && name in selected && selected <= universe && AllNeeds(packages) <= universe
    requires Forced(packages, requested, selected)
    requires forall other :: other in pending ==> other in selected
    requires forall other :: other in selected && other !in pending && other != name ==>
                               other in packages && packages[other].needs <= selected
    ensures selected <= selected' <= universe && Forced(packages, requested, selected')
    ensures forall other :: other in pending' ==> other in selected'
    ensures forall other :: other in selected' && other !in pending' ==>
                              other in packages && packages[other].needs <= selected'
    ensures (selected' == selected && pending' == pending) || |universe - selected'| < |universe - selected|
  {
    selected', pending' := selected, pending;
    var rest := packages[name].needs;
    assert rest <= AllNeeds(packages);
    while rest != {}
      invariant rest <= packages[name].needs && packages[name].needs - rest <= selected'
      invariant selected <= selected' <= universe && Forced(packages, requested, selected')
      invariant forall other :: other in pending' ==> other in selected'
      invariant forall other :: other in pending ==> other in pending'
      invariant forall other :: other in selected' - selected ==> other in pending'
      invariant (selected' == selected && pending' == pending) || |universe - selected'| < |universe - selected|
    {
      var required :| required in rest;
      rest := rest - {required};
      if required !in selected' {
        NeedIsForced(packages, requested, selected', name, required);
        OneFewer(universe, selected', required);
        selected', pending' := selected' + {required}, pending' + [required];
      }
    }
  }

  lemma {:induction false} NeedIsForced(
    packages: Catalog, requested: set<string>, names: set<string>, name: string, needed: string)
    requires Forced(packages, requested, names) && name in names && name in packages
    requires needed in packages[name].needs
    ensures Forced(packages, requested, names + {needed})
  {
    forall closed | Closed(packages, requested, closed)
      ensures names + {needed} <= closed
    {
      assert packages[name].needs <= closed;
    }
  }

  lemma {:induction false} OneFewer(universe: set<string>, names: set<string>, name: string)
    requires name in universe && name !in names
    ensures |universe - (names + {name})| < |universe - names|
  {
    assert universe - names == (universe - (names + {name})) + {name};
  }
}
