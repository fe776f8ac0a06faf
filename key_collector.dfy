// ComponentExtractor._collect_keys: the identifiers of the requested
// components followed by the raw keys, and what they make the filter keep.
module KeyCollector {
  import opened Basics
  import opened Strings
  import opened Models
  import opened Document
  import opened KeyNormalizer
  import opened ComponentUtils
  import opened KeyBuilder
  import opened TableFilter

  /** f applied to each component in turn; the first failure is the
      result. */
  function MapResults(f: Component -> Result<string>, cs: seq<Component>): (r: Result<seq<string>>)
    ensures r.Ok? <==> forall i :: 0 <= i < |cs| ==> f(cs[i]).Ok?
    ensures r.Ok? ==> |r.value| == |cs| && forall i :: 0 <= i < |cs| ==> r.value[i] == f(cs[i]).value
    ensures r.Err? ==> exists i :: 0 <= i < |cs| && f(cs[i]) == Err(r.error)
    decreases |cs|
  {
    if cs == [] then Ok([])
    else
      var init := cs[..|cs| - 1];
      assert forall i :: 0 <= i < |init| ==> init[i] == cs[i];
      match MapResults(f, init)
      case Err(e) => Err(e)
      case Ok(ids) =>
        match f(cs[|cs| - 1])
        case Err(e) => Err(e)
        case Ok(id) => Ok(ids + [id])
  }

  /** A failure among the first k components is the failure of them all. */
  lemma {:induction false} MapResultsFails(f: Component -> Result<string>, cs: seq<Component>, i: nat)
    requires i < |cs| && MapResults(f, cs[..i + 1]).Err?
    ensures MapResults(f, cs) == MapResults(f, cs[..i + 1])
    decreases |cs|
  {
    if i + 1 == |cs| {
      assert cs[..i + 1] == cs;
    } else {
      var init := cs[..|cs| - 1];
      assert init[..i + 1] == cs[..i + 1];
      MapResultsFails(f, init, i);
    }
  }

  /** set_component_id with the operation's scheme, separator and case. */
  function IdFor(scheme: KeyScheme, sep: string, mode: CaseMode): Component -> Result<string>
  {
    c => SetComponentId(c, scheme, sep, mode)
  }

  /** _collect_keys: the components' identifiers, then the raw keys; an
      error when there are none. A component list with a scheme
      set_component_id does not know (Name-Formula among them) fails even
      when raw keys are given too. */
  function CollectedKeys(keys: seq<string>, components: seq<Component>, scheme: KeyScheme, sep: string, mode: CaseMode)
    : (r: Result<seq<string>>)
    ensures r.Ok? <==> (components == [] || (IdScheme(scheme) && mode != OtherCase)) && (components != [] || keys != [])
    ensures components != [] && !IdScheme(scheme) ==> r == Err(InvalidComponentKey)
    ensures components != [] && IdScheme(scheme) && mode == OtherCase ==> r == Err(InvalidCase)
    ensures components == [] && keys == [] ==> r == Err(NoComponentKeys)
    ensures r.Ok? ==> |r.value| == |components| + |keys| && r.value[|components|..] == keys
    ensures r.Ok? ==> forall i :: 0 <= i < |components| ==> r.value[i] == SetComponentId(components[i], scheme, sep, mode).value
  {
    var f := IdFor(scheme, sep, mode);
    match MapResults(f, components)
    case Err(e) =>
      var i :| 0 <= i < |components| && f(components[i]) == Err(e);
      Err(e)
    case Ok(ids) =>
      assert components != [] ==> f(components[0]).Ok?;
      if ids + keys == [] then Err(NoComponentKeys) else Ok(ids + keys)
  }

  /** The loop of _collect_keys over the components: f of each in turn,
      stopping at the first failure. */
  method ComponentIds(f: Component -> Result<string>, components: seq<Component>) returns (r: Result<seq<string>>)
    ensures r == MapResults(f, components)
  {
    var ids: seq<string> := [];
    var i := 0;
    while i < |components|
      invariant 0 <= i <= |components|
      invariant MapResults(f, components[..i]) == Ok(ids)
    {
      var id := f(components[i]);
      assert components[..i + 1][..i] == components[..i];
      if id.Err? {
        assert MapResults(f, components[..i + 1]) == Err(id.error);
        MapResultsFails(f, components, i);
        return Err(id.error);
      }
      ids := ids + [id.value];
      i := i + 1;
    }
    assert components[..|components|] == components;
    return Ok(ids);
  }

  method CollectKeys(keys: seq<string>, components: seq<Component>, scheme: KeyScheme, sep: string, mode: CaseMode)
    returns (r: Result<seq<string>>)
    ensures r == CollectedKeys(keys, components, scheme, sep, mode)
  {
    CollectedKeysOf(keys, components, scheme, sep, mode);
    var ids := ComponentIds(IdFor(scheme, sep, mode), components);
    if ids.Err? {
      return Err(ids.error);
    }
    var inputs := ids.value + keys;
    if inputs == [] {
      return Err(NoComponentKeys);
    }
    return Ok(inputs);
  }

  /** CollectedKeys in terms of the identifiers' results. */
  lemma {:induction false} CollectedKeysOf(keys: seq<string>, components: seq<Component>, scheme: KeyScheme, sep: string, mode: CaseMode)
    ensures var ids := MapResults(IdFor(scheme, sep, mode), components);
      CollectedKeys(keys, components, scheme, sep, mode)
        == if ids.Err? then Err(ids.error)
           else if ids.value + keys == [] then Err(NoComponentKeys)
           else Ok(ids.value + keys)
  {
  }

  // ---------------------------------------------------------------------
  // A requested component's row is kept
  // ---------------------------------------------------------------------

  /** A component's identifier is among the key inputs. */
  lemma {:induction false} IdCollected(keys: seq<string>, components: seq<Component>, c: Component,
                                      scheme: KeyScheme, sep: string, mode: CaseMode)
    requires c in components && CollectedKeys(keys, components, scheme, sep, mode).Ok?
    ensures SetComponentId(c, scheme, sep, mode).Ok?
    ensures SetComponentId(c, scheme, sep, mode).value in CollectedKeys(keys, components, scheme, sep, mode).value
  {
    var inputs := CollectedKeys(keys, components, scheme, sep, mode).value;
    var i :| 0 <= i < |components| && components[i] == c;
    assert inputs[i] == SetComponentId(c, scheme, sep, mode).value;
  }

  /** The query matches a row exactly when its key is one of the targets. */
  lemma {:induction false} QueryOfKeeps(inputs: seq<string>, scheme: KeyScheme, sep: Separator, mode: CaseMode,
                                       row: Row, columns: seq<Cell>)
    ensures RowKey(QueryOf(inputs, scheme, sep, mode), row, columns) == BuildKey(row, columns, scheme, sep, mode)
    ensures QueryOf(inputs, scheme, sep, mode).targets == Targets(inputs, sep, mode)
  {
  }

  /** With the default case, a component asked for by its object has its
      row kept (its name, formula and state in the columns of those names)
      under every scheme set_component_id knows, unless the key normalises
      to nothing. */
  lemma {:induction false} ComponentRowKept(keys: seq<string>, components: seq<Component>, inputs: seq<string>,
                                           c: Component, id: string, scheme: KeyScheme, ch: char, sep: Separator,
                                           row: Row, columns: seq<Cell>)
    requires sep == [ch] && !IsSpace(ch)
    requires CollectedKeys(keys, components, scheme, sep, Unset) == Ok(inputs)
    requires c in components && c.name != [] && c.formula != []
    requires SetComponentId(c, scheme, sep, Unset) == Ok(id)
    requires HoldsComponent(row, columns, c)
    ensures RowKey(QueryOf(inputs, scheme, sep, Unset), row, columns) == Some(Normalize(id, sep, Unset))
    ensures Keeps(QueryOf(inputs, scheme, sep, Unset), row, columns) <==> Normalize(id, sep, Unset) != []
  {
    IdInInputs(keys, components, inputs, c, id, scheme, sep);
    ComponentRowMatches(c, row, columns, scheme, ch, Unset);
    KeptByKey(inputs, id, scheme, sep, Unset, row, columns);
  }

  /** With no case, the identifier collected for a component is the one
      built before any case conversion. */
  lemma {:induction false} IdInInputs(keys: seq<string>, components: seq<Component>, inputs: seq<string>,
                                     c: Component, id: string, scheme: KeyScheme, sep: string)
    requires CollectedKeys(keys, components, scheme, sep, Unset) == Ok(inputs)
    requires c in components
    requires SetComponentId(c, scheme, sep, Unset) == Ok(id)
    ensures id in inputs && IdScheme(scheme) && SchemeId(c, scheme, sep) == Some(id)
  {
    IdCollected(keys, components, c, scheme, sep, Unset);
  }

  /** A row whose key is the normal form of one of the inputs is kept,
      unless that key is empty. */
  lemma {:induction false} KeptByKey(inputs: seq<string>, id: string, scheme: KeyScheme, sep: Separator, mode: CaseMode,
                                    row: Row, columns: seq<Cell>)
    requires id in inputs
    requires BuildKey(row, columns, scheme, sep, mode) == Some(Normalize(id, sep, mode))
    ensures RowKey(QueryOf(inputs, scheme, sep, mode), row, columns) == Some(Normalize(id, sep, mode))
    ensures Keeps(QueryOf(inputs, scheme, sep, mode), row, columns) <==> Normalize(id, sep, mode) != []
  {
    QueryOfKeeps(inputs, scheme, sep, mode, row, columns);
    assert Normalize(id, sep, mode) in Targets(inputs, sep, mode);
  }
}
