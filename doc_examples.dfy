// The worked examples of the docstrings of create_binary_mixture_id and
// create_mixture_id. The components are parameters pinned by their names so
// that the verifier reasons about the definitions step by step.
module DocExamples {
  import opened Basics
  import opened Strings
  import opened Models
  import opened Sorting
  import opened ComponentUtils

  lemma {:induction false} StripWater() ensures Strip("Water") == "Water" { assert Trimmed("Water"); }
  lemma {:induction false} StripEthanol() ensures Strip("Ethanol") == "Ethanol" { assert Trimmed("Ethanol"); }
  lemma {:induction false} StripMethanol() ensures Strip("Methanol") == "Methanol" { assert Trimmed("Methanol"); }
  lemma {:induction false} StripBar() ensures Strip("|") == "|" { assert Trimmed("|"); }
  lemma {:induction false} StripBinaryId() ensures Strip("Ethanol|Water") == "Ethanol|Water" { assert Trimmed("Ethanol|Water"); }
  lemma {:induction false} StripMixtureId() ensures Strip("Ethanol|Methanol|Water") == "Ethanol|Methanol|Water" { assert Trimmed("Ethanol|Methanol|Water"); }

  lemma {:induction false} WaterAfterEthanol() ensures !StrLe("Water", "Ethanol") {}

  lemma {:induction false} BinaryIdOrdered(water: Component, ethanol: Component, delimiter: string)
    requires Strip(water.name) == "Water" && Strip(ethanol.name) == "Ethanol"
    requires !StrLe("Water", "Ethanol")
    ensures CreateBinaryMixtureId(water, ethanol, Name, delimiter) == Ok(Strip("Ethanol" + Strip(delimiter) + "Water"))
  {
    BinaryMixtureIdOrdered(water, ethanol, Name, delimiter);
  }

  lemma {:induction false} BinaryIdText(delimiter: string)
    requires delimiter == "|"
    ensures Strip("Ethanol" + Strip(delimiter) + "Water") == "Ethanol|Water"
  {
    StripBar();
    StripBinaryId();
    assert "Ethanol" + "|" + "Water" == "Ethanol|Water";
  }

  /** create_binary_mixture_id(Water, Ethanol, 'Name') == 'Ethanol|Water' */
  lemma {:induction false} BinaryMixtureIdExample(water: Component, ethanol: Component, delimiter: string)
    requires water.name == "Water" && ethanol.name == "Ethanol" && delimiter == "|"
    ensures CreateBinaryMixtureId(water, ethanol, Name, delimiter) == Ok("Ethanol|Water")
  {
    StripWater();
    StripEthanol();
    WaterAfterEthanol();
    BinaryIdOrdered(water, ethanol, delimiter);
    BinaryIdText(delimiter);
  }

  lemma {:induction false} SortThreeNames(ids: seq<string>)
    requires ids == ["Water", "Ethanol", "Methanol"]
    ensures SortStrings(ids) == ["Ethanol", "Methanol", "Water"]
  {
    var target := ["Ethanol", "Methanol", "Water"];
    assert StrLe("Ethanol", "Methanol") && StrLe("Methanol", "Water") && StrLe("Ethanol", "Water");
    assert Sorted(target);
    assert multiset(ids) == multiset(target);
    SortedUnique(SortStrings(ids), target);
  }

  lemma {:induction false} ThreeNameIds(cs: seq<Component>)
    requires |cs| == 3 && cs[0].name == "Water" && cs[1].name == "Ethanol" && cs[2].name == "Methanol"
    ensures MixtureIds(cs, Name) == ["Water", "Ethanol", "Methanol"]
  {
    StripWater();
    StripEthanol();
    StripMethanol();
    var f := IdOf(Name);
    assert MapIds(f, cs[3..]) == [];
    assert MapIds(f, cs[2..]) == [f(cs[2])] + MapIds(f, cs[3..]);
    assert MapIds(f, cs[1..]) == [f(cs[1])] + MapIds(f, cs[2..]);
    assert MapIds(f, cs) == [f(cs[0])] + MapIds(f, cs[1..]);
  }

  lemma {:induction false} MixtureIdSorted(cs: seq<Component>, delimiter: string)
    requires |cs| == 3 && cs[0].name == "Water" && cs[1].name == "Ethanol" && cs[2].name == "Methanol"
    ensures CreateMixtureId(cs, Name, delimiter, Unset)
         == Ok(ConvertCase(Strip(Join(Strip(delimiter), ["Ethanol", "Methanol", "Water"])), Unset))
  {
    ThreeNameIds(cs);
    SortThreeNames(MixtureIds(cs, Name));
  }

  lemma {:induction false} MixtureIdJoined(delimiter: string)
    requires delimiter == "|"
    ensures Join(Strip(delimiter), ["Ethanol", "Methanol", "Water"]) == "Ethanol|Methanol|Water"
  {
    StripBar();
    assert Join("|", ["Ethanol", "Methanol", "Water"]) == "Ethanol|Methanol|Water";
  }

  lemma {:induction false} MixtureIdText(joined: string)
    requires joined == "Ethanol|Methanol|Water"
    ensures ConvertCase(Strip(joined), Unset) == "Ethanol|Methanol|Water"
  {
    StripMixtureId();
    ConvertCaseKeeps("Ethanol|Methanol|Water", Unset);
  }

  /** create_mixture_id([Water, Ethanol, Methanol], 'Name') == 'Ethanol|Methanol|Water' */
  lemma {:induction false} MixtureIdExample(cs: seq<Component>, delimiter: string)
    requires |cs| == 3 && cs[0].name == "Water" && cs[1].name == "Ethanol" && cs[2].name == "Methanol"
    requires delimiter == "|"
    ensures CreateMixtureId(cs, Name, delimiter, Unset) == Ok("Ethanol|Methanol|Water")
  {
    MixtureIdSorted(cs, delimiter);
    MixtureIdJoined(delimiter);
    MixtureIdText(Join(Strip(delimiter), ["Ethanol", "Methanol", "Water"]));
  }
}
