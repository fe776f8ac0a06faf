// ComponentExtractor: the key inputs, the choice of the reference section,
// the cached reference, and the bookkeeping of filter_components,
// filter_components_from_data and check_component_availability.
module Extractor {
  import opened Basics
  import opened Strings
  import opened Models
  import opened Sorting
  import opened Document
  import opened KeyNormalizer
  import opened ComponentUtils
  import opened KeyBuilder
  import opened TableFilter
  import opened KeyCollector

  // ---------------------------------------------------------------------
  // _pick_reference_section
  // ---------------------------------------------------------------------

  predicate IsMapping(s: Section)
  {
    s.content.Mapping?
  }

  /** A mapping holding a REFERENCES key. */
  predicate IsReference(s: Section)
  {
    s.content.Mapping? && s.content.doc.references.Some?
  }

  function FirstReference(sections: seq<Section>): (r: Option<nat>)
    ensures r.Some? ==> r.value < |sections| && IsReference(sections[r.value])
    ensures r.Some? ==> forall j :: 0 <= j < r.value ==> !IsReference(sections[j])
    ensures r.None? ==> forall j :: 0 <= j < |sections| ==> !IsReference(sections[j])
    decreases |sections|
  {
    if sections == [] then None
    else if IsReference(sections[0]) then Some(0)
    else
      match FirstReference(sections[1..])
      case None => None
      case Some(k) => Some(k + 1)
  }

  function FirstMapping(sections: seq<Section>): (r: Option<nat>)
    ensures r.Some? ==> r.value < |sections| && IsMapping(sections[r.value])
    ensures r.Some? ==> forall j :: 0 <= j < r.value ==> !IsMapping(sections[j])
    ensures r.None? ==> forall j :: 0 <= j < |sections| ==> !IsMapping(sections[j])
    decreases |sections|
  {
    if sections == [] then None
    else if IsMapping(sections[0]) then Some(0)
    else
      match FirstMapping(sections[1..])
      case None => None
      case Some(k) => Some(k + 1)
  }

  /** The first section whose content is a mapping with REFERENCES, else the
      first whose content is a mapping at all, else nothing. */
  function PickReferenceSection(sections: seq<Section>): (r: Option<Doc>)
    ensures r.None? <==> forall j :: 0 <= j < |sections| ==> !IsMapping(sections[j])
    ensures (exists j :: 0 <= j < |sections| && IsReference(sections[j])) ==> r.Some? && r.value.references.Some?
    ensures r.Some? ==> exists j :: 0 <= j < |sections| && sections[j].content == Mapping(r.value)
    ensures forall k :: 0 <= k < |sections| && IsReference(sections[k]) && (forall j :: 0 <= j < k ==> !IsReference(sections[j]))
              ==> r == Some(sections[k].content.doc)
    ensures (forall j :: 0 <= j < |sections| ==> !IsReference(sections[j])) ==>
              forall k :: 0 <= k < |sections| && IsMapping(sections[k]) && (forall j :: 0 <= j < k ==> !IsMapping(sections[j]))
                ==> r == Some(sections[k].content.doc)
  {
    match FirstReference(sections)
    case Some(k) => Some(sections[k].content.doc)
    case None =>
      match FirstMapping(sections)
      case Some(k) => Some(sections[k].content.doc)
      case None => None
  }

  // ---------------------------------------------------------------------
  // The shared pipeline and its report
  // ---------------------------------------------------------------------

  /** The arguments the three filter operations share. */
  datatype Request = Request(keys: seq<string>, components: seq<Component>, scheme: KeyScheme,
                             sep: string, mode: CaseMode, renumber: bool)

  function KeyInputs(req: Request): Result<seq<string>>
  {
    CollectedKeys(req.keys, req.components, req.scheme, req.sep, req.mode)
  }

  /** What a filter run established, before any sorting: the filtered
      document, the keys found and the keys requested. */
  datatype Outcome = Outcome(data: Doc, found: set<string>, requested: set<string>)

  /** _filter_reference_dict on a chosen document, and the requested set
      `{_normalize_key(cid, ...) for cid in key_inputs}`. */
  function FilterWith(doc: Doc, inputs: seq<string>, req: Request): (r: Result<Outcome>)
    ensures r.Err? <==> req.sep == []
    ensures r.Err? ==> r.error == EmptySeparator
    ensures r.Ok? ==> r.value.found <= r.value.requested
    ensures r.Ok? ==> r.value.requested == Targets(inputs, req.sep, req.mode)
  {
    if req.sep == [] then Err(EmptySeparator)
    else
      var q := QueryOf(inputs, req.scheme, req.sep, req.mode);
      Ok(Outcome(FilteredDoc(q, doc, req.renumber), DocFound(q, doc), q.targets))
  }

  /** filter_components up to the save: keys, then sections, then the
      reference section, then the filter. */
  function FromSections(sections: seq<Section>, req: Request): (r: Result<Outcome>)
  {
    match KeyInputs(req)
    case Err(e) => Err(e)
    case Ok(inputs) =>
      if sections == [] then Err(NoSections)
      else
        match PickReferenceSection(sections)
        case None => Err(NoReferenceSection)
        case Some(doc) => FilterWith(doc, inputs, req)
  }

  /** filter_components_from_data up to the save: keys, then the given or
      the cached reference, which must be a mapping, then the filter. */
  function FromData(data: Option<Parsed>, cache: Option<Doc>, req: Request): (r: Result<Outcome>)
  {
    match KeyInputs(req)
    case Err(e) => Err(e)
    case Ok(inputs) =>
      match data
      case None => if cache.None? then Err(NoCachedReference) else FilterWith(cache.value, inputs, req)
      case Some(NotMapping) => Err(NotAMapping)
      case Some(Mapping(doc)) => FilterWith(doc, inputs, req)
  }

  /** `if save_reference: if not output_path: raise ...`; the path as given. */
  function SavedTo(save: bool, outputPath: Option<string>): (r: Result<Option<string>>)
    ensures r.Err? <==> save && (outputPath.None? || outputPath.value == [])
    ensures r.Ok? ==> (r.value.Some? <==> save)
  {
    if !save then Ok(None)
    else if outputPath.None? || outputPath.value == [] then Err(MissingOutputPath)
    else Ok(outputPath)
  }

  /** The dictionary filter_components returns, without the YAML text. */
  datatype Extraction = Extraction(data: Doc, matched: seq<string>, missing: seq<string>, savedTo: Option<string>)

  /** `sorted(found)` and `sorted(requested - found)` beside the data. */
  ghost predicate Reports(e: Extraction, o: Outcome, savedTo: Option<string>)
  {
    e.data == o.data && e.savedTo == savedTo &&
    SortedListOf(e.matched, o.found) && SortedListOf(e.missing, o.requested - o.found)
  }

  /** The matched and the missing keys split the requested ones. */
  lemma {:induction false} ReportsPartition(e: Extraction, o: Outcome, savedTo: Option<string>)
    requires Reports(e, o, savedTo) && o.found <= o.requested
    ensures forall x :: x in o.requested <==> x in e.matched || x in e.missing
    ensures forall x :: !(x in e.matched && x in e.missing)
  {
  }

  // ---------------------------------------------------------------------
  // The availability summary
  // ---------------------------------------------------------------------

  function SummaryTail(missing: seq<string>): string
  {
    if missing == [] then "All requested components are present."
    else "Missing: " + Join(", ", missing) + "."
  }

  /** `" ".join(summary_parts)` */
  function Summary(found: nat, requested: nat, missing: seq<string>): string
  {
    "Found " + NatText(found) + "/" + NatText(requested) + " component(s)." + " " + SummaryTail(missing)
  }

  /** The summary can be read back: it gives the number found, the number
      requested, and whether anything is missing. */
  lemma {:induction false} SummaryReadsBack(f1: nat, r1: nat, m1: seq<string>, f2: nat, r2: nat, m2: seq<string>)
    requires Summary(f1, r1, m1) == Summary(f2, r2, m2)
    ensures f1 == f2 && r1 == r2
    ensures m1 == [] <==> m2 == []
  {
    var a1, b1, t1 := NatText(f1), NatText(r1), SummaryTail(m1);
    var a2, b2, t2 := NatText(f2), NatText(r2), SummaryTail(m2);
    SummaryShape(f1, r1, m1);
    SummaryShape(f2, r2, m2);
    var z1, z2 := " component(s)." + (" " + t1), " component(s)." + (" " + t2);
    var y1, y2 := "/" + (b1 + z1), "/" + (b2 + z2);
    DropPrefix("Found ", a1 + y1, a2 + y2);
    DigitsCut(a1, y1, a2, y2);
    DropPrefix("/", b1 + z1, b2 + z2);
    DigitsCut(b1, z1, b2, z2);
    DropPrefix(" component(s).", " " + t1, " " + t2);
    DropPrefix(" ", t1, t2);
    NatTextInjective(f1, f2);
    NatTextInjective(r1, r2);
    assert t1[0] == (if m1 == [] then 'A' else 'M');
    assert t2[0] == (if m2 == [] then 'A' else 'M');
  }

  lemma {:induction false} DropPrefix(p: string, u: string, v: string)
    requires p + u == p + v
    ensures u == v
  {
    assert u == (p + u)[|p|..];
    assert v == (p + v)[|p|..];
  }

  lemma {:induction false} SummaryShape(f: nat, r: nat, m: seq<string>)
    ensures Summary(f, r, m)
         == "Found " + (NatText(f) + ("/" + (NatText(r) + (" component(s)." + (" " + SummaryTail(m))))))
  {
    Regroup("Found ", NatText(f), "/", NatText(r), " component(s).", " ", SummaryTail(m));
  }

  lemma {:induction false} Regroup(a: string, b: string, c: string, d: string, e: string, f: string, g: string)
    ensures a + b + c + d + e + f + g == a + (b + (c + (d + (e + (f + g)))))
  {
  }

  /** The dictionary check_component_availability returns. */
  datatype Availability = Availability(matched: seq<string>, missing: seq<string>, requested: seq<string>, summary: string)

  /** An already parsed reference (a dict, deep-copied as it is), or the
      sections found in a text. */
  datatype Reference = Given(doc: Doc) | FromText(sections: seq<Section>)

  /** check_component_availability up to the report. */
  function Availing(reference: Reference, req: Request): (r: Result<Outcome>)
  {
    match KeyInputs(req)
    case Err(e) => Err(e)
    case Ok(inputs) =>
      match reference
      case Given(doc) => FilterWith(doc, inputs, req)
      case FromText(sections) =>
        if sections == [] then Err(NoSections)
        else
          match PickReferenceSection(sections)
          case None => Err(NoReferenceSection)
          case Some(doc) => FilterWith(doc, inputs, req)
  }

  ghost predicate AvailabilityOf(a: Availability, o: Outcome)
  {
    SortedListOf(a.matched, o.found) && SortedListOf(a.missing, o.requested - o.found) &&
    SortedListOf(a.requested, o.requested) &&
    a.summary == Summary(|o.found|, |o.requested|, a.missing)
  }

  // ---------------------------------------------------------------------
  // The extractor and its cached reference
  // ---------------------------------------------------------------------

  class ComponentExtractor {
    /** The reference load_ref cached, if any. */
    var referenceData: Option<Doc>

    constructor()
      ensures referenceData == None
    {
      referenceData := None;
    }

    /** load_ref on an already parsed reference: a mapping is cached and
        returned, anything else is refused and the cache kept. */
    method LoadRef(ref: Parsed) returns (r: Result<Doc>)
      modifies this
      ensures ref.NotMapping? ==> r == Err(NotAMapping) && referenceData == old(referenceData)
      ensures ref.Mapping? ==> r == Ok(ref.doc) && referenceData == Some(ref.doc)
    {
      if ref.NotMapping? {
        return Err(NotAMapping);
      }
      referenceData := Some(ref.doc);
      return Ok(ref.doc);
    }

    /** The shared tail of filter_components and filter_components_from_data:
        filter, requested and missing keys, the save check, sorting. */
    method Finish(doc: Doc, inputs: seq<string>, req: Request, save: bool, outputPath: Option<string>)
      returns (r: Result<Extraction>)
      requires inputs != []
      ensures var o := FilterWith(doc, inputs, req);
        (o.Err? ==> r == Err(o.error)) &&
        (o.Ok? && SavedTo(save, outputPath).Err? ==> r == Err(MissingOutputPath)) &&
        (o.Ok? && SavedTo(save, outputPath).Ok? ==> r.Ok? && Reports(r.value, o.value, SavedTo(save, outputPath).value))
    {
      var filtered := FilterReferenceDict(doc, inputs, req.scheme, req.sep, req.mode, req.renumber);
      if filtered.Err? {
        return Err(filtered.error);
      }
      var found := filtered.value.found;
      var requested := Targets(inputs, req.sep, req.mode);
      var missing := requested - found;
      var savedTo: Option<string> := None;
      if save {
        if outputPath.None? || outputPath.value == [] {
          return Err(MissingOutputPath);
        }
        savedTo := outputPath;
      }
      var matched := SortedKeys(found);
      var missingSorted := SortedKeys(missing);
      return Ok(Extraction(filtered.value.doc, matched, missingSorted, savedTo));
    }

    /** filter_components on the sections a text was found to hold. */
    method FilterComponents(sections: seq<Section>, req: Request, save: bool, outputPath: Option<string>)
      returns (r: Result<Extraction>)
      ensures var o := FromSections(sections, req);
        (o.Err? ==> r == Err(o.error)) &&
        (o.Ok? && SavedTo(save, outputPath).Err? ==> r == Err(MissingOutputPath)) &&
        (o.Ok? && SavedTo(save, outputPath).Ok? ==> r.Ok? && Reports(r.value, o.value, SavedTo(save, outputPath).value))
    {
      var inputs := CollectKeys(req.keys, req.components, req.scheme, req.sep, req.mode);
      if inputs.Err? {
        return Err(inputs.error);
      }
      if sections == [] {
        return Err(NoSections);
      }
      var doc := PickReferenceSection(sections);
      if doc.None? {
        return Err(NoReferenceSection);
      }
      r := Finish(doc.value, inputs.value, req, save, outputPath);
    }

    /** filter_components_from_data: None uses the cached reference. */
    method FilterComponentsFromData(data: Option<Parsed>, req: Request, save: bool, outputPath: Option<string>)
      returns (r: Result<Extraction>)
      ensures var o := FromData(data, referenceData, req);
        (o.Err? ==> r == Err(o.error)) &&
        (o.Ok? && SavedTo(save, outputPath).Err? ==> r == Err(MissingOutputPath)) &&
        (o.Ok? && SavedTo(save, outputPath).Ok? ==> r.Ok? && Reports(r.value, o.value, SavedTo(save, outputPath).value))
    {
      var inputs := CollectKeys(req.keys, req.components, req.scheme, req.sep, req.mode);
      if inputs.Err? {
        return Err(inputs.error);
      }
      var parsed: Parsed;
      if data.None? {
        if referenceData.None? {
          return Err(NoCachedReference);
        }
        parsed := Mapping(referenceData.value);
      } else {
        parsed := data.value;
      }
      if parsed.NotMapping? {
        return Err(NotAMapping);
      }
      r := Finish(parsed.doc, inputs.value, req, save, outputPath);
    }

    /** check_component_availability: matched, missing and requested keys,
        sorted, and the one-line summary. */
    method CheckComponentAvailability(reference: Reference, req: Request) returns (r: Result<Availability>)
      ensures var o := Availing(reference, req);
        (o.Err? ==> r == Err(o.error)) &&
        (o.Ok? ==> r.Ok? && AvailabilityOf(r.value, o.value))
    {
      var inputs := CollectKeys(req.keys, req.components, req.scheme, req.sep, req.mode);
      if inputs.Err? {
        return Err(inputs.error);
      }
      var doc: Doc;
      match reference {
        case Given(d) =>
          doc := d;
        case FromText(sections) =>
          if sections == [] {
            return Err(NoSections);
          }
          var picked := PickReferenceSection(sections);
          if picked.None? {
            return Err(NoReferenceSection);
          }
          doc := picked.value;
      }
      var filtered := FilterReferenceDict(doc, inputs.value, req.scheme, req.sep, req.mode, req.renumber);
      if filtered.Err? {
        return Err(filtered.error);
      }
      var found := filtered.value.found;
      var requested := Targets(inputs.value, req.sep, req.mode);
      var missing := requested - found;
      var matched := SortedKeys(found);
      var missingSorted := SortedKeys(missing);
      var requestedSorted := SortedKeys(requested);
      return Ok(Availability(matched, missingSorted, requestedSorted,
                             Summary(|found|, |requested|, missingSorted)));
    }
  }
}
