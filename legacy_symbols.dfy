/**
 * The older symbol catalog (seven entries) with the same id lookups and a
 * name lookup that tries four comparisons in turn instead of one
 * normaliser.
 */
module LegacySymbols {
  import opened Wrappers
  import opened Text
  import opened Symbols

  /** The seven symbols of the older catalog, in order; its apiIds keep their hyphens. */
  const LegacyCatalog: seq<Symbol> := [
    Symbol("KATKAISIJA_3_4", "3 ja 4-NAP KATKAISIJA", "3_ja_4-NAP_KATKAISIJA", "3 ja 4-NAP KATKAISIJA icon.svg"),
    Symbol("KYTKINVAROKE_3", "3-NAP KYTKINVAROKE KVKE", "3-NAP_KYTKINVAROKE_KVKE", "3-NAP KYTKINVAROKE KVKE icon.svg"),
    Symbol("TULPPAVAROKE_3", "3-VAIHEINEN TULPPAVAROKE", "3-VAIHEINEN_TULPPAVAROKE", "3-VAIHEINEN TULPPAVAROKE icon.svg"),
    Symbol("JOHDONSUOJA_1", "JOHDONSUOJA 1-NAP", "JOHDONSUOJA_1-NAP", "JOHDONSUOJA 1-NAP icon.svg"),
    Symbol("JOHDONSUOJA_3", "JOHDONSUOJA 3-NAP", "JOHDONSUOJA_3-NAP", "JOHDONSUOJA 3-NAP icon.svg"),
    Symbol("VIKAVIRTASUOJA", "VIKAVIRTASUOJA", "VIKAVIRTASUOJA", "VIKAVIRTASUOJA icon.svg"),
    Symbol("YHDISTELMASUOJA", "YHDISTELMASUOJA", "YHDISTELMASUOJA", "YHDISTELMASUOJA icon.svg")
  ]

  /** `getSymbolById` of the older catalog. */
  function GetById(id: string): (r: Option<Symbol>)
    ensures r.Some? ==> r.value in LegacyCatalog && r.value.id == id
    ensures r.None? <==> forall j :: 0 <= j < |LegacyCatalog| ==> LegacyCatalog[j].id != id
  {
    ById(LegacyCatalog, id)
  }

  /** `getSymbolByApiId` of the older catalog. */
  function GetByApiId(apiId: string): (r: Option<Symbol>)
    ensures r.Some? ==> r.value in LegacyCatalog && r.value.apiId == apiId
    ensures r.None? <==> forall j :: 0 <= j < |LegacyCatalog| ==> LegacyCatalog[j].apiId != apiId
  {
    ByApiId(LegacyCatalog, apiId)
  }

  /**
   * The four comparisons, in the order they are tried, of an entry with the
   * trimmed input `raw`: 1 the exact name; 2 the name ignoring case; 3 the
   * name ignoring case with every `_` of the input read as a space; 4 the
   * apiId, exactly or ignoring case, with every whitespace run of the input
   * read as one `_`.
   */
  predicate Matches(stage: nat, s: Symbol, raw: string) {
    if stage == 1 then s.name == raw
    else if stage == 2 then Lower(s.name) == Lower(raw)
    else if stage == 3 then Lower(s.name) == Lower(ReplaceChar(raw, '_', ' '))
    else if stage == 4 then
      var alt := CollapseRuns(raw, IsJsSpace, '_');
      s.apiId == alt || Lower(s.apiId) == Lower(alt)
    else false
  }

  /** Some entry of `catalog` passes comparison `stage`. */
  predicate StageHits(catalog: seq<Symbol>, stage: nat, raw: string) {
    exists j :: 0 <= j < |catalog| && Matches(stage, catalog[j], raw)
  }

  /** The first entry passing comparison `stage`. */
  function StageFind(catalog: seq<Symbol>, stage: nat, raw: string): (r: Option<Symbol>)
    ensures r.Some? ==> r.value in catalog && Matches(stage, r.value, raw)
    ensures r.None? <==> !StageHits(catalog, stage, raw)
  {
    var r := Find(catalog, (s: Symbol) => Matches(stage, s, raw));
    assert r.None? ==> forall j :: 0 <= j < |catalog| ==> !Matches(stage, catalog[j], raw);
    r
  }

  /**
   * The staged `getSymbolByName` over a given table: nothing for an empty
   * name; otherwise the input is trimmed and the first comparison that some
   * entry passes decides, giving the first entry that passes it.
   */
  function ByNameStaged(catalog: seq<Symbol>, name: string): (r: Option<Symbol>)
    ensures name == "" ==> r == None
    ensures name != "" && StageHits(catalog, 1, TrimJs(name))
      ==> r.Some? && Matches(1, r.value, TrimJs(name))
    ensures name != "" && !StageHits(catalog, 1, TrimJs(name)) && StageHits(catalog, 2, TrimJs(name))
      ==> r.Some? && Matches(2, r.value, TrimJs(name))
    ensures name != "" && !StageHits(catalog, 1, TrimJs(name)) && !StageHits(catalog, 2, TrimJs(name))
      && StageHits(catalog, 3, TrimJs(name))
      ==> r.Some? && Matches(3, r.value, TrimJs(name))
    ensures name != "" && !StageHits(catalog, 1, TrimJs(name)) && !StageHits(catalog, 2, TrimJs(name))
      && !StageHits(catalog, 3, TrimJs(name)) && StageHits(catalog, 4, TrimJs(name))
      ==> r.Some? && Matches(4, r.value, TrimJs(name))
    ensures r.Some? ==> r.value in catalog
    ensures r.None? <==> (name == "" || forall k :: 1 <= k <= 4 ==> !StageHits(catalog, k, TrimJs(name)))
  {
    if name == "" then None
    else
      var raw := TrimJs(name);
      var exact := StageFind(catalog, 1, raw);
      if exact.Some? then exact
      else
        var caseless := StageFind(catalog, 2, raw);
        if caseless.Some? then caseless
        else
          var underscored := StageFind(catalog, 3, raw);
          if underscored.Some? then underscored
          else StageFind(catalog, 4, raw)
  }

  /** `getSymbolByName` of the older catalog. */
  function GetByName(name: string): Option<Symbol> {
    ByNameStaged(LegacyCatalog, name)
  }

  /** Only the trimmed input matters: inputs that trim alike find the same entry. */
  lemma ByNameStagedTrims(catalog: seq<Symbol>, a: string, b: string)
    requires a != "" && b != "" && TrimJs(a) == TrimJs(b)
    ensures ByNameStaged(catalog, a) == ByNameStaged(catalog, b)
  {
  }

  /** When names are distinct and an entry's name has no surrounding spaces, the exact comparison finds that entry. */
  lemma ExactNameFindsEntry(catalog: seq<Symbol>, i: nat)
    requires i < |catalog| && catalog[i].name != ""
    requires !IsJsSpace(catalog[i].name[0]) && !IsJsSpace(catalog[i].name[|catalog[i].name| - 1])
    requires forall j, k :: 0 <= j < k < |catalog| ==> catalog[j].name != catalog[k].name
    ensures ByNameStaged(catalog, catalog[i].name) == Some(catalog[i])
  {
    var name := catalog[i].name;
    TrimNoop(name, IsJsSpace);
    assert Matches(1, catalog[i], name);
    assert StageHits(catalog, 1, name);
  }

  /** The older catalog's ids, apiIds and names are each pairwise distinct. */
  lemma LegacyCatalogDistinct()
    ensures forall j, k :: 0 <= j < k < |LegacyCatalog| ==> LegacyCatalog[j].id != LegacyCatalog[k].id
    ensures forall j, k :: 0 <= j < k < |LegacyCatalog| ==> LegacyCatalog[j].apiId != LegacyCatalog[k].apiId
    ensures forall j, k :: 0 <= j < k < |LegacyCatalog| ==> LegacyCatalog[j].name != LegacyCatalog[k].name
  {
  }

  /** Every entry of the older catalog is found by its id and by its apiId. */
  lemma LegacyCatalogLookups(i: nat)
    requires i < |LegacyCatalog|
    ensures GetById(LegacyCatalog[i].id) == Some(LegacyCatalog[i])
    ensures GetByApiId(LegacyCatalog[i].apiId) == Some(LegacyCatalog[i])
  {
    LegacyCatalogDistinct();
    ByIdOfEntry(LegacyCatalog, i);
    ByApiIdOfEntry(LegacyCatalog, i);
  }

  /** No name of the older catalog is empty or has surrounding spaces. */
  lemma LegacyNamesTrimmed()
    ensures forall i :: 0 <= i < |LegacyCatalog| ==> (LegacyCatalog[i].name != ""
      && !IsJsSpace(LegacyCatalog[i].name[0]) && !IsJsSpace(LegacyCatalog[i].name[|LegacyCatalog[i].name| - 1]))
  {
  }

  /** Every entry of the older catalog is found by its own name, at the first comparison. */
  lemma LegacyNameLookup(i: nat)
    requires i < |LegacyCatalog|
    ensures GetByName(LegacyCatalog[i].name) == Some(LegacyCatalog[i])
  {
    LegacyCatalogDistinct();
    LegacyNamesTrimmed();
    ExactNameFindsEntry(LegacyCatalog, i);
  }
}
