/**
 * The catalog of electrical symbols of the current front-end and its three
 * lookups: by id, by the id the extractor reports (`apiId`), and by a
 * human-readable name compared after one normalisation.
 */
module Symbols {
  import opened Wrappers
  import opened Text

  /** One catalog entry. */
  datatype Symbol = Symbol(id: string, name: string, apiId: string, iconFileName: string)

  /** The thirteen symbols, in catalog order. */
  const Catalog: seq<Symbol> := [
    Symbol("KATKAISIJA_3_4", "3 ja 4-NAP KATKAISIJA", "3_ja_4_NAP_KATKAISIJA", "3 ja 4-NAP KATKAISIJA icon.svg"),
    Symbol("KONTAKTORI_3", "3-NAP KONTAKTORI", "3_NAP_KONTAKTORI", "3-NAP KONTAKTORI icon.svg"),
    Symbol("KYTKINVAROKE_3", "3-NAP KYTKINVAROKE KVKE", "3_NAP_KYTKINVAROKE_KVKE", "3-NAP KYTKINVAROKE KVKE icon.svg"),
    Symbol("KAHVAROKEALUSTA", "3-VAIHE KAHVAROKEALUSTA", "3_VAIHE_KAHVAROKEALUSTA", "3-VAIHE KAHVAROKEALUSTA icon.svg"),
    Symbol("TULPPAVAROKE_3", "3-VAIHEINEN TULPPAVAROKE", "3_VAIHEINEN_TULPPAVAROKE", "3-VAIHEINEN TULPPAVAROKE icon.svg"),
    Symbol("VIRTAMUUNTAJA_3KPL", "3kpl VIRTAMUUNTAJA", "3kpl_VIRTAMUUNTAJA", "3kpl VIRTAMUUNTAJA icon.svg"),
    Symbol("CUAI", "CUAI", "CUAI", "CUAI icon.svg"),
    Symbol("JOHDONSUOJA_1", "JOHDONSUOJA 1-NAP", "JOHDONSUOJA_1_NAP", "JOHDONSUOJA 1-NAP icon.svg"),
    Symbol("JOHDONSUOJA_3", "JOHDONSUOJA 3-NAP", "JOHDONSUOJA_3_NAP", "JOHDONSUOJA 3-NAP icon.svg"),
    Symbol("MERKKILAMPPU", "Merkkilamppu DIN tai Kansiasennus", "MERKKILAMPPU", "Merkkilamppu DIN tai Kansiasennus icon.svg"),
    Symbol("VIKAVIRTASUOJA", "VIKAVIRTASUOJA", "VIKAVIRTASUOJA", "VIKAVIRTASUOJA icon.svg"),
    Symbol("YHDISTELMASUOJA", "YHDISTELMASUOJA", "YHDISTELMASUOJA", "YHDISTELMASUOJA icon.svg"),
    Symbol("KILOWATTTUNTIMITTARI", "Kilowattituntimittari", "KILOWATTTUNTIMITTARI", "kilowattituntimittari icon.svg")
  ]

  /** `i` is the position of the first entry of `s` satisfying `p`. */
  predicate FirstMatch(s: seq<Symbol>, p: Symbol -> bool, i: nat) {
    i < |s| && p(s[i]) && forall j :: 0 <= j < i ==> !p(s[j])
  }

  /** The position `Array.prototype.find` stops at: the first entry satisfying `p`, if any. */
  function FindIndex(s: seq<Symbol>, p: Symbol -> bool): (r: Option<nat>)
    ensures r.Some? ==> FirstMatch(s, p, r.value)
    ensures r.None? <==> forall j :: 0 <= j < |s| ==> !p(s[j])
  {
    if s == [] then None
    else if p(s[0]) then Some(0)
    else match FindIndex(s[1..], p)
      case None => None
      case Some(i) => Some(i + 1)
  }

  /** `s.find(p)`: the first entry satisfying `p`, or `undefined`. */
  function Find(s: seq<Symbol>, p: Symbol -> bool): (r: Option<Symbol>)
    ensures r.Some? ==> r.value in s && p(r.value)
    ensures r.None? <==> forall j :: 0 <= j < |s| ==> !p(s[j])
    ensures forall i: nat :: FirstMatch(s, p, i) ==> r == Some(s[i])
  {
    var k := FindIndex(s, p);
    FirstMatchUnique(s, p);
    if k.Some? then Some(s[k.value]) else None
  }

  lemma FirstMatchUnique(s: seq<Symbol>, p: Symbol -> bool)
    ensures forall i: nat, j: nat :: FirstMatch(s, p, i) && FirstMatch(s, p, j) ==> i == j
  {
  }

  /** `SYMBOLS.find((symbol) => symbol.id === id)` over a given table. */
  function ById(catalog: seq<Symbol>, id: string): (r: Option<Symbol>)
    ensures r.Some? ==> r.value in catalog && r.value.id == id
    ensures r.None? <==> forall j :: 0 <= j < |catalog| ==> catalog[j].id != id
  {
    Find(catalog, (s: Symbol) => s.id == id)
  }

  /** `SYMBOLS.find((symbol) => symbol.apiId === apiId)` over a given table. */
  function ByApiId(catalog: seq<Symbol>, apiId: string): (r: Option<Symbol>)
    ensures r.Some? ==> r.value in catalog && r.value.apiId == apiId
    ensures r.None? <==> forall j :: 0 <= j < |catalog| ==> catalog[j].apiId != apiId
  {
    Find(catalog, (s: Symbol) => s.apiId == apiId)
  }

  /** When ids are distinct, looking up an entry's id gives that entry. */
  lemma ByIdOfEntry(catalog: seq<Symbol>, i: nat)
    requires i < |catalog| && forall j, k :: 0 <= j < k < |catalog| ==> catalog[j].id != catalog[k].id
    ensures ById(catalog, catalog[i].id) == Some(catalog[i])
  {
    assert FirstMatch(catalog, (s: Symbol) => s.id == catalog[i].id, i);
  }

  /** When apiIds are distinct, looking up an entry's apiId gives that entry. */
  lemma ByApiIdOfEntry(catalog: seq<Symbol>, i: nat)
    requires i < |catalog| && forall j, k :: 0 <= j < k < |catalog| ==> catalog[j].apiId != catalog[k].apiId
    ensures ByApiId(catalog, catalog[i].apiId) == Some(catalog[i])
  {
    assert FirstMatch(catalog, (s: Symbol) => s.apiId == catalog[i].apiId, i);
  }

  /** `getSymbolById`. */
  function GetById(id: string): (r: Option<Symbol>)
    ensures r.Some? ==> r.value in Catalog && r.value.id == id
    ensures r.None? <==> forall j :: 0 <= j < |Catalog| ==> Catalog[j].id != id
  {
    ById(Catalog, id)
  }

  /** `getSymbolByApiId`. */
  function GetByApiId(apiId: string): (r: Option<Symbol>)
    ensures r.Some? ==> r.value in Catalog && r.value.apiId == apiId
    ensures r.None? <==> forall j :: 0 <= j < |Catalog| ==> Catalog[j].apiId != apiId
  {
    ByApiId(Catalog, apiId)
  }

  /** No two catalog entries share an id, nor an apiId. */
  lemma CatalogKeysDistinct()
    ensures forall j, k :: 0 <= j < k < |Catalog| ==> Catalog[j].id != Catalog[k].id
    ensures forall j, k :: 0 <= j < k < |Catalog| ==> Catalog[j].apiId != Catalog[k].apiId
  {
    CatalogIdsDistinct();
    CatalogApiIdsDistinct();
  }

  lemma CatalogIdsDistinct()
    ensures forall j, k :: 0 <= j < k < |Catalog| ==> Catalog[j].id != Catalog[k].id
  {
  }

  lemma CatalogApiIdsDistinct()
    ensures forall j, k :: 0 <= j < k < |Catalog| ==> Catalog[j].apiId != Catalog[k].apiId
  {
  }

  /** Every entry is found by its own id and by its own apiId. */
  lemma CatalogLookups(i: nat)
    requires i < |Catalog|
    ensures GetById(Catalog[i].id) == Some(Catalog[i])
    ensures GetByApiId(Catalog[i].apiId) == Some(Catalog[i])
  {
    CatalogKeysDistinct();
    ByIdOfEntry(Catalog, i);
    ByApiIdOfEntry(Catalog, i);
  }

  // ------------------------------------------------------------ by name

  /** Whitespace or a hyphen: the class `[\s\-]`. */
  predicate IsSeparator(c: char) {
    IsJsSpace(c) || c == '-'
  }

  /** The class `[a-z0-9_]`. */
  predicate IsNameChar(c: char) {
    ('a' <= c <= 'z') || ('0' <= c <= '9') || c == '_'
  }

  /**
   * The name normaliser: lower-case, trim, turn every run of whitespace and
   * hyphens into one `_`, then delete everything outside `[a-z0-9_]`.
   */
  function Normalize(s: string): (r: string)
    ensures forall i :: 0 <= i < |r| ==> IsNameChar(r[i])
  {
    KeepIf(CollapseRuns(TrimJs(Lower(s)), IsSeparator, '_'), IsNameChar)
  }

  lemma NameCharNotSeparator(c: char)
    requires IsNameChar(c)
    ensures !IsJsSpace(c) && !IsSeparator(c)
  {
  }

  /** A string already made of `[a-z0-9_]` is its own normal form. */
  lemma NormalizeNameChars(t: string)
    requires forall i :: 0 <= i < |t| ==> IsNameChar(t[i])
    ensures Normalize(t) == t
  {
    LowerNoop(t);
    if t != [] {
      NameCharNotSeparator(t[0]);
      NameCharNotSeparator(t[|t| - 1]);
    }
    TrimNoop(t, IsJsSpace);
    forall i | 0 <= i < |t| ensures !IsSeparator(t[i]) {
      NameCharNotSeparator(t[i]);
    }
    CollapseRunsNoop(t, IsSeparator, '_');
  }

  /** Normalising twice is normalising once. */
  lemma NormalizeIdempotent(s: string)
    ensures Normalize(Normalize(s)) == Normalize(s)
  {
    NormalizeNameChars(Normalize(s));
  }

  /** Some entry of `catalog` has normalised field `f` equal to `target`. */
  predicate SomeEntryMatches(catalog: seq<Symbol>, f: Symbol -> string, target: string) {
    exists j :: 0 <= j < |catalog| && Normalize(f(catalog[j])) == target
  }

  /**
   * `getSymbolByName` over a given table: nothing for an empty name;
   * otherwise the first entry whose normalised name equals the normalised
   * input, and only when there is none, the first entry whose normalised
   * apiId does.
   */
  function ByName(catalog: seq<Symbol>, name: string): (r: Option<Symbol>)
    ensures name == "" ==> r == None
    ensures r.Some? ==> (r.value in catalog
      && (Normalize(r.value.name) == Normalize(name) || Normalize(r.value.apiId) == Normalize(name)))
    ensures name != "" && SomeEntryMatches(catalog, (s: Symbol) => s.name, Normalize(name))
      ==> r.Some? && Normalize(r.value.name) == Normalize(name)
    ensures r.None? <==> (name == ""
      || (!SomeEntryMatches(catalog, (s: Symbol) => s.name, Normalize(name))
          && !SomeEntryMatches(catalog, (s: Symbol) => s.apiId, Normalize(name))))
  {
    if name == "" then None
    else
      var target := Normalize(name);
      var byName := Find(catalog, (s: Symbol) => Normalize(s.name) == target);
      if byName.Some? then byName else Find(catalog, (s: Symbol) => Normalize(s.apiId) == target)
  }

  /** `getSymbolByName`. */
  function GetByName(name: string): Option<Symbol> {
    ByName(Catalog, name)
  }

  /** Looking up an entry's own non-empty name finds an entry, and the one found has the same normalised name. */
  lemma NameLookupOfEntry(catalog: seq<Symbol>, i: nat)
    requires i < |catalog| && catalog[i].name != ""
    ensures ByName(catalog, catalog[i].name).Some?
    ensures Normalize(ByName(catalog, catalog[i].name).value.name) == Normalize(catalog[i].name)
  {
    var target := Normalize(catalog[i].name);
    assert Normalize(((s: Symbol) => s.name)(catalog[i])) == target;
    assert SomeEntryMatches(catalog, (s: Symbol) => s.name, target);
  }

  /** Every catalog entry has a non-empty name, so each is reachable by name. */
  lemma CatalogNamesNonEmpty()
    ensures forall i :: 0 <= i < |Catalog| ==> Catalog[i].name != ""
  {
  }
}
