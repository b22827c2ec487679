/**
 * The filter panel's handlers: each turns a user action into the partial update it hands to
 * `onFilterChange`, given here as the new value of the one field it sets (`None` for
 * `undefined`). Also the language options built from the grouped language names, and the
 * "active filters" test. Rendering is not modelled.
 */
module EventFilters {
  import Wrappers
  import Seqs
  import Types
  import Grouping
  import Translations

  /** `values.length > 0 ? values : undefined`: an empty list is sent as `undefined`. */
  function NonEmptyOrUndefined(values: seq<string>): (r: Wrappers.Option<seq<string>>)
    ensures r.Some? <==> values != []
    ensures r.Some? ==> r.value == values
  {
    if |values| > 0 then Wrappers.Some(values) else Wrappers.None
  }

  /** `handleCitiesChange`: the new `cities`. */
  function HandleCitiesChange(values: seq<string>): (r: Wrappers.Option<seq<string>>)
    ensures r.None? <==> values == []
    ensures r.Some? ==> r.value == values
  {
    NonEmptyOrUndefined(values)
  }

  function IsNot(id: string): string -> bool {
    (x: string) => x != id
  }

  /** The list after toggling `id`: every occurrence removed when present, appended when absent. */
  function Toggled(current: seq<string>, id: string): (r: seq<string>)
    ensures id in current ==> id !in r && forall x :: x in r <==> x in current && x != id
    ensures id !in current ==> r == current + [id]
  {
    Seqs.FilterMembers(IsNot(id), current);
    if id in current then Seqs.Filter(IsNot(id), current) else current + [id]
  }

  /** The toggle that `handleTargetToggle` and `handleFormatToggle` apply to their list. */
  function HandleToggle(current: Wrappers.Option<seq<string>>, id: string): (r: Wrappers.Option<seq<string>>)
    ensures var ids := Wrappers.ListOrEmpty(current);
      (id !in ids ==> r == Wrappers.Some(ids + [id])) &&
      (id in ids ==> (r.None? <==> forall i :: 0 <= i < |ids| ==> ids[i] == id)) &&
      (id in ids && r.Some? ==> id !in r.value && forall x :: x in r.value <==> x in ids && x != id)
  {
    var currentIds := Wrappers.ListOrEmpty(current);
    var t := Toggled(currentIds, id);
    assert t != [] ==> t[0] in t;
    assert forall i :: 0 <= i < |currentIds| && currentIds[i] != id ==> currentIds[i] in t;
    NonEmptyOrUndefined(t)
  }

  /** `handleTargetToggle`: the new `targets`. */
  function HandleTargetToggle(filters: Types.Filters, targetId: string): (r: Wrappers.Option<seq<string>>)
    ensures var ids := Wrappers.ListOrEmpty(filters.targets);
      (targetId !in ids ==> r == Wrappers.Some(ids + [targetId])) &&
      (targetId in ids ==> (r.None? <==> forall i :: 0 <= i < |ids| ==> ids[i] == targetId)) &&
      (targetId in ids && r.Some? ==> targetId !in r.value && forall x :: x in r.value <==> x in ids && x != targetId)
  {
    HandleToggle(filters.targets, targetId)
  }

  /** `handleFormatToggle`: the new `formats`. */
  function HandleFormatToggle(filters: Types.Filters, formatId: string): (r: Wrappers.Option<seq<string>>)
    ensures var ids := Wrappers.ListOrEmpty(filters.formats);
      (formatId !in ids ==> r == Wrappers.Some(ids + [formatId])) &&
      (formatId in ids ==> (r.None? <==> forall i :: 0 <= i < |ids| ==> ids[i] == formatId)) &&
      (formatId in ids && r.Some? ==> formatId !in r.value && forall x :: x in r.value <==> x in ids && x != formatId)
  {
    HandleToggle(filters.formats, formatId)
  }

  /** `handlePriceFilterChange`: the new `priceFilter`; "all" clears it. */
  function HandlePriceFilterChange(value: Types.PriceFilter): (r: Wrappers.Option<Types.PriceFilter>)
    ensures r.None? <==> value == Types.All
    ensures r.Some? ==> r.value == value
  {
    if value == Types.All then Wrappers.None else Wrappers.Some(value)
  }

  /** A list-valued filter is active when present and non-empty. */
  predicate ListActive(v: Wrappers.Option<seq<string>>) {
    v.Some? && |v.value| > 0
  }

  /**
   * `hasActiveFilters`: some value is truthy with a positive length. A price filter is a
   * non-empty string whatever its value, so any present price filter counts.
   */
  predicate HasActiveFilters(f: Types.Filters) {
    ListActive(f.cities) || ListActive(f.dates) || ListActive(f.topic) || ListActive(f.targets) ||
    ListActive(f.formats) || ListActive(f.year) || ListActive(f.languages) ||
    (f.priceFilter.Some? && |Types.PriceFilterName(f.priceFilter.value)| > 0)
  }

  // ---------------------------------------------------------------------------
  // Languages

  /**
   * `languageVariantsMap`: the `forEach` that sets each option's English name to its Czech
   * variants; a later option with the same name overwrites an earlier one.
   */
  method VariantsMap(options: seq<(string, seq<string>)>) returns (m: map<string, seq<string>>)
    ensures forall name :: name in m <==> exists i :: 0 <= i < |options| && options[i].0 == name
    ensures forall i :: 0 <= i < |options| && (forall j :: i < j < |options| ==> options[j].0 != options[i].0) ==>
      m[options[i].0] == options[i].1
  {
    m := map[];
    for i := 0 to |options|
      invariant forall name :: name in m <==> exists j :: 0 <= j < i && options[j].0 == name
      invariant forall k :: 0 <= k < i && (forall j :: k < j < i ==> options[j].0 != options[k].0) ==>
        m[options[k].0] == options[k].1
    {
      m := m[options[i].0 := options[i].1];
    }
  }

  /** The language options and their variants map, built from all known language names. */
  method LanguageVariantsMap(allLanguages: seq<string>) returns (m: map<string, seq<string>>)
    ensures forall name :: name in m <==> name in Grouping.Names(Translations.LanguageName, allLanguages)
    ensures forall name :: name in m ==> m[name] == Grouping.Group(Translations.LanguageName, name, allLanguages)
  {
    var options := Translations.GetUniqueLanguages(allLanguages);
    Grouping.GroupedByKeys(options, allLanguages, Translations.LanguageName);
    m := VariantsMap(options);
    forall name | name in m
      ensures name in Grouping.Names(Translations.LanguageName, allLanguages) &&
              m[name] == Grouping.Group(Translations.LanguageName, name, allLanguages)
    {
      var i :| 0 <= i < |options| && options[i].0 == name;
    }
    forall name | name in Grouping.Names(Translations.LanguageName, allLanguages)
      ensures name in m
    {
      var i :| 0 <= i < |Grouping.Names(Translations.LanguageName, allLanguages)| &&
               Grouping.Names(Translations.LanguageName, allLanguages)[i] == name;
      assert options[i].0 == name;
    }
  }

  /** The variants of the selected names, in selection order; names without an entry add nothing. */
  function Expanded(names: seq<string>, variants: map<string, seq<string>>): seq<string> {
    if names == [] then []
    else Expanded(names[..|names| - 1], variants) +
         if names[|names| - 1] in variants then variants[names[|names| - 1]] else []
  }

  /** `handleLanguagesChange`: the new `languages`. */
  method HandleLanguagesChange(selectedEnglishNames: seq<string>, languageVariantsMap: map<string, seq<string>>)
    returns (languages: Wrappers.Option<seq<string>>)
    ensures languages == NonEmptyOrUndefined(Expanded(selectedEnglishNames, languageVariantsMap))
  {
    var allVariants: seq<string> := [];
    for i := 0 to |selectedEnglishNames|
      invariant allVariants == Expanded(selectedEnglishNames[..i], languageVariantsMap)
    {
      var englishName := selectedEnglishNames[i];
      assert selectedEnglishNames[..i + 1][..i] == selectedEnglishNames[..i];
      if englishName in languageVariantsMap {
        allVariants := allVariants + languageVariantsMap[englishName];
      }
    }
    assert selectedEnglishNames[..|selectedEnglishNames|] == selectedEnglishNames;
    languages := NonEmptyOrUndefined(allVariants);
  }

  /**
   * `selectedUniqueLanguages`: the English names of the selected variants, each once, in
   * order of first appearance; none without a selection.
   */
  method SelectedUniqueLanguages(filters: Types.Filters) returns (names: seq<string>)
    ensures !ListActive(filters.languages) ==> names == []
    ensures ListActive(filters.languages) ==> names == Grouping.Names(Translations.LanguageName, filters.languages.value)
  {
    if filters.languages.None? || |filters.languages.value| == 0 {
      return [];
    }
    var groups := Translations.GetUniqueLanguages(filters.languages.value);
    names := seq(|groups|, i requires 0 <= i < |groups| => groups[i].0);
  }

  // ---------------------------------------------------------------------------
  // Facts

  /** Toggling an absent id twice gives back the list, when it had no duplicates of that id. */
  lemma ToggleAbsentTwice(current: seq<string>, id: string)
    requires id !in current
    ensures Toggled(Toggled(current, id), id) == current
  {
    var p := IsNot(id);
    Seqs.FilterAppend(p, current, [id]);
    Seqs.FilterAll(p, current);
    assert Seqs.Filter(p, [id]) == [];
  }

  /** Toggling a present id twice moves it, once, to the end. */
  lemma TogglePresentTwice(current: seq<string>, id: string)
    requires id in current
    ensures Toggled(Toggled(current, id), id) == Seqs.Filter(IsNot(id), current) + [id]
  {
  }

  /** On the filter value: toggling an absent id twice restores it, an empty list coming back as `undefined`. */
  lemma HandleToggleAbsentTwice(current: seq<string>, id: string)
    requires id !in current
    ensures HandleToggle(HandleToggle(Wrappers.Some(current), id), id) == NonEmptyOrUndefined(current)
  {
    ToggleAbsentTwice(current, id);
  }

  /** A list without duplicates stays without duplicates. */
  lemma {:induction false} ToggleKeepsDistinct(current: seq<string>, id: string)
    requires Seqs.Distinct(current)
    ensures Seqs.Distinct(Toggled(current, id))
  {
    if id in current {
      FilterDistinct(IsNot(id), current);
    }
  }

  lemma {:induction false} FilterDistinct(p: string -> bool, s: seq<string>)
    requires Seqs.Distinct(s)
    ensures Seqs.Distinct(Seqs.Filter(p, s))
  {
    if s != [] {
      FilterDistinct(p, s[1..]);
      Seqs.FilterMembers(p, s[1..]);
      assert s[0] !in s[1..];
    }
  }

  lemma {:induction false} ExpandedMembers(names: seq<string>, variants: map<string, seq<string>>, x: string)
    ensures x in Expanded(names, variants) <==>
      exists i :: 0 <= i < |names| && names[i] in variants && x in variants[names[i]]
  {
    if names != [] {
      var init := names[..|names| - 1];
      ExpandedMembers(init, variants, x);
      assert forall i :: 0 <= i < |init| ==> init[i] == names[i];
    }
  }

  /** Names with no variants contribute nothing: expanding only the known names gives the same list. */
  lemma {:induction false} UnknownNamesIgnored(names: seq<string>, variants: map<string, seq<string>>)
    ensures Expanded(names, variants) == Expanded(Seqs.Filter((n: string) => n in variants, names), variants)
  {
    if names != [] {
      var init, last := names[..|names| - 1], names[|names| - 1];
      UnknownNamesIgnored(init, variants);
      assert names == init + [last];
      Seqs.FilterSnoc((n: string) => n in variants, init, last);
      var known := Seqs.Filter((n: string) => n in variants, init);
      if last in variants {
        assert (known + [last])[..|known + [last]| - 1] == known;
      }
    }
  }

  /** Selecting `a` and then `b` sends `a`'s variants followed by `b`'s. */
  lemma {:induction false} ExpandedAppend(a: seq<string>, b: seq<string>, variants: map<string, seq<string>>)
    ensures Expanded(a + b, variants) == Expanded(a, variants) + Expanded(b, variants)
    decreases |b|
  {
    if b == [] {
      assert a + b == a;
    } else {
      var init := b[..|b| - 1];
      assert (a + b)[..|a + b| - 1] == a + init;
      assert (a + b)[|a + b| - 1] == b[|b| - 1];
      ExpandedAppend(a, init, variants);
    }
  }

  /** Nothing is active without filters, and a price filter alone, even "all", is active. */
  lemma ActiveFilters()
    ensures !HasActiveFilters(Types.NoFilters)
    ensures forall p :: HasActiveFilters(Types.NoFilters.(priceFilter := Wrappers.Some(p)))
    ensures !HasActiveFilters(Types.NoFilters.(cities := Wrappers.Some([]), languages := Wrappers.Some([])))
  {
  }

  /** The price the user picks is what the filter becomes, except "all", which removes it. */
  lemma PriceChangeRoundTrip(value: Types.PriceFilter)
    ensures var r := HandlePriceFilterChange(value);
      (if r.Some? then r.value else Types.All) == value
  {
  }

  /** Selecting a language's English name expands to exactly the known variants that translate to it. */
  lemma SelectedLanguageVariants(allLanguages: seq<string>, m: map<string, seq<string>>, englishName: string, v: string)
    requires forall name :: name in m <==> name in Grouping.Names(Translations.LanguageName, allLanguages)
    requires forall name :: name in m ==> m[name] == Grouping.Group(Translations.LanguageName, name, allLanguages)
    ensures v in Expanded([englishName], m) <==> v in allLanguages && Translations.LanguageName(v) == englishName
  {
    ExpandedMembers([englishName], m, v);
    Grouping.GroupMembers(Translations.LanguageName, englishName, allLanguages);
    if englishName !in m {
      Grouping.UnlistedGroupEmpty(Translations.LanguageName, englishName, allLanguages);
    }
  }
}
