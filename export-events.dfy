/**
 * The event export: one Markdown block per event and a header with the count, or a JSON
 * document with one object per event. The export time is a parameter. `JSON.stringify`
 * is not modelled: the JSON export is the value it would serialise.
 */
module ExportEvents {
  import Wrappers
  import Strs
  import Seqs
  import Types
  import Translations

  /**
   * What the export calls out to: date formatting (`toLocaleDateString`), number printing
   * (JavaScript's number-to-string), and the four translators. The export proper passes
   * `Czech(formatDate, show)`.
   */
  datatype Env = Env(
    formatDate: string -> string, show: real -> string,
    language: Wrappers.Option<string> -> string, target: Wrappers.Option<string> -> string,
    format: Wrappers.Option<string> -> string, city: Wrappers.Option<string> -> string)

  /** The translators of the Czech-to-English dictionaries. */
  function Czech(formatDate: string -> string, show: real -> string): Env {
    var opts := Translations.DefaultOptions;
    Env(formatDate, show, t => Translations.TranslateLanguage(t, opts), t => Translations.TranslateTarget(t, opts),
        t => Translations.TranslateFormat(t, opts), t => Translations.TranslateCity(t, opts))
  }

  /** `event.name || "Untitled Event"`. */
  function NameOrDefault(e: Types.Event): (r: string)
    ensures r != ""
    ensures Wrappers.Truthy(e.name) ==> r == e.name.value
  {
    if Wrappers.Truthy(e.name) then e.name.value else "Untitled Event"
  }

  /** The date text: the formatted term, or "Date TBA" without one. */
  function DateText(e: Types.Event, formatDate: string -> string): string {
    if Wrappers.Truthy(e.term) then formatDate(e.term.value) else "Date TBA"
  }

  /** The price label of the Markdown block. */
  function PriceLabel(price: Wrappers.Option<real>, maxPrice: Wrappers.Option<real>, show: real -> string): (r: string)
    ensures r == "Free" <==> price == Wrappers.Some(0.0)
    ensures r == "Price TBA" <==> !Wrappers.NumTruthy(price) && price != Wrappers.Some(0.0)
    ensures Wrappers.NumTruthy(price) && Wrappers.NumTruthy(maxPrice) && price.value != maxPrice.value ==>
      r == "€" + show(price.value) + " - €" + show(maxPrice.value)
    ensures Wrappers.NumTruthy(price) && !(Wrappers.NumTruthy(maxPrice) && price.value != maxPrice.value) ==>
      r == "€" + show(price.value)
  {
    if price == Wrappers.Some(0.0) then "Free"
    else if Wrappers.NumTruthy(price) && Wrappers.NumTruthy(maxPrice) && price.value != maxPrice.value then
      var r := "€" + show(price.value) + " - €" + show(maxPrice.value);
      assert r[0] == '€';
      r
    else if Wrappers.NumTruthy(price) then
      var r := "€" + show(price.value);
      assert r[0] == '€';
      r
    else "Price TBA"
  }

  /** `start_time` and, when present, ` - end_time`. */
  function TimeText(start: string, end: Wrappers.Option<string>): string {
    start + if Wrappers.Truthy(end) then " - " + end.value else ""
  }

  /** `locationParts`: the name (empty when `null`, as `join` prints it), the address, the translated city. */
  function LocationParts(env: Env, l: Types.Location): (r: seq<string>)
    ensures |r| >= 1 && r[0] == Wrappers.OrEmpty(l.name)
    ensures |r| == 1 + (if Wrappers.Truthy(l.address) then 1 else 0) + (if Wrappers.Truthy(Types.CityName(l)) then 1 else 0)
    ensures Wrappers.Truthy(l.address) ==> r[1] == l.address.value
    ensures Wrappers.Truthy(Types.CityName(l)) ==> r[|r| - 1] == env.city(Types.CityName(l))
  {
    [Wrappers.OrEmpty(l.name)] +
    (if Wrappers.Truthy(l.address) then [l.address.value] else []) +
    (if Wrappers.Truthy(Types.CityName(l)) then [env.city(Types.CityName(l))] else [])
  }

  function LanguageNames(env: Env, langs: seq<string>): seq<string> {
    Seqs.Map((lang: string) => env.language(Wrappers.Some(lang)), langs)
  }

  function TargetNames(env: Env, targets: seq<Types.EventTarget>): seq<string> {
    Seqs.Map((t: Types.EventTarget) => env.target(t.name), targets)
  }

  function FormatNames(env: Env, formats: seq<Types.EventFormat>): seq<string> {
    Seqs.Map((f: Types.EventFormat) => env.format(f.name), formats)
  }

  // ---------------------------------------------------------------------------
  // Markdown

  /** Each optional line of a block, as a list of zero or one lines. */
  function TimeLines(e: Types.Event): seq<string> {
    if Wrappers.Truthy(e.startTime) then ["**Time:** " + TimeText(e.startTime.value, e.endTime)] else []
  }

  function LocationLines(e: Types.Event, env: Env): seq<string> {
    if e.location.Some? then ["**Location:** " + Strs.Join(LocationParts(env, e.location.value), ", ")] else []
  }

  function LanguageLines(e: Types.Event, env: Env): seq<string> {
    if Wrappers.NonEmpty(e.languages) then ["**Languages:** " + Strs.Join(LanguageNames(env, e.languages.value), ", ")] else []
  }

  function TargetLines(e: Types.Event, env: Env): seq<string> {
    if Wrappers.NonEmpty(e.targets) then ["**Target Audience:** " + Strs.Join(TargetNames(env, e.targets.value), ", ")] else []
  }

  function FormatLines(e: Types.Event, env: Env): seq<string> {
    if Wrappers.NonEmpty(e.formats) then ["**Format:** " + Strs.Join(FormatNames(env, e.formats.value), ", ")] else []
  }

  function RegistrationLines(e: Types.Event): seq<string> {
    if Wrappers.Truthy(e.registrationLink) then ["**Registration:** " + e.registrationLink.value] else []
  }

  /**
   * The lines of one block: heading, blank line, date, then the optional time and location
   * lines, the price, the optional languages, targets, format and registration lines, and
   * the closing rule between blank lines.
   */
  function BlockLines(e: Types.Event, env: Env): seq<string> {
    ["## " + NameOrDefault(e), "", "**Date:** " + DateText(e, env.formatDate)] + TimeLines(e) + LocationLines(e, env) +
    ["**Price:** " + PriceLabel(e.price, e.maxPrice, env.show)] + LanguageLines(e, env) + TargetLines(e, env) +
    FormatLines(e, env) + RegistrationLines(e) + [""] + ["---"] + [""]
  }

  function Block(e: Types.Event, env: Env): string {
    Strs.Join(BlockLines(e, env), "\n")
  }

  /** The pushes that build `locationParts`. */
  method CollectLocationParts(l: Types.Location, env: Env) returns (locationParts: seq<string>)
    ensures locationParts == LocationParts(env, l)
  {
    locationParts := [Wrappers.OrEmpty(l.name)];
    if Wrappers.Truthy(l.address) {
      locationParts := locationParts + [l.address.value];
    }
    if Wrappers.Truthy(Types.CityName(l)) {
      locationParts := locationParts + [env.city(Types.CityName(l))];
    }
  }

  /** The pushes of the languages, target audience, format and registration lines. */
  method PushListLines(lines0: seq<string>, e: Types.Event, env: Env) returns (lines: seq<string>)
    ensures lines == lines0 + LanguageLines(e, env) + TargetLines(e, env) + FormatLines(e, env) + RegistrationLines(e)
  {
    lines := lines0;
    ghost var spec := lines0;
    if e.languages.Some? && |e.languages.value| > 0 {
      lines := lines + ["**Languages:** " + Strs.Join(LanguageNames(env, e.languages.value), ", ")];
    }
    assert lines == spec + LanguageLines(e, env);
    spec := spec + LanguageLines(e, env);
    if e.targets.Some? && |e.targets.value| > 0 {
      lines := lines + ["**Target Audience:** " + Strs.Join(TargetNames(env, e.targets.value), ", ")];
    }
    assert lines == spec + TargetLines(e, env);
    spec := spec + TargetLines(e, env);
    if e.formats.Some? && |e.formats.value| > 0 {
      lines := lines + ["**Format:** " + Strs.Join(FormatNames(env, e.formats.value), ", ")];
    }
    assert lines == spec + FormatLines(e, env);
    spec := spec + FormatLines(e, env);
    if Wrappers.Truthy(e.registrationLink) {
      lines := lines + ["**Registration:** " + e.registrationLink.value];
    }
    assert lines == spec + RegistrationLines(e);
  }

  /** `formatEventAsMarkdown`: pushes the lines one by one, then joins them. */
  method FormatEventAsMarkdown(e: Types.Event, env: Env)
    returns (markdown: string)
    ensures markdown == Block(e, env)
  {
    var lines: seq<string> := [];
    lines := lines + ["## " + NameOrDefault(e)];
    lines := lines + [""];
    var date := if Wrappers.Truthy(e.term) then env.formatDate(e.term.value) else "Date TBA";
    lines := lines + ["**Date:** " + date];
    ghost var spec := ["## " + NameOrDefault(e), "", "**Date:** " + DateText(e, env.formatDate)];
    assert lines == spec;
    if Wrappers.Truthy(e.startTime) {
      lines := lines + ["**Time:** " + TimeText(e.startTime.value, e.endTime)];
    }
    assert lines == spec + TimeLines(e);
    spec := spec + TimeLines(e);
    if e.location.Some? {
      var locationParts := CollectLocationParts(e.location.value, env);
      lines := lines + ["**Location:** " + Strs.Join(locationParts, ", ")];
    }
    assert lines == spec + LocationLines(e, env);
    spec := spec + LocationLines(e, env);
    lines := lines + ["**Price:** " + PriceLabel(e.price, e.maxPrice, env.show)];
    spec := spec + ["**Price:** " + PriceLabel(e.price, e.maxPrice, env.show)];
    lines := PushListLines(lines, e, env);
    spec := spec + LanguageLines(e, env) + TargetLines(e, env) + FormatLines(e, env) + RegistrationLines(e);
    lines := lines + [""];
    lines := lines + ["---"];
    lines := lines + [""];
    assert lines == spec + [""] + ["---"] + [""] == BlockLines(e, env);
    markdown := Strs.Join(lines, "\n");
  }

  /** The title and the line with the number of events. */
  function CountLines(count: nat): string {
    "# Events Export\n\n**Total Events:** " + Strs.NatToString(count) + "\n"
  }

  /** The export header: title, number of events, export time and a rule. */
  function Header(count: nat, exportedAt: string): string {
    CountLines(count) + ("**Exported:** " + exportedAt + "\n\n---\n\n")
  }

  /** `formatEventsAsMarkdown`; `exportedAt` stands for `new Date().toLocaleString()`. */
  function FormatEventsAsMarkdown(events: seq<Types.Event>, exportedAt: string, env: Env): (r: string)
    ensures events == [] ==> r == "No events to export."
    ensures events != [] ==>
      r == Header(|events|, exportedAt) + Strs.Join(Seqs.Map((e: Types.Event) => Block(e, env), events), "\n")
  {
    if |events| == 0 then "No events to export."
    else Header(|events|, exportedAt) + Strs.Join(Seqs.Map((e: Types.Event) => Block(e, env), events), "\n")
  }

  // ---------------------------------------------------------------------------
  // JSON

  datatype JsonLocation = JsonLocation(name: Wrappers.Option<string>, address: Wrappers.Option<string>,
                                       city: Wrappers.Option<string>)

  datatype JsonEvent = JsonEvent(
    name: string, date: string, time: Wrappers.Option<string>, location: Wrappers.Option<JsonLocation>,
    price: string, languages: seq<string>, targetAudience: seq<string>, format: seq<string>,
    registrationLink: Wrappers.Option<string>)

  /**
   * `formatEventAsJSONObject`, written out as the source writes it, price rule included; it
   * names, prices and times an event exactly as the Markdown export does.
   */
  function FormatEventAsJsonObject(e: Types.Event, env: Env): (r: JsonEvent)
    ensures r.name == NameOrDefault(e) && r.price == PriceLabel(e.price, e.maxPrice, env.show)
    ensures r.time == if Wrappers.Truthy(e.startTime) then Wrappers.Some(TimeText(e.startTime.value, e.endTime)) else Wrappers.None
    ensures r.location.Some? <==> e.location.Some?
    ensures r.location.Some? ==> r.location.value.name == e.location.value.name &&
                                 r.location.value.address == e.location.value.address &&
                                 (r.location.value.city.Some? <==> Wrappers.Truthy(Types.CityName(e.location.value)))
    ensures r.date == DateText(e, env.formatDate)
    ensures r.location.Some? && r.location.value.city.Some? ==>
      r.location.value.city.value == env.city(Types.CityName(e.location.value))
    ensures e.languages.None? ==> r.languages == []
    ensures e.targets.None? ==> r.targetAudience == []
    ensures e.formats.None? ==> r.format == []
    ensures e.languages.Some? ==> r.languages == LanguageNames(env, e.languages.value)
    ensures e.targets.Some? ==> r.targetAudience == TargetNames(env, e.targets.value)
    ensures e.formats.Some? ==> r.format == FormatNames(env, e.formats.value)
    ensures r.registrationLink == e.registrationLink
  {
    JsonEvent(
      NameOrDefault(e),
      DateText(e, env.formatDate),
      if Wrappers.Truthy(e.startTime) then
        Wrappers.Some(e.startTime.value + if Wrappers.Truthy(e.endTime) then " - " + e.endTime.value else "")
      else Wrappers.None,
      if e.location.Some? then
        Wrappers.Some(JsonLocation(e.location.value.name, e.location.value.address,
          if Wrappers.Truthy(Types.CityName(e.location.value)) then Wrappers.Some(env.city(Types.CityName(e.location.value)))
          else Wrappers.None))
      else Wrappers.None,
      if e.price == Wrappers.Some(0.0) then "Free"
      else if Wrappers.NumTruthy(e.price) && Wrappers.NumTruthy(e.maxPrice) && e.price.value != e.maxPrice.value then
        "€" + env.show(e.price.value) + " - €" + env.show(e.maxPrice.value)
      else if Wrappers.NumTruthy(e.price) then "€" + env.show(e.price.value)
      else "Price TBA",
      if e.languages.Some? then LanguageNames(env, e.languages.value) else [],
      if e.targets.Some? then TargetNames(env, e.targets.value) else [],
      if e.formats.Some? then FormatNames(env, e.formats.value) else [],
      e.registrationLink)
  }

  datatype JsonExport = JsonExport(totalEvents: nat, exportedAt: string, events: seq<JsonEvent>)

  /** The value `formatEventsAsJSON` serialises; `exportedAt` stands for `new Date().toISOString()`. */
  function FormatEventsAsJson(events: seq<Types.Event>, exportedAt: string, env: Env): (r: JsonExport)
    ensures r.totalEvents == |events| == |r.events|
    ensures forall i :: 0 <= i < |events| ==> r.events[i] == FormatEventAsJsonObject(events[i], env)
  {
    JsonExport(|events|, exportedAt, Seqs.Map((e: Types.Event) => FormatEventAsJsonObject(e, env), events))
  }

  // ---------------------------------------------------------------------------
  // Facts

  /** A block starts with the heading and a blank line, and ends with a blank line, a rule and a blank line. */
  lemma BlockShape(e: Types.Event, env: Env)
    ensures var ls := BlockLines(e, env);
      |ls| >= 7 && ls[0] == "## " + NameOrDefault(e) && ls[1] == "" &&
      ls[|ls| - 3..] == ["", "---", ""]
  {
  }

  /** The line after the date is the time line exactly when there is a start time. */
  lemma TimeLineIffStartTime(e: Types.Event, env: Env)
    ensures var ls := BlockLines(e, env);
      (Wrappers.Truthy(e.startTime) ==> ls[3] == "**Time:** " + TimeText(e.startTime.value, e.endTime)) &&
      (!Wrappers.Truthy(e.startTime) ==> !Strs.StartsWith(ls[3], "**Time:** "))
  {
    var ls := BlockLines(e, env);
    if !Wrappers.Truthy(e.startTime) {
      if e.location.Some? {
        assert ls[3] == "**Location:** " + Strs.Join(LocationParts(env, e.location.value), ", ");
        assert ls[3][2] == 'L';
      } else {
        assert ls[3] == "**Price:** " + PriceLabel(e.price, e.maxPrice, env.show);
        assert ls[3][2] == 'P';
      }
    }
  }

  /** The time shows " - end" exactly when there is an end time. */
  lemma EndTimeShown(start: string, end: Wrappers.Option<string>)
    ensures Wrappers.Truthy(end) ==> TimeText(start, end) == start + " - " + end.value
    ensures !Wrappers.Truthy(end) ==> TimeText(start, end) == start
  {
  }

  /** A price equal to the maximum, or without a maximum, is shown alone. */
  lemma SinglePriceShown(p: real, maxPrice: Wrappers.Option<real>, show: real -> string)
    requires p != 0.0 && (maxPrice.None? || maxPrice.value == 0.0 || maxPrice.value == p)
    ensures PriceLabel(Wrappers.Some(p), maxPrice, show) == "€" + show(p)
  {
  }

  /** A non-empty export starts with the title and the number of events. */
  lemma MarkdownStartsWithCount(events: seq<Types.Event>, exportedAt: string, env: Env)
    requires events != []
    ensures Strs.StartsWith(FormatEventsAsMarkdown(events, exportedAt, env), CountLines(|events|))
  {
    var c := CountLines(|events|);
    var q := "**Exported:** " + exportedAt + "\n\n---\n\n";
    var rest := Strs.Join(Seqs.Map((e: Types.Event) => Block(e, env), events), "\n");
    Seqs.AppendAssoc(c, q, rest);
    assert (c + (q + rest))[..|c|] == c;
  }
}
