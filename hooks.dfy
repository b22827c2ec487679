/**
 * The client side of `useFilteredEvents`: the query variables sent to the backend, and
 * the language, target and price filters applied to the events it returns.
 */
module Hooks {
  import opened Wrappers
  import opened Types
  import Seqs

  /** The variables sent to the backend: `{}` without variables, otherwise all but the client-side three. */
  function BackendVariables(variables: Option<Filters>): (r: Filters)
    ensures r.languages.None? && r.targets.None? && r.priceFilter.None?
    ensures variables.Some? ==>
      (r.cities == variables.value.cities && r.dates == variables.value.dates &&
       r.topic == variables.value.topic && r.formats == variables.value.formats && r.year == variables.value.year)
    ensures variables.None? ==> r == NoFilters
  {
    if variables.None? then NoFilters
    else variables.value.(languages := None, targets := None, priceFilter := None)
  }

  /** `event.languages?.some((lang) => languages.includes(lang))`. */
  predicate SpeaksOneOf(e: Event, languages: seq<string>) {
    e.languages.Some? && exists i :: 0 <= i < |e.languages.value| && e.languages.value[i] in languages
  }

  /** `event.targets?.some((target) => targets.includes(target.id))`. */
  predicate AimsAtOneOf(e: Event, targets: seq<string>) {
    e.targets.Some? && exists i :: 0 <= i < |e.targets.value| && e.targets.value[i].id in targets
  }

  /** `event.price === 0`: a missing price is not free. */
  predicate IsFree(e: Event) {
    e.price == Some(0.0)
  }

  /** `event.price !== null && event.price > 0`. */
  predicate IsPaid(e: Event) {
    e.price.Some? && e.price.value > 0.0
  }

  /** The language filter is on for a present, non-empty list. */
  predicate LanguageOk(v: Filters, e: Event) {
    NonEmpty(v.languages) ==> SpeaksOneOf(e, v.languages.value)
  }

  predicate TargetOk(v: Filters, e: Event) {
    NonEmpty(v.targets) ==> AimsAtOneOf(e, v.targets.value)
  }

  /** "free" and "paid" constrain the price; "all" and no price filter do not. */
  predicate PriceOk(v: Filters, e: Event) {
    (v.priceFilter == Some(Free) ==> IsFree(e)) && (v.priceFilter == Some(Paid) ==> IsPaid(e))
  }

  /** An event passes the client-side filters of `v`. */
  predicate Passes(v: Filters, e: Event) {
    LanguageOk(v, e) && TargetOk(v, e) && PriceOk(v, e)
  }

  /** The language step: a filter only for a present, non-empty language list. */
  function LanguageStep(events: seq<Event>, v: Filters): seq<Event> {
    if NonEmpty(v.languages) then Seqs.Filter((e: Event) => SpeaksOneOf(e, v.languages.value), events)
    else events
  }

  function TargetStep(events: seq<Event>, v: Filters): seq<Event> {
    if NonEmpty(v.targets) then Seqs.Filter((e: Event) => AimsAtOneOf(e, v.targets.value), events)
    else events
  }

  function PriceStep(events: seq<Event>, v: Filters): seq<Event> {
    if v.priceFilter == Some(Free) then Seqs.Filter(IsFree, events)
    else if v.priceFilter == Some(Paid) then Seqs.Filter(IsPaid, events)
    else events
  }

  /** The three filters applied one after the other to the fetched events. */
  function FilterEvents(events: seq<Event>, variables: Option<Filters>): seq<Event> {
    if variables.None? then events
    else
      var v := variables.value;
      PriceStep(TargetStep(LanguageStep(events, v), v), v)
  }

  /** `filteredData`: without events there is nothing to filter. */
  function FilteredData(events: Option<seq<Event>>, variables: Option<Filters>): (r: Option<seq<Event>>)
    ensures r.None? <==> events.None?
  {
    if events.None? then None else Some(FilterEvents(events.value, variables))
  }

  // ---------------------------------------------------------------------------
  // Properties

  lemma {:induction false} FilterEq<T>(p: T -> bool, q: T -> bool, s: seq<T>)
    requires forall x :: p(x) == q(x)
    ensures Seqs.Filter(p, s) == Seqs.Filter(q, s)
  {
    if s != [] {
      FilterEq(p, q, s[1..]);
    }
  }

  lemma LanguageStepFilters(events: seq<Event>, v: Filters)
    ensures LanguageStep(events, v) == Seqs.Filter((e: Event) => LanguageOk(v, e), events)
  {
    if NonEmpty(v.languages) {
      FilterEq((e: Event) => SpeaksOneOf(e, v.languages.value), (e: Event) => LanguageOk(v, e), events);
    } else {
      Seqs.FilterAll((e: Event) => LanguageOk(v, e), events);
    }
  }

  lemma TargetStepFilters(events: seq<Event>, v: Filters)
    ensures TargetStep(events, v) == Seqs.Filter((e: Event) => TargetOk(v, e), events)
  {
    if NonEmpty(v.targets) {
      FilterEq((e: Event) => AimsAtOneOf(e, v.targets.value), (e: Event) => TargetOk(v, e), events);
    } else {
      Seqs.FilterAll((e: Event) => TargetOk(v, e), events);
    }
  }

  lemma PriceStepFilters(events: seq<Event>, v: Filters)
    ensures PriceStep(events, v) == Seqs.Filter((e: Event) => PriceOk(v, e), events)
  {
    if v.priceFilter == Some(Free) {
      FilterEq(IsFree, (e: Event) => PriceOk(v, e), events);
    } else if v.priceFilter == Some(Paid) {
      FilterEq(IsPaid, (e: Event) => PriceOk(v, e), events);
    } else {
      Seqs.FilterAll((e: Event) => PriceOk(v, e), events);
    }
  }

  /** The chain of filters keeps exactly the events that pass all three, in order. */
  lemma FilterEventsIsOneFilter(events: seq<Event>, v: Filters)
    ensures FilterEvents(events, Some(v)) == Seqs.Filter((e: Event) => Passes(v, e), events)
  {
    var lang := (e: Event) => LanguageOk(v, e);
    var both := (e: Event) => LanguageOk(v, e) && TargetOk(v, e);
    LanguageStepFilters(events, v);
    TargetStepFilters(LanguageStep(events, v), v);
    Seqs.FilterFilter(lang, (e: Event) => TargetOk(v, e), both, events);
    PriceStepFilters(TargetStep(LanguageStep(events, v), v), v);
    Seqs.FilterFilter(both, (e: Event) => PriceOk(v, e), (e: Event) => Passes(v, e), events);
  }

  /**
   * The filtered events are a subsequence of the fetched ones, and an event is kept exactly
   * when it passes the language, target and price filters.
   */
  lemma FilteredEvents(events: seq<Event>, variables: Option<Filters>)
    ensures Seqs.IsSubseq(FilterEvents(events, variables), events)
    ensures variables.Some? ==> forall e :: e in FilterEvents(events, variables) <==> e in events && Passes(variables.value, e)
  {
    if variables.None? {
      Seqs.FilterIsSubseq((e: Event) => true, events);
      Seqs.FilterAll((e: Event) => true, events);
    } else {
      var v := variables.value;
      FilterEventsIsOneFilter(events, v);
      Seqs.FilterIsSubseq((e: Event) => Passes(v, e), events);
      Seqs.FilterMembers((e: Event) => Passes(v, e), events);
    }
  }

  /** Without a non-empty language or target list and with no price restriction, nothing is dropped. */
  lemma NoConstraintKeepsAll(events: seq<Event>, v: Filters)
    requires !NonEmpty(v.languages) && !NonEmpty(v.targets)
    requires v.priceFilter in {None, Some(All)}
    ensures FilterEvents(events, Some(v)) == events
  {
  }

  /** "free" keeps a price of exactly 0 and drops a missing price; "paid" keeps positive prices only. */
  lemma PriceFilters(events: seq<Event>, v: Filters)
    ensures v.priceFilter == Some(Free) ==>
      forall e :: e in FilterEvents(events, Some(v)) ==> e.price == Some(0.0)
    ensures v.priceFilter == Some(Paid) ==>
      forall e :: e in FilterEvents(events, Some(v)) ==> e.price.Some? && e.price.value > 0.0
    ensures NonEmpty(v.languages) ==>
      forall e :: e in FilterEvents(events, Some(v)) ==> e.languages.Some? && SpeaksOneOf(e, v.languages.value)
  {
    FilteredEvents(events, Some(v));
  }
}
