/**
 * The merge script: of the locations collected from a CSV export, it keeps those whose id
 * the coordinate file does not know yet, and reports how many it dropped. Reading and
 * writing the two files and the console output are not modelled.
 */
module MergeGeocode {
  import Seqs

  /** A location record: its id and the other fields, which the script passes through. */
  datatype Record<T> = Record(locationId: string, fields: T)

  /** `existingIds`: the ids of the existing locations. */
  function ExistingIds<T(!new)>(existing: seq<Record<T>>): (r: set<string>)
    ensures forall id :: id in r <==> exists i :: 0 <= i < |existing| && existing[i].locationId == id
  {
    set i | 0 <= i < |existing| :: existing[i].locationId
  }

  function IsNew<T(!new)>(ids: set<string>): Record<T> -> bool {
    (loc: Record<T>) => loc.locationId !in ids
  }

  /** `locationsToGeocode`: the new locations whose id is not among the existing ones, in order. */
  function LocationsToGeocode<T(!new)>(existing: seq<Record<T>>, newLocations: seq<Record<T>>): (r: seq<Record<T>>)
    ensures Seqs.IsSubseq(r, newLocations)
    ensures forall i :: 0 <= i < |r| ==> r[i].locationId !in ExistingIds(existing)
    ensures forall loc :: loc in r <==> loc in newLocations && loc.locationId !in ExistingIds(existing)
  {
    var p := IsNew(ExistingIds(existing));
    Seqs.FilterIsSubseq(p, newLocations);
    Seqs.FilterMembers(p, newLocations);
    Seqs.Filter(p, newLocations)
  }

  datatype Summary = Summary(existing: nat, newFromCsv: nat, alreadyHaveCoordinates: int, needGeocoding: nat)

  /** The four numbers of the summary. */
  function SummaryOf<T(!new)>(existing: seq<Record<T>>, newLocations: seq<Record<T>>): Summary {
    var out := LocationsToGeocode(existing, newLocations);
    Summary(|existing|, |newLocations|, |newLocations| - |out|, |out|)
  }

  // ---------------------------------------------------------------------------
  // Facts

  /** "Already have coordinates" is the number of new locations whose id is known. */
  lemma AlreadyHaveCountsKnownIds<T(!new)>(existing: seq<Record<T>>, newLocations: seq<Record<T>>)
    ensures SummaryOf(existing, newLocations).alreadyHaveCoordinates ==
      |Seqs.Filter(Seqs.Not(IsNew(ExistingIds(existing))), newLocations)|
    ensures SummaryOf(existing, newLocations).alreadyHaveCoordinates >= 0
  {
    Seqs.FilterComplement(IsNew(ExistingIds(existing)), newLocations);
  }

  /** Duplicates are not merged: a record with a fresh id is kept as often as it occurs, a known one never. */
  lemma OccurrencesKept<T(!new)>(existing: seq<Record<T>>, newLocations: seq<Record<T>>, loc: Record<T>)
    ensures multiset(LocationsToGeocode(existing, newLocations))[loc] ==
      if loc.locationId in ExistingIds(existing) then 0 else multiset(newLocations)[loc]
  {
    Seqs.FilterMultiplicity(IsNew(ExistingIds(existing)), newLocations, loc);
  }

  /** Without existing locations every new one needs geocoding. */
  lemma {:induction false} NothingExisting<T(!new)>(newLocations: seq<Record<T>>)
    ensures LocationsToGeocode([], newLocations) == newLocations
  {
    assert ExistingIds<T>([]) == {};
    Seqs.FilterAll(IsNew<T>({}), newLocations);
  }

  /** Merging the output again changes nothing: it is already disjoint from the existing ids. */
  lemma Idempotent<T(!new)>(existing: seq<Record<T>>, newLocations: seq<Record<T>>)
    ensures var out := LocationsToGeocode(existing, newLocations);
      LocationsToGeocode(existing, out) == out
  {
    var out := LocationsToGeocode(existing, newLocations);
    Seqs.FilterAll(IsNew(ExistingIds(existing)), out);
  }
}
