/**
 * The wishlist store: an ordered list of saved event snapshots, kept free of
 * duplicate ids by `addEvent` and managed by remove and toggle.
 */
module Wishlist {
  import opened Types
  import Seqs

  /** Some snapshot in `s` carries the id. */
  ghost predicate Saved(s: seq<Event>, id: string) {
    exists i :: 0 <= i < |s| && s[i].id == id
  }

  /** No two snapshots share an id. */
  predicate UniqueIds(s: seq<Event>) {
    forall i, j :: 0 <= i < j < |s| ==> s[i].id != s[j].id
  }

  /** `s.some((e) => e.id === id)`, scanning from the front. */
  function AnyWithId(s: seq<Event>, id: string): (b: bool)
    ensures b <==> Saved(s, id)
  {
    if s == [] then false
    else if s[0].id == id then true
    else
      var b := AnyWithId(s[1..], id);
      assert Saved(s, id) ==> Saved(s[1..], id) by {
        if Saved(s, id) {
          var i :| 0 <= i < |s| && s[i].id == id;
          assert s[1..][i - 1].id == id;
        }
      }
      assert Saved(s[1..], id) ==> Saved(s, id) by {
        if Saved(s[1..], id) {
          var i :| 0 <= i < |s[1..]| && s[1..][i].id == id;
          assert s[i + 1].id == id;
        }
      }
      b
  }

  /** The list after `addEvent(e)`: unchanged if the id is saved, otherwise `e` appended. */
  function Added(s: seq<Event>, e: Event): seq<Event> {
    if AnyWithId(s, e.id) then s else s + [e]
  }

  /** The list after `removeEvent(id)`: every snapshot with another id, in order. */
  function Removed(s: seq<Event>, id: string): seq<Event> {
    Seqs.Filter((e: Event) => e.id != id, s)
  }

  /** The list after `toggleEvent(e)`. */
  function Toggled(s: seq<Event>, e: Event): seq<Event> {
    if AnyWithId(s, e.id) then Removed(s, e.id) else Added(s, e)
  }

  class WishlistStore {
    var savedEvents: seq<Event>

    constructor()
      ensures savedEvents == []
    {
      savedEvents := [];
    }

    /** `isEventSaved(id)`. */
    function IsEventSaved(id: string): (b: bool)
      reads this
      ensures b <==> exists i :: 0 <= i < |savedEvents| && savedEvents[i].id == id
    {
      AnyWithId(savedEvents, id)
    }

    method AddEvent(e: Event)
      modifies this
      ensures savedEvents == Added(old(savedEvents), e)
      ensures UniqueIds(old(savedEvents)) ==> UniqueIds(savedEvents)
    {
      if UniqueIds(savedEvents) { AddedUnique(savedEvents, e); }
      savedEvents := Added(savedEvents, e);
    }

    method RemoveEvent(id: string)
      modifies this
      ensures savedEvents == Removed(old(savedEvents), id)
      ensures UniqueIds(old(savedEvents)) ==> UniqueIds(savedEvents)
    {
      if UniqueIds(savedEvents) { RemovedUnique(savedEvents, id); }
      savedEvents := Removed(savedEvents, id);
    }

    method ToggleEvent(e: Event)
      modifies this
      ensures savedEvents == Toggled(old(savedEvents), e)
      ensures UniqueIds(old(savedEvents)) ==> UniqueIds(savedEvents)
    {
      if IsEventSaved(e.id) {
        RemoveEvent(e.id);
      } else {
        AddEvent(e);
      }
    }
  }

  // ---------------------------------------------------------------------------
  // Properties of the three updates

  /** Adding a saved id changes nothing, even when the snapshot differs. */
  lemma AddSavedIsNoOp(s: seq<Event>, e: Event)
    requires exists i :: 0 <= i < |s| && s[i].id == e.id
    ensures Added(s, e) == s
  {
  }

  /** Adding a fresh id appends it and leaves every earlier entry where it was. */
  lemma AddFreshAppends(s: seq<Event>, e: Event)
    requires forall i :: 0 <= i < |s| ==> s[i].id != e.id
    ensures |Added(s, e)| == |s| + 1
    ensures Added(s, e)[|s|] == e
    ensures forall i :: 0 <= i < |s| ==> Added(s, e)[i] == s[i]
  {
  }

  lemma AddedUnique(s: seq<Event>, e: Event)
    requires UniqueIds(s)
    ensures UniqueIds(Added(s, e))
  {
  }

  /** Removal keeps exactly the entries with other ids, in order. */
  lemma RemovedContents(s: seq<Event>, id: string)
    ensures forall i :: 0 <= i < |Removed(s, id)| ==> Removed(s, id)[i].id != id && Removed(s, id)[i] in s
    ensures forall i :: 0 <= i < |s| && s[i].id != id ==> s[i] in Removed(s, id)
    ensures Seqs.IsSubseq(Removed(s, id), s)
  {
    Seqs.FilterMembers((e: Event) => e.id != id, s);
    Seqs.FilterIsSubseq((e: Event) => e.id != id, s);
  }

  /** Removing an id nobody has changes nothing. */
  lemma RemoveAbsentIsNoOp(s: seq<Event>, id: string)
    requires forall i :: 0 <= i < |s| ==> s[i].id != id
    ensures Removed(s, id) == s
  {
    Seqs.FilterAll((e: Event) => e.id != id, s);
  }

  lemma {:induction false} RemovedUnique(s: seq<Event>, id: string)
    requires UniqueIds(s)
    ensures UniqueIds(Removed(s, id))
  {
    if s != [] {
      RemovedUnique(s[1..], id);
      var rest := Removed(s[1..], id);
      Seqs.FilterMembers((e: Event) => e.id != id, s[1..]);
      assert forall k :: 0 <= k < |rest| ==> rest[k] in s[1..];
      assert forall k :: 0 <= k < |rest| ==> rest[k].id != s[0].id by {
        forall k | 0 <= k < |rest| ensures rest[k].id != s[0].id {
          var m :| 0 <= m < |s[1..]| && s[1..][m] == rest[k];
          assert s[m + 1] == rest[k];
        }
      }
    }
  }

  /** After a toggle the event's id is saved exactly when it was not before. */
  lemma ToggleFlips(s: seq<Event>, e: Event)
    ensures AnyWithId(Toggled(s, e), e.id) == !AnyWithId(s, e.id)
  {
    if AnyWithId(s, e.id) {
      RemovedContents(s, e.id);
    } else {
      assert Added(s, e)[|s|].id == e.id;
    }
  }

  /** A toggle does not change whether any other id is saved. */
  lemma ToggleKeepsOthers(s: seq<Event>, e: Event, id: string)
    requires id != e.id
    ensures AnyWithId(Toggled(s, e), id) == AnyWithId(s, id)
  {
    if AnyWithId(s, e.id) {
      RemovedContents(s, e.id);
      if AnyWithId(s, id) {
        var i :| 0 <= i < |s| && s[i].id == id;
        var r := Removed(s, e.id);
        assert s[i] in r;
        var k :| 0 <= k < |r| && r[k] == s[i];
        assert r[k].id == id;
      }
      if AnyWithId(Removed(s, e.id), id) {
        var r := Removed(s, e.id);
        var k :| 0 <= k < |r| && r[k].id == id;
        assert r[k] in s;
      }
    } else if AnyWithId(s, id) {
      var i :| 0 <= i < |s| && s[i].id == id;
      assert Added(s, e)[i].id == id;
    }
  }

  /** Adding a fresh event and then removing it restores the original list. */
  lemma AddThenRemove(s: seq<Event>, e: Event)
    requires forall i :: 0 <= i < |s| ==> s[i].id != e.id
    ensures Removed(Added(s, e), e.id) == s
  {
    var p := (x: Event) => x.id != e.id;
    Seqs.FilterAppend(p, s, [e]);
    Seqs.FilterAll(p, s);
  }
}
