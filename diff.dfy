/**
 * The comparison of the current records against the seen list in
 * `FITScraper.run`.  The seen list is a list, so membership is list
 * membership and it may hold an id more than once.
 */
module Diff {

  import opened Records
  import opened Subsequences

  /** The filter condition of the comprehension: the id is not in `seen`. */
  function Unseen(seen: seq<string>): Notification -> bool {
    (n: Notification) => n.id !in seen
  }

  /** `[n for n in current if n['id'] not in seen]`. */
  function NewNotifications(current: seq<Notification>, seen: seq<string>): (r: seq<Notification>)
    ensures |r| <= |current|
    ensures forall n :: n in r ==> n in current && n.id !in seen
    ensures forall n :: n in current && n.id !in seen ==> n in r
  {
    Filter(current, Unseen(seen))
  }

  /** `[n['id'] for n in new_notifications]`. */
  function Ids(ns: seq<Notification>): (r: seq<string>)
    ensures |r| == |ns| && forall i :: 0 <= i < |ns| ==> r[i] == ns[i].id
  {
    seq(|ns|, i requires 0 <= i < |ns| => ns[i].id)
  }

  /**
   * The diff is the order-preserving subsequence of `current` at the
   * positions whose id is not in `seen`; with the contract of `Positions`,
   * every kept record is unseen and every dropped one is seen.
   */
  lemma NewNotificationsSelectsUnseen(current: seq<Notification>, seen: seq<string>)
    ensures |NewNotifications(current, seen)| == |Positions(current, Unseen(seen))|
    ensures forall k :: 0 <= k < |Positions(current, Unseen(seen))| ==>
              NewNotifications(current, seen)[k] == current[Positions(current, Unseen(seen))[k]]
  {
    FilterSelects(current, Unseen(seen));
  }

  /** The diff is empty exactly when every current id is already in `seen`. */
  lemma NothingNewIffAllSeen(current: seq<Notification>, seen: seq<string>)
    ensures NewNotifications(current, seen) == [] <==> forall i :: 0 <= i < |current| ==> current[i].id in seen
  {
    if NewNotifications(current, seen) != [] {
      var n := NewNotifications(current, seen)[0];
      assert n in NewNotifications(current, seen);
    }
    if NewNotifications(current, seen) == [] {
      forall i | 0 <= i < |current| ensures current[i].id in seen {
        assert current[i] in current;
      }
    }
  }

  /** Filtering against `seen + more` is filtering against `seen`, then against `more`. */
  lemma NewNotificationsOfAppended(current: seq<Notification>, seen: seq<string>, more: seq<string>)
    ensures NewNotifications(current, seen + more) == NewNotifications(NewNotifications(current, seen), more)
  {
    FilterConjunction(current, Unseen(seen), Unseen(more), Unseen(seen + more));
  }

  /** No record's own id passes the filter against that record list's ids. */
  lemma NothingNewAgainstOwnIds(ns: seq<Notification>)
    ensures NewNotifications(ns, Ids(ns)) == []
  {
    NothingNewIffAllSeen(ns, Ids(ns));
  }

  /**
   * Idempotence of a run: once the new records' ids are appended to the
   * seen list, the same records yield nothing new.
   */
  lemma SecondPassFindsNothing(current: seq<Notification>, seen: seq<string>)
    ensures NewNotifications(current, seen + Ids(NewNotifications(current, seen))) == []
  {
    var added := NewNotifications(current, seen);
    NewNotificationsOfAppended(current, seen, Ids(added));
    NothingNewAgainstOwnIds(added);
  }

  /** Every id appended by a run is new to the old seen list. */
  lemma AppendedIdsAreUnseen(current: seq<Notification>, seen: seq<string>)
    ensures forall id :: id in Ids(NewNotifications(current, seen)) ==> id !in seen
  {
    var added := NewNotifications(current, seen);
    forall id | id in Ids(added) ensures id !in seen {
      var i :| 0 <= i < |added| && Ids(added)[i] == id;
      assert added[i] in added;
    }
  }

  /** Two unseen records that share an id are both kept, and their id is appended twice. */
  lemma DuplicateIdsAreBothKept(a: Notification, b: Notification, seen: seq<string>)
    requires a.id == b.id && a.id !in seen
    ensures NewNotifications([a, b], seen) == [a, b]
    ensures Ids(NewNotifications([a, b], seen)) == [a.id, a.id]
  {
    assert [a, b][..1] == [a];
    assert [a][..0] == [];
    assert Filter([a], Unseen(seen)) == [a];
  }
}
