/** Merging the executed actions of the first round with the follow-up actions of the second. */
module Merging {
  import opened Contracts

  /** A dictionary that remembers the order in which its keys were first written. */
  datatype Ordered = Ordered(keys: seq<Key>, entries: map<Key, Action>) {
    ghost predicate Valid() {
      && (forall k :: k in keys <==> k in entries)
      && (forall i, j :: 0 <= i < j < |keys| ==> keys[i] != keys[j])
      && (forall k :: k in entries ==> KeyOf(entries[k]) == k)
    }

    function Put(a: Action): (r: Ordered)
      requires Valid()
      ensures r.Valid()
    {
      var k := KeyOf(a);
      Ordered(if k in entries then keys else keys + [k], entries[k := a])
    }

    function Values(): seq<Action>
      requires Valid()
    {
      seq(|keys|, i requires 0 <= i < |keys| => entries[keys[i]])
    }
  }

  function Follow(d: Ordered, a: Action): (r: Ordered)
    requires d.Valid()
    ensures r.Valid()
  {
    var k := KeyOf(a);
    if k !in d.entries then d.Put(a)
    else
      var previous := d.entries[k];
      d.Put(previous.(status := if a.status == Blocked then Blocked else previous.status, missing := a.missing))
  }

  function Recorded(executed: seq<Action>): (d: Ordered)
    ensures d.Valid()
  {
    if executed == [] then Ordered([], map[])
    else Recorded(executed[..|executed| - 1]).Put(executed[|executed| - 1])
  }

  function Followed(executed: seq<Action>, followups: seq<Action>): (d: Ordered)
    ensures d.Valid()
  {
    if followups == [] then Recorded(executed)
    else Follow(Followed(executed, followups[..|followups| - 1]), followups[|followups| - 1])
  }

  function MergeOf(executed: seq<Action>, followups: seq<Action>): seq<Action> {
    Followed(executed, followups).Values()
  }

  method MergeCompensationActions(executed: seq<Action>, followups: seq<Action>) returns (merged: seq<Action>)
    ensures merged == MergeOf(executed, followups)
  {
    var keys: seq<Key>, entries: map<Key, Action> := [], map[];
    for i := 0 to |executed|
      invariant Ordered(keys, entries) == Recorded(executed[..i])
    {
      assert executed[..i + 1][..i] == executed[..i];
      var k := KeyOf(executed[i]);
      keys := if k in entries then keys else keys + [k];
      entries := entries[k := executed[i]];
    }
    assert executed[..|executed|] == executed;
    for i := 0 to |followups|
      invariant Ordered(keys, entries) == Followed(executed, followups[..i])
    {
      assert followups[..i + 1][..i] == followups[..i];
      var action := followups[i];
      var k := KeyOf(action);
      if k !in entries {
        keys := keys + [k];
        entries := entries[k := action];
        continue;
      }
      var previous := entries[k];
      entries := entries[k := previous.(
        status := if action.status == Blocked then Blocked else previous.status,
        missing := action.missing)];
    }
    assert followups[..|followups|] == followups;
    merged := Ordered(keys, entries).Values();
  }

  // ----- what merging keeps -----

  /** Position `i` holds the last action of its key. */
  ghost predicate LastOf(actions: seq<Action>, k: Key, i: int) {
    0 <= i < |actions| && KeyOf(actions[i]) == k && forall j :: i < j < |actions| ==> KeyOf(actions[j]) != k
  }

  /** The last executed action of the key is blocked. */
  ghost predicate StaysBlocked(executed: seq<Action>, k: Key) {
    exists i :: LastOf(executed, k, i) && executed[i].status == Blocked
  }

  ghost predicate HasKey(actions: seq<Action>, k: Key) {
    exists a :: a in actions && KeyOf(a) == k
  }

  ghost predicate BlockedAt(actions: seq<Action>, k: Key) {
    exists a :: a in actions && KeyOf(a) == k && a.status == Blocked
  }

  ghost predicate SomeBlocked(actions: seq<Action>) {
    exists a :: a in actions && a.status == Blocked
  }

  lemma StaysBlockedSnoc(front: seq<Action>, last: Action, k: Key)
    ensures StaysBlocked(front + [last], k)
            <==> if KeyOf(last) == k then last.status == Blocked else StaysBlocked(front, k)
  {
    var all := front + [last];
    if KeyOf(last) == k {
      assert LastOf(all, k, |front|);
    } else {
      forall i ensures LastOf(all, k, i) <==> LastOf(front, k, i) {
        if 0 <= i < |front| { assert all[i] == front[i]; }
        assert LastOf(front, k, i) ==> forall j :: i < j < |all| ==> all[j] == last || all[j] == front[j];
        assert LastOf(all, k, i) ==> forall j :: i < j < |front| ==> all[j] == front[j];
      }
      if StaysBlocked(front, k) {
        var i :| LastOf(front, k, i) && front[i].status == Blocked;
        assert LastOf(all, k, i) && all[i] == front[i];
      }
    }
  }

  lemma {:induction false} RecordedMeaning(executed: seq<Action>, k: Key)
    ensures k in Recorded(executed).entries <==> HasKey(executed, k)
    ensures k in Recorded(executed).entries ==>
              (Recorded(executed).entries[k].status == Blocked <==> StaysBlocked(executed, k))
  {
    if executed != [] {
      var n := |executed| - 1;
      assert executed == executed[..n] + [executed[n]];
      RecordedMeaning(executed[..n], k);
      StaysBlockedSnoc(executed[..n], executed[n], k);
    }
  }

  lemma FollowStep(d: Ordered, a: Action, k: Key)
    requires d.Valid()
    ensures k in Follow(d, a).entries <==> k in d.entries || KeyOf(a) == k
    ensures KeyOf(a) != k && k in d.entries ==> Follow(d, a).entries[k] == d.entries[k]
    ensures KeyOf(a) == k ==>
              && (Follow(d, a).entries[k].status == Blocked <==>
                    a.status == Blocked || (k in d.entries && d.entries[k].status == Blocked))
              && Follow(d, a).entries[k].missing == a.missing
  {
  }

  lemma HasKeySnoc(front: seq<Action>, last: Action, k: Key)
    ensures HasKey(front + [last], k) <==> HasKey(front, k) || KeyOf(last) == k
    ensures BlockedAt(front + [last], k) <==> BlockedAt(front, k) || (KeyOf(last) == k && last.status == Blocked)
  {
    assert forall a :: a in front + [last] <==> a in front || a == last;
  }

  lemma StuckHasKey(executed: seq<Action>, k: Key)
    requires StaysBlocked(executed, k)
    ensures HasKey(executed, k)
  {
    var i :| LastOf(executed, k, i) && executed[i].status == Blocked;
    assert executed[i] in executed;
  }

  lemma {:induction false} FollowedMeaning(executed: seq<Action>, followups: seq<Action>, k: Key)
    ensures k in Followed(executed, followups).entries <==> HasKey(executed, k) || HasKey(followups, k)
    ensures k in Followed(executed, followups).entries ==>
              (Followed(executed, followups).entries[k].status == Blocked
               <==> StaysBlocked(executed, k) || BlockedAt(followups, k))
  {
    if followups == [] {
      RecordedMeaning(executed, k);
    } else {
      var n := |followups| - 1;
      var front, last := followups[..n], followups[n];
      assert followups == front + [last];
      FollowedMeaning(executed, front, k);
      FollowStep(Followed(executed, front), last, k);
      HasKeySnoc(front, last, k);
      if StaysBlocked(executed, k) { StuckHasKey(executed, k); }
    }
  }

  /** The details of a merged action are those of the last follow-up of its key. */
  lemma {:induction false} FollowedDetails(executed: seq<Action>, followups: seq<Action>, i: int)
    requires 0 <= i < |followups| && LastOf(followups, KeyOf(followups[i]), i)
    ensures KeyOf(followups[i]) in Followed(executed, followups).entries
    ensures Followed(executed, followups).entries[KeyOf(followups[i])].missing == followups[i].missing
  {
    var n := |followups| - 1;
    var front := followups[..n];
    FollowStep(Followed(executed, front), followups[n], KeyOf(followups[i]));
    if i < n {
      assert forall j :: i < j < n ==> front[j] == followups[j];
      FollowedDetails(executed, front, i);
    }
  }

  /** One action a key; no key is lost or invented; a key is blocked exactly when its last executed action
      stayed blocked or some follow-up of the key is blocked. */
  lemma MergeMeaning(executed: seq<Action>, followups: seq<Action>)
    ensures forall i, j :: 0 <= i < j < |MergeOf(executed, followups)| ==>
              KeyOf(MergeOf(executed, followups)[i]) != KeyOf(MergeOf(executed, followups)[j])
    ensures forall k :: HasKey(MergeOf(executed, followups), k) <==> HasKey(executed, k) || HasKey(followups, k)
    ensures forall a :: a in MergeOf(executed, followups) ==>
              (a.status == Blocked <==> StaysBlocked(executed, KeyOf(a)) || BlockedAt(followups, KeyOf(a)))
  {
    var d := Followed(executed, followups);
    var merged := d.Values();
    forall k ensures HasKey(merged, k) <==> HasKey(executed, k) || HasKey(followups, k) {
      FollowedMeaning(executed, followups, k);
      if k in d.entries {
        var i :| 0 <= i < |d.keys| && d.keys[i] == k;
        assert merged[i] == d.entries[k];
      }
    }
    forall a | a in merged
      ensures a.status == Blocked <==> StaysBlocked(executed, KeyOf(a)) || BlockedAt(followups, KeyOf(a))
    {
      var i :| 0 <= i < |merged| && merged[i] == a;
      assert d.keys[i] in d.entries;
      FollowedMeaning(executed, followups, d.keys[i]);
    }
  }

  lemma MergedBlockComesFrom(executed: seq<Action>, followups: seq<Action>)
    requires SomeBlocked(MergeOf(executed, followups))
    ensures SomeBlocked(followups) || exists k :: StaysBlocked(executed, k)
  {
    MergeMeaning(executed, followups);
    var a :| a in MergeOf(executed, followups) && a.status == Blocked;
    assert StaysBlocked(executed, KeyOf(a)) || BlockedAt(followups, KeyOf(a));
  }

  lemma BlockIsMerged(executed: seq<Action>, followups: seq<Action>, k: Key)
    requires StaysBlocked(executed, k) || BlockedAt(followups, k)
    ensures SomeBlocked(MergeOf(executed, followups))
  {
    if StaysBlocked(executed, k) { StuckHasKey(executed, k); }
    MergeMeaning(executed, followups);
    assert HasKey(MergeOf(executed, followups), k);
    var m :| m in MergeOf(executed, followups) && KeyOf(m) == k;
  }

  lemma MergedEmpty(executed: seq<Action>, followups: seq<Action>)
    ensures MergeOf(executed, followups) == [] <==> executed == [] && followups == []
  {
    MergeMeaning(executed, followups);
    var merged := MergeOf(executed, followups);
    if executed != [] { assert HasKey(executed, KeyOf(executed[0])); }
    if followups != [] { assert HasKey(followups, KeyOf(followups[0])); }
    if merged != [] { assert HasKey(merged, KeyOf(merged[0])); }
  }

  /** The merged list blocks exactly when a follow-up blocks or some key stays blocked from the first round. */
  lemma MergeBlocks(executed: seq<Action>, followups: seq<Action>)
    ensures SomeBlocked(MergeOf(executed, followups))
            <==> SomeBlocked(followups) || exists k :: StaysBlocked(executed, k)
    ensures MergeOf(executed, followups) == [] <==> executed == [] && followups == []
  {
    MergedEmpty(executed, followups);
    if SomeBlocked(MergeOf(executed, followups)) {
      MergedBlockComesFrom(executed, followups);
    } else if k :| StaysBlocked(executed, k) {
      BlockIsMerged(executed, followups, k);
    } else if SomeBlocked(followups) {
      var a :| a in followups && a.status == Blocked;
      BlockIsMerged(executed, followups, KeyOf(a));
    }
  }
}
