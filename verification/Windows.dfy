/** Bounded windows over a growing history. */
module Windows {
  import opened Collections
  import opened Contracts

  /** The last `n` items, or all of them. */
  function LastN<T>(s: seq<T>, n: nat): seq<T> {
    if |s| <= n then s else s[|s| - n..]
  }

  function Reversed<T>(s: seq<T>): (r: seq<T>)
    ensures |r| == |s| && forall i :: 0 <= i < |s| ==> r[i] == s[|s| - 1 - i]
  {
    seq(|s|, i requires 0 <= i < |s| => s[|s| - 1 - i])
  }

  /** A store's listing: newest first, at most `limit` items. */
  function NewestFirst<T>(history: seq<T>, limit: nat): seq<T> {
    Reversed(LastN(history, limit))
  }

  lemma SeededWindow<T>(history: seq<T>, n: nat)
    ensures Reversed(NewestFirst(history, n)) == LastN(history, n)
  {
  }

  /** Sliding a window is windowing the longer history. */
  lemma SlidingWindow<T>(history: seq<T>, item: T, n: nat)
    ensures LastN(LastN(history, n) + [item], n) == LastN(history + [item], n)
  {
  }

  lemma MappedWindow<T, U>(s: seq<T>, f: T -> U, n: nat)
    ensures Mapped(LastN(s, n), f) == LastN(Mapped(s, f), n)
    ensures Mapped(NewestFirst(s, n), f) == NewestFirst(Mapped(s, f), n)
  {
  }

  lemma MappedSnoc<T, U>(s: seq<T>, x: T, f: T -> U)
    ensures Mapped(s + [x], f) == Mapped(s, f) + [f(x)]
  {
  }

  // ----- restarts -----

  /** One observation, and whether the tracker process was replaced by a fresh one just before it. */
  datatype Event<T> = Event(item: T, restarted: bool)

  /** The windows after each observation, for a tracker that keeps its window in memory and, when it is fresh,
      seeds it from the store, to which every observation is appended. */
  function Observed<T>(stored: seq<T>, live: Option<seq<T>>, events: seq<Event<T>>, n: nat): seq<seq<T>>
    decreases |events|
  {
    if events == [] then []
    else
      var e := events[0];
      var before := if live.None? || e.restarted then Reversed(NewestFirst(stored, n)) else live.value;
      var after := LastN(before + [e.item], n);
      [after] + Observed(stored + [e.item], Some(after), events[1..], n)
  }

  function Items<T>(events: seq<Event<T>>): seq<T> {
    if events == [] then [] else [events[0].item] + Items(events[1..])
  }

  /** The windows of a process that is never restarted. */
  function WindowsOf<T>(stored: seq<T>, items: seq<T>, n: nat): seq<seq<T>>
    decreases |items|
  {
    if items == [] then []
    else [LastN(stored + [items[0]], n)] + WindowsOf(stored + [items[0]], items[1..], n)
  }

  lemma {:induction false} WindowsLength<T>(stored: seq<T>, items: seq<T>, n: nat)
    ensures |WindowsOf(stored, items, n)| == |items|
    decreases |items|
  {
    if items != [] { WindowsLength(stored + [items[0]], items[1..], n); }
  }

  /** Each of them is the last `n` items of the whole stream so far. */
  lemma {:induction false} WindowAt<T>(stored: seq<T>, items: seq<T>, n: nat, k: nat)
    requires k < |items| == |WindowsOf(stored, items, n)|
    ensures WindowsOf(stored, items, n)[k] == LastN(stored + items[..k + 1], n)
    decreases |items|
  {
    var longer := stored + [items[0]];
    if k == 0 {
      assert stored + items[..1] == longer;
    } else {
      WindowsLength(longer, items[1..], n);
      WindowAt(longer, items[1..], n, k - 1);
      assert stored + items[..k + 1] == longer + items[1..][..k];
    }
  }

  /** Restart equivalence: whatever the pattern of restarts, the windows are those of a process
      that is never restarted. */
  lemma {:induction false} RestartEquivalence<T>(
    stored: seq<T>, live: Option<seq<T>>, events: seq<Event<T>>, n: nat)
    requires live.Some? ==> live.value == LastN(stored, n)
    ensures Observed(stored, live, events, n) == WindowsOf(stored, Items(events), n)
    decreases |events|
  {
    if events != [] {
      var item := events[0].item;
      SeededWindow(stored, n);
      SlidingWindow(stored, item, n);
      RestartEquivalence(stored + [item], Some(LastN(stored + [item], n)), events[1..], n);
    }
  }
}
