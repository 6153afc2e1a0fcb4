/** Time-stamped deques that drop old entries from the front, and what is left of a full history. */
module TimedWindow {

  datatype Timed<+T> = Timed(at: real, item: T)

  /** What a popleft loop leaves: the deque from its first entry that is not older than the cutoff. */
  function Pruned<T>(entries: seq<Timed<T>>, cutoff: real): seq<Timed<T>> {
    if entries != [] && entries[0].at < cutoff then Pruned(entries[1..], cutoff) else entries
  }

  /** The entries of a history that are not older than the cutoff, in order. */
  function Recent<T>(history: seq<Timed<T>>, cutoff: real): seq<Timed<T>> {
    if history == [] then []
    else if history[0].at >= cutoff then [history[0]] + Recent(history[1..], cutoff)
    else Recent(history[1..], cutoff)
  }

  ghost predicate Ordered<T>(history: seq<Timed<T>>) {
    forall i, j :: 0 <= i < j < |history| ==> history[i].at <= history[j].at
  }

  lemma {:induction false} PrunedStep<T>(entries: seq<Timed<T>>, cutoff: real)
    ensures var p := Pruned(entries, cutoff);
            |p| <= |entries| && p == entries[|entries| - |p|..] && (p == [] || p[0].at >= cutoff)
    ensures entries != [] && entries[|entries| - 1].at >= cutoff ==>
              var p := Pruned(entries, cutoff);
              p != [] && p[|p| - 1] == entries[|entries| - 1]
  {
    if entries != [] && entries[0].at < cutoff {
      PrunedStep(entries[1..], cutoff);
    }
  }

  /** What the loop leaves is the part of the deque from its first entry that is not too old: everything before that is
      too old, and that one is not. */
  lemma {:induction false} PrunedMeaning<T>(entries: seq<Timed<T>>, cutoff: real)
    ensures var dropped := |entries| - |Pruned(entries, cutoff)|;
            && 0 <= dropped <= |entries| && Pruned(entries, cutoff) == entries[dropped..]
            && (forall i :: 0 <= i < dropped ==> entries[i].at < cutoff)
            && (dropped < |entries| ==> entries[dropped].at >= cutoff)
  {
    if entries != [] && entries[0].at < cutoff {
      PrunedMeaning(entries[1..], cutoff);
    }
  }

  /** The entries that are kept are exactly those at or after the cutoff. */
  lemma {:induction false} RecentIff<T>(history: seq<Timed<T>>, cutoff: real, e: Timed<T>)
    ensures e in Recent(history, cutoff) <==> e in history && e.at >= cutoff
    ensures multiset(Recent(history, cutoff))[e] == if e.at >= cutoff then multiset(history)[e] else 0
  {
    if history != [] {
      RecentIff(history[1..], cutoff, e);
      assert history == [history[0]] + history[1..];
    }
  }

  lemma {:induction false} RecentAppend<T>(a: seq<Timed<T>>, b: seq<Timed<T>>, cutoff: real)
    ensures Recent(a + b, cutoff) == Recent(a, cutoff) + Recent(b, cutoff)
  {
    if a == [] {
      assert a + b == b;
    } else {
      assert (a + b)[1..] == a[1..] + b;
      RecentAppend(a[1..], b, cutoff);
      var ra, rb := Recent(a[1..], cutoff), Recent(b, cutoff);
      assert [a[0]] + (ra + rb) == [a[0]] + ra + rb;
    }
  }

  lemma {:induction false} RecentAll<T>(entries: seq<Timed<T>>, cutoff: real)
    requires forall e :: e in entries ==> e.at >= cutoff
    ensures Recent(entries, cutoff) == entries
  {
    if entries != [] {
      RecentAll(entries[1..], cutoff);
    }
  }

  lemma {:induction false} RecentIsOrdered<T>(history: seq<Timed<T>>, cutoff: real)
    requires Ordered(history)
    ensures Ordered(Recent(history, cutoff))
    ensures forall e :: e in Recent(history, cutoff) ==> e in history && e.at >= cutoff
  {
    if history != [] {
      RecentIsOrdered(history[1..], cutoff);
    }
  }

  /** On an ordered deque the front loop keeps exactly the recent entries. */
  lemma {:induction false} PrunedIsRecent<T>(entries: seq<Timed<T>>, cutoff: real)
    requires Ordered(entries)
    ensures Pruned(entries, cutoff) == Recent(entries, cutoff)
  {
    if entries != [] {
      if entries[0].at < cutoff {
        PrunedIsRecent(entries[1..], cutoff);
      } else {
        RecentAll(entries, cutoff);
      }
    }
  }

  /** A later cutoff forgets nothing that an earlier one had not already made irrelevant. */
  lemma {:induction false} RecentTwice<T>(history: seq<Timed<T>>, early: real, late: real)
    requires early <= late
    ensures Recent(Recent(history, early), late) == Recent(history, late)
  {
    if history != [] {
      var rest := Recent(history[1..], early);
      RecentTwice(history[1..], early, late);
      if history[0].at >= early {
        assert ([history[0]] + rest)[1..] == rest;
      }
    }
  }

  /** One append-and-prune step keeps the deque equal to the recent part of the whole history. */
  lemma WindowStep<T>(history: seq<Timed<T>>, deque: seq<Timed<T>>, more: seq<Timed<T>>, early: real, late: real)
    requires Ordered(history + more) && early <= late && deque == Recent(history, early)
    ensures Pruned(deque + more, late) == Recent(history + more, late)
  {
    assert Ordered(history) by {
      assert forall i :: 0 <= i < |history| ==> (history + more)[i] == history[i];
    }
    RecentIsOrdered(history, early);
    assert Ordered(deque + more) by {
      forall i, j | 0 <= i < j < |deque + more|
        ensures (deque + more)[i].at <= (deque + more)[j].at
      {
        if i < |deque| <= j {
          assert deque[i] in deque;
          var k :| 0 <= k < |history| && history[k] == deque[i];
          assert (history + more)[k] == deque[i];
          assert (history + more)[|history| + j - |deque|] == (deque + more)[j];
        } else if |deque| <= i {
          assert (history + more)[|history| + i - |deque|] == (deque + more)[i];
          assert (history + more)[|history| + j - |deque|] == (deque + more)[j];
        }
      }
    }
    PrunedIsRecent(deque + more, late);
    RecentAppend(deque, more, late);
    RecentAppend(history, more, late);
    RecentTwice(history, early, late);
  }
}
