/** Decoded `Transacted` events and `FundSynchronizer.mergeEvents`, the merge
    by block number of two event lists fetched with separate filters. */
module EventMerge {
  import opened Common
  import Ledger

  /** A `Transacted(assetAddress, amount, user)` log entry as ethers decodes
      it, with the address of the emitting fund contract; any argument may be
      missing. The valuation is carried alongside the event because the
      engine never computes it. */
  datatype Event = Event(address: string, blockNumber: int, user: Option<string>, assetAddress: Option<string>,
                         amount: Option<int>, txHash: Option<string>, value: Ledger.Valuation)

  ghost predicate SortedByBlock(s: seq<Event>)
  {
    forall i, j :: 0 <= i < j < |s| ==> s[i].blockNumber <= s[j].blockNumber
  }

  /** Reference definition of the merge: the smaller head block first, and
      on equal blocks the head of `b`. */
  function Merge(a: seq<Event>, b: seq<Event>): seq<Event>
    decreases |a| + |b|
  {
    if |a| == 0 then b
    else if |b| == 0 then a
    else if a[0].blockNumber < b[0].blockNumber then [a[0]] + Merge(a[1..], b)
    else [b[0]] + Merge(a, b[1..])
  }

  /** The merge loses and invents nothing: its contents are the multiset
      union of the inputs. */
  lemma {:induction false} MergeContents(a: seq<Event>, b: seq<Event>)
    ensures |Merge(a, b)| == |a| + |b|
    ensures multiset(Merge(a, b)) == multiset(a) + multiset(b)
    decreases |a| + |b|
  {
    if |a| > 0 && |b| > 0 {
      if a[0].blockNumber < b[0].blockNumber {
        MergeContents(a[1..], b);
        assert a == [a[0]] + a[1..];
      } else {
        MergeContents(a, b[1..]);
        assert b == [b[0]] + b[1..];
      }
    }
  }

  /** One unfolding of the merge, taking from `a`. */
  lemma MergeTakesFirst(a: seq<Event>, b: seq<Event>)
    requires |a| > 0 && (|b| == 0 || a[0].blockNumber < b[0].blockNumber)
    ensures Merge(a, b) == [a[0]] + Merge(a[1..], b)
  {
  }

  /** One unfolding of the merge, taking from `b`. */
  lemma MergeTakesSecond(a: seq<Event>, b: seq<Event>)
    requires |b| > 0 && (|a| == 0 || b[0].blockNumber <= a[0].blockNumber)
    ensures Merge(a, b) == [b[0]] + Merge(a, b[1..])
  {
  }

  /** `mergeEvents`: fills the output one slot at a time from whichever input
      is not exhausted, comparing head block numbers otherwise. */
  method MergeEvents(events1: seq<Event>, events2: seq<Event>) returns (events: seq<Event>)
    ensures |events| == |events1| + |events2|
    ensures multiset(events) == multiset(events1) + multiset(events2)
    ensures events == Merge(events1, events2)
  {
    events := [];
    var i1, i2 := 0, 0;
    var i := 0;
    while i < |events1| + |events2|
      invariant 0 <= i1 <= |events1| && 0 <= i2 <= |events2|
      invariant i == i1 + i2 == |events|
      invariant events + Merge(events1[i1..], events2[i2..]) == Merge(events1, events2)
      decreases |events1| + |events2| - i
    {
      ghost var rest := Merge(events1[i1..], events2[i2..]);
      var next: Event;
      if i1 == |events1| || (i2 < |events2| && events2[i2].blockNumber <= events1[i1].blockNumber) {
        next := events2[i2];
        MergeTakesSecond(events1[i1..], events2[i2..]);
        assert events2[i2..][1..] == events2[i2 + 1..];
        i2 := i2 + 1;
      } else {
        next := events1[i1];
        MergeTakesFirst(events1[i1..], events2[i2..]);
        assert events1[i1..][1..] == events1[i1 + 1..];
        i1 := i1 + 1;
      }
      assert rest == [next] + Merge(events1[i1..], events2[i2..]);
      assert (events + [next]) + Merge(events1[i1..], events2[i2..]) == events + rest;
      events := events + [next];
      i := i + 1;
    }
    assert events1[i1..] == [] && events2[i2..] == [];
    MergeContents(events1, events2);
  }

  /** `r` interleaves `a` and `b`: both appear in `r` in their own order. */
  ghost predicate Interleaves(r: seq<Event>, a: seq<Event>, b: seq<Event>)
    decreases |r|
  {
    if |r| == 0 then |a| == 0 && |b| == 0
    else
      (|a| > 0 && r[0] == a[0] && Interleaves(r[1..], a[1..], b)) ||
      (|b| > 0 && r[0] == b[0] && Interleaves(r[1..], a, b[1..]))
  }

  /** The merge keeps each input's relative order. */
  lemma {:induction false} MergeInterleaves(a: seq<Event>, b: seq<Event>)
    ensures Interleaves(Merge(a, b), a, b)
    decreases |a| + |b|
  {
    if |a| == 0 {
      OneSidedInterleaves(b, true);
    } else if |b| == 0 {
      OneSidedInterleaves(a, false);
    } else if a[0].blockNumber < b[0].blockNumber {
      MergeInterleaves(a[1..], b);
    } else {
      MergeInterleaves(a, b[1..]);
    }
  }

  lemma {:induction false} OneSidedInterleaves(s: seq<Event>, second: bool)
    ensures second ==> Interleaves(s, [], s)
    ensures !second ==> Interleaves(s, s, [])
    decreases |s|
  {
    if |s| > 0 {
      OneSidedInterleaves(s[1..], second);
    }
  }

  /** A bound below every event of both inputs bounds every merged event. */
  lemma {:induction false} MergeLowerBound(a: seq<Event>, b: seq<Event>, lo: int)
    requires forall i :: 0 <= i < |a| ==> lo <= a[i].blockNumber
    requires forall i :: 0 <= i < |b| ==> lo <= b[i].blockNumber
    ensures forall i :: 0 <= i < |Merge(a, b)| ==> lo <= Merge(a, b)[i].blockNumber
    decreases |a| + |b|
  {
    if |a| > 0 && |b| > 0 {
      if a[0].blockNumber < b[0].blockNumber {
        MergeLowerBound(a[1..], b, lo);
      } else {
        MergeLowerBound(a, b[1..], lo);
      }
    }
  }

  /** Sorted inputs give a sorted output. */
  lemma {:induction false} MergeSorted(a: seq<Event>, b: seq<Event>)
    requires SortedByBlock(a) && SortedByBlock(b)
    ensures SortedByBlock(Merge(a, b))
    decreases |a| + |b|
  {
    if |a| > 0 && |b| > 0 {
      if a[0].blockNumber < b[0].blockNumber {
        MergeSorted(a[1..], b);
        MergeLowerBound(a[1..], b, a[0].blockNumber);
        SortedCons(a[0], Merge(a[1..], b));
      } else {
        MergeSorted(a, b[1..]);
        MergeLowerBound(a, b[1..], b[0].blockNumber);
        SortedCons(b[0], Merge(a, b[1..]));
      }
    }
  }

  lemma SortedCons(x: Event, s: seq<Event>)
    requires SortedByBlock(s)
    requires forall i :: 0 <= i < |s| ==> x.blockNumber <= s[i].blockNumber
    ensures SortedByBlock([x] + s)
  {
  }

  /** On equal (or lower) block numbers the second list goes first: when no
      event of `b` is later than any event of `a`, all of `b` precedes `a`. */
  lemma {:induction false} MergeTiesFavourSecond(a: seq<Event>, b: seq<Event>)
    requires forall i, j :: 0 <= i < |a| && 0 <= j < |b| ==> b[j].blockNumber <= a[i].blockNumber
    ensures Merge(a, b) == b + a
    decreases |b|
  {
    if |a| > 0 && |b| > 0 {
      MergeTiesFavourSecond(a, b[1..]);
      assert b == [b[0]] + b[1..];
    }
  }

  /** When every event of `a` is strictly earlier than every event of `b`,
      the merge is `a` followed by `b`. */
  lemma {:induction false} MergeEarlierFirst(a: seq<Event>, b: seq<Event>)
    requires forall i, j :: 0 <= i < |a| && 0 <= j < |b| ==> a[i].blockNumber < b[j].blockNumber
    ensures Merge(a, b) == a + b
    decreases |a|
  {
    if |a| > 0 && |b| > 0 {
      MergeEarlierFirst(a[1..], b);
      assert a == [a[0]] + a[1..];
    }
  }
}
