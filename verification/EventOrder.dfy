/** The stable sort that merges the two tracks of a batch by observed time. */
module EventOrder {
  import opened Bytes
  import opened Media

  ghost predicate Below(events: seq<MediaEvent>, bound: U64) {
    forall i :: 0 <= i < |events| ==> events[i].ObservedUs() <= bound
  }

  // No event is observed before an earlier one.
  ghost predicate Ordered(events: seq<MediaEvent>) {
    events == []
    || (Ordered(events[..|events| - 1])
        && Below(events[..|events| - 1], events[|events| - 1].ObservedUs()))
  }

  lemma {:induction false} OrderedSnoc(events: seq<MediaEvent>, e: MediaEvent)
    requires Ordered(events) && Below(events, e.ObservedUs())
    ensures Ordered(events + [e])
  {
    assert (events + [e])[..|events|] == events;
  }

  // Insert behind every event observed no later.
  function Insert(events: seq<MediaEvent>, e: MediaEvent): (r: seq<MediaEvent>)
    ensures |r| == |events| + 1
  {
    if events == [] then [e]
    else
      var last := events[|events| - 1];
      if last.ObservedUs() <= e.ObservedUs() then events + [e]
      else Insert(events[..|events| - 1], e) + [last]
  }

  function StableSort(events: seq<MediaEvent>): (r: seq<MediaEvent>)
    ensures |r| == |events|
  {
    if events == [] then [] else Insert(StableSort(events[..|events| - 1]), events[|events| - 1])
  }

  // The events of one track, in order.
  function Select(events: seq<MediaEvent>, video: bool): (r: seq<MediaEvent>)
    ensures forall k :: 0 <= k < |r| ==> r[k].VideoEvent? == video
  {
    if events == [] then []
    else
      var last := events[|events| - 1];
      var earlier := Select(events[..|events| - 1], video);
      if last.VideoEvent? == video then earlier + [last] else earlier
  }

  lemma {:induction false} SelectSnoc(events: seq<MediaEvent>, e: MediaEvent, video: bool)
    ensures Select(events + [e], video)
            == if e.VideoEvent? == video then Select(events, video) + [e] else Select(events, video)
  {
    assert (events + [e])[..|events|] == events;
  }

  lemma {:induction false} SelectAppend(a: seq<MediaEvent>, b: seq<MediaEvent>, video: bool)
    ensures Select(a + b, video) == Select(a, video) + Select(b, video)
    decreases |b|
  {
    if b == [] {
      assert a + b == a;
    } else {
      var init, last := b[..|b| - 1], b[|b| - 1];
      assert b == init + [last] && a + b == (a + init) + [last];
      SelectAppend(a, init, video);
      SelectSnoc(a + init, last, video);
      SelectSnoc(init, last, video);
      Associate(Select(a, video), Select(init, video), [last]);
    }
  }

  lemma {:induction false} InsertStaysBelow(events: seq<MediaEvent>, e: MediaEvent, bound: U64)
    requires Below(events, bound) && e.ObservedUs() <= bound
    ensures Below(Insert(events, e), bound)
  {
    if events != [] && events[|events| - 1].ObservedUs() > e.ObservedUs() {
      InsertStaysBelow(events[..|events| - 1], e, bound);
    }
  }

  lemma {:induction false} InsertKeepsOrder(events: seq<MediaEvent>, e: MediaEvent)
    requires Ordered(events)
    ensures Ordered(Insert(events, e))
  {
    if events == [] {
      OrderedSnoc([], e);
    } else {
      var init, last := events[..|events| - 1], events[|events| - 1];
      if last.ObservedUs() <= e.ObservedUs() {
        OrderedSnoc(events, e);
      } else {
        InsertKeepsOrder(init, e);
        InsertStaysBelow(init, e, last.ObservedUs());
        OrderedSnoc(Insert(init, e), last);
      }
    }
  }

  lemma {:induction false} InsertKeepsEvents(events: seq<MediaEvent>, e: MediaEvent)
    ensures multiset(Insert(events, e)) == multiset(events) + multiset{e}
  {
    if events != [] {
      var init, last := events[..|events| - 1], events[|events| - 1];
      InsertKeepsEvents(init, e);
      assert events == init + [last];
    }
  }

  lemma {:induction false} SortSnoc(events: seq<MediaEvent>, e: MediaEvent)
    ensures StableSort(events + [e]) == Insert(StableSort(events), e)
  {
    assert (events + [e])[..|events|] == events;
  }

  // The sort orders the batch and neither loses nor repeats an event.
  lemma {:induction false} SortIsOrderedPermutation(events: seq<MediaEvent>)
    ensures Ordered(StableSort(events)) && multiset(StableSort(events)) == multiset(events)
  {
    if events != [] {
      var init, last := events[..|events| - 1], events[|events| - 1];
      SortIsOrderedPermutation(init);
      assert events == init + [last];
      SortSnoc(init, last);
      hide Insert, StableSort, Ordered;
      InsertKeepsOrder(StableSort(init), last);
      InsertKeepsEvents(StableSort(init), last);
    }
  }

  lemma {:induction false} SelectedIsBelow(events: seq<MediaEvent>, video: bool, bound: U64)
    requires Below(events, bound)
    ensures Below(Select(events, video), bound)
  {
    if events != [] {
      SelectedIsBelow(events[..|events| - 1], video, bound);
    }
  }

  lemma {:induction false} InsertAtEnd(events: seq<MediaEvent>, e: MediaEvent)
    requires Below(events, e.ObservedUs())
    ensures Insert(events, e) == events + [e]
  {
  }

  lemma {:induction false} InsertBelow(events: seq<MediaEvent>, last: MediaEvent, e: MediaEvent)
    requires last.ObservedUs() > e.ObservedUs()
    ensures Insert(events + [last], e) == Insert(events, e) + [last]
  {
    assert (events + [last])[..|events|] == events;
  }

  // Inserting acts on each track separately.
  lemma {:induction false} SelectInsert(events: seq<MediaEvent>, e: MediaEvent, video: bool)
    requires Ordered(events)
    ensures Select(Insert(events, e), video)
            == if e.VideoEvent? == video then Insert(Select(events, video), e) else Select(events, video)
  {
    if events == [] {
      SelectSnoc([], e, video);
    } else {
      var init, last := events[..|events| - 1], events[|events| - 1];
      assert events == init + [last];
      hide Insert, Select, Ordered;
      if last.ObservedUs() <= e.ObservedUs() {
        InsertAtEnd(events, e);
        SelectSnoc(events, e, video);
        SelectedIsBelow(events, video, e.ObservedUs());
        InsertAtEnd(Select(events, video), e);
      } else {
        SelectInsert(init, e, video);
        InsertBelow(init, last, e);
        InsertBelow(Select(init, video), last, e);
        SelectSnoc(Insert(init, e), last, video);
        SelectSnoc(init, last, video);
      }
    }
  }

  // Sorting a batch sorts each track by itself.
  lemma {:induction false} SelectSort(events: seq<MediaEvent>, video: bool)
    ensures Select(StableSort(events), video) == StableSort(Select(events, video))
  {
    if events != [] {
      var init, last := events[..|events| - 1], events[|events| - 1];
      SelectSort(init, video);
      hide Insert, Select, Ordered, StableSort;
      assert events == init + [last];
      SortSnoc(init, last);
      SortIsOrderedPermutation(init);
      SelectInsert(StableSort(init), last, video);
      SelectSnoc(init, last, video);
      SortSnoc(Select(init, video), last);
    }
  }

  lemma {:induction false} SortedIsFixed(events: seq<MediaEvent>)
    requires Ordered(events)
    ensures StableSort(events) == events
  {
    if events != [] {
      var init, last := events[..|events| - 1], events[|events| - 1];
      SortedIsFixed(init);
      InsertAtEnd(init, last);
    }
  }

  // Per-track order survives the sort exactly when the track's observed times
  // never go back within the batch.
  lemma {:induction false} SortKeepsTrackIff(events: seq<MediaEvent>, video: bool)
    ensures Select(StableSort(events), video) == Select(events, video) <==> Ordered(Select(events, video))
  {
    SelectSort(events, video);
    if Ordered(Select(events, video)) {
      SortedIsFixed(Select(events, video));
    } else {
      SortIsOrderedPermutation(Select(events, video));
    }
  }

  // Two frames of one batch change places when the second is observed first, as
  // happens when a longer frame arrives right behind a shorter one.
  lemma {:induction false} SortMayReorder(early: MediaEvent, late: MediaEvent)
    requires early.VideoEvent? && late.VideoEvent? && early.ObservedUs() < late.ObservedUs()
    ensures StableSort([late, early]) == [early, late]
    ensures Select(StableSort([late, early]), true) != Select([late, early], true)
  {
    SelectSnoc([], late, true);
    SelectSnoc([late], early, true);
    SelectSnoc([], early, true);
    SelectSnoc([early], late, true);
    SortSnoc([], late);
    SortSnoc([late], early);
    assert [] + [late] == [late] && [late] + [early] == [late, early];
    assert [] + [early] == [early] && [early] + [late] == [early, late];
    assert [late][..0] == [];
    hide Select;
  }
}
