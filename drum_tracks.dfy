/** `extract_drum_tracks` over an abstract score. The notation library's
    objects become values: a score is its parts in order; a part says
    whether its instrument is percussion and holds its measures in order;
    a measure holds the events its `notes` iteration yields, each either a
    single note with its MIDI pitch or anything else (a chord, say). */
module DrumTracks {
  import opened PitchCounts
  import opened MeasureLists

  datatype Event = SingleNote(pitch: int) | OtherEvent

  datatype Part = Part(percussion: bool, measures: seq<seq<Event>>)

  /** The pitches of the single notes of a measure, in event order. */
  function NotePitches(events: seq<Event>): seq<int> {
    if events == [] then []
    else
      var rest := NotePitches(events[..|events| - 1]);
      match events[|events| - 1]
      case SingleNote(p) => rest + [p]
      case OtherEvent => rest
  }

  lemma NotePitchesSnoc(events: seq<Event>, e: Event)
    ensures NotePitches(events + [e]) == NotePitches(events) + if e.SingleNote? then [e.pitch] else []
  {
    assert (events + [e])[..|events|] == events;
  }

  /** The parts the first loop keeps: those whose instrument is percussion, in score order. */
  function PercussionParts(score: seq<Part>): seq<Part> {
    if score == [] then []
    else
      var rest := PercussionParts(score[..|score| - 1]);
      var last := score[|score| - 1];
      if last.percussion then rest + [last] else rest
  }

  /** The measures of the parts, part after part, each part's in measure order. */
  function MeasuresOf(parts: seq<Part>): seq<seq<Event>> {
    if parts == [] then [] else MeasuresOf(parts[..|parts| - 1]) + parts[|parts| - 1].measures
  }

  /** The measures the nested loops visit: those of the percussion parts. */
  function DrumMeasures(score: seq<Part>): seq<seq<Event>> {
    MeasuresOf(PercussionParts(score))
  }

  /** The value `extract_drum_tracks` returns: one list per measure of each
      percussion part, in part order and then measure order, each the list
      built from that measure's single-note pitches. */
  function Extract(score: seq<Part>): seq<seq<Entry>> {
    var ms := DrumMeasures(score);
    seq(|ms|, k requires 0 <= k < |ms| => Build(NotePitches(ms[k])))
  }

  /** The number of measures of the percussion parts of a score. */
  function PercussionMeasureCount(score: seq<Part>): nat {
    if score == [] then 0
    else
      var last := score[|score| - 1];
      PercussionMeasureCount(score[..|score| - 1]) + if last.percussion then |last.measures| else 0
  }

  // ---- the source's loops ---------------------------------------------------

  /** The body of the measure loop: a fresh list, then `append` of each single note's pitch. */
  method MeasureToList(events: seq<Event>) returns (ll: LinkedList)
    ensures ll.Valid() && fresh(ll.Repr)
    ensures ll.Contents == Build(NotePitches(events))
  {
    ll := new LinkedList();
    for e := 0 to |events|
      invariant ll.Valid() && fresh(ll.Repr)
      invariant ll.Contents == Build(NotePitches(events[..e]))
    {
      assert events[..e + 1] == events[..e] + [events[e]];
      NotePitchesSnoc(events[..e], events[e]);
      match events[e]
      case SingleNote(p) =>
        BuildSnoc(NotePitches(events[..e]), p);
        ll.Append(p);
      case OtherEvent =>
    }
    assert events[..|events|] == events;
  }

  /** Each list of `lists` is valid and holds the list value built from the
      measure at the same position of `measures`, and no two lists share a node. */
  ghost predicate ListsHold(lists: seq<LinkedList>, measures: seq<seq<Event>>)
    reads lists, set k, o | 0 <= k < |lists| && o in lists[k].Repr :: o
  {
    && |lists| == |measures|
    && (forall k :: 0 <= k < |lists| ==> lists[k].Valid() && lists[k].Contents == Build(NotePitches(measures[k])))
    && (forall a, b :: 0 <= a < b < |lists| ==> lists[a].Repr !! lists[b].Repr)
  }

  lemma ListsHoldSnoc(lists: seq<LinkedList>, measures: seq<seq<Event>>, l: LinkedList, m: seq<Event>)
    requires ListsHold(lists, measures)
    requires l.Valid() && l.Contents == Build(NotePitches(m))
    requires forall k :: 0 <= k < |lists| ==> lists[k].Repr !! l.Repr
    ensures ListsHold(lists + [l], measures + [m])
  {
    var ls, ms := lists + [l], measures + [m];
    forall k | 0 <= k < |ls| ensures ls[k].Valid() && ls[k].Contents == Build(NotePitches(ms[k])) {
      if k < |lists| {
        assert ls[k] == lists[k] && ms[k] == measures[k];
      }
    }
    forall a, b | 0 <= a < b < |ls| ensures ls[a].Repr !! ls[b].Repr {
      assert ls[a] == lists[a];
    }
  }

  /** One pass of the measure loop: build the measure's list and append it to `measuresData`. */
  method AddMeasureList(measuresData: seq<LinkedList>, ghost visited: seq<seq<Event>>, measure: seq<Event>)
    returns (extended: seq<LinkedList>)
    requires ListsHold(measuresData, visited)
    ensures ListsHold(extended, visited + [measure])
    ensures |extended| == |measuresData| + 1 && extended[..|measuresData|] == measuresData
  {
    var measureList := MeasureToList(measure);
    ListsHoldSnoc(measuresData, visited, measureList, measure);
    extended := measuresData + [measureList];
    assert extended[..|measuresData|] == measuresData;
  }

  /** The measure loop over one drum part: one list per measure, appended in measure order. */
  method AddPartLists(measuresData: seq<LinkedList>, ghost visited: seq<seq<Event>>, measures: seq<seq<Event>>)
    returns (extended: seq<LinkedList>)
    requires ListsHold(measuresData, visited)
    ensures ListsHold(extended, visited + measures)
    ensures |extended| >= |measuresData| && extended[..|measuresData|] == measuresData
  {
    extended := measuresData;
    for m := 0 to |measures|
      invariant ListsHold(extended, visited + measures[..m])
      invariant |extended| >= |measuresData| && extended[..|measuresData|] == measuresData
    {
      extended := AddMeasureList(extended, visited + measures[..m], measures[m]);
      TakeSnoc(measures, m);
      assert visited + measures[..m] + [measures[m]] == visited + measures[..m + 1];
    }
    assert measures[..|measures|] == measures;
  }

  /** The first loop of `extract_drum_tracks`: keep the percussion parts, in score order. */
  method SelectDrumParts(score: seq<Part>) returns (drumTracks: seq<Part>)
    ensures drumTracks == PercussionParts(score)
  {
    drumTracks := [];
    for i := 0 to |score|
      invariant drumTracks == PercussionParts(score[..i])
    {
      assert score[..i + 1] == score[..i] + [score[i]];
      PercussionPartsSnoc(score[..i], score[i]);
      if score[i].percussion {
        drumTracks := drumTracks + [score[i]];
      }
    }
    assert score[..|score|] == score;
  }

  /** `extract_drum_tracks(score)`: one valid list per measure of the
      percussion parts, no two sharing a node, each holding the value
      `Extract` gives for its position. */
  method ExtractDrumTracks(score: seq<Part>) returns (measuresData: seq<LinkedList>)
    ensures ListsHold(measuresData, DrumMeasures(score))
    ensures |measuresData| == |Extract(score)|
    ensures forall k :: 0 <= k < |measuresData| ==> measuresData[k].Contents == Extract(score)[k]
  {
    var drumTracks := SelectDrumParts(score);
    measuresData := [];
    ghost var visited: seq<seq<Event>> := [];
    for j := 0 to |drumTracks|
      invariant visited == MeasuresOf(drumTracks[..j])
      invariant ListsHold(measuresData, visited)
    {
      var drumPart := drumTracks[j];
      measuresData := AddPartLists(measuresData, visited, drumPart.measures);
      visited := visited + drumPart.measures;
      TakeSnoc(drumTracks, j);
      MeasuresOfSnoc(drumTracks[..j], drumPart);
    }
    assert drumTracks[..|drumTracks|] == drumTracks;
    ListsHoldExtract(measuresData, score);
  }

  /** Lists that hold the drum measures of a score hold, position by position, the values `Extract` gives. */
  lemma ListsHoldExtract(lists: seq<LinkedList>, score: seq<Part>)
    requires ListsHold(lists, DrumMeasures(score))
    ensures |lists| == |Extract(score)|
    ensures forall k :: 0 <= k < |lists| ==> lists[k].Contents == Extract(score)[k]
  {
  }

  lemma TakeSnoc<T>(s: seq<T>, n: nat)
    requires n < |s|
    ensures s[..n + 1] == s[..n] + [s[n]]
  {
  }

  // ---- properties of the extraction ----------------------------------------

  /** A pitch reaches the measure's list exactly when some single note of the
      measure carries it; other events contribute nothing. */
  lemma {:induction false} NotePitchesMembers(events: seq<Event>, x: int)
    ensures x in NotePitches(events) <==> SingleNote(x) in events
    ensures |NotePitches(events)| <= |events|
    decreases |events|
  {
    if events != [] {
      var n := |events| - 1;
      NotePitchesMembers(events[..n], x);
      assert events == events[..n] + [events[n]];
    }
  }

  /** A pitch is collected once for each single note carrying it. */
  lemma {:induction false} NotePitchesCount(events: seq<Event>, x: int)
    ensures multiset(NotePitches(events))[x] == multiset(events)[SingleNote(x)]
    decreases |events|
  {
    if events != [] {
      var n := |events| - 1;
      var pre, e := events[..n], events[n];
      NotePitchesCount(pre, x);
      assert events == pre + [e];
      NotePitchesSnoc(pre, e);
      assert multiset(events) == multiset(pre) + multiset{e};
    }
  }

  /** The list of a measure holds the pitches of its single notes, each once,
      counted by the number of single notes carrying it. */
  lemma MeasureListContents(events: seq<Event>, x: int)
    ensures Contains(Build(NotePitches(events)), x) <==> SingleNote(x) in events
    ensures Unique(Build(NotePitches(events))) && Positive(Build(NotePitches(events)))
    ensures forall k :: 0 <= k < |Build(NotePitches(events))| && Build(NotePitches(events))[k].pitch == x ==>
              Build(NotePitches(events))[k].count == multiset(events)[SingleNote(x)]
  {
    var ps := NotePitches(events);
    NotePitchesMembers(events, x);
    BuildMembers(ps, x);
    BuildWellFormed(ps);
    BuildCounts(ps);
    NotePitchesCount(events, x);
  }

  lemma PercussionPartsSnoc(score: seq<Part>, part: Part)
    ensures PercussionParts(score + [part]) == PercussionParts(score) + if part.percussion then [part] else []
  {
    assert (score + [part])[..|score|] == score;
  }

  lemma MeasuresOfSnoc(parts: seq<Part>, part: Part)
    ensures MeasuresOf(parts + [part]) == MeasuresOf(parts) + part.measures
  {
    assert (parts + [part])[..|parts|] == parts;
  }

  lemma {:induction false} MeasuresOfAppend(p1: seq<Part>, p2: seq<Part>)
    ensures MeasuresOf(p1 + p2) == MeasuresOf(p1) + MeasuresOf(p2)
    decreases |p2|
  {
    if p2 == [] {
      assert p1 + p2 == p1;
    } else {
      var n := |p2| - 1;
      var q, last := p2[..n], p2[n];
      assert p2 == q + [last];
      calc {
        MeasuresOf(p1 + p2);
        == { assert p1 + p2 == (p1 + q) + [last]; }
        MeasuresOf((p1 + q) + [last]);
        == { MeasuresOfSnoc(p1 + q, last); }
        MeasuresOf(p1 + q) + last.measures;
        == { MeasuresOfAppend(p1, q); }
        MeasuresOf(p1) + MeasuresOf(q) + last.measures;
        == { MeasuresOfSnoc(q, last); }
        MeasuresOf(p1) + MeasuresOf(p2);
      }
    }
  }

  lemma {:induction false} PercussionPartsAppend(s1: seq<Part>, s2: seq<Part>)
    ensures PercussionParts(s1 + s2) == PercussionParts(s1) + PercussionParts(s2)
    decreases |s2|
  {
    if s2 == [] {
      assert s1 + s2 == s1;
    } else {
      var n := |s2| - 1;
      var q, last := s2[..n], s2[n];
      var tail := if last.percussion then [last] else [];
      assert s2 == q + [last];
      calc {
        PercussionParts(s1 + s2);
        == { assert s1 + s2 == (s1 + q) + [last]; }
        PercussionParts((s1 + q) + [last]);
        == { PercussionPartsSnoc(s1 + q, last); }
        PercussionParts(s1 + q) + tail;
        == { PercussionPartsAppend(s1, q); }
        PercussionParts(s1) + PercussionParts(q) + tail;
        == { PercussionPartsSnoc(q, last); }
        PercussionParts(s1) + PercussionParts(s2);
      }
    }
  }

  /** Lists come part by part: the lists of a score split in two are those of
      the first half followed by those of the second. */
  lemma ExtractAppend(s1: seq<Part>, s2: seq<Part>)
    ensures Extract(s1 + s2) == Extract(s1) + Extract(s2)
  {
    PercussionPartsAppend(s1, s2);
    MeasuresOfAppend(PercussionParts(s1), PercussionParts(s2));
  }

  /** A single part yields one list per measure, in measure order, when it
      is percussion, and none otherwise. */
  lemma ExtractSinglePart(part: Part)
    ensures |Extract([part])| == if part.percussion then |part.measures| else 0
    ensures part.percussion ==> forall k :: 0 <= k < |part.measures| ==> Extract([part])[k] == Build(NotePitches(part.measures[k]))
  {
    PercussionPartsSnoc([], part);
    assert [] + [part] == [part];
    if part.percussion {
      MeasuresOfSnoc([], part);
    }
  }

  /** A score with no percussion part yields no lists. */
  lemma {:induction false} ExtractNoPercussion(score: seq<Part>)
    requires forall k :: 0 <= k < |score| ==> !score[k].percussion
    ensures Extract(score) == []
    decreases |score|
  {
    if score != [] {
      ExtractNoPercussion(score[..|score| - 1]);
    }
  }

  /** Exactly one list per measure of each percussion part. */
  lemma {:induction false} ExtractLength(score: seq<Part>)
    ensures |Extract(score)| == PercussionMeasureCount(score)
    decreases |score|
  {
    if score != [] {
      var n := |score| - 1;
      ExtractLength(score[..n]);
      assert score == score[..n] + [score[n]];
      ExtractAppend(score[..n], [score[n]]);
      ExtractSinglePart(score[n]);
    }
  }
}
