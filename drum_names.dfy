/** The drum-name lookup of `LinkedList.get_drum_name`: a fixed table from
    MIDI percussion pitch to kit voice, with an "Unknown (<pitch>)" label
    for every pitch the table does not hold. */
module DrumNames {
  import Decimal

  const DrumMap: map<int, string> := map[
    36 := "Bass Drum 1",
    37 := "Bass Drum 2",
    38 := "Snare Drum 1",
    39 := "Snare Drum 2",
    40 := "Tom-Tom 1",
    41 := "Tom-Tom 2",
    42 := "Hi-hat Closed",
    43 := "Hi-hat Pedal",
    44 := "Hi-hat Open",
    45 := "Crash Cymbal 1",
    46 := "Crash Cymbal 2",
    47 := "Ride Cymbal 1",
    48 := "Ride Cymbal 2"
  ]

  const UnknownPrefix := "Unknown ("

  /** The table lookup, falling back to the Unknown label that embeds the pitch: defined for every integer. */
  function DrumName(pitch: int): string {
    if pitch in DrumMap then DrumMap[pitch] else UnknownPrefix + Decimal.IntToString(pitch) + ")"
  }

  /** The table covers exactly the pitches 36 to 48. */
  lemma DrumMapDomain(pitch: int)
    ensures pitch in DrumMap <==> 36 <= pitch <= 48
  {
  }

  /** Every pitch outside 36..48 gets the fallback label embedding its decimal text. */
  lemma DrumNameFallback(pitch: int)
    ensures !(36 <= pitch <= 48) ==> DrumName(pitch) == UnknownPrefix + Decimal.IntToString(pitch) + ")"
    ensures 36 <= pitch <= 48 ==> DrumName(pitch) == DrumMap[pitch] && DrumName(pitch)[0] != 'U'
  {
  }

  lemma DrumNameExamples()
    ensures DrumName(38) == "Snare Drum 1"
    ensures DrumName(42) == "Hi-hat Closed"
    ensures DrumName(999) == "Unknown (999)"
    ensures DrumName(-1) == "Unknown (-1)"
  {
    assert Decimal.NatToString(99) == "99";
    assert Decimal.NatToString(999) == "999";
  }

  /** A name starts with `U` exactly when it is the fallback label. */
  lemma DrumNameFirstChar(pitch: int)
    ensures |DrumName(pitch)| > 0
    ensures DrumName(pitch)[0] == 'U' <==> pitch !in DrumMap
  {
    if pitch !in DrumMap {
      assert DrumName(pitch)[0] == UnknownPrefix[0];
    }
  }

  /** Different pitches never share a name: the rendered list identifies each pitch. */
  lemma DrumNameInjective(a: int, b: int)
    requires DrumName(a) == DrumName(b)
    ensures a == b
  {
    var na := DrumName(a);
    if a in DrumMap && b in DrumMap {
      assert DrumMap[a] == DrumMap[b];
    } else if a in DrumMap || b in DrumMap {
      DrumNameFirstChar(a);
      DrumNameFirstChar(b);
      assert false;
    } else {
      assert Decimal.IntToString(a) == na[|UnknownPrefix|..|na| - 1];
      assert Decimal.IntToString(b) == na[|UnknownPrefix|..|na| - 1];
      Decimal.IntToStringInjective(a, b);
    }
  }

  /** No name contains the character `>`, which the rendering uses only in its separator. */
  lemma DrumNameNoArrow(pitch: int)
    ensures '>' !in DrumName(pitch)
  {
    if pitch !in DrumMap {
      Decimal.IntToStringChars(pitch);
      var s := DrumName(pitch);
      forall k | 0 <= k < |s| ensures s[k] != '>' {
        if |UnknownPrefix| <= k < |s| - 1 {
          assert s[k] == Decimal.IntToString(pitch)[k - |UnknownPrefix|];
        }
      }
    }
  }
}
