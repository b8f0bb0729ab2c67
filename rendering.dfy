/** The text of a measure's list, as `LinkedList.__str__` builds it: one
    piece `"<name> (<pitch>) x<count>"` per node, in list order, joined by
    `" -> "` the way Python's `str.join` joins. */
module Rendering {
  import Decimal
  import DrumNames
  import opened PitchCounts

  const Separator := " -> "

  /** The text of one node: its drum name, its pitch in parentheses, then `x` and its count. */
  function Piece(pitch: int, count: int): string {
    DrumNames.DrumName(pitch) + " (" + Decimal.IntToString(pitch) + ") x" + Decimal.IntToString(count)
  }

  /** The pieces of the nodes, in list order. */
  function Pieces(es: seq<Entry>): (r: seq<string>)
    ensures |r| == |es|
  {
    if es == [] then [] else Pieces(es[..|es| - 1]) + [Piece(es[|es| - 1].pitch, es[|es| - 1].count)]
  }

  /** The pieces of a prefix one node longer end in that node's piece. */
  lemma PiecesTake(es: seq<Entry>, i: nat)
    requires i < |es|
    ensures Pieces(es[..i + 1]) == Pieces(es[..i]) + [Piece(es[i].pitch, es[i].count)]
  {
    assert es[..i + 1][..i] == es[..i];
  }

  /** `sep.join(xs)`: empty for no pieces, otherwise the pieces with `sep` between neighbours. */
  function Join(xs: seq<string>, sep: string): string {
    if xs == [] then "" else if |xs| == 1 then xs[0] else xs[0] + sep + Join(xs[1..], sep)
  }

  function Render(es: seq<Entry>): string {
    Join(Pieces(es), Separator)
  }

  lemma {:induction false} JoinSnoc(xs: seq<string>, x: string, sep: string)
    requires xs != []
    ensures Join(xs + [x], sep) == Join(xs, sep) + sep + x
    decreases |xs|
  {
    if |xs| > 1 {
      JoinSnoc(xs[1..], x, sep);
      assert (xs + [x])[1..] == xs[1..] + [x];
    }
  }

  /** A piece is never empty and never contains `>`. */
  lemma PieceShape(pitch: int, count: int)
    ensures |Piece(pitch, count)| > 0
    ensures '>' !in Piece(pitch, count)
  {
    DrumNames.DrumNameNoArrow(pitch);
    Decimal.IntToStringChars(pitch);
    Decimal.IntToStringChars(count);
    var n, a, b := DrumNames.DrumName(pitch), Decimal.IntToString(pitch), Decimal.IntToString(count);
    assert Piece(pitch, count) == n + " (" + a + ") x" + b;
    assert '>' !in a && '>' !in b;
  }

  /** The empty list renders as the empty string, and only the empty list does. */
  lemma RenderEmpty(es: seq<Entry>)
    ensures Render(es) == "" <==> es == []
  {
    if |es| == 1 {
      PieceShape(es[0].pitch, es[0].count);
    }
  }

  /** Rendering a list one node longer appends the separator and that node's piece. */
  lemma RenderSnoc(es: seq<Entry>, e: Entry)
    ensures Render(es + [e]) == if es == [] then Piece(e.pitch, e.count) else Render(es) + Separator + Piece(e.pitch, e.count)
  {
    assert Pieces(es + [e]) == Pieces(es) + [Piece(e.pitch, e.count)];
    if es != [] {
      JoinSnoc(Pieces(es), Piece(e.pitch, e.count), Separator);
    }
  }

  /** Joining pieces free of `c` by a separator holding `c` once yields
      one `c` per gap between neighbouring pieces. */
  lemma {:induction false} JoinCount(xs: seq<string>, sep: string, c: char)
    requires xs != []
    requires multiset(sep)[c] == 1
    requires forall k :: 0 <= k < |xs| ==> c !in xs[k]
    ensures multiset(Join(xs, sep))[c] == |xs| - 1
    decreases |xs|
  {
    assert c !in xs[0];
    assert multiset(xs[0])[c] == 0;
    if |xs| > 1 {
      var tail := xs[1..];
      assert forall k :: 0 <= k < |tail| ==> tail[k] == xs[k + 1];
      JoinCount(tail, sep, c);
      assert multiset(xs[0] + sep + Join(tail, sep)) == multiset(xs[0]) + multiset(sep) + multiset(Join(tail, sep));
    }
  }

  lemma {:induction false} PiecesNoArrow(es: seq<Entry>)
    ensures forall k :: 0 <= k < |Pieces(es)| ==> '>' !in Pieces(es)[k]
    decreases |es|
  {
    if es != [] {
      var n := |es| - 1;
      PiecesNoArrow(es[..n]);
      PieceShape(es[n].pitch, es[n].count);
    }
  }

  /** The rendering of n nodes holds exactly n - 1 `>` characters, one per separator between neighbouring nodes. */
  lemma RenderSeparators(es: seq<Entry>)
    requires es != []
    ensures multiset(Render(es))['>'] == |es| - 1
  {
    PiecesNoArrow(es);
    assert multiset(Separator)['>'] == 1;
    JoinCount(Pieces(es), Separator, '>');
  }

  /** The pieces of the three nodes of the example measure. */
  lemma PieceExamples()
    ensures Piece(36, 2) == "Bass Drum 1 (36) x2"
    ensures Piece(38, 3) == "Snare Drum 1 (38) x3"
    ensures Piece(42, 1) == "Hi-hat Closed (42) x1"
  {
    assert Decimal.NatToString(36) == "36" && Decimal.NatToString(38) == "38" && Decimal.NatToString(42) == "42";
  }

  /** A measure with pitches 36, 38, 36, 42, 38, 38 renders as three nodes in first-occurrence order. */
  lemma RenderExample()
    ensures Render(Build([36, 38, 36, 42, 38, 38]))
         == "Bass Drum 1 (36) x2" + " -> " + "Snare Drum 1 (38) x3" + " -> " + "Hi-hat Closed (42) x1"
  {
    var a, b, c := Entry(36, 2), Entry(38, 3), Entry(42, 1);
    var x, y, z := "Bass Drum 1 (36) x2", "Snare Drum 1 (38) x3", "Hi-hat Closed (42) x1";
    PieceExamples();
    assert Render([a]) == x by { RenderSnoc([], a); }
    assert Render([a, b]) == x + Separator + y by {
      RenderSnoc([a], b);
      assert [a] + [b] == [a, b];
    }
    assert Render([a, b, c]) == x + Separator + y + Separator + z by {
      RenderSnoc([a, b], c);
      assert [a, b] + [c] == [a, b, c];
    }
    BuildExample();
  }
}
