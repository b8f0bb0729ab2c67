# Drum-track measure lists

This project models the core of `streamlit_app.py`. The app reads an uploaded MusicXML score and keeps
only its percussion parts. For each measure of those parts it builds a singly linked list with
one node per distinct drum pitch. A node sits at the position where its pitch first occurs and
counts how many single notes carry that pitch. A list renders as
`"<drum name> (<pitch>) x<count>"` pieces joined by `" -> "`.

The model has six modules:

- `Decimal`: the decimal text Python's f-strings give an `int`, with a parser that inverts it.
- `DrumNames`: the thirteen-entry drum table of `get_drum_name` and its `"Unknown (<pitch>)"` fallback.
- `PitchCounts`: the abstract value of a list, a sequence of `Entry(pitch, count)`.
  - `Append` is what one `append` does to that value.
  - `Build` is the value after appending a whole sequence of pitches to an empty list.
  - The lemmas relate `Build` to an independent description: the distinct input pitches, in
    first-occurrence order, each counted by its multiplicity.
- `Rendering`: the text `__str__` produces, as a function of the abstract value.
- `MeasureLists`: the heap structure, with classes `Node` and `LinkedList`. A `LinkedList`
  carries the ghost fields `Spine`, `Contents` and `Repr`, and `Valid()` ties the chain of
  `next` links to them.
  - `Append` and `ToString` are the source's loops, proved against `PitchCounts.Append` and
    `Rendering.Render`.
- `DrumTracks`: `extract_drum_tracks` over an abstract score.
  - A score is a sequence of parts.
  - A part has a percussion flag and its measures.
  - A measure holds the events its `notes` iteration yields. Each event is a single note with
    its MIDI pitch, or something else.

## Model

| member | source | states |
|---|---|---|
| `Decimal.IntToString` | streamlit_app.py:48 | Defined as: Python's decimal text of an integer, a minus sign before the digits of its magnitude when it is negative, and no leading zeros. |
| `Decimal.IntRoundTrip` | streamlit_app.py:80 | The decimal text of any integer, as an f-string writes it, parses back to that integer. |
| `Decimal.IntToStringInjective` | streamlit_app.py:80 | Different integers have different decimal texts. |
| `Decimal.IntToStringChars` | streamlit_app.py:80 | The decimal text is non-empty and consists of digits and a minus sign only. |
| `Decimal.NatToStringDigits` | streamlit_app.py:48 | The text of a natural number is all digits, has a leading zero only for zero itself, and denotes the number. |
| `DrumNames.DrumName` | streamlit_app.py:62-80 | Defined as: the table's name for a pitch in the table, otherwise `"Unknown ("`, the pitch's decimal text and `")"`. |
| `DrumNames.DrumMapDomain` | streamlit_app.py:64-79 | The table holds exactly the pitches 36 to 48. |
| `DrumNames.DrumNameFallback` | streamlit_app.py:62-80 | A pitch in 36..48 gets its table name, and no table name starts like the fallback. Every other pitch gets `"Unknown (" + its decimal text + ")"`. |
| `DrumNames.DrumNameExamples` | streamlit_app.py:64-80 | The name of 38 is "Snare Drum 1" and of 42 is "Hi-hat Closed". The name of 999 is "Unknown (999)" and of -1 is "Unknown (-1)". |
| `DrumNames.DrumNameFirstChar` | streamlit_app.py:62-80 | A name starts with `U` exactly when the pitch is not in the table. |
| `DrumNames.DrumNameInjective` | streamlit_app.py:62-80 | Two pitches with the same name are the same pitch, so the name identifies the pitch. |
| `DrumNames.DrumNameNoArrow` | streamlit_app.py:62-80 | No drum name contains `>`, the character that marks the separator. |
| `PitchCounts.IndexOf` | streamlit_app.py:25-36 | The traversal stops either at the first node carrying the pitch, with every earlier node carrying another pitch, or past the end exactly when no node carries it. |
| `PitchCounts.Append` | streamlit_app.py:16-40 | One append keeps pitches unique and counts positive. |
| `PitchCounts.AppendToEmpty` | streamlit_app.py:19-23 | Appending to an empty list gives a single node with the pitch and count one. |
| `PitchCounts.AppendExisting` | streamlit_app.py:27-33 | When the pitch is present, its first node counts one more, and the length and every other node are unchanged. |
| `PitchCounts.AppendNew` | streamlit_app.py:34-39 | When the pitch is absent, a node with count one is added after all the existing nodes, which are unchanged. |
| `PitchCounts.AppendTotal` | streamlit_app.py:16-40 | Each append raises the sum of the counts by exactly one. |
| `PitchCounts.AppendContains` | streamlit_app.py:16-40 | After appending `p`, the list carries exactly its old pitches plus `p`. |
| `PitchCounts.Build` | streamlit_app.py:97-103 | Defined as: the value of a fresh list after appending the pitches one by one, in order. |
| `PitchCounts.BuildSnoc` | streamlit_app.py:98-103 | Appending one more pitch to a built list is one more `Append`. |
| `PitchCounts.FirstIndex` | streamlit_app.py:98-103 | Returns the position of the first occurrence of a pitch in the input sequence. |
| `PitchCounts.BuildWellFormed` | streamlit_app.py:16-40 | A list built from any pitches has unique pitches and positive counts. |
| `PitchCounts.BuildMembers` | streamlit_app.py:97-103 | A pitch has a node exactly when it occurs in the input. |
| `PitchCounts.BuildCounts` | streamlit_app.py:27-33 | The count of each node is the number of occurrences of its pitch in the input. |
| `PitchCounts.BuildTotal` | streamlit_app.py:97-103 | The counts add up to the number of pitches appended. |
| `PitchCounts.BuildLastLength` | streamlit_app.py:27-39 | The last pitch of the input adds a node exactly when it does not occur earlier. |
| `PitchCounts.BuildSize` | streamlit_app.py:97-103 | There are as many nodes as there are distinct input pitches. |
| `PitchCounts.FirstIndexPrefix` | streamlit_app.py:98-103 | Extending the input does not move the first occurrence of a pitch already in it. |
| `PitchCounts.AppendKeepsOrder` | streamlit_app.py:34-39 | An append keeps the nodes in first-occurrence order of the extended input. |
| `PitchCounts.BuildOrder` | streamlit_app.py:97-103 | Nodes appear in the order in which their pitches first occur in the input. |
| `PitchCounts.BuildExampleStart` | streamlit_app.py:97-103 | The pitches 36, 38, 36 give nodes (36, 2), (38, 1). |
| `PitchCounts.BuildExample` | streamlit_app.py:97-103 | The pitches 36, 38, 36, 42, 38, 38 give nodes (36, 2), (38, 3), (42, 1). |
| `Rendering.Piece` | streamlit_app.py:57-58 | Defined as: the text of one node, which is its drum name, `" ("`, its pitch, `") x"` and its count. |
| `Rendering.Pieces` | streamlit_app.py:54-59 | There is one piece per node. |
| `Rendering.Join` | streamlit_app.py:60 | Defined as: Python's `str.join`, which gives the empty string for no strings and otherwise the strings with the separator between neighbours. |
| `Rendering.Render` | streamlit_app.py:52-60 | Defined as: the pieces of the nodes in list order, joined by `" -> "`. |
| `Rendering.JoinSnoc` | streamlit_app.py:60 | Joining one more string adds the separator and that string. |
| `Rendering.PiecesTake` | streamlit_app.py:56-59 | Each pass of the loop adds the current node's piece after the pieces collected so far. |
| `Rendering.PieceShape` | streamlit_app.py:57-58 | A node's piece is non-empty and contains no `>`. |
| `Rendering.RenderEmpty` | streamlit_app.py:52-60 | The rendering is empty exactly when the list is empty. |
| `Rendering.RenderSnoc` | streamlit_app.py:52-60 | Rendering a list one node longer appends `" -> "` and the new node's piece, or gives just that piece when the list was empty. |
| `Rendering.JoinCount` | streamlit_app.py:60 | Joining pieces free of a character, using a separator that holds it once, gives one occurrence per gap. |
| `Rendering.PiecesNoArrow` | streamlit_app.py:54-59 | No piece contains `>`. |
| `Rendering.RenderSeparators` | streamlit_app.py:52-60 | A non-empty list of n nodes renders with exactly n - 1 `>` characters, one per separator. |
| `Rendering.PieceExamples` | streamlit_app.py:57-58 | The pieces of (36, 2), (38, 3) and (42, 1) are "Bass Drum 1 (36) x2", "Snare Drum 1 (38) x3" and "Hi-hat Closed (42) x1". |
| `Rendering.RenderExample` | streamlit_app.py:52-60 | The measure 36, 38, 36, 42, 38, 38 renders as "Bass Drum 1 (36) x2 -> Snare Drum 1 (38) x3 -> Hi-hat Closed (42) x1". |
| `MeasureLists.LinkedList.Valid` | streamlit_app.py:12-14 | Defined as: `head` starts a chain that visits the nodes of `Spine` in order, each once, and ends in null. `Contents` reads off each node's pitch and count. |
| `MeasureLists.Node.constructor` | streamlit_app.py:5-9 | A new node holds the pitch, has count one and no successor. |
| `MeasureLists.LinkedList.constructor` | streamlit_app.py:13-14 | A new list is valid and empty. |
| `MeasureLists.LinkedList.Append` | streamlit_app.py:16-40 | The walk over the chain keeps the list valid, allocates only fresh nodes, and changes the list's value exactly as `PitchCounts.Append` says. |
| `MeasureLists.LinkedList.IncrementAt` | streamlit_app.py:29-30 | Incrementing the count of the matching node changes that node's entry only. |
| `MeasureLists.LinkedList.LinkAtTail` | streamlit_app.py:38-39 | Linking the new node after the tail adds exactly that node, with its pitch and count, to the end of the list. |
| `MeasureLists.LinkedList.ToString` | streamlit_app.py:52-60 | The walk over the chain returns `Rendering.Render` of the list's value. |
| `MeasureLists.LinkedList.PrintList` | streamlit_app.py:42-50 | The line written is "Linked List: " followed by the rendering of the list's value. |
| `DrumTracks.NotePitches` | streamlit_app.py:98-103 | Defined as: the pitches of the measure's single notes, in event order. Every other event is skipped. |
| `DrumTracks.PercussionParts` | streamlit_app.py:84-90 | Defined as: the parts whose instrument is percussion, in score order. |
| `DrumTracks.MeasuresOf` | streamlit_app.py:93-95 | Defined as: the measures of the parts, part after part, each part's measures in order. |
| `DrumTracks.DrumMeasures` | streamlit_app.py:84-95 | Defined as: the measures of the percussion parts, in the order the nested loops visit them. |
| `DrumTracks.Extract` | streamlit_app.py:82-106 | Defined as: for each measure the nested loops visit, the list value `Build` gives for that measure's single-note pitches. |
| `DrumTracks.NotePitchesSnoc` | streamlit_app.py:98-103 | A further single note adds its pitch, and any other event adds nothing. |
| `DrumTracks.NotePitchesMembers` | streamlit_app.py:98-103 | A pitch is collected exactly when some single note of the measure carries it, and at most one pitch is collected per event. |
| `DrumTracks.MeasureListContents` | streamlit_app.py:97-103 | A measure's list has a node for a pitch exactly when some single note carries it. Its pitches are unique, and each node's count is the number of single notes carrying its pitch. |
| `DrumTracks.NotePitchesCount` | streamlit_app.py:98-103 | A pitch is collected once for each single note carrying it. |
| `DrumTracks.MeasureToList` | streamlit_app.py:97-103 | The list built for a measure is fresh and valid, and has the value `Build` gives for the measure's single-note pitches. |
| `DrumTracks.AddMeasureList` | streamlit_app.py:97-104 | One pass of the measure loop appends exactly one list: a valid one, sharing no node with the earlier lists, holding the value `Build` gives for the measure. |
| `DrumTracks.AddPartLists` | streamlit_app.py:95-104 | The measure loop over one drum part keeps the lists already collected as an unchanged prefix and appends one list per measure, in measure order. The lists stay valid and share no node, and each holds the value `Build` gives for its measure. |
| `DrumTracks.ListsHoldExtract` | streamlit_app.py:82-106 | Lists that hold the percussion measures of a score hold, position by position, the values `Extract` gives. |
| `DrumTracks.SelectDrumParts` | streamlit_app.py:84-90 | The first loop keeps exactly the percussion parts, in score order. |
| `DrumTracks.ExtractDrumTracks` | streamlit_app.py:82-106 | Returns one valid list per measure of the percussion parts, in part order and then measure order. No two lists share a node, and each holds the value `Extract` gives for its position. |
| `DrumTracks.PercussionPartsSnoc` | streamlit_app.py:85-90 | A further part is kept exactly when it is percussion. |
| `DrumTracks.MeasuresOfSnoc` | streamlit_app.py:93-95 | A further part contributes its measures after those already visited. |
| `DrumTracks.MeasuresOfAppend` | streamlit_app.py:93-95 | The measures of two part sequences, one after the other, are the measures of the first followed by those of the second. |
| `DrumTracks.PercussionPartsAppend` | streamlit_app.py:85-90 | Selecting percussion parts distributes over splitting the score in two. |
| `DrumTracks.ExtractAppend` | streamlit_app.py:82-106 | The lists of a score split in two are those of the first half followed by those of the second. |
| `DrumTracks.ExtractSinglePart` | streamlit_app.py:82-106 | A percussion part gives one list per measure, in measure order, each built from that measure. A non-percussion part gives none. |
| `DrumTracks.ExtractNoPercussion` | streamlit_app.py:82-106 | A score without percussion parts gives no lists. |
| `DrumTracks.ExtractLength` | streamlit_app.py:82-106 | There are exactly as many lists as there are measures in the percussion parts. |

## Left out

- The streamlit interface is not modelled. This covers the file upload and
  `display_drum_measures_linked_lists` (lines 108 onwards), all of which are I/O.
- The notation library is replaced by abstract inputs: the parsing of the uploaded MusicXML file, the
  percussion test on a part's instrument, measure selection and note iteration.
  - The model receives, for each part, its percussion flag and the measures that
    `measures(1, None)` yields. So a pickup measure numbered 0 is excluded only if the caller
    excludes it.
  - The `isinstance(n, note.Note)` test becomes the `SingleNote` event tag, and every other
    event (a chord, an unpitched note) becomes `OtherEvent`.
  - `pitch.midi` becomes the event's integer pitch.
- The debug `print` calls are left out. They produce console output only and change no state.
- `MeasureLists.LinkedList.PrintList`: returns the line that `print_list` writes to the
  console, instead of writing it. It computes the pieces by calling `ToString` rather than
  through a second copy of the same loop.
- `DrumTracks.ExtractDrumTracks`: does not state that the returned lists are freshly
  allocated. It states only that they are valid and share no node with each other. Carrying
  freshness of every list's footprint through the nested loops makes the loop proofs exceed the
  verifier's resource budget.
- Integers are unbounded. MIDI pitches are not restricted to 0..127, and counts cannot
  overflow, just as with Python's integers.
- `Node` objects are always truthy in Python.
  - `if not self.head` and the `while current` of `__str__` are modelled as null tests.
  - In `append`, `current` is never None inside the loop: it starts at the head, which is not
    None there, and moves on only after a test that `current.next` is not None. So that loop can
    only end by one of its two `break`s, and it is modelled as `while true` with both breaks.
