/**
 Breaking a free-text observation into fixed-length pieces for the exported
 report. Pieces are joined by the two characters backslash and `n` (the
 report source writes the escaped literal, not a line break).
 */
module Observation {

  /** Backslash followed by `n`. */
  const Separator: string := "\\n"

  /** Piece length the report uses. */
  const ReportChunk: nat := 100

  /** Placeholder the report shows for an empty observation. */
  const EmptyCell: string := "-"

  /** Concatenation of all pieces, without separators. */
  function Concat(parts: seq<string>): string {
    if |parts| == 0 then "" else parts[0] + Concat(parts[1..])
  }

  /** Consecutive slices of `s` of length `chunk`, the last one possibly shorter. */
  function Pieces(s: string, chunk: nat): (parts: seq<string>)
    requires chunk > 0 && |s| > 0
    ensures |parts| >= 1
    ensures forall i :: 0 <= i < |parts| - 1 ==> |parts[i]| == chunk
    ensures 1 <= |parts[|parts| - 1]| <= chunk
    ensures Concat(parts) == s
    decreases |s|
  {
    if |s| <= chunk then [s]
    else
      var rest := Pieces(s[chunk..], chunk);
      assert s == s[..chunk] + s[chunk..];
      [s[..chunk]] + rest
  }

  /** Every piece followed by `sep`, the last one included. */
  function Terminated(parts: seq<string>, sep: string): string {
    if |parts| == 0 then "" else parts[0] + sep + Terminated(parts[1..], sep)
  }

  /**
   The pieces joined with `sep` between neighbours (`sep.join(parts)`): with
   one more `sep` at the end, every piece is followed by the separator.
   */
  function Join(parts: seq<string>, sep: string): (joined: string)
    requires |parts| >= 1
    ensures joined + sep == Terminated(parts, sep)
    ensures |joined| == |Concat(parts)| + |sep| * (|parts| - 1)
    ensures parts[0] <= joined
    ensures sep == "" ==> joined == Concat(parts)
  {
    if |parts| == 1 then
      parts[0]
    else
      var rest := Join(parts[1..], sep);
      assert parts[0] + sep + rest + sep == parts[0] + sep + (rest + sep);
      parts[0] + sep + rest
  }

  /** The `k`-th piece boundary of a split text (k counted from 1) holds the separator. */
  predicate SeparatorAfterPiece(out: string, chunk: nat, k: nat) {
    var end := k * (chunk + |Separator|);
    |Separator| <= end <= |out| && out[end - |Separator|..end] == Separator
  }

  /**
   `split_observation_text`: text up to `chunk` characters long is returned
   as it is; longer text is cut into pieces of `chunk` characters (the last
   one shorter or equal) joined by the separator.
   */
  function SplitObservation(text: string, chunk: nat): (out: string)
    requires chunk > 0
    ensures |text| == 0 ==> out == ""
    ensures |text| <= chunk ==> out == text
    ensures |text| > chunk ==> |out| == |text| + |Separator| * (|Pieces(text, chunk)| - 1)
    ensures |text| > chunk ==> forall k :: 1 <= k < |Pieces(text, chunk)| ==> SeparatorAfterPiece(out, chunk, k)
    ensures Unsplit(out, chunk) == text
  {
    if |text| == 0 then ""
    else if |text| <= chunk then text
    else
      JoinedPiecesRoundTrip(text, chunk);
      JoinedSeparators(text, chunk);
      Join(Pieces(text, chunk), Separator)
  }

  /** Removes the two separator characters after every `chunk` characters. */
  function Unsplit(out: string, chunk: nat): (text: string)
    requires chunk > 0
    ensures |text| <= |out|
    ensures |out| <= chunk ==> text == out
    ensures |out| > chunk ==> |text| > chunk - 1 && text[..chunk] == out[..chunk]
    decreases |out|
  {
    if |out| <= chunk then out
    else if |out| <= chunk + |Separator| then out[..chunk]
    else out[..chunk] + Unsplit(out[chunk + |Separator|..], chunk)
  }

  /** In the joined pieces of a long text, the separator follows every full piece. */
  lemma {:induction false} JoinedSeparators(text: string, chunk: nat)
    requires chunk > 0 && |text| > chunk
    ensures forall k :: 1 <= k < |Pieces(text, chunk)| ==> SeparatorAfterPiece(Join(Pieces(text, chunk), Separator), chunk, k)
    decreases |text|
  {
    var head := text[..chunk];
    var rest := text[chunk..];
    var parts := Pieces(text, chunk);
    var restParts := Pieces(rest, chunk);
    assert parts == [head] + restParts;
    var tail := Join(restParts, Separator);
    var out := Join(parts, Separator);
    assert out == head + Separator + tail;
    if |rest| > chunk {
      JoinedSeparators(rest, chunk);
    } else {
      assert |restParts| == 1;
    }
    forall k | 1 <= k < |parts|
      ensures SeparatorAfterPiece(out, chunk, k)
    {
      SeparatorCarriesOver(head, tail, chunk, k);
    }
  }

  /**
   Putting one full piece and the separator in front of a split text keeps
   its boundaries one piece further on, and adds a boundary after the new piece.
   */
  lemma SeparatorCarriesOver(head: string, tail: string, chunk: nat, k: nat)
    requires |head| == chunk && k >= 1
    requires k >= 2 ==> SeparatorAfterPiece(tail, chunk, k - 1)
    ensures SeparatorAfterPiece(head + Separator + tail, chunk, k)
  {
    var m := chunk + |Separator|;
    var out := head + Separator + tail;
    assert k * m == (k - 1) * m + m;
    if k == 1 {
      assert out[m - |Separator|..m] == Separator;
    } else {
      var end := (k - 1) * m;
      assert out[k * m - |Separator|..k * m] == tail[end - |Separator|..end];
    }
  }

  /** Removing the separators from the joined pieces gives the text back. */
  lemma {:induction false} JoinedPiecesRoundTrip(text: string, chunk: nat)
    requires chunk > 0 && |text| > 0
    ensures Unsplit(Join(Pieces(text, chunk), Separator), chunk) == text
    decreases |text|
  {
    if |text| > chunk {
      var head := text[..chunk];
      var rest := text[chunk..];
      var tail := Join(Pieces(rest, chunk), Separator);
      JoinedPiecesRoundTrip(rest, chunk);
      var parts := Pieces(text, chunk);
      assert parts[0] == head && parts[1..] == Pieces(rest, chunk);
      assert Join(parts, Separator) == head + Separator + tail;
      UnsplitAfterSeparator(head, tail, chunk);
      assert text == head + rest;
    }
  }

  /** A full piece followed by the separator loses the separator and keeps the piece. */
  lemma UnsplitAfterSeparator(head: string, tail: string, chunk: nat)
    requires chunk > 0 && |head| == chunk && |tail| >= 1
    ensures Unsplit(head + Separator + tail, chunk) == head + Unsplit(tail, chunk)
  {
    var out := head + Separator + tail;
    assert out[..chunk] == head;
    assert out[chunk + |Separator|..] == tail;
  }

  /**
   A long observation reads as its first `chunk` characters, the separator,
   and the split of the remaining text.
   */
  lemma SplitUnfolds(text: string, chunk: nat)
    requires chunk > 0 && |text| > chunk
    ensures SplitObservation(text, chunk)
            == text[..chunk] + Separator + SplitObservation(text[chunk..], chunk)
  {
    var rest := text[chunk..];
    var parts := Pieces(text, chunk);
    assert parts[0] == text[..chunk];
    assert parts[1..] == Pieces(rest, chunk);
    assert Join(parts, Separator) == parts[0] + Separator + Join(parts[1..], Separator);
    if |rest| <= chunk {
      assert Pieces(rest, chunk) == [rest];
      assert Join([rest], Separator) == rest;
    }
  }

  /**
   The report's observation cell: the placeholder for an empty note, and
   otherwise the note split into 100-character pieces (a note that is the
   placeholder itself splits to itself, so the report's separate test for it
   changes nothing).
   */
  function ReportCell(note: string): (cell: string)
    ensures note == "" ==> cell == EmptyCell
    ensures note != "" ==> cell == SplitObservation(note, ReportChunk)
    ensures note != "" ==> Unsplit(cell, ReportChunk) == note
  {
    var obs := if note == "" then EmptyCell else note;
    if obs != EmptyCell then SplitObservation(obs, ReportChunk) else obs
  }
}
