/** Cutting a message into chunks that Telegram accepts. */
module SplitMessage {
  import opened Order

  /** A chunk, and whether the newline after it was dropped. */
  datatype Piece = Piece(chunk: string, dropped: bool)

  /** `text.rfind("\n", 0, end)`: the last newline before `end`, or -1. */
  function LastNewline(text: string, end: nat): (r: int)
    requires end <= |text|
    ensures -1 <= r < end
    ensures r >= 0 ==> text[r] == '\n'
    ensures forall i :: r < i < end ==> text[i] != '\n'
  {
    if end == 0 then -1
    else if text[end - 1] == '\n' then end - 1
    else LastNewline(text, end - 1)
  }

  /** Where an overlong text is cut: at its last newline within reach, but not at a
      leading one; otherwise at the limit. */
  function CutAt(text: string, limit: nat): (n: nat)
    requires 0 < limit < |text|
    ensures 0 < n <= limit
  {
    var newline := LastNewline(text, limit + 1);
    if newline <= 0 then limit else newline
  }

  function Pieces(text: string, limit: nat): seq<Piece>
    requires 0 < limit
    decreases |text|
  {
    if text == "" then []
    else if |text| <= limit then [Piece(text, false)]
    else
      var n := CutAt(text, limit);
      var dropped := text[n] == '\n';
      [Piece(text[..n], dropped)] + Pieces(text[if dropped then n + 1 else n..], limit)
  }

  function Chunks(pieces: seq<Piece>): seq<string>
  {
    seq(|pieces|, i requires 0 <= i < |pieces| => pieces[i].chunk)
  }

  lemma OnePiece(text: string, limit: nat)
    requires 0 < limit < |text|
    ensures var n := CutAt(text, limit);
            Chunks(Pieces(text, limit)) ==
            [text[..n]] + Chunks(Pieces(text[if text[n] == '\n' then n + 1 else n..], limit))
  {
    hide CutAt;
  }

  method Split(text: string, limit: nat) returns (chunks: seq<string>)
    requires 0 < limit
    ensures chunks == Chunks(Pieces(text, limit))
  {
    hide CutAt, Pieces, Chunks;
    LastPiece(text, limit);
    if text == "" {
      return [];
    }
    chunks := [];
    var remaining := text;
    while |remaining| > limit
      invariant chunks + Chunks(Pieces(remaining, limit)) == Chunks(Pieces(text, limit))
      decreases |remaining|
    {
      OnePiece(remaining, limit);
      var splitAt := LastNewline(remaining, limit + 1);
      if splitAt <= 0 {
        splitAt := limit;
      }
      CutChosen(remaining, limit, splitAt);
      assert remaining[splitAt..][1..] == remaining[splitAt + 1..];
      chunks := chunks + [remaining[..splitAt]];
      remaining := remaining[splitAt..];
      if remaining[0] == '\n' {
        remaining := remaining[1..];
      }
    }
    LastPiece(remaining, limit);
    if remaining != "" {
      chunks := chunks + [remaining];
    }
  }

  lemma LastPiece(text: string, limit: nat)
    requires 0 < limit
    ensures |text| <= limit ==> Chunks(Pieces(text, limit)) == if text == "" then [] else [text]
  {
  }

  lemma CutChosen(text: string, limit: nat, n: nat)
    requires 0 < limit < |text|
    requires n == if LastNewline(text, limit + 1) <= 0 then limit else LastNewline(text, limit + 1)
    ensures CutAt(text, limit) == n
  {
  }

  /** The chunks in order, each followed by its dropped newline if it has one. */
  function Rejoined(pieces: seq<Piece>): string
  {
    if pieces == [] then ""
    else pieces[0].chunk + (if pieces[0].dropped then "\n" else "") + Rejoined(pieces[1..])
  }

  /** Nothing is lost but the dropped newlines. */
  lemma {:induction false} SplitRejoins(text: string, limit: nat)
    requires 0 < limit
    ensures Rejoined(Pieces(text, limit)) == text
    decreases |text|
  {
    hide CutAt, LastNewline;
    if text != "" && |text| > limit {
      var n := CutAt(text, limit);
      var dropped := text[n] == '\n';
      var rest := text[if dropped then n + 1 else n..];
      SplitRejoins(rest, limit);
      RejoinedFirst(Piece(text[..n], dropped), Pieces(rest, limit));
      hide Rejoined;
      CutParts(text, n);
    } else if text != "" {
      assert Pieces(text, limit)[1..] == [];
    }
  }

  lemma CutParts(text: string, n: nat)
    requires n < |text|
    ensures var dropped := text[n] == '\n';
            text == text[..n] + (if dropped then "\n" else "") + text[if dropped then n + 1 else n..]
  {
    if text[n] == '\n' {
      CutInThree(text, n, n + 1);
    } else {
      assert text[..n] + "" == text[..n];
    }
  }

  lemma RejoinedFirst(first: Piece, pieces: seq<Piece>)
    ensures Rejoined([first] + pieces) == first.chunk + (if first.dropped then "\n" else "") + Rejoined(pieces)
  {
    assert ([first] + pieces)[1..] == pieces;
  }

  /** A piece fits; if it is not the last, either it fills the limit exactly and drops
      nothing, or it ends where a newline was dropped. */
  predicate WellCut(piece: Piece, last: bool, limit: nat)
  {
    && 0 < |piece.chunk| <= limit
    && (!piece.dropped && !last ==> |piece.chunk| == limit)
  }

  predicate AllWellCut(pieces: seq<Piece>, limit: nat)
  {
    pieces == [] || (WellCut(pieces[0], |pieces| == 1, limit) && AllWellCut(pieces[1..], limit))
  }

  lemma {:induction false} SplitFits(text: string, limit: nat)
    requires 0 < limit
    ensures AllWellCut(Pieces(text, limit), limit)
    decreases |text|
  {
    hide CutAt;
    if text != "" && |text| > limit {
      var n := CutAt(text, limit);
      var later := text[if text[n] == '\n' then n + 1 else n..];
      SplitFits(later, limit);
      CutAtNewline(text, limit);
      assert Pieces(text, limit)[1..] == Pieces(later, limit);
    } else if text != "" {
      assert Pieces(text, limit)[1..] == [];
    }
  }

  lemma CutAtNewline(text: string, limit: nat)
    requires 0 < limit < |text|
    ensures text[CutAt(text, limit)] != '\n' ==> CutAt(text, limit) == limit
  {
  }

  /** A cut is as late as possible: past a dropped newline there is no other newline within
      the limit, and a chunk cut at the limit without dropping one holds no newline after
      its first character. */
  lemma CutIsLatest(text: string, limit: nat)
    requires 0 < limit < |text|
    ensures var n := CutAt(text, limit);
            && (forall i :: n < i <= limit ==> text[i] != '\n')
            && (text[n] != '\n' ==> n == limit && forall i :: 0 < i < n ==> text[i] != '\n')
  {
    var newline := LastNewline(text, limit + 1);
    assert forall i :: newline < i < limit + 1 ==> text[i] != '\n';
  }
}
