/**
 The preview of a poem shown on a similar-poem card: the text is split on
 CRLF separators, the first three pieces are kept and glued back together
 with the same separator.
 */
module Lines {
  import opened Ints

  /** The line separator: a carriage return followed by a line feed. */
  const Sep: string := "\r\n"

  /** The number of pieces the preview keeps. */
  const PreviewPieces: nat := 3

  /** A separator starts at index i of s. */
  predicate SepAt(s: string, i: int)
  {
    0 <= i && i + 1 < |s| && s[i] == '\r' && s[i + 1] == '\n'
  }

  /** No separator occurs anywhere in s. */
  predicate SepFree(s: string)
  {
    forall i :: 0 <= i < |s| ==> !SepAt(s, i)
  }

  /** The number of separators met when scanning s from left to right
      (two separators can never overlap, so this is just "how many"). */
  function CountSep(s: string): nat
    decreases |s|
  {
    if |s| < 2 then 0
    else if SepAt(s, 0) then 1 + CountSep(s[2..])
    else CountSep(s[1..])
  }

  /** The pieces glued together with one separator between neighbours;
      no pieces give the empty string and one piece gives itself. */
  function Join(pieces: seq<string>): string
  {
    if |pieces| == 0 then ""
    else if |pieces| == 1 then pieces[0]
    else pieces[0] + Sep + Join(pieces[1..])
  }

  /** Cutting s at every separator, searching from the left: there is one more
      piece than there are separators, and gluing the pieces back gives s. */
  function Split(s: string): (pieces: seq<string>)
    ensures |pieces| == CountSep(s) + 1
    ensures Join(pieces) == s
    decreases |s|
  {
    if |s| < 2 then [s]
    else if SepAt(s, 0) then
      var rest := Split(s[2..]);
      assert s == Sep + s[2..];
      [""] + rest
    else
      var rest := Split(s[1..]);
      var first := [s[0]] + rest[0];
      if |rest| == 1 then
        assert s == [s[0]] + s[1..];
        [first]
      else
        assert s[1..] == rest[0] + Sep + Join(rest[1..]);
        assert s == first + Sep + Join(rest[1..]);
        [first] + rest[1..]
  }

  /** The first three lines of the text, with the separators between them:
      splitting the preview again gives back exactly the first min(3, n)
      pieces of the text, the preview is a prefix of the text, and it holds
      min(2, k) separators where the text holds k. */
  function Preview(text: string): (p: string)
    ensures Split(p) == Split(text)[..Min(PreviewPieces, |Split(text)|)]
    ensures p <= text
    ensures CountSep(p) == Min(PreviewPieces - 1, CountSep(text))
  {
    var pieces := Split(text);
    var k := Min(PreviewPieces, |pieces|);
    SplitPiecesSepFree(text);
    SplitJoin(pieces[..k]);
    JoinPrefix(pieces, k);
    Join(pieces[..k])
  }

  /** Joining a leading run of pieces gives a prefix of joining them all. */
  lemma {:induction false} JoinPrefix(pieces: seq<string>, k: nat)
    requires k <= |pieces|
    ensures Join(pieces[..k]) <= Join(pieces)
    decreases k
  {
    if k == 0 {
    } else if k == 1 {
      assert pieces[..1] == [pieces[0]];
      if |pieces| > 1 {
        assert Join(pieces) == pieces[0] + (Sep + Join(pieces[1..]));
      }
    } else {
      var tail := pieces[1..];
      JoinPrefix(tail, k - 1);
      assert pieces[..k][1..] == tail[..k - 1];
      assert Join(pieces[..k]) == pieces[0] + Sep + Join(tail[..k - 1]);
      assert Join(pieces) == pieces[0] + Sep + Join(tail);
    }
  }

  /** Every piece splitting produces is free of separators. */
  lemma {:induction false} SplitPiecesSepFree(s: string)
    ensures forall k :: 0 <= k < |Split(s)| ==> SepFree(Split(s)[k])
    decreases |s|
  {
    if |s| < 2 {
    } else if SepAt(s, 0) {
      SplitPiecesSepFree(s[2..]);
      assert Split(s) == [""] + Split(s[2..]);
    } else {
      var rest := Split(s[1..]);
      SplitPiecesSepFree(s[1..]);
      JoinPrefix(rest, 1);
      assert rest[..1] == [rest[0]];
      assert rest[0] <= s[1..];
      var first := [s[0]] + rest[0];
      forall i | 0 <= i < |first|
        ensures !SepAt(first, i)
      {
        if i == 0 {
          if |first| >= 2 {
            assert first[1] == s[1];
          }
        } else {
          assert !SepAt(rest[0], i - 1);
        }
      }
      assert Split(s)[0] == first;
      assert forall k :: 1 <= k < |Split(s)| ==> Split(s)[k] == rest[k];
    }
  }

  /** A piece without separators splits into itself alone. */
  lemma {:induction false} SplitSepFree(p: string)
    requires SepFree(p)
    ensures Split(p) == [p]
    decreases |p|
  {
    if |p| >= 2 {
      assert !SepAt(p, 0);
      var tail := p[1..];
      forall i | 0 <= i < |tail|
        ensures !SepAt(tail, i)
      {
        assert !SepAt(p, i + 1);
      }
      SplitSepFree(tail);
      assert [p[0]] + tail == p;
    }
  }

  /** Splitting a separator-free piece followed by a separator peels that piece off. */
  lemma {:induction false} SplitAfterPiece(p: string, rest: string)
    requires SepFree(p)
    ensures Split(p + Sep + rest) == [p] + Split(rest)
    decreases |p|
  {
    var s := p + Sep + rest;
    if |p| == 0 {
      assert SepAt(s, 0);
      assert s[2..] == rest;
    } else {
      assert !SepAt(s, 0) by {
        if |p| == 1 {
          assert s[1] == '\r';
        } else {
          assert !SepAt(p, 0);
        }
      }
      var tail := p[1..];
      forall i | 0 <= i < |tail|
        ensures !SepAt(tail, i)
      {
        assert !SepAt(p, i + 1);
      }
      assert s[1..] == tail + Sep + rest;
      SplitAfterPiece(tail, rest);
      assert [s[0]] + tail == p;
    }
  }

  /** Splitting undoes joining on any non-empty list of separator-free pieces. */
  lemma {:induction false} SplitJoin(pieces: seq<string>)
    requires |pieces| >= 1
    requires forall k :: 0 <= k < |pieces| ==> SepFree(pieces[k])
    ensures Split(Join(pieces)) == pieces
    decreases |pieces|
  {
    if |pieces| == 1 {
      SplitSepFree(pieces[0]);
    } else {
      SplitJoin(pieces[1..]);
      SplitAfterPiece(pieces[0], Join(pieces[1..]));
      assert [pieces[0]] + pieces[1..] == pieces;
    }
  }

  /** The preview is the whole text exactly when the text has at most two separators. */
  lemma PreviewWholeText(text: string)
    ensures Preview(text) == text <==> CountSep(text) <= 2
  {
    var pieces := Split(text);
    if CountSep(text) <= 2 {
      assert pieces[..Min(PreviewPieces, |pieces|)] == pieces;
    }
  }

  /** Taking the preview of a preview changes nothing. */
  lemma PreviewIdempotent(text: string)
    ensures Preview(Preview(text)) == Preview(text)
  {
    PreviewWholeText(Preview(text));
  }
}
