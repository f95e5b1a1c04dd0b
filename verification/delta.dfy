/** The new-lines step of src/index.ts: split the content on '\n' and drop
    every piece equal to the checkpoint, wherever it occurs. */
module Delta {
  import opened Wrappers
  import opened Lines

  /** `line !== lastLine`: an undefined checkpoint equals no piece. */
  predicate IsNew(line: string, lastLine: Option<string>)
  {
    lastLine != Some(line)
  }

  /** `a` occurs in `b` in order, possibly with gaps (greedy left-to-right match). */
  predicate IsSubsequence(a: seq<string>, b: seq<string>)
    decreases |b|
  {
    if |a| == 0 then true
    else if |b| == 0 then false
    else if a[0] == b[0] then IsSubsequence(a[1..], b[1..])
    else IsSubsequence(a, b[1..])
  }

  /** `pieces.filter(line => line !== lastLine)`. */
  function FilterOut(pieces: seq<string>, lastLine: Option<string>): (kept: seq<string>)
    ensures |kept| <= |pieces|
    ensures forall i :: 0 <= i < |kept| ==> IsNew(kept[i], lastLine)
    decreases |pieces|
  {
    if |pieces| == 0 then []
    else if IsNew(pieces[0], lastLine) then [pieces[0]] + FilterOut(pieces[1..], lastLine)
    else FilterOut(pieces[1..], lastLine)
  }

  /** `getNewLines(path, lastLine)`: `content` is the result of reading the source,
      None when the read failed, in which case the result is undefined too. */
  function GetNewLines(content: Option<string>, lastLine: Option<string>): (newLines: Option<seq<string>>)
    ensures newLines.Some? <==> content.Some?
    ensures newLines.Some? ==> |newLines.value| <= NewlineCount(content.value) + 1
  {
    match content
    case None => None
    case Some(data) => Some(FilterOut(Split(data), lastLine))
  }

  /** Every piece that is not the checkpoint is kept, as often as it occurs;
      the checkpoint is not kept at all. */
  lemma {:induction false} FilterOutMultiplicity(pieces: seq<string>, lastLine: Option<string>)
    ensures forall x :: multiset(FilterOut(pieces, lastLine))[x]
                          == (if IsNew(x, lastLine) then multiset(pieces)[x] else 0)
    decreases |pieces|
  {
    if |pieces| > 0 {
      FilterOutMultiplicity(pieces[1..], lastLine);
      assert pieces == [pieces[0]] + pieces[1..];
      assert multiset(pieces) == multiset{pieces[0]} + multiset(pieces[1..]);
    }
  }

  /** The kept pieces appear in the split in the same order. */
  lemma {:induction false} FilterOutIsSubsequence(pieces: seq<string>, lastLine: Option<string>)
    ensures IsSubsequence(FilterOut(pieces, lastLine), pieces)
    decreases |pieces|
  {
    if |pieces| > 0 {
      FilterOutIsSubsequence(pieces[1..], lastLine);
      var rest := FilterOut(pieces[1..], lastLine);
      if IsNew(pieces[0], lastLine) {
        assert ([pieces[0]] + rest)[1..] == rest;
      } else if |rest| > 0 {
        assert rest[0] != pieces[0];
      }
    }
  }

  /** The number of pieces left: all of them minus the copies of the checkpoint. */
  lemma FilterOutLength(pieces: seq<string>, lastLine: Option<string>)
    ensures |FilterOut(pieces, lastLine)|
              == |pieces| - (if lastLine.Some? then multiset(pieces)[lastLine.value] else 0)
  {
    var kept := FilterOut(pieces, lastLine);
    FilterOutMultiplicity(pieces, lastLine);
    if lastLine.Some? {
      var c := lastLine.value;
      assert multiset(kept) == multiset(pieces)[c := 0];
    } else {
      assert multiset(kept) == multiset(pieces);
    }
  }

  /** A subsequence takes no piece more often than the sequence holds it. */
  lemma {:induction false} SubsequenceMultiset(a: seq<string>, b: seq<string>)
    requires IsSubsequence(a, b)
    ensures multiset(a) <= multiset(b)
    decreases |b|
  {
    if |a| > 0 {
      assert b == [b[0]] + b[1..];
      if a[0] == b[0] {
        SubsequenceMultiset(a[1..], b[1..]);
        assert a == [a[0]] + a[1..];
      } else {
        SubsequenceMultiset(a, b[1..]);
      }
    }
  }

  /** The three properties pin the filter down: an in-order selection of the
      pieces that keeps every non-checkpoint piece as often as it occurs and
      never the checkpoint IS the filtered sequence. */
  lemma {:induction false} FilterOutUnique(a: seq<string>, pieces: seq<string>, lastLine: Option<string>)
    requires IsSubsequence(a, pieces)
    requires forall x :: multiset(a)[x] == (if IsNew(x, lastLine) then multiset(pieces)[x] else 0)
    ensures a == FilterOut(pieces, lastLine)
    decreases |pieces|
  {
    if |pieces| > 0 {
      var p := pieces[0];
      var tail := pieces[1..];
      assert pieces == [p] + tail;
      assert multiset(pieces) == multiset{p} + multiset(tail);
      if !IsNew(p, lastLine) {
        if |a| > 0 && a[0] == p {
          assert false;
        }
        FilterOutUnique(a, tail, lastLine);
      } else {
        assert multiset(a)[p] > 0;
        assert |a| > 0;
        if a[0] == p {
          assert a == [a[0]] + a[1..];
          assert multiset(a) == multiset{p} + multiset(a[1..]);
          FilterOutUnique(a[1..], tail, lastLine);
        } else {
          SubsequenceMultiset(a, tail);
          assert false;
        }
      }
    }
  }

  /** With no checkpoint every piece is new. */
  lemma {:induction false} FilterOutNoCheckpoint(pieces: seq<string>, lastLine: Option<string>)
    requires forall i :: 0 <= i < |pieces| ==> IsNew(pieces[i], lastLine)
    ensures FilterOut(pieces, lastLine) == pieces
    decreases |pieces|
  {
    if |pieces| > 0 {
      FilterOutNoCheckpoint(pieces[1..], lastLine);
      assert [pieces[0]] + pieces[1..] == pieces;
    }
  }

  /** `i` is the position of the first piece that differs from the checkpoint. */
  predicate FirstNewAt(pieces: seq<string>, lastLine: Option<string>, i: int)
  {
    && 0 <= i < |pieces|
    && IsNew(pieces[i], lastLine)
    && forall j :: 0 <= j < i ==> !IsNew(pieces[j], lastLine)
  }

  /** The first kept piece is the first piece that differs from the checkpoint;
      every piece before it is a copy of the checkpoint. */
  lemma {:induction false} FirstKept(pieces: seq<string>, lastLine: Option<string>) returns (i: nat)
    requires |FilterOut(pieces, lastLine)| > 0
    ensures FirstNewAt(pieces, lastLine, i)
    ensures pieces[i] == FilterOut(pieces, lastLine)[0]
    decreases |pieces|
  {
    if !IsNew(pieces[0], lastLine) {
      var k := FirstKept(pieces[1..], lastLine);
      i := k + 1;
      assert pieces[i] == pieces[1..][k];
      forall j | 0 <= j < i
        ensures !IsNew(pieces[j], lastLine)
      {
        if j > 0 {
          assert pieces[j] == pieces[1..][j - 1];
        }
      }
    } else {
      i := 0;
    }
  }

  /** Nothing is left exactly when every piece is the checkpoint. */
  lemma {:induction false} FilterOutEmpty(pieces: seq<string>, lastLine: Option<string>)
    ensures (|FilterOut(pieces, lastLine)| == 0)
        <==> (forall i :: 0 <= i < |pieces| ==> !IsNew(pieces[i], lastLine))
    decreases |pieces|
  {
    if |pieces| > 0 {
      FilterOutEmpty(pieces[1..], lastLine);
      if forall i :: 0 <= i < |pieces[1..]| ==> !IsNew(pieces[1..][i], lastLine) {
        if !IsNew(pieces[0], lastLine) {
          forall i | 0 <= i < |pieces|
            ensures !IsNew(pieces[i], lastLine)
          {
            if i > 0 {
              assert pieces[i] == pieces[1..][i - 1];
            }
          }
        }
      } else {
        var i :| 0 <= i < |pieces[1..]| && IsNew(pieces[1..][i], lastLine);
        assert IsNew(pieces[i + 1], lastLine);
      }
    }
  }

  /** getNewLines with no checkpoint (a missing key or a failed checkpoint
      read) returns the whole split, empty pieces included. */
  lemma NewLinesWithoutCheckpoint(content: string)
    ensures GetNewLines(Some(content), None) == Some(Split(content))
  {
    FilterOutNoCheckpoint(Split(content), None);
  }

  /** A checkpoint that no piece equals removes nothing. */
  lemma NewLinesLostCheckpoint(content: string, lastLine: string)
    requires lastLine !in Split(content)
    ensures GetNewLines(Some(content), Some(lastLine)) == Some(Split(content))
  {
    FilterOutNoCheckpoint(Split(content), Some(lastLine));
  }

  /** The lines getNewLines returns: an in-order selection of the split that
      keeps each piece other than the checkpoint as often as the content has
      it and drops every copy of the checkpoint — and nothing else does that. */
  lemma NewLinesCharacterised(content: string, lastLine: Option<string>, a: seq<string>)
    ensures GetNewLines(Some(content), lastLine) == Some(a)
            <==> (&& IsSubsequence(a, Split(content))
                  && forall x :: multiset(a)[x]
                       == (if IsNew(x, lastLine) then multiset(Split(content))[x] else 0))
  {
    var pieces := Split(content);
    FilterOutMultiplicity(pieces, lastLine);
    FilterOutIsSubsequence(pieces, lastLine);
    if && IsSubsequence(a, pieces)
       && forall x :: multiset(a)[x] == (if IsNew(x, lastLine) then multiset(pieces)[x] else 0)
    {
      FilterOutUnique(a, pieces, lastLine);
    }
  }
}
