/** Splitting a source's content into pieces on '\n', as `data.split('\n')` does
    in src/index.ts. Every piece is kept, the empty ones included. */
module Lines {

  /** Number of '\n' characters in `s`. */
  function NewlineCount(s: string): nat
  {
    if |s| == 0 then 0
    else (if s[0] == '\n' then 1 else 0) + NewlineCount(s[1..])
  }

  /** The pieces of `s` between consecutive '\n' characters, in order.
      An empty string gives one empty piece, a trailing '\n' an empty last piece. */
  function Split(s: string): (pieces: seq<string>)
    ensures |pieces| == NewlineCount(s) + 1
    ensures forall i :: 0 <= i < |pieces| ==> '\n' !in pieces[i]
    decreases |s|
  {
    if |s| == 0 then [""]
    else
      var rest := Split(s[1..]);
      if s[0] == '\n' then [""] + rest
      else [[s[0]] + rest[0]] + rest[1..]
  }

  /** The pieces glued back together with '\n' between neighbours
      (`Array.prototype.join('\n')`); the inverse of Split. */
  function Join(pieces: seq<string>): string
  {
    if |pieces| == 0 then ""
    else if |pieces| == 1 then pieces[0]
    else pieces[0] + "\n" + Join(pieces[1..])
  }

  /** A string without '\n' is a single piece. */
  lemma {:induction false} SplitNewlineFree(p: string)
    requires '\n' !in p
    ensures Split(p) == [p]
    decreases |p|
  {
    if |p| > 0 {
      assert '\n' !in p[1..] by {
        forall i | 0 <= i < |p[1..]|
          ensures p[1..][i] != '\n'
        {
          assert p[1..][i] == p[i + 1];
        }
      }
      SplitNewlineFree(p[1..]);
      assert [p[0]] + p[1..] == p;
    }
  }

  /** The first piece ends at the first '\n'; splitting goes on after it. */
  lemma {:induction false} SplitAtNewline(p: string, t: string)
    requires '\n' !in p
    ensures Split(p + "\n" + t) == [p] + Split(t)
    decreases |p|
  {
    var s := p + "\n" + t;
    if |p| == 0 {
      assert s == "\n" + t;
      assert s[1..] == t;
    } else {
      assert s[0] == p[0];
      assert s[1..] == p[1..] + "\n" + t;
      assert '\n' !in p[1..] by {
        forall i | 0 <= i < |p[1..]|
          ensures p[1..][i] != '\n'
        {
          assert p[1..][i] == p[i + 1];
        }
      }
      SplitAtNewline(p[1..], t);
      assert [p[0]] + p[1..] == p;
    }
  }

  /** Joining the pieces of a split gives back the content. */
  lemma {:induction false} JoinSplit(s: string)
    ensures Join(Split(s)) == s
    decreases |s|
  {
    if |s| > 0 {
      var rest := Split(s[1..]);
      JoinSplit(s[1..]);
      assert s == [s[0]] + s[1..];
      if s[0] == '\n' {
        assert Split(s) == [""] + rest;
        assert Join(Split(s)) == "" + "\n" + Join(rest);
      } else {
        var head := [s[0]] + rest[0];
        assert Split(s) == [head] + rest[1..];
        if |rest| == 1 {
          assert Join(Split(s)) == head;
          assert Join(rest) == rest[0];
        } else {
          assert ([head] + rest[1..])[1..] == rest[1..];
          assert Join(Split(s)) == head + "\n" + Join(rest[1..]);
          assert Join(rest) == rest[0] + "\n" + Join(rest[1..]);
        }
      }
    }
  }

  /** Splitting a join of newline-free pieces gives back the pieces. */
  lemma {:induction false} SplitJoin(pieces: seq<string>)
    requires |pieces| >= 1
    requires forall i :: 0 <= i < |pieces| ==> '\n' !in pieces[i]
    ensures Split(Join(pieces)) == pieces
    decreases |pieces|
  {
    if |pieces| == 1 {
      SplitNewlineFree(pieces[0]);
    } else {
      SplitJoin(pieces[1..]);
      SplitAtNewline(pieces[0], Join(pieces[1..]));
      assert [pieces[0]] + pieces[1..] == pieces;
    }
  }

  /** A trailing '\n' leaves an empty last piece. */
  lemma SplitTrailingNewline(s: string)
    requires |s| > 0 && s[|s| - 1] == '\n'
    ensures Split(s)[|Split(s)| - 1] == ""
  {
  }

  /** The scan `String.prototype.split` performs: walk the content once,
      cutting a piece at every '\n'. It computes the pieces of Split. */
  method SplitOnNewline(s: string) returns (pieces: seq<string>)
    ensures pieces == Split(s)
    ensures |pieces| == NewlineCount(s) + 1
  {
    pieces := [];
    var start := 0;
    var i := 0;
    while i < |s|
      invariant 0 <= start <= i <= |s|
      invariant '\n' !in s[start..i]
      invariant pieces + Split(s[start..]) == Split(s)
    {
      if s[i] == '\n' {
        assert s[start..] == s[start..i] + "\n" + s[i + 1..];
        SplitAtNewline(s[start..i], s[i + 1..]);
        pieces := pieces + [s[start..i]];
        start := i + 1;
      } else {
        assert s[start..i + 1] == s[start..i] + [s[i]];
      }
      i := i + 1;
    }
    assert s[start..i] == s[start..];
    SplitNewlineFree(s[start..]);
    pieces := pieces + [s[start..]];
  }
}
