/** `postNewLines` of src/index.ts: one POST per line, every error caught, so
    the returned promise resolves whatever the collector answers. The HTTP
    answer of request number i is the parameter `respond(i)`. */
module Posting {
  import opened Wrappers

  datatype Delivery = Delivered | Failed

  /** One POST of `{ line }` and how it ended. */
  datatype Attempt = Attempt(line: string, outcome: Delivery)

  /** `Settled`: every request settled; `values` is what `Promise.all`
      resolves with, which `postNewLines` discards (it returns `Promise<void>`).
      `TypeError`: `newLines` was undefined and `newLines.map` threw. */
  datatype PostResult = Settled(attempts: seq<Attempt>, values: seq<string>) | TypeError

  /** The value of one request callback: both the `try` and the `catch` return
      the line. Only `Promise.all` sees it; the source discards it. */
  function Request(line: string, outcome: Delivery): string
  {
    match outcome
    case Delivered => line
    case Failed => line
  }

  /** `lines.map(...)` starting at request number `first`: every line is posted
      once, in order, and each request settles with its own line. */
  function PostAll(lines: seq<string>, respond: nat -> Delivery, first: nat): (r: (seq<Attempt>, seq<string>))
    ensures |r.0| == |lines|
    ensures forall i :: 0 <= i < |lines| ==> r.0[i] == Attempt(lines[i], respond(first + i))
    ensures r.1 == lines
    decreases |lines|
  {
    if |lines| == 0 then ([], [])
    else
      var outcome := respond(first);
      var rest := PostAll(lines[1..], respond, first + 1);
      ([Attempt(lines[0], outcome)] + rest.0, [Request(lines[0], outcome)] + rest.1)
  }

  /** `postNewLines(url, newLines)`. */
  function PostNewLines(newLines: Option<seq<string>>, respond: nat -> Delivery): (r: PostResult)
    ensures r.TypeError? <==> newLines.None?
    ensures r.Settled? ==> r.values == newLines.value
    ensures r.Settled? ==> |r.attempts| == |newLines.value|
    ensures r.Settled? ==> forall i :: 0 <= i < |r.attempts| ==>
              r.attempts[i] == Attempt(newLines.value[i], respond(i))
  {
    match newLines
    case None => TypeError
    case Some(lines) =>
      var (attempts, values) := PostAll(lines, respond, 0);
      Settled(attempts, values)
  }

  /** The lines the attempts carried. */
  function PostedLines(attempts: seq<Attempt>): (lines: seq<string>)
    ensures |lines| == |attempts|
    ensures forall i :: 0 <= i < |attempts| ==> lines[i] == attempts[i].line
  {
    if |attempts| == 0 then [] else [attempts[0].line] + PostedLines(attempts[1..])
  }

  /** Whether a post succeeded changes nothing in what postNewLines settles with. */
  lemma PostingIgnoresOutcomes(newLines: Option<seq<string>>, respond1: nat -> Delivery, respond2: nat -> Delivery)
    ensures PostNewLines(newLines, respond1).TypeError? == PostNewLines(newLines, respond2).TypeError?
    ensures PostNewLines(newLines, respond1).Settled? ==>
              PostNewLines(newLines, respond1).values == PostNewLines(newLines, respond2).values
    ensures PostNewLines(newLines, respond1).Settled? ==>
              PostedLines(PostNewLines(newLines, respond1).attempts) == newLines.value
  {
  }
}
