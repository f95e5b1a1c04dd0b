# predmaster-cron: checkpointed line forwarding

The service polls a few text files every minute. These are the yellow and red alarm logs, the
prevision log and the settings file. It posts their lines to a remote collector. A single JSON file
keeps one checkpoint line per key. For each source, a job:

1. reads the checkpoint (`getLastLine`);
2. splits the source on `'\n'` and drops every piece equal to the checkpoint (`getNewLines`);
3. posts every remaining piece and ignores whether each post succeeded (`postNewLines`);
4. records the first remaining piece, `newLines[0]`, as the new checkpoint (`updateLastLine`).

This project models those steps as pure functions over an immutable checkpoint store. It also
models the three cron jobs built from them.

- `Lines` covers splitting and joining on `'\n'`.
- `Delta` covers the filter and `getNewLines`.
- `Checkpoints` models the checkpoint file as `Readable(map<string,string>) | Unreadable`.
- `Posting` covers the posts. Their outcomes are a parameter `respond: nat -> Delivery`.
- `Jobs` holds the job bodies as store transitions, with the lemmas that relate several calls.

A source's content is `Option<string>`. `None` means the file could not be read.

## Behaviour of the code, as modelled

The model follows `src/index.ts`. A typical line forwarder would drop blank lines, resume after
the checkpoint line and advance the checkpoint only over confirmed deliveries. This code does
none of that:

- Empty pieces are kept and posted, unless the checkpoint is itself `""`. This includes blank lines
  and the empty piece after a trailing newline (`Lines.SplitTrailingNewline`). Nothing drops
  whitespace-only lines. When the checkpoint is `""`, every empty piece is filtered out. This
  happens whenever an empty piece was the first new line of the previous run
  (`Jobs.BlankCheckpointHidesBlankPiece`).
- The filter removes every copy of the checkpoint line, wherever it is. It does not return the
  lines after the checkpoint. Lines before the checkpoint are posted again.
- The stored checkpoint is the first remaining piece, not the last delivered one. So a re-run
  posts again every line except copies of that first piece (`Jobs.RerunRepostsLines`).
  `Jobs.TwoTicks` shows this on a concrete two-tick run.
- Requests start in array order, but they complete in any order, and they do not gate the
  checkpoint. Each request's error is caught, so whether a post succeeds or fails never changes
  the checkpoint (`Jobs.CheckpointIgnoresDelivery`). This assumes that every post settles (see
  "Left out").
- The settings job reads its checkpoint under the settings file's path, but writes it under
  `"settings"`. The key it reads is therefore never changed by the job (`Jobs.SettingsJob`). While
  that key is absent from the checkpoint file, which is the normal case because the job never
  writes it, every run posts the whole file (`Jobs.SettingsResendsEverything`).
- A missing or unparsable checkpoint file reads as "no checkpoint". Nothing can be recorded into
  such a file, because `updateLastLine` reads the file first and swallows the error
  (`Jobs.UnreadableStoreResendsEverything`). Every job keeps such a file unreadable
  (`Jobs.PrevisionJob`, `Jobs.SettingsJob`, `Jobs.AlarmJob`).
- If there are no new lines, `undefined` is written, and `JSON.stringify` drops the key. The
  checkpoint then disappears (`Checkpoints.UpdateLastLine`, `Jobs.StepRecordsFirstNewLine`).
- A source that cannot be read makes `getNewLines` return `undefined`. `postNewLines` then throws
  at `.map`. The job's `catch` skips the update. In the alarm job, it also skips the red source.

## Model

| member | source | states |
|---|---|---|
| Lines.Split | src/index.ts:119 | `data.split('\n')` gives one more piece than the content has newlines, and no piece contains a newline |
| Lines.SplitOnNewline | src/index.ts:119 | a single left-to-right scan that cuts at each newline yields exactly the pieces of `Split` |
| Lines.JoinSplit | src/index.ts:119 | joining the split pieces with `'\n'` gives back the content |
| Lines.SplitJoin | src/index.ts:119 | splitting a join of newline-free pieces gives back those pieces |
| Lines.SplitNewlineFree | src/index.ts:119 | content without a newline is a single piece |
| Lines.SplitAtNewline | src/index.ts:119 | the first piece ends at the first newline, and splitting resumes after it |
| Lines.SplitTrailingNewline | src/index.ts:119 | content ending in a newline has an empty last piece, and that piece is kept |
| Delta.FilterOut | src/index.ts:120 | no kept piece equals the checkpoint, and nothing is added |
| Delta.FilterOutMultiplicity | src/index.ts:120 | each piece other than the checkpoint is kept as often as it occurs, empty pieces included; the checkpoint is kept zero times |
| Delta.FilterOutIsSubsequence | src/index.ts:120 | the kept pieces are a subsequence of the split, in the original order |
| Delta.FilterOutLength | src/index.ts:120 | the number kept is the number of pieces minus the number of copies of the checkpoint |
| Delta.FilterOutUnique | src/index.ts:120 | any in-order selection with those multiplicities is exactly the filter result |
| Delta.FilterOutNoCheckpoint | src/index.ts:120 | if no piece equals the checkpoint, everything is kept |
| Delta.FirstKept | src/index.ts:120 | the first kept piece is the first piece that differs from the checkpoint; every piece before it is a copy of the checkpoint |
| Delta.FilterOutEmpty | src/index.ts:120 | nothing is kept exactly when every piece equals the checkpoint |
| Delta.GetNewLines | src/index.ts:116-124 | the result is undefined exactly when the source read fails; otherwise there are at most newline-count + 1 lines |
| Delta.NewLinesWithoutCheckpoint | src/index.ts:116-124 | an undefined checkpoint (missing key or failed read) yields the whole split |
| Delta.NewLinesLostCheckpoint | src/index.ts:120 | a checkpoint that matches no piece yields the whole split |
| Delta.NewLinesCharacterised | src/index.ts:118-120 | `getNewLines` returns `a` if and only if `a` is an in-order selection of the split that keeps every non-checkpoint piece as often as it occurs and drops every copy of the checkpoint |
| Checkpoints.ReadAfterWrite | src/index.ts:95-110 | `getLastLine` after `updateLastLine`: the updated key reads back as the value written when the file could be read, and every other key reads as before |
| Checkpoints.UpdateLastLine | src/index.ts:105-114 | after the update the key reads back as the value written, or as absent when `undefined` was written; every other key is unchanged; an unreadable file stays unreadable |
| Checkpoints.UpdatesCommute | src/index.ts:105-114 | read-modify-write updates of two different keys, done one after the other, give the same file in either order |
| Checkpoints.UpdateOverrides | src/index.ts:109 | a second write of the same key replaces the first |
| Posting.PostAll | src/index.ts:127-135 | each line is posted once, in order, with its own outcome, and each request settles with its own line whether it succeeded or failed |
| Posting.PostNewLines | src/index.ts:126-138 | an undefined `newLines` throws a TypeError and nothing else does; otherwise there is one attempt per line, and the requests' `Promise.all` resolves with exactly `newLines`; `postNewLines` itself returns `Promise<void>` and discards that value |
| Posting.PostingIgnoresOutcomes | src/index.ts:126-138 | what `postNewLines` settles with, and the lines it posts, are the same for any collector answers |
| Jobs.RunStep | src/index.ts:28-32 | one source's step aborts exactly when its content cannot be read |
| Jobs.SingleSourceJob | src/index.ts:62-76 | a job whose source cannot be read leaves the checkpoint file as it was and posts nothing |
| Jobs.StepPostsNewLines | src/index.ts:66-69 | a readable source posts exactly its new lines, in order, with request i answered by `respond(i)` |
| Jobs.StepRecordsFirstNewLine | src/index.ts:70 | the key written holds the first new line, or disappears when there is none; other keys are untouched; an unreadable file stays unreadable |
| Jobs.RecordedCheckpointIsFirstNewPiece | src/index.ts:66-70 | the recorded checkpoint is the first piece that differs from the old checkpoint; it is absent only when every piece equals the old checkpoint |
| Jobs.CheckpointIgnoresDelivery | src/index.ts:69-70 | the file after a job is the same whatever the collector answered |
| Jobs.UnreadableStoreResendsEverything | src/index.ts:95-113 | with an unreadable checkpoint file nothing is recorded, and every piece is posted |
| Jobs.SettingsJob | src/index.ts:78-92 | an unreadable settings file leaves everything unchanged; otherwise the new lines are those against the checkpoint under `SETTINGS_PATH`, and the first of them is recorded under `"settings"`; no key other than `"settings"` changes, so the `SETTINGS_PATH` key stays as it was unless it is `"settings"`; an unreadable checkpoint file stays unreadable |
| Jobs.PrevisionJob | src/index.ts:62-76 | an unreadable source leaves everything unchanged; otherwise the new lines against the `"prevision"` checkpoint are posted, the first is recorded under `"prevision"`, and no other key changes; an unreadable checkpoint file stays unreadable |
| Jobs.SettingsResendsEverything | src/index.ts:78-92 | once that key is absent, this settings run and the next both post their whole content |
| Jobs.RerunRepostsLines | src/index.ts:66-70 | a re-run on unchanged content filters against the first line the previous run posted, so it posts every other line again |
| Jobs.AlarmJob | src/index.ts:24-44 | an unreadable yellow source ends the job with nothing posted and the file unchanged, so red is never processed; an unreadable red source keeps exactly the yellow step's outcome; keys other than the two alarm keys never change; an unreadable checkpoint file stays unreadable |
| Jobs.AlarmRunsBothSources | src/index.ts:24-43 | with both sources readable, the yellow new lines and then the red new lines are posted, each filtered against its own old checkpoint; both keys record their first new line, other keys are untouched, and the file's readability is unchanged |
| Jobs.BlankCheckpointHidesBlankPiece | src/index.ts:66-70 | on unchanged content `"x\n"` the runs post `x` and `""` (recording `x`), then `""` (recording `""`), then only `x`; a `""` checkpoint hides blank pieces |
| Jobs.TwoTicks | src/index.ts:62-76 | from a checkpoint file holding `{}`, `"l1\nl2\n"` posts `l1`, `l2` and `""` and records `l1`; after `l3` is appended, the next run posts `l2`, `l3` and `""` and records `l2` |

## Left out

- Cron scheduling and the main loop (src/index.ts:12-21) are timer plumbing, so they are not modelled. Each job is modelled once.
- The history job (src/index.ts:46-60) is commented out in the source.
- Environment variables and URL building (src/index.ts:9, 30, 36, 68, 84) are external configuration. The URL is not part of an attempt. `SETTINGS_PATH` is a parameter of `Jobs.SettingsJob`.
- axios is a foreign network client. Each post's outcome is the parameter `respond(i)`, and the code ignores it.
- Every post is assumed to settle. `axios.post` (src/index.ts:129) is called without a timeout, so a collector that never answers keeps `Promise.all` (src/index.ts:137) pending. The run then never reaches `updateLastLine` and records nothing. `Delivery` has no such outcome.
- The `Promise.all` fan-out runs concurrently. Its attempts are listed in array order, and that order has no effect on state.
- File reads become `Option<string>` parameters. The checkpoint file becomes `Store`, and JSON text parsing and serialisation are replaced by the map.
- `getLastLine` (src/index.ts:97) and `updateLastLine` (src/index.ts:107) each read the checkpoint file. The model assumes both reads in one step see the same file: one `Store`, with no transient read failure and no other writer between them. A read that fails in one and succeeds in the other is not modelled. `Jobs.UnreadableStoreResendsEverything` rests on this assumption.
- A failed `writeFile` inside `updateLastLine` is not modelled. The file is assumed to be written whenever it could be read.
- JSON values that are not strings (numbers, objects) are not modelled. Neither are keys that reach `Object.prototype` (for example `"constructor"`), nor a parsed value that is not an object. The store holds only string values.
- Console logging is not modelled.
