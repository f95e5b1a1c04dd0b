/** The cron jobs of src/index.ts as transitions of the checkpoint file. Each
    source goes through: read its checkpoint, compute the new lines, post
    them, record `newLines[0]`. Source contents are parameters (None when the
    file cannot be read), and so are the collector's answers. */
module Jobs {
  import opened Wrappers
  import opened Lines
  import opened Delta
  import opened Checkpoints
  import opened Posting

  const YellowAlarmKey: string := "yellowAlarm"
  const RedAlarmKey: string := "redAlarm"
  const PrevisionKey: string := "prevision"
  const SettingsKey: string := "settings"

  /** One source processed to the end, or the TypeError that `postNewLines`
      throws when the content could not be read. */
  datatype StepResult = Completed(store: Store, attempts: seq<Attempt>) | Aborted

  /** What a job leaves behind: the checkpoint file and the posts it made. */
  datatype JobRun = JobRun(store: Store, attempts: seq<Attempt>)

  /** `newLines[0]`, undefined for an empty array. */
  function First(lines: seq<string>): (first: Option<string>)
    ensures first.None? <==> |lines| == 0
    ensures first.Some? ==> first.value == lines[0]
  {
    if |lines| == 0 then None else Some(lines[0])
  }

  /** The four awaited calls for one source: the checkpoint is read under
      `readKey` and written under `writeKey`. */
  function RunStep(store: Store, readKey: string, writeKey: string, content: Option<string>,
                   respond: nat -> Delivery): (r: StepResult)
    ensures r.Aborted? <==> content.None?
  {
    var lastLine := GetLastLine(store, readKey);
    var newLines := GetNewLines(content, lastLine);
    match PostNewLines(newLines, respond)
    case TypeError => Aborted
    case Settled(attempts, _) => Completed(UpdateLastLine(store, writeKey, First(newLines.value)), attempts)
  }

  /** A job with one source inside `try { … } catch { log }`: an abort leaves
      the file as it was. */
  function SingleSourceJob(store: Store, readKey: string, writeKey: string, content: Option<string>,
                           respond: nat -> Delivery): (run: JobRun)
    ensures content.None? ==> run == JobRun(store, [])
  {
    match RunStep(store, readKey, writeKey, content, respond)
    case Aborted => JobRun(store, [])
    case Completed(after, attempts) => JobRun(after, attempts)
  }

  /** `previsionCronJob`: posts the new lines of the prevision source and
      records the first of them under "prevision"; nothing else changes. */
  function PrevisionJob(store: Store, content: Option<string>, respond: nat -> Delivery): (run: JobRun)
    ensures content.None? ==> run == JobRun(store, [])
    ensures content.Some? ==> PostedLines(run.attempts) == NewLinesOf(store, PrevisionKey, content.value)
    ensures content.Some? && store.Readable? ==>
              GetLastLine(run.store, PrevisionKey) == First(NewLinesOf(store, PrevisionKey, content.value))
    ensures forall k :: k != PrevisionKey ==> GetLastLine(run.store, k) == GetLastLine(store, k)
    ensures run.store.Readable? <==> store.Readable?
  {
    SingleSourceJob(store, PrevisionKey, PrevisionKey, content, respond)
  }

  /** `settingsCronJob`: the checkpoint is read under the settings file's path
      (`SETTINGS_PATH`) but written under `'settings'`. */
  function SettingsJob(store: Store, settingsPath: string, content: Option<string>,
                       respond: nat -> Delivery): (run: JobRun)
    ensures content.None? ==> run == JobRun(store, [])
    ensures content.Some? ==> PostedLines(run.attempts) == NewLinesOf(store, settingsPath, content.value)
    ensures content.Some? && store.Readable? ==>
              GetLastLine(run.store, SettingsKey) == First(NewLinesOf(store, settingsPath, content.value))
    ensures forall k :: k != SettingsKey ==> GetLastLine(run.store, k) == GetLastLine(store, k)
    ensures run.store.Readable? <==> store.Readable?
  {
    SingleSourceJob(store, settingsPath, SettingsKey, content, respond)
  }

  /** `alarmCronJob`: the yellow source, then the red one, inside one `try`;
      a failed yellow read skips the red source altogether. */
  function AlarmJob(store: Store, yellow: Option<string>, red: Option<string>,
                    respondYellow: nat -> Delivery, respondRed: nat -> Delivery): (run: JobRun)
    ensures yellow.None? ==> run == JobRun(store, [])
    ensures yellow.Some? && red.None? ==>
              run == SingleSourceJob(store, YellowAlarmKey, YellowAlarmKey, yellow, respondYellow)
    ensures forall k :: k != YellowAlarmKey && k != RedAlarmKey ==>
              GetLastLine(run.store, k) == GetLastLine(store, k)
    ensures run.store.Readable? <==> store.Readable?
  {
    match RunStep(store, YellowAlarmKey, YellowAlarmKey, yellow, respondYellow)
    case Aborted => JobRun(store, [])
    case Completed(afterYellow, yellowAttempts) =>
      match RunStep(afterYellow, RedAlarmKey, RedAlarmKey, red, respondRed)
      case Aborted => JobRun(afterYellow, yellowAttempts)
      case Completed(afterRed, redAttempts) => JobRun(afterRed, yellowAttempts + redAttempts)
  }

  /** The lines a job step posts when the content was read. */
  function NewLinesOf(store: Store, readKey: string, content: string): seq<string>
  {
    FilterOut(Split(content), GetLastLine(store, readKey))
  }

  /** A readable source: every new line is posted once, in order, request i
      answered by `respond(i)`. */
  lemma StepPostsNewLines(store: Store, readKey: string, writeKey: string, content: string,
                          respond: nat -> Delivery)
    ensures var run := SingleSourceJob(store, readKey, writeKey, Some(content), respond);
            && PostedLines(run.attempts) == NewLinesOf(store, readKey, content)
            && forall i :: 0 <= i < |run.attempts| ==> run.attempts[i].outcome == respond(i)
  {
  }

  /** A readable source: the checkpoint recorded under `writeKey` is the first
      new line (absent when there is none), other keys keep their values, and
      an unreadable file stays unreadable. */
  lemma StepRecordsFirstNewLine(store: Store, readKey: string, writeKey: string, content: string,
                                respond: nat -> Delivery)
    ensures var run := SingleSourceJob(store, readKey, writeKey, Some(content), respond);
            var delta := NewLinesOf(store, readKey, content);
            && (store.Readable? ==> GetLastLine(run.store, writeKey) == First(delta))
            && (store.Readable? && |delta| == 0 ==> writeKey !in run.store.entries)
            && (store.Unreadable? ==> run.store == Unreadable)
            && forall k :: k != writeKey ==> GetLastLine(run.store, k) == GetLastLine(store, k)
  {
  }

  /** The checkpoint a single-source job leaves under its write key. */
  function Recorded(store: Store, readKey: string, writeKey: string, content: string,
                    respond: nat -> Delivery): Option<string>
  {
    GetLastLine(SingleSourceJob(store, readKey, writeKey, Some(content), respond).store, writeKey)
  }

  /** The recorded checkpoint is the first piece of the content that differs
      from the previous checkpoint, wherever the previous checkpoint was; it is
      absent only when every piece equals the previous checkpoint. */
  lemma RecordedCheckpointIsFirstNewPiece(store: Store, readKey: string, writeKey: string, content: string,
                                          respond: nat -> Delivery)
    requires store.Readable?
    ensures Recorded(store, readKey, writeKey, content, respond).None? ==>
              forall i :: 0 <= i < |Split(content)| ==> !IsNew(Split(content)[i], GetLastLine(store, readKey))
    ensures Recorded(store, readKey, writeKey, content, respond).Some? ==>
              exists i :: && FirstNewAt(Split(content), GetLastLine(store, readKey), i)
                          && Split(content)[i] == Recorded(store, readKey, writeKey, content, respond).value
  {
    var pieces := Split(content);
    var previous := GetLastLine(store, readKey);
    var delta := FilterOut(pieces, previous);
    StepRecordsFirstNewLine(store, readKey, writeKey, content, respond);
    FilterOutEmpty(pieces, previous);
    if |delta| > 0 {
      var i := FirstKept(pieces, previous);
      assert Recorded(store, readKey, writeKey, content, respond) == Some(pieces[i]);
    }
  }

  /** Which posts succeeded has no effect on the checkpoint file. */
  lemma CheckpointIgnoresDelivery(store: Store, readKey: string, writeKey: string, content: Option<string>,
                                  respond1: nat -> Delivery, respond2: nat -> Delivery)
    ensures SingleSourceJob(store, readKey, writeKey, content, respond1).store
            == SingleSourceJob(store, readKey, writeKey, content, respond2).store
  {
  }

  /** Without a checkpoint file, nothing is ever recorded and every run posts
      every piece of the content. */
  lemma UnreadableStoreResendsEverything(content: string, readKey: string, writeKey: string,
                                         respond: nat -> Delivery)
    ensures var run := SingleSourceJob(Unreadable, readKey, writeKey, Some(content), respond);
            && run.store == Unreadable
            && PostedLines(run.attempts) == Split(content)
  {
    StepPostsNewLines(Unreadable, readKey, writeKey, Some(content).value, respond);
    NewLinesWithoutCheckpoint(content);
  }

  /** Hence, once its read key is absent, every settings run — this one and
      the next — posts the whole content. */
  lemma {:induction false} SettingsResendsEverything(store: Store, settingsPath: string, first: string, second: string,
                                  respond1: nat -> Delivery, respond2: nat -> Delivery)
    requires settingsPath != SettingsKey
    requires GetLastLine(store, settingsPath).None?
    ensures var run1 := SettingsJob(store, settingsPath, Some(first), respond1);
            var run2 := SettingsJob(run1.store, settingsPath, Some(second), respond2);
            && PostedLines(run1.attempts) == Split(first)
            && PostedLines(run2.attempts) == Split(second)
  {
    var run1 := SettingsJob(store, settingsPath, Some(first), respond1);
    StepPostsNewLines(store, settingsPath, SettingsKey, first, respond1);
    NewLinesWithoutCheckpoint(first);
    StepPostsNewLines(run1.store, settingsPath, SettingsKey, second, respond2);
    NewLinesWithoutCheckpoint(second);
  }

  /** Running a job again on unchanged content posts again every line of the
      first run that differs from its first line: the recorded checkpoint only
      hides copies of that one line. */
  lemma RerunRepostsLines(store: Store, key: string, content: string,
                          respond1: nat -> Delivery, respond2: nat -> Delivery)
    requires store.Readable?
    ensures var run1 := SingleSourceJob(store, key, key, Some(content), respond1);
            var run2 := SingleSourceJob(run1.store, key, key, Some(content), respond2);
            var posted1 := PostedLines(run1.attempts);
            var posted2 := PostedLines(run2.attempts);
            && posted2 == FilterOut(Split(content), First(posted1))
            && forall i :: 0 < i < |posted1| && posted1[i] != posted1[0] ==> posted1[i] in posted2
  {
    var pieces := Split(content);
    var run1 := SingleSourceJob(store, key, key, Some(content), respond1);
    var run2 := SingleSourceJob(run1.store, key, key, Some(content), respond2);
    var posted1 := PostedLines(run1.attempts);
    var posted2 := PostedLines(run2.attempts);
    StepPostsNewLines(store, key, key, content, respond1);
    StepRecordsFirstNewLine(store, key, key, content, respond1);
    StepPostsNewLines(run1.store, key, key, content, respond2);
    assert posted2 == FilterOut(pieces, First(posted1));
    forall i | 0 < i < |posted1| && posted1[i] != posted1[0]
      ensures posted1[i] in posted2
    {
      var x := posted1[i];
      FilterOutMultiplicity(pieces, GetLastLine(store, key));
      FilterOutMultiplicity(pieces, First(posted1));
      assert multiset(posted1)[x] > 0;
      assert multiset(pieces)[x] > 0;
      assert multiset(posted2)[x] > 0;
    }
  }

  /** With both sources read, the alarm job is the yellow step followed by the
      red step; the red checkpoint is unaffected by the yellow write, so each
      source is filtered against its own previous checkpoint. */
  lemma AlarmRunsBothSources(store: Store, yellow: string, red: string,
                             respondYellow: nat -> Delivery, respondRed: nat -> Delivery)
    ensures var run := AlarmJob(store, Some(yellow), Some(red), respondYellow, respondRed);
            var yellowDelta := NewLinesOf(store, YellowAlarmKey, yellow);
            var redDelta := NewLinesOf(store, RedAlarmKey, red);
            && PostedLines(run.attempts) == yellowDelta + redDelta
            && (store.Readable? ==> GetLastLine(run.store, YellowAlarmKey) == First(yellowDelta))
            && (store.Readable? ==> GetLastLine(run.store, RedAlarmKey) == First(redDelta))
            && (forall k :: k != YellowAlarmKey && k != RedAlarmKey ==>
                 GetLastLine(run.store, k) == GetLastLine(store, k))
            && (run.store.Readable? <==> store.Readable?)
  {
  }

  /** A blank piece is hidden whenever the checkpoint is "": on unchanged
      content "x\n" the prevision job posts x and "" and records x, then posts
      only "" and records "", then posts only x — the blank piece is dropped. */
  lemma BlankCheckpointHidesBlankPiece(respond1: nat -> Delivery, respond2: nat -> Delivery,
                                       respond3: nat -> Delivery)
    ensures var run1 := PrevisionJob(Readable(map[]), Some("x\n"), respond1);
            var run2 := PrevisionJob(run1.store, Some("x\n"), respond2);
            var run3 := PrevisionJob(run2.store, Some("x\n"), respond3);
            && PostedLines(run1.attempts) == ["x", ""]
            && GetLastLine(run1.store, PrevisionKey) == Some("x")
            && PostedLines(run2.attempts) == [""]
            && GetLastLine(run2.store, PrevisionKey) == Some("")
            && PostedLines(run3.attempts) == ["x"]
            && GetLastLine(run3.store, PrevisionKey) == Some("x")
  {
    SplitNewlineFree("");
    SplitAtNewline("x", "");
    assert "x" + "\n" + "" == "x\n";
    var pieces := Split("x\n");
    assert pieces == ["x", ""];
    assert pieces[1..] == [""];
    FilterOutNoCheckpoint(pieces, None);
    FilterOutNoCheckpoint(pieces[1..], Some("x"));
    assert FilterOut(pieces, Some("x")) == [""];
    assert FilterOut(pieces, Some("")) == ["x"];
  }

  /** Two ticks of the prevision job from a checkpoint file holding `{}`, whatever
      the collector answers: "l1\nl2\n" posts l1, l2 and the empty piece after
      the trailing newline and records l1; after l3 is appended, the next tick
      posts l2, l3 and the empty piece again and records l2. */
  lemma TwoTicks(respond1: nat -> Delivery, respond2: nat -> Delivery)
    ensures var run1 := PrevisionJob(Readable(map[]), Some("l1\nl2\n"), respond1);
            var run2 := PrevisionJob(run1.store, Some("l1\nl2\nl3\n"), respond2);
            && PostedLines(run1.attempts) == ["l1", "l2", ""]
            && GetLastLine(run1.store, PrevisionKey) == Some("l1")
            && PostedLines(run2.attempts) == ["l2", "l3", ""]
            && GetLastLine(run2.store, PrevisionKey) == Some("l2")
  {
    var first, second := "l1\nl2\n", "l1\nl2\nl3\n";
    var store := Readable(map[]);
    FirstTickNewLines();
    StepPostsNewLines(store, PrevisionKey, PrevisionKey, first, respond1);
    StepRecordsFirstNewLine(store, PrevisionKey, PrevisionKey, first, respond1);
    var run1 := PrevisionJob(store, Some(first), respond1);
    SecondTickNewLines(run1.store);
    StepPostsNewLines(run1.store, PrevisionKey, PrevisionKey, second, respond2);
    StepRecordsFirstNewLine(run1.store, PrevisionKey, PrevisionKey, second, respond2);
  }

  lemma FirstTickNewLines()
    ensures NewLinesOf(Readable(map[]), PrevisionKey, "l1\nl2\n") == ["l1", "l2", ""]
  {
    SplitNewlineFree("");
    SplitAtNewline("l2", "");
    assert "l2" + "\n" + "" == "l2\n";
    SplitAtNewline("l1", "l2\n");
    assert "l1" + "\n" + "l2\n" == "l1\nl2\n";
    assert Split("l1\nl2\n") == ["l1", "l2", ""];
    NewLinesWithoutCheckpoint("l1\nl2\n");
  }

  lemma SecondTickNewLines(store: Store)
    requires GetLastLine(store, PrevisionKey) == Some("l1")
    ensures NewLinesOf(store, PrevisionKey, "l1\nl2\nl3\n") == ["l2", "l3", ""]
  {
    SplitNewlineFree("");
    SplitAtNewline("l3", "");
    assert "l3" + "\n" + "" == "l3\n";
    SplitAtNewline("l2", "l3\n");
    assert "l2" + "\n" + "l3\n" == "l2\nl3\n";
    SplitAtNewline("l1", "l2\nl3\n");
    assert "l1" + "\n" + "l2\nl3\n" == "l1\nl2\nl3\n";
    var pieces := ["l1", "l2", "l3", ""];
    assert Split("l1\nl2\nl3\n") == pieces;
    assert pieces[1..] == ["l2", "l3", ""];
    FilterOutNoCheckpoint(pieces[1..], Some("l1"));
  }
}
