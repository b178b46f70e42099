/**
 * The bot's publish workflow (index.js `triggerUpload`) and its once-a-day
 * scheduler tick (the `setInterval` body), over an abstract world: the Drive
 * storage folder, the set of days that have a log file, the videos YouTube
 * accepted, and the chat messages sent.
 */
module Publish {
  import opened Wrappers
  import opened Text
  import opened Shorts
  import opened Drive

  /** A New York calendar day, formatted 'YYYY-MM-DD'. */
  type Date = string

  /** A Telegram chat id. */
  type ChatId = int

  /** The New York hour at which the automatic upload runs. */
  const PublishHour: int := 18

  /** The warning a manual caller gets when the vault is empty ("The vault is empty!"). */
  const VaultEmptyWarning: string := "⚠️ الخزنة فارغة!"

  /** The fixed fields of every `videos.insert` request. */
  const CategoryId: string := "24"
  const VideoTags: seq<string> := ["shorts", "satisfying", "asmr"]
  const PrivacyStatus: string := "public"

  /** The arguments of one `youtube.videos.insert` call; `media` is the Drive file streamed as the body. */
  datatype InsertRequest = InsertRequest(
    media: FileId, title: string, description: string,
    categoryId: string, tags: seq<string>, privacyStatus: string, madeForKids: bool)

  /** A video YouTube accepted, with the id it returned. */
  datatype Upload = Upload(videoId: string, request: InsertRequest)

  datatype ChatMessage = ChatMessage(chat: ChatId, text: string)

  /** The awaited external calls of the workflow, each of which can throw. */
  datatype Call = FolderLookup | ListFiles | Download | Insert | DeleteFile | CreateLog

  /**
   * What the outside world decides for one run: the `Math.random()` draw, the
   * external call that throws when the run reaches it (if any), and the id
   * `videos.insert` returns.
   */
  datatype Env = Env(rand: real, fault: Option<Call>, videoId: string)

  /** `Math.random()` draws from [0, 1). */
  predicate ValidDraw(env: Env)
  {
    0.0 <= env.rand < 1.0
  }

  predicate FailsAt(env: Env, c: Call)
  {
    env.fault == Some(c)
  }

  /** Why a run stopped early: a call threw, or the parsed metadata had no text title. */
  datatype Failure = CallFailed(call: Call) | TitleUnreadable

  /** How one run of the workflow ends, as far as the shown code goes. */
  datatype Outcome = VaultEmpty | Published(file: FileId, videoId: string) | Aborted(reason: Failure)

  /** The state the workflow reads and changes. */
  datatype World = World(vault: seq<DriveFile>, logs: set<Date>, uploads: seq<Upload>, outbox: seq<ChatMessage>)

  datatype Run = Run(after: World, outcome: Outcome)

  /** `if (manualChatId)`: JavaScript truthiness, so a null or a zero chat id means an automatic run. */
  predicate IsManual(manualChatId: Option<ChatId>)
  {
    manualChatId.Some? && manualChatId.value != 0
  }

  /** The message an empty vault produces: the warning for a manual caller, nothing otherwise. */
  function EmptyVaultMessages(manualChatId: Option<ChatId>): (m: seq<ChatMessage>)
    ensures |m| == (if IsManual(manualChatId) then 1 else 0)
    ensures IsManual(manualChatId) ==> m[0] == ChatMessage(manualChatId.value, VaultEmptyWarning)
  {
    if IsManual(manualChatId) then [ChatMessage(manualChatId.value, VaultEmptyWarning)] else []
  }

  /** `listRes.data.files[Math.floor(Math.random() * listRes.data.files.length)]`. */
  function PickedFile(vault: seq<DriveFile>, rand: real): (f: DriveFile)
    requires 0.0 <= rand < 1.0
    requires Listing(vault) != []
    ensures f in Listing(vault)
    ensures f in vault && Listable(f)
  {
    var files := Listing(vault);
    files[PickIndex(rand, |files|)]
  }

  /**
   * The insert request built from a file and its metadata: the title carries
   * the marker, the description ends with the promotional line, and the
   * category, tags and visibility are the fixed ones.
   */
  function RequestFor(f: DriveFile, meta: Metadata): InsertRequest
  {
    var title := NormalizeTitle(meta.title);
    InsertRequest(f.id, title, ComposeDescription(title, meta.description),
                  CategoryId, VideoTags, PrivacyStatus, false)
  }

  /**
   * The insert request built from a file and its metadata streams that file,
   * its title is the normalised metadata title, which carries the marker and
   * extends the metadata title, its description
   * is that title, the metadata description and the promotional line, and the
   * category, tags and visibility are the fixed ones.
   */
  lemma RequestForShape(f: DriveFile, meta: Metadata)
    ensures var q := RequestFor(f, meta);
      && q.media == f.id
      && q.title == NormalizeTitle(meta.title)
      && HasMarker(q.title) && meta.title <= q.title
      && q.description == TrimStart(q.title) + "\n\n" + meta.description + "\n\n" + StaticDesc
      && q.categoryId == "24" && q.tags == ["shorts", "satisfying", "asmr"]
      && q.privacyStatus == "public" && !q.madeForKids
  {
    NormalizeTitleMarks(meta.title);
    DescriptionOfNormalizedTitle(meta.title, meta.description);
  }

  /**
   * One run of `triggerUpload(today, manualChatId)`: find the folder, list it,
   * stop if it is empty, pick a file, read its metadata, build title and
   * description, download, insert, delete the file, and write the day's log
   * for an automatic run. A call that throws ends the run where it stands.
   */
  function Attempt(w: World, today: Date, manualChatId: Option<ChatId>, env: Env): Run
    requires ValidDraw(env)
  {
    if FailsAt(env, FolderLookup) then Run(w, Aborted(CallFailed(FolderLookup)))
    else if FailsAt(env, ListFiles) then Run(w, Aborted(CallFailed(ListFiles)))
    else if Listing(w.vault) == [] then
      Run(w.(outbox := w.outbox + EmptyVaultMessages(manualChatId)), VaultEmpty)
    else
      var file := PickedFile(w.vault, env.rand);
      match ResolveMetadata(file.meta)
      case Failure(_) => Run(w, Aborted(TitleUnreadable))
      case Success(meta) =>
        if FailsAt(env, Download) then Run(w, Aborted(CallFailed(Download)))
        else if FailsAt(env, Insert) then Run(w, Aborted(CallFailed(Insert)))
        else
          var uploaded := w.(uploads := w.uploads + [Upload(env.videoId, RequestFor(file, meta))]);
          if FailsAt(env, DeleteFile) then Run(uploaded, Aborted(CallFailed(DeleteFile)))
          else
            var deleted := uploaded.(vault := Remove(w.vault, file.id));
            if IsManual(manualChatId) then Run(deleted, Published(file.id, env.videoId))
            else if FailsAt(env, CreateLog) then Run(deleted, Aborted(CallFailed(CreateLog)))
            else Run(deleted.(logs := w.logs + {today}), Published(file.id, env.videoId))
  }

  /** What one tick did: the new world and the outcome of the run it started, if any. */
  datatype TickResult = TickResult(after: World, attempt: Option<Outcome>)

  /** One tick of the 60-second timer, given the New York hour and date. */
  function TickStep(w: World, hour: int, today: Date, env: Env): TickResult
    requires ValidDraw(env)
  {
    if hour == PublishHour && today !in w.logs then
      var r := Attempt(w, today, None, env);
      TickResult(r.after, Some(r.outcome))
    else TickResult(w, None)
  }

  // ---------------------------------------------------------------------------
  // Properties of one run

  /** An empty listing ends the run with no upload, no delete and no log; only a manual caller is told. */
  lemma EmptyVaultNoEffects(w: World, today: Date, manualChatId: Option<ChatId>, env: Env)
    requires ValidDraw(env) && Listing(w.vault) == []
    requires !FailsAt(env, FolderLookup) && !FailsAt(env, ListFiles)
    ensures var r := Attempt(w, today, manualChatId, env);
      && r.outcome == VaultEmpty
      && r.after.vault == w.vault && r.after.logs == w.logs && r.after.uploads == w.uploads
      && r.after.outbox == w.outbox + EmptyVaultMessages(manualChatId)
  {
  }

  /** A run removes no log and adds at most today's. */
  lemma AttemptLogsBounded(w: World, today: Date, manualChatId: Option<ChatId>, env: Env)
    requires ValidDraw(env)
    ensures var r := Attempt(w, today, manualChatId, env);
      w.logs <= r.after.logs <= w.logs + {today}
  {
  }

  /** A run appends at most one upload and keeps the earlier ones. */
  lemma AttemptUploadsAtMostOne(w: World, today: Date, manualChatId: Option<ChatId>, env: Env)
    requires ValidDraw(env)
    ensures var r := Attempt(w, today, manualChatId, env);
      || r.after.uploads == w.uploads
      || (|r.after.uploads| == |w.uploads| + 1 && r.after.uploads == w.uploads + [r.after.uploads[|w.uploads|]])
  {
    var r := Attempt(w, today, manualChatId, env);
    if r.after.uploads != w.uploads {
      var file := PickedFile(w.vault, env.rand);
      var u := Upload(env.videoId, RequestFor(file, ResolveMetadata(file.meta).value));
      assert r.after.uploads == w.uploads + [u];
    }
  }

  /** The only message a run sends is the empty-vault warning. */
  lemma AttemptOutbox(w: World, today: Date, manualChatId: Option<ChatId>, env: Env)
    requires ValidDraw(env)
    ensures var r := Attempt(w, today, manualChatId, env);
      r.after.outbox == w.outbox || r.after.outbox == w.outbox + EmptyVaultMessages(manualChatId)
  {
  }

  /**
   * Nothing is deleted unless the upload completed: when the vault changes, the
   * run recorded exactly one accepted upload and removed exactly the file it
   * streamed, which was one of the listed files.
   */
  lemma DeleteOnlyAfterUpload(w: World, today: Date, manualChatId: Option<ChatId>, env: Env)
    requires ValidDraw(env)
    ensures var r := Attempt(w, today, manualChatId, env);
      r.after.vault != w.vault ==>
        && |r.after.uploads| == |w.uploads| + 1
        && r.after.uploads[|w.uploads|].videoId == env.videoId
        && (exists f :: f in Listing(w.vault) && f.id == r.after.uploads[|w.uploads|].request.media
                        && r.after.vault == Remove(w.vault, f.id))
  {
    var r := Attempt(w, today, manualChatId, env);
    if r.after.vault != w.vault {
      var f := PickedFile(w.vault, env.rand);
      var u := Upload(env.videoId, RequestFor(f, ResolveMetadata(f.meta).value));
      assert r.after.uploads == w.uploads + [u];
      assert f in Listing(w.vault) && f.id == u.request.media;
    }
  }

  /** A throwing download or insert leaves the vault, the logs and the uploads as they were, and nothing is published. */
  lemma FailedInsertKeepsWorld(w: World, today: Date, manualChatId: Option<ChatId>, env: Env)
    requires ValidDraw(env) && (FailsAt(env, Download) || FailsAt(env, Insert))
    ensures var r := Attempt(w, today, manualChatId, env);
      && r.after.vault == w.vault && r.after.logs == w.logs && r.after.uploads == w.uploads
      && !r.outcome.Published?
  {
  }

  /** A manual run never touches the log set, whatever happens. */
  lemma ManualRunKeepsLogs(w: World, today: Date, manualChatId: Option<ChatId>, env: Env)
    requires ValidDraw(env) && IsManual(manualChatId)
    ensures Attempt(w, today, manualChatId, env).after.logs == w.logs
  {
  }

  /**
   * The day's log is written exactly by the automatic runs that complete:
   * the log set changes only on such a run, and such a run always leaves today logged.
   */
  lemma LogIffCompletedAutomaticRun(w: World, today: Date, manualChatId: Option<ChatId>, env: Env)
    requires ValidDraw(env)
    ensures var r := Attempt(w, today, manualChatId, env);
      && (r.after.logs != w.logs ==>
            !IsManual(manualChatId) && r.outcome.Published? && r.after.logs == w.logs + {today})
      && (!IsManual(manualChatId) && r.outcome.Published? ==> today in r.after.logs)
  {
  }

  /**
   * A completed run published a listed file: the upload streamed that file,
   * returned the given id, and the file is what was deleted.
   */
  lemma PublishedFileWasListed(w: World, today: Date, manualChatId: Option<ChatId>, env: Env)
    requires ValidDraw(env)
    ensures var r := Attempt(w, today, manualChatId, env);
      r.outcome.Published? ==>
        && (exists f :: f in Listing(w.vault) && f.id == r.outcome.file)
        && r.outcome.videoId == env.videoId
        && |r.after.uploads| == |w.uploads| + 1
        && r.after.uploads[|w.uploads|].request.media == r.outcome.file
        && r.after.vault == Remove(w.vault, r.outcome.file)
  {
    var r := Attempt(w, today, manualChatId, env);
    if r.outcome.Published? {
      var f := PickedFile(w.vault, env.rand);
      var u := Upload(env.videoId, RequestFor(f, ResolveMetadata(f.meta).value));
      assert r.after.uploads == w.uploads + [u];
      assert f.id == r.outcome.file;
    }
  }

  /** With unique ids, a completed run removes exactly one file and leaves the others in order. */
  lemma PublishedRemovesOneFile(w: World, today: Date, manualChatId: Option<ChatId>, env: Env)
    requires ValidDraw(env) && DistinctIds(w.vault)
    ensures var r := Attempt(w, today, manualChatId, env);
      r.outcome.Published? ==>
        exists k :: 0 <= k < |w.vault| && w.vault[k].id == r.outcome.file
                    && r.after.vault == w.vault[..k] + w.vault[k + 1..]
  {
    var r := Attempt(w, today, manualChatId, env);
    if r.outcome.Published? {
      var f := PickedFile(w.vault, env.rand);
      assert r.outcome.file == f.id && r.after.vault == Remove(w.vault, f.id);
      var k :| 0 <= k < |w.vault| && w.vault[k] == f;
      RemovePresent(w.vault, k);
    }
  }

  /**
   * A metadata title without the marker that does not start with white space
   * gets " #shorts" appended, and the description repeats that title whole.
   */
  lemma RequestForUnmarkedTitle(f: DriveFile, meta: Metadata)
    requires !HasMarker(meta.title) && meta.title != [] && !IsSpace(meta.title[0])
    ensures RequestFor(f, meta)
            == InsertRequest(f.id, meta.title + " #shorts",
                             meta.title + " #shorts\n\n" + meta.description + "\n\n" + StaticDesc,
                             CategoryId, VideoTags, PrivacyStatus, false)
  {
    var title := NormalizeTitle(meta.title);
    NormalizeTitleMarks(meta.title);
    assert title == meta.title + " #shorts";
    assert title[0] == meta.title[0];
    assert !AllSpace(title);
    assert TrimStart(title) == title;
    var d := ComposeDescription(title, meta.description);
    ComposeDescriptionShape(title, meta.description);
    assert d == title + "\n\n" + meta.description + "\n\n" + StaticDesc;
  }

  /** A text shorter than the marker does not carry it. */
  lemma ShortTitleUnmarked(title: string)
    requires |title| < |Marker|
    ensures !HasMarker(title)
  {
  }

  lemma EmptyDescriptionText(title: string)
    ensures title + " #shorts\n\n" + "" + "\n\n" == title + " #shorts\n\n\n\n"
  {
  }

  /** A file whose description does not parse is published with the default title and description. */
  lemma UnparsableMetadataUsesDefaults(f: DriveFile)
    requires f.meta.Unparsable?
    ensures var q := RequestFor(f, ResolveMetadata(f.meta).value);
      && q.title == "Short #shorts"
      && q.description == "Short #shorts\n\n\n\n" + StaticDesc
  {
    var meta := ResolveMetadata(f.meta).value;
    assert meta == Defaults;
    ShortTitleUnmarked("Short");
    RequestForUnmarkedTitle(f, meta);
    EmptyDescriptionText("Short");
  }

  /** A file whose parsed metadata has no text title aborts the run before anything is uploaded. */
  lemma UntitledMetadataAborts(w: World, today: Date, manualChatId: Option<ChatId>, env: Env)
    requires ValidDraw(env) && !FailsAt(env, FolderLookup) && !FailsAt(env, ListFiles)
    requires Listing(w.vault) != [] && PickedFile(w.vault, env.rand).meta.Untitled?
    ensures Attempt(w, today, manualChatId, env) == Run(w, Aborted(TitleUnreadable))
  {
  }

  // ---------------------------------------------------------------------------
  // Properties of the scheduler

  /** A tick starts a run exactly at 18:00-18:59 New York time on a day with no log; otherwise it does nothing. */
  lemma TickGate(w: World, hour: int, today: Date, env: Env)
    requires ValidDraw(env)
    ensures var t := TickStep(w, hour, today, env);
      && (t.attempt.Some? <==> hour == PublishHour && today !in w.logs)
      && (t.attempt.None? ==> t.after == w)
  {
  }

  /** After a tick whose run completed, every later tick of that day does nothing. */
  lemma TickAfterCompletedRun(w: World, hour: int, today: Date, env: Env, hour': int, env': Env)
    requires ValidDraw(env) && ValidDraw(env')
    requires TickStep(w, hour, today, env).attempt.Some?
    requires TickStep(w, hour, today, env).attempt.value.Published?
    ensures var w' := TickStep(w, hour, today, env).after;
      TickStep(w', hour', today, env') == TickResult(w', None)
  {
    LogIffCompletedAutomaticRun(w, today, None, env);
  }

  /** One timer tick: the hour it reads and what the world decides for the run it may start. */
  datatype TickInput = TickInput(hour: int, env: Env)

  predicate ValidDraws(ts: seq<TickInput>)
  {
    forall k :: 0 <= k < |ts| ==> ValidDraw(ts[k].env)
  }

  /** The world after a sequence of ticks on one day, and how many of their runs completed. */
  datatype DayResult = DayResult(after: World, completed: nat)

  function Day(w: World, today: Date, ts: seq<TickInput>): DayResult
    requires ValidDraws(ts)
    decreases |ts|
  {
    if ts == [] then DayResult(w, 0)
    else
      var t := TickStep(w, ts[0].hour, today, ts[0].env);
      assert ValidDraws(ts[1..]) by {
        forall k | 0 <= k < |ts[1..]| ensures ValidDraw(ts[1..][k].env) {
          assert ts[1..][k] == ts[k + 1];
        }
      }
      var rest := Day(t.after, today, ts[1..]);
      DayResult(rest.after, rest.completed + if t.attempt.Some? && t.attempt.value.Published? then 1 else 0)
  }

  lemma ValidDrawsTail(ts: seq<TickInput>)
    requires ts != [] && ValidDraws(ts)
    ensures ValidDraw(ts[0].env) && ValidDraws(ts[1..])
  {
    forall k | 0 <= k < |ts[1..]| ensures ValidDraw(ts[1..][k].env) {
      assert ts[1..][k] == ts[k + 1];
    }
  }

  /** Once a day has its log, no tick of that day changes anything. */
  lemma {:induction false} LoggedDayIsQuiet(w: World, today: Date, ts: seq<TickInput>)
    requires ValidDraws(ts) && today in w.logs
    ensures Day(w, today, ts) == DayResult(w, 0)
    decreases |ts|
  {
    if ts != [] {
      ValidDrawsTail(ts);
      assert TickStep(w, ts[0].hour, today, ts[0].env) == TickResult(w, None);
      LoggedDayIsQuiet(w, today, ts[1..]);
    }
  }

  /** At most one scheduled run completes per day, and none once the day is logged. */
  lemma {:induction false} AtMostOneCompletedRunPerDay(w: World, today: Date, ts: seq<TickInput>)
    requires ValidDraws(ts)
    ensures Day(w, today, ts).completed <= if today in w.logs then 0 else 1
    decreases |ts|
  {
    if today in w.logs {
      LoggedDayIsQuiet(w, today, ts);
    } else if ts != [] {
      ValidDrawsTail(ts);
      var t := TickStep(w, ts[0].hour, today, ts[0].env);
      if t.attempt.Some? {
        AttemptUploadsAtMostOne(w, today, None, ts[0].env);
        LogIffCompletedAutomaticRun(w, today, None, ts[0].env);
      }
      AtMostOneCompletedRunPerDay(t.after, today, ts[1..]);
    }
  }

  predicate NoLateFaults(ts: seq<TickInput>)
  {
    forall k :: 0 <= k < |ts| ==> !FailsAt(ts[k].env, DeleteFile) && !FailsAt(ts[k].env, CreateLog)
  }

  /**
   * When neither the delete nor the log write throws, the ticks of one day upload
   * at most one video, and none once the day is logged.
   */
  lemma {:induction false} AtMostOneUploadPerDay(w: World, today: Date, ts: seq<TickInput>)
    requires ValidDraws(ts) && NoLateFaults(ts)
    ensures |Day(w, today, ts).after.uploads| >= |w.uploads|
    ensures |Day(w, today, ts).after.uploads| <= |w.uploads| + if today in w.logs then 0 else 1
    decreases |ts|
  {
    if today in w.logs {
      LoggedDayIsQuiet(w, today, ts);
    } else if ts != [] {
      ValidDrawsTail(ts);
      assert NoLateFaults(ts[1..]) by {
        forall k | 0 <= k < |ts[1..]|
          ensures !FailsAt(ts[1..][k].env, DeleteFile) && !FailsAt(ts[1..][k].env, CreateLog)
        {
          assert ts[1..][k] == ts[k + 1];
        }
      }
      assert !FailsAt(ts[0].env, DeleteFile) && !FailsAt(ts[0].env, CreateLog);
      var t := TickStep(w, ts[0].hour, today, ts[0].env);
      if t.attempt.Some? {
        AttemptUploadsAtMostOne(w, today, None, ts[0].env);
        LogIffCompletedAutomaticRun(w, today, None, ts[0].env);
      }
      AtMostOneUploadPerDay(t.after, today, ts[1..]);
    }
  }

  /**
   * A run in which no call throws and the picked file's metadata is readable
   * uploads that file with the request built from it, deletes it, logs the day
   * when automatic, and sends no message.
   */
  lemma CompletedAttempt(w: World, today: Date, manualChatId: Option<ChatId>, env: Env)
    requires ValidDraw(env) && env.fault.None? && Listing(w.vault) != []
    requires !PickedFile(w.vault, env.rand).meta.Untitled?
    ensures var f := PickedFile(w.vault, env.rand);
      var meta := ResolveMetadata(f.meta).value;
      Attempt(w, today, manualChatId, env)
      == Run(World(Remove(w.vault, f.id),
                   if IsManual(manualChatId) then w.logs else w.logs + {today},
                   w.uploads + [Upload(env.videoId, RequestFor(f, meta))],
                   w.outbox),
             Published(f.id, env.videoId))
  {
    var f := PickedFile(w.vault, env.rand);
    var meta := ResolveMetadata(f.meta).value;
    assert ResolveMetadata(f.meta) == Success(meta);
    var deleted := World(Remove(w.vault, f.id), w.logs,
                         w.uploads + [Upload(env.videoId, RequestFor(f, meta))], w.outbox);
    if IsManual(manualChatId) {
      assert Attempt(w, today, manualChatId, env) == Run(deleted, Published(f.id, env.videoId));
    } else {
      assert Attempt(w, today, manualChatId, env)
             == Run(deleted.(logs := w.logs + {today}), Published(f.id, env.videoId));
    }
  }

  /** A throwing delete keeps the file and writes no log, but the upload already happened. */
  lemma DeleteFaultKeepsFile(w: World, today: Date, manualChatId: Option<ChatId>, env: Env)
    requires ValidDraw(env) && FailsAt(env, DeleteFile) && Listing(w.vault) != []
    requires !PickedFile(w.vault, env.rand).meta.Untitled?
    ensures var r := Attempt(w, today, manualChatId, env);
      && r.after.vault == w.vault && r.after.logs == w.logs && r.after.outbox == w.outbox
      && |r.after.uploads| == |w.uploads| + 1
      && r.outcome == Aborted(CallFailed(DeleteFile))
  {
  }

  /**
   * As written, a throwing delete ends the run after the upload and before the
   * log, so the next tick of the same hour uploads a second video the same day.
   */
  lemma DeleteFailureUploadsTwice(w: World, today: Date, e1: Env, e2: Env)
    requires ValidDraw(e1) && ValidDraw(e2)
    requires today !in w.logs && Listing(w.vault) != []
    requires forall f :: f in w.vault ==> !f.meta.Untitled?
    requires FailsAt(e1, DeleteFile) && e2.fault.None?
    ensures |Day(w, today, [TickInput(PublishHour, e1), TickInput(PublishHour, e2)]).after.uploads|
            == |w.uploads| + 2
  {
    var ts := [TickInput(PublishHour, e1), TickInput(PublishHour, e2)];
    DeleteFaultKeepsFile(w, today, None, e1);
    var t1 := TickStep(w, PublishHour, today, e1);
    assert t1.after == Attempt(w, today, None, e1).after;
    CompletedAttempt(t1.after, today, None, e2);
    var t2 := TickStep(t1.after, PublishHour, today, e2);
    assert t2.after == Attempt(t1.after, today, None, e2).after;
    assert ts[1..] == [TickInput(PublishHour, e2)];
    assert ts[1..][1..] == [];
    assert Day(t2.after, today, []) == DayResult(t2.after, 0);
    assert Day(t1.after, today, ts[1..]).after == t2.after;
  }

  /** A throwing log write on an automatic run leaves the day unlogged, after the upload and the delete. */
  lemma CreateLogFaultLeavesDayOpen(w: World, today: Date, env: Env)
    requires ValidDraw(env) && FailsAt(env, CreateLog) && Listing(w.vault) != []
    requires !PickedFile(w.vault, env.rand).meta.Untitled?
    ensures var r := Attempt(w, today, None, env);
      && r.after.vault == Remove(w.vault, PickedFile(w.vault, env.rand).id)
      && r.after.logs == w.logs && r.after.outbox == w.outbox
      && |r.after.uploads| == |w.uploads| + 1
      && r.outcome == Aborted(CallFailed(CreateLog))
  {
    var f := PickedFile(w.vault, env.rand);
    var meta := ResolveMetadata(f.meta).value;
    assert ResolveMetadata(f.meta) == Success(meta);
    var u := Upload(env.videoId, RequestFor(f, meta));
    assert Attempt(w, today, None, env)
           == Run(World(Remove(w.vault, f.id), w.logs, w.uploads + [u], w.outbox), Aborted(CallFailed(CreateLog)));
  }

  /**
   * As written, a throwing log write ends the automatic run after the file is
   * deleted but before the day is logged, so the next tick of the same hour
   * uploads another file of the folder the same day.
   */
  lemma CreateLogFailureUploadsTwice(w: World, today: Date, e1: Env, e2: Env)
    requires ValidDraw(e1) && ValidDraw(e2)
    requires today !in w.logs && Listing(w.vault) != []
    requires forall f :: f in w.vault ==> !f.meta.Untitled?
    requires FailsAt(e1, CreateLog) && e2.fault.None?
    requires Listing(Remove(w.vault, PickedFile(w.vault, e1.rand).id)) != []
    ensures |Day(w, today, [TickInput(PublishHour, e1), TickInput(PublishHour, e2)]).after.uploads|
            == |w.uploads| + 2
  {
    var ts := [TickInput(PublishHour, e1), TickInput(PublishHour, e2)];
    CreateLogFaultLeavesDayOpen(w, today, e1);
    var t1 := TickStep(w, PublishHour, today, e1);
    assert t1.after == Attempt(w, today, None, e1).after;
    var rest := t1.after.vault;
    var g := PickedFile(rest, e2.rand);
    RemoveMembers(w.vault, PickedFile(w.vault, e1.rand).id);
    assert g in w.vault;
    CompletedAttempt(t1.after, today, None, e2);
    var t2 := TickStep(t1.after, PublishHour, today, e2);
    assert t2.after == Attempt(t1.after, today, None, e2).after;
    assert ts[1..] == [TickInput(PublishHour, e2)];
    assert ts[1..][1..] == [];
    assert Day(t2.after, today, []) == DayResult(t2.after, 0);
    assert Day(t1.after, today, ts[1..]).after == t2.after;
  }

  /**
   * A manual run on a folder holding one video with metadata title "Cat",
   * empty description and hashtags "#cat": the insert gets "Cat #shorts",
   * the file is deleted and no log is written.
   */
  lemma ManualRunOnOneCatVideo(w: World, today: Date, chat: ChatId, videoId: string)
    requires chat != 0
    requires w.vault == [DriveFile("f1", "cat.mp4", "video/mp4", false,
                                   Record(Metadata(None, "Cat", "", "#cat")))]
    ensures var r := Attempt(w, today, Some(chat), Env(0.0, None, videoId));
      && r.outcome == Published("f1", videoId)
      && r.after.vault == [] && r.after.logs == w.logs
      && r.after.uploads == w.uploads + [Upload(videoId, InsertRequest("f1", "Cat #shorts",
           "Cat #shorts\n\n\n\n" + StaticDesc, "24", ["shorts", "satisfying", "asmr"], "public", false))]
  {
    var f := w.vault[0];
    var env := Env(0.0, None, videoId);
    assert Contains(f.mimeType, "video/") by {
      assert OccursAt(f.mimeType, "video/", 0);
    }
    assert Listable(f);
    assert Matching(w.vault[1..]) == [];
    assert Listing(w.vault) == [f];
    assert PickIndex(0.0, 1) == 0;
    assert PickedFile(w.vault, 0.0) == f;
    var meta := ResolveMetadata(f.meta).value;
    assert meta == Metadata(None, "Cat", "", "#cat");
    ShortTitleUnmarked("Cat");
    RequestForUnmarkedTitle(f, meta);
    EmptyDescriptionText("Cat");
    assert "Cat" + " #shorts" == "Cat #shorts";
    var q := InsertRequest("f1", "Cat #shorts", "Cat #shorts\n\n\n\n" + StaticDesc,
                           "24", ["shorts", "satisfying", "asmr"], "public", false);
    assert RequestFor(f, meta) == q;
    CompletedAttempt(w, today, Some(chat), env);
    assert Remove(w.vault, "f1") == [] by {
      assert w.vault[1..] == [];
    }
  }

  // ---------------------------------------------------------------------------
  // The bot's state and its imperative operations

  class Bot {
    /** The storage folder's files, in listing order. */
    var vault: seq<DriveFile>
    /** The days that have a file in the logs folder. */
    var logs: set<Date>
    /** The videos YouTube accepted. */
    var uploads: seq<Upload>
    /** The chat messages sent. */
    var outbox: seq<ChatMessage>

    ghost predicate Valid()
      reads this
    {
      DistinctIds(vault)
    }

    function Snapshot(): World
      reads this
    {
      World(vault, logs, uploads, outbox)
    }

    constructor (vault: seq<DriveFile>, logs: set<Date>)
      requires DistinctIds(vault)
      ensures Valid()
      ensures Snapshot() == World(vault, logs, [], [])
    {
      this.vault := vault;
      this.logs := logs;
      uploads := [];
      outbox := [];
    }

    /** `checkIfUploadedToday(date)`: is there a log for that day? */
    method CheckIfUploadedToday(date: Date) returns (uploaded: bool)
      ensures uploaded <==> date in logs
    {
      uploaded := date in logs;
    }

    /** `createLogFile(date)`: the day gets its log. */
    method CreateLogFile(date: Date)
      modifies this
      ensures logs == old(logs) + {date}
      ensures vault == old(vault) && uploads == old(uploads) && outbox == old(outbox)
    {
      logs := logs + {date};
    }

    /** `triggerUpload(todayDate, manualChatId)`. */
    method TriggerUpload(today: Date, manualChatId: Option<ChatId>, env: Env) returns (outcome: Outcome)
      requires Valid() && ValidDraw(env)
      modifies this
      ensures Valid()
      ensures Run(Snapshot(), outcome) == Attempt(old(Snapshot()), today, manualChatId, env)
    {
      if FailsAt(env, FolderLookup) {
        return Aborted(CallFailed(FolderLookup));
      }
      if FailsAt(env, ListFiles) {
        return Aborted(CallFailed(ListFiles));
      }
      var files := Listing(vault);
      if |files| == 0 {
        if IsManual(manualChatId) {
          outbox := outbox + [ChatMessage(manualChatId.value, VaultEmptyWarning)];
        }
        return VaultEmpty;
      }
      var file := files[PickIndex(env.rand, |files|)];
      var metadata := ResolveMetadata(file.meta);
      if metadata.Failure? {
        return Aborted(TitleUnreadable);
      }
      var finalTitle := NormalizeTitle(metadata.value.title);
      var fullDescription := ComposeDescription(finalTitle, metadata.value.description);
      if FailsAt(env, Download) {
        return Aborted(CallFailed(Download));
      }
      if FailsAt(env, Insert) {
        return Aborted(CallFailed(Insert));
      }
      var request := InsertRequest(file.id, finalTitle, fullDescription,
                                   CategoryId, VideoTags, PrivacyStatus, false);
      assert request == RequestFor(file, metadata.value);
      uploads := uploads + [Upload(env.videoId, request)];
      if FailsAt(env, DeleteFile) {
        return Aborted(CallFailed(DeleteFile));
      }
      RemoveKeepsDistinct(vault, file.id);
      vault := Remove(vault, file.id);
      if !IsManual(manualChatId) {
        if FailsAt(env, CreateLog) {
          return Aborted(CallFailed(CreateLog));
        }
        CreateLogFile(today);
      }
      return Published(file.id, env.videoId);
    }

    /** One tick of the 60-second timer, given the New York hour and date. */
    method Tick(hour: int, today: Date, env: Env) returns (attempt: Option<Outcome>)
      requires Valid() && ValidDraw(env)
      modifies this
      ensures Valid()
      ensures TickResult(Snapshot(), attempt) == TickStep(old(Snapshot()), hour, today, env)
    {
      attempt := None;
      if hour == PublishHour {
        var isUploaded := CheckIfUploadedToday(today);
        if !isUploaded {
          var outcome := TriggerUpload(today, None, env);
          attempt := Some(outcome);
        }
      }
    }
  }
}
