/**
 * The local batch front end (app/app_local.py): reading the uploaded
 * files, validating a batch, creating tasks under a global counter, the
 * per-task translation lifecycle, saving finished tasks and the progress
 * summary.
 */
module LocalBatch {
  import opened Text
  import opened Cleaning
  import opened FileNames
  import opened Endpoints
  import opened Completion

  // ---------------------------------------------------------------------
  // read_uploaded_files (app/app_local.py:174-216)
  // ---------------------------------------------------------------------

  /**
   * What one uploaded path contributes: nothing for an empty or missing
   * path, a name without extension, a type off the whitelist, an extractor
   * that raised (None) or a text that is blank after blank-line removal.
   */
  function Entry(f: string, present: string -> bool, extract: (Extractor, string) -> Option<string>): seq<(string, string)> {
    if f == "" || !present(f) then []
    else match ChooseExtractor(f)
      case Err(_) => []
      case Ok(x) =>
        match extract(x, f)
        case None => []
        case Some(c) =>
          var cleaned := RemoveBlankLines(c);
          if Strip(cleaned) != "" then [(NameWithoutExt(f), cleaned)] else []
  }

  /** The (name, text) pairs of the accepted files, in upload order. */
  function Uploaded(files: seq<string>, present: string -> bool, extract: (Extractor, string) -> Option<string>): (r: seq<(string, string)>)
    ensures |r| <= |files|
  {
    if files == [] then []
    else Uploaded(files[..|files| - 1], present, extract) + Entry(files[|files| - 1], present, extract)
  }

  method ReadUploadedFiles(files: seq<string>, present: string -> bool, extract: (Extractor, string) -> Option<string>)
    returns (r: seq<(string, string)>)
    ensures r == Uploaded(files, present, extract)
  {
    r := [];
    for i := 0 to |files|
      invariant r == Uploaded(files[..i], present, extract)
    {
      UploadedStep(files, i, present, extract);
      var f := files[i];
      if f == "" || !present(f) {
        continue;
      }
      var choice := ChooseExtractor(f);
      if choice.Err? {
        continue;
      }
      var content := extract(choice.value, f);
      if content.None? {
        continue;
      }
      var cleaned := RemoveBlankLines(content.value);
      if Strip(cleaned) != "" {
        r := r + [(NameWithoutExt(f), cleaned)];
      }
    }
    assert files[..|files|] == files;
  }

  /**
   * A single path is kept exactly when it is non-empty, exists, has a
   * whitelisted extension, its extractor returns, and its text is not blank
   * once blank lines are removed; what is kept is the name without extension
   * and that text.
   */
  lemma EntryKeptIff(f: string, present: string -> bool, extract: (Extractor, string) -> Option<string>)
    ensures Entry(f, present, extract) != [] <==>
            f != "" && present(f) && ChooseExtractor(f).Ok? &&
            extract(ChooseExtractor(f).value, f).Some? &&
            !AllSpace(RemoveBlankLines(extract(ChooseExtractor(f).value, f).value))
    ensures Entry(f, present, extract) != [] ==>
            Entry(f, present, extract) ==
            [(NameWithoutExt(f), RemoveBlankLines(extract(ChooseExtractor(f).value, f).value))]
  {
    if f != "" && present(f) && ChooseExtractor(f).Ok? && extract(ChooseExtractor(f).value, f).Some? {
      StripEmptyIffAllSpace(RemoveBlankLines(extract(ChooseExtractor(f).value, f).value));
    }
  }

  /** Every kept text is non-blank and has no blank line before its last line. */
  lemma {:induction false} UploadedTextsClean(files: seq<string>, present: string -> bool,
                                              extract: (Extractor, string) -> Option<string>, k: nat)
    requires k < |Uploaded(files, present, extract)|
    ensures var t := Uploaded(files, present, extract)[k].1;
            !AllSpace(t) && forall j | 0 <= j < |Lines(t)| - 1 :: !AllSpace(Lines(t)[j])
    decreases |files|
  {
    var front := Uploaded(files[..|files| - 1], present, extract);
    var f := files[|files| - 1];
    var e := Entry(f, present, extract);
    assert Uploaded(files, present, extract) == front + e;
    if k < |front| {
      assert Uploaded(files, present, extract)[k] == front[k];
      UploadedTextsClean(files[..|files| - 1], present, extract, k);
    } else {
      assert Uploaded(files, present, extract)[k] == e[k - |front|];
      EntryKeptIff(f, present, extract);
      NoBlankLineAfterRemoval(extract(ChooseExtractor(f).value, f).value);
    }
  }

  /** Reading one more file appends that file's contribution. */
  lemma UploadedSnoc(files: seq<string>, f: string, present: string -> bool,
                     extract: (Extractor, string) -> Option<string>)
    ensures Uploaded(files + [f], present, extract) == Uploaded(files, present, extract) + Entry(f, present, extract)
  {
    assert (files + [f])[..|files|] == files;
  }

  lemma UploadedStep(files: seq<string>, i: nat, present: string -> bool,
                     extract: (Extractor, string) -> Option<string>)
    requires i < |files|
    ensures Uploaded(files[..i + 1], present, extract) == Uploaded(files[..i], present, extract) + Entry(files[i], present, extract)
  {
    assert files[..i + 1][..i] == files[..i];
  }

  /** Uploading more files never drops or reorders the pairs read for the earlier ones. */
  lemma {:induction false} UploadedPrefix(files: seq<string>, more: seq<string>, present: string -> bool,
                                          extract: (Extractor, string) -> Option<string>)
    ensures Uploaded(files, present, extract) <= Uploaded(files + more, present, extract)
    decreases |more|
  {
    if more == [] {
      assert files + more == files;
    } else {
      var front := more[..|more| - 1];
      assert files + more == (files + front) + [more[|more| - 1]];
      UploadedPrefix(files, front, present, extract);
      UploadedSnoc(files + front, more[|more| - 1], present, extract);
    }
  }

  // ---------------------------------------------------------------------
  // Tasks (app/app_local.py:38-51, 221-273)
  // ---------------------------------------------------------------------

  /** 等待中, 翻译中, 已完成, 失败 and 保存失败. */
  datatype Status = Waiting | Translating | Completed | Failed | SaveFailed

  /** The ids lo+1 .. hi, the keys a batch of hi - lo new tasks takes. */
  function IdsBetween(lo: nat, hi: nat): (ids: set<nat>)
    ensures forall n: nat :: n in ids <==> lo < n <= hi
    decreases hi
  {
    if hi <= lo then {} else IdsBetween(lo, hi - 1) + {hi}
  }

  /**
   * Storing one more value under the next key keeps the keys after
   * prevCounter in step with the created list and leaves every earlier entry.
   */
  lemma {:induction false} KeysExtend<T>(before: map<nat, T>, after: map<nat, T>, prevTasks: map<nat, T>,
                                         prevCounter: nat, created: seq<T>, more: seq<T>, task: T)
    requires prevCounter + |created| + 1 !in before
    requires after == before[prevCounter + |created| + 1 := task] && more == created + [task]
    requires forall n | prevCounter < n <= prevCounter + |created| :: n in before && before[n] == created[n - prevCounter - 1]
    requires forall n | n in prevTasks :: n in before && before[n] == prevTasks[n]
    ensures forall n | prevCounter < n <= prevCounter + |more| :: n in after && after[n] == more[n - prevCounter - 1]
    ensures forall n | n in prevTasks :: n in after && after[n] == prevTasks[n]
  {
    forall n | prevCounter < n <= prevCounter + |more|
      ensures n in after && after[n] == more[n - prevCounter - 1]
    {
      if n <= prevCounter + |created| {
        assert more[n - prevCounter - 1] == created[n - prevCounter - 1];
      }
    }
  }

  /** The same step on the key set: the old keys plus one more fresh id. */
  lemma KeySetExtend<T>(before: map<nat, T>, after: map<nat, T>, prevKeys: set<nat>, lo: nat, hi: nat, task: T)
    requires lo <= hi && before.Keys == prevKeys + IdsBetween(lo, hi) && after == before[hi + 1 := task]
    ensures after.Keys == prevKeys + IdsBetween(lo, hi + 1)
  {
    assert IdsBetween(lo, hi + 1) == IdsBetween(lo, hi) + {hi + 1};
  }

  class TranslationTask {
    const taskId: string
    const filename: string
    const content: string
    var status: Status
    var progress: int
    var initTranslation: string
    var reflectTranslation: string
    var finalTranslation: string
    var errorMessage: string
    var startTime: Option<real>
    var endTime: Option<real>

    constructor(taskId: string, filename: string, content: string)
      ensures this.taskId == taskId && this.filename == filename && this.content == content
      ensures status == Waiting && progress == 0 && errorMessage == ""
      ensures initTranslation == "" && reflectTranslation == "" && finalTranslation == ""
      ensures startTime == None && endTime == None
    {
      this.taskId := taskId;
      this.filename := filename;
      this.content := content;
      status := Waiting;
      progress := 0;
      initTranslation, reflectTranslation, finalTranslation := "", "", "";
      errorMessage := "";
      startTime, endTime := None, None;
    }
  }

  /** The three outputs of the translator, or the text of the exception it raised. */
  datatype Translation = Translation(init: string, reflect: string, final: string)

  /**
   * translate_single_file. The clock readings and the translator's outcome
   * come from outside; the model is loaded through the shared module state.
   * The task ends 已完成 with progress 100 and all three outputs, or 失败
   * with progress 0 and the exception text; both stamp the end time.
   */
  method TranslateSingleFile(task: TranslationTask, patch: Patch,
                             endpoint: string, baseUrl: string, model: string, apiKey: string,
                             temperature: real, rpm: int, env: map<string, string>,
                             construct: Client -> Option<string>,
                             translated: Outcome<Translation>, started: real, ended: real)
    modifies task, patch
    ensures patch.settings == Settings(endpoint, rpm, model, temperature, false)
    ensures patch.client == (var c := ClientFor(endpoint, baseUrl, apiKey, env, construct);
                             if c.Ok? then Some(c.value) else old(patch.client))
    ensures patch.lastCalled == old(patch.lastCalled)
    ensures task.startTime == Some(started) && task.endTime == Some(ended)
    ensures task.status in {Completed, Failed}
    ensures var load := ClientFor(endpoint, baseUrl, apiKey, env, construct);
            task.status == Completed <==> load.Ok? && translated.Ok?
    ensures task.status == Completed ==>
              task.progress == 100 && task.errorMessage == old(task.errorMessage) &&
              task.initTranslation == translated.value.init &&
              task.reflectTranslation == translated.value.reflect &&
              task.finalTranslation == translated.value.final
    ensures task.status == Failed ==>
              task.progress == 0 &&
              task.initTranslation == old(task.initTranslation) &&
              task.reflectTranslation == old(task.reflectTranslation) &&
              task.finalTranslation == old(task.finalTranslation) &&
              task.errorMessage == (var load := ClientFor(endpoint, baseUrl, apiKey, env, construct);
                                    if load.Fail? then load.message else translated.message)
  {
    task.status := Translating;
    task.startTime := Some(started);
    task.progress := 10;
    var load := patch.ModelLoad(endpoint, baseUrl, model, apiKey, temperature, rpm, false, env, construct);
    if load.Fail? {
      task.status, task.errorMessage, task.progress, task.endTime := Failed, load.message, 0, Some(ended);
      return;
    }
    task.progress := 20;
    if translated.Fail? {
      task.status, task.errorMessage, task.progress, task.endTime := Failed, translated.message, 0, Some(ended);
      return;
    }
    task.initTranslation := translated.value.init;
    task.reflectTranslation := translated.value.reflect;
    task.finalTranslation := translated.value.final;
    task.progress := 100;
    task.status := Completed;
    task.endTime := Some(ended);
  }

  /** A task created as the n-th, for one (name, text) pair. */
  predicate IsTaskFor(t: TranslationTask, n: nat, item: (string, string)) {
    t.taskId == TaskId(n) && t.filename == item.0 && t.content == item.1
  }

  /**
   * After the first i pairs of items were turned into tasks, given the
   * counter and dictionary before: the counter moved on by i, the j-th new
   * key holds the j-th created task, built for the j-th pair, every
   * earlier task is still in place, and there are no other keys.
   */
  ghost predicate RecordedIn(tasks: map<nat, TranslationTask>, counter: nat,
                             prevCounter: nat, prevTasks: map<nat, TranslationTask>,
                             items: seq<(string, string)>, i: nat, created: seq<TranslationTask>)
  {
    i <= |items| && |created| == i && counter == prevCounter + i &&
    (forall n | prevCounter < n <= counter :: n in tasks && tasks[n] == created[n - prevCounter - 1]) &&
    (forall j | 0 <= j < i :: IsTaskFor(created[j], prevCounter + 1 + j, items[j])) &&
    (forall n | n in prevTasks :: n in tasks && tasks[n] == prevTasks[n]) &&
    tasks.Keys == prevTasks.Keys + IdsBetween(prevCounter, counter)
  }

  /** Every created task was built for its pair, one more included. */
  lemma {:induction false} TaskForExtend(items: seq<(string, string)>, i: nat, prevCounter: nat,
                                         created: seq<TranslationTask>, task: TranslationTask)
    requires i < |items| && |created| == i
    requires forall j | 0 <= j < i :: IsTaskFor(created[j], prevCounter + 1 + j, items[j])
    requires IsTaskFor(task, prevCounter + 1 + i, items[i])
    ensures forall j | 0 <= j < i + 1 :: IsTaskFor((created + [task])[j], prevCounter + 1 + j, items[j])
  {
    forall j | 0 <= j < i + 1
      ensures IsTaskFor((created + [task])[j], prevCounter + 1 + j, items[j])
    {
      if j < i {
        assert (created + [task])[j] == created[j];
      }
    }
  }

  /** Storing the task for the next pair under the next key keeps RecordedIn. */
  lemma {:induction false} RecordedStep(tasks: map<nat, TranslationTask>, counter: nat,
                                        prevCounter: nat, prevTasks: map<nat, TranslationTask>,
                                        items: seq<(string, string)>, i: nat, created: seq<TranslationTask>,
                                        task: TranslationTask)
    requires RecordedIn(tasks, counter, prevCounter, prevTasks, items, i, created) && i < |items|
    requires counter + 1 !in tasks && IsTaskFor(task, counter + 1, items[i])
    ensures RecordedIn(tasks[counter + 1 := task], counter + 1, prevCounter, prevTasks, items, i + 1, created + [task])
  {
    var after, more := tasks[counter + 1 := task], created + [task];
    KeysExtend(tasks, after, prevTasks, prevCounter, created, more, task);
    KeySetExtend(tasks, after, prevTasks.Keys, prevCounter, counter, task);
    TaskForExtend(items, i, prevCounter, created, task);
  }

  // ---------------------------------------------------------------------
  // Batch creation (app/app_local.py:276-312, 501-505)
  // ---------------------------------------------------------------------

  const MaxConcurrentTasks := 5

  /** The dictionary key of the n-th task ever created. */
  function TaskId(n: nat): string {
    "task_" + NatToString(n)
  }

  lemma TaskIdInjective(a: nat, b: nat)
    requires TaskId(a) == TaskId(b)
    ensures a == b
  {
    assert TaskId(a)[5..] == NatToString(a);
    assert TaskId(b)[5..] == NatToString(b);
    NatToStringInjective(a, b);
  }

  const NoFilesMessage := "❌ 请先上传文件"
  const BadFolderMessage := "❌ 请选择有效的输出文件夹"
  const BadLanguagesMessage := "❌ 请检查源语言和目标语言设置"
  const NoContentMessage := "❌ 没有找到可处理的文件内容"

  /**
   * The checks made before any file is read, in source order. An empty
   * folder name always fails, since os.makedirs("") raises; a missing folder
   * fails when it cannot be created.
   */
  function Validate(fileCount: nat, outputFolder: string, folderExists: bool, makedirsOk: bool,
                    sourceLang: string, targetLang: string): (err: Option<string>)
    ensures fileCount == 0 ==> err == Some(NoFilesMessage)
    ensures err.None? ==> outputFolder != "" && sourceLang != "" && targetLang != "" && sourceLang != targetLang
  {
    if fileCount == 0 then Some(NoFilesMessage)
    else if outputFolder == "" || (!folderExists && !makedirsOk) then Some(BadFolderMessage)
    else if sourceLang == "" || targetLang == "" || sourceLang == targetLang then Some(BadLanguagesMessage)
    else None
  }

  /** The status line after a batch starts. */
  function StartedMessage(n: nat): string {
    "✅ 已开始翻译 " + NatToString(n) + " 个文件，最大并发数: " + NatToString(MaxConcurrentTasks)
  }

  /** The file a finished task is written to, beside its cleaned text. */
  function OutputName(filename: string): string {
    filename + "_translated.txt"
  }

  /**
   * The module state: translation_tasks, keyed by task number (the key
   * "task_n" is TaskId(n), one-to-one by TaskIdInjective), and task_counter.
   */
  class Batch {
    var tasks: map<nat, TranslationTask>
    var taskCounter: nat

    /** No key exceeds the counter, and each task carries the id of its own key. */
    ghost predicate Valid()
      reads this
    {
      forall n | n in tasks :: 1 <= n <= taskCounter && tasks[n].taskId == TaskId(n)
    }

    constructor()
      ensures Valid() && tasks == map[] && taskCounter == 0
    {
      tasks, taskCounter := map[], 0;
    }

    /** The body of the creation loop: bump the counter and store a new task under it. */
    method AddTask(item: (string, string)) returns (task: TranslationTask)
      requires Valid()
      modifies this
      ensures Valid() && fresh(task)
      ensures taskCounter == old(taskCounter) + 1
      ensures taskCounter !in old(tasks) && tasks == old(tasks)[taskCounter := task]
      ensures IsTaskFor(task, taskCounter, item) && task.status == Waiting && task.progress == 0
    {
      taskCounter := taskCounter + 1;
      task := new TranslationTask(TaskId(taskCounter), item.0, item.1);
      tasks := tasks[taskCounter := task];
    }

    /** RecordedIn for the current dictionary and counter. */
    ghost predicate Recorded(prevCounter: nat, prevTasks: map<nat, TranslationTask>,
                             items: seq<(string, string)>, i: nat, created: seq<TranslationTask>)
      reads this
    {
      RecordedIn(tasks, taskCounter, prevCounter, prevTasks, items, i, created)
    }

    /** The creation loop of start_batch_translation: one new task per pair, numbered on from the counter. */
    method CreateTasks(contents: seq<(string, string)>) returns (created: seq<TranslationTask>)
      requires Valid()
      modifies this
      ensures Valid() && Recorded(old(taskCounter), old(tasks), contents, |contents|, created)
      ensures forall j | 0 <= j < |created| :: fresh(created[j])
    {
      ghost var c0, t0 := taskCounter, tasks;
      created := [];
      for i := 0 to |contents|
        invariant Valid() && Recorded(c0, t0, contents, i, created)
        invariant forall j | 0 <= j < i :: fresh(created[j])
      {
        created := AddRecorded(c0, t0, contents, i, created);
      }
    }

    /** One iteration of the creation loop, with what it keeps of Recorded. */
    method AddRecorded(ghost prevCounter: nat, ghost prevTasks: map<nat, TranslationTask>,
                       items: seq<(string, string)>, i: nat, created: seq<TranslationTask>)
      returns (more: seq<TranslationTask>)
      requires Valid() && Recorded(prevCounter, prevTasks, items, i, created) && i < |items|
      modifies this
      ensures Valid() && Recorded(prevCounter, prevTasks, items, i + 1, more)
      ensures |more| == i + 1 && (forall j | 0 <= j < i :: more[j] == created[j]) && fresh(more[i])
    {
      ghost var before := tasks;
      var task := AddTask(items[i]);
      more := created + [task];
      RecordedStep(before, taskCounter - 1, prevCounter, prevTasks, items, i, created, task);
      assert forall j | 0 <= j < i :: more[j] == created[j];
    }

    /** The state after a batch of read pairs was turned into tasks and reported. */
    ghost predicate Launched(prevCounter: nat, prevTasks: map<nat, TranslationTask>,
                             read: seq<(string, string)>, msg: string, created: seq<TranslationTask>)
      reads this
    {
      msg == StartedMessage(|read|) && Recorded(prevCounter, prevTasks, read, |read|, created)
    }

    /**
     * start_batch_translation: validate, read the files, then create one
     * task per readable file under the next counter values. Existing tasks
     * are never replaced. Starting the worker pool is left to the caller.
     */
    method StartBatch(files: seq<string>, outputFolder: string, folderExists: bool, makedirsOk: bool,
                      sourceLang: string, targetLang: string,
                      present: string -> bool, extract: (Extractor, string) -> Option<string>)
      returns (msg: string, read: seq<(string, string)>, created: seq<TranslationTask>)
      requires Valid()
      modifies this
      ensures Valid()
      ensures var err := Validate(|files|, outputFolder, folderExists, makedirsOk, sourceLang, targetLang);
              read == (if err.Some? then [] else Uploaded(files, present, extract)) &&
              (err.Some? ==> msg == err.value) &&
              (err.None? && read == [] ==> msg == NoContentMessage)
      ensures read == [] ==>
                (msg == NoContentMessage || msg in {NoFilesMessage, BadFolderMessage, BadLanguagesMessage}) &&
                created == [] && tasks == old(tasks) && taskCounter == old(taskCounter)
      ensures read != [] ==> Launched(old(taskCounter), old(tasks), read, msg, created)
      ensures forall j | 0 <= j < |created| :: fresh(created[j])
    {
      var err := Validate(|files|, outputFolder, folderExists, makedirsOk, sourceLang, targetLang);
      if err.Some? {
        return err.value, [], [];
      }
      read := ReadUploadedFiles(files, present, extract);
      if read == [] {
        return NoContentMessage, read, [];
      }
      msg, created := Launch(read);
    }

    /** The part of start_batch_translation after the files are read: create the tasks and report. */
    method Launch(read: seq<(string, string)>) returns (msg: string, created: seq<TranslationTask>)
      requires Valid() && read != []
      modifies this
      ensures Valid() && Launched(old(taskCounter), old(tasks), read, msg, created)
      ensures forall j | 0 <= j < |created| :: fresh(created[j])
    {
      created := CreateTasks(read);
      msg := StartedMessage(|read|);
    }

    /** clear_all_tasks: the dictionary empties but the counter stays, so later ids stay new. */
    method ClearAllTasks()
      modifies this
      ensures Valid() && tasks == map[] && taskCounter == old(taskCounter)
    {
      tasks := map[];
    }

    /** The tasks whose status is 已完成. */
    function CompletedSet(): set<nat>
      reads this, set n | n in tasks :: tasks[n]
    {
      set n | n in tasks && tasks[n].status == Completed
    }

    /** The 已完成 tasks numbered below bound. */
    ghost function CompletedBelow(bound: int): set<nat>
      reads this, set n | n in tasks :: tasks[n]
    {
      set n | n in tasks && n < bound && tasks[n].status == Completed
    }

    /** Raising the bound past n adds n exactly when task n is 已完成. */
    lemma CompletedBelowStep(n: nat)
      ensures |CompletedBelow(n + 1)| == |CompletedBelow(n)| + if n in tasks && tasks[n].status == Completed then 1 else 0
    {
      if n in tasks && tasks[n].status == Completed {
        assert CompletedBelow(n + 1) == CompletedBelow(n) + {n} && n !in CompletedBelow(n);
      } else {
        assert CompletedBelow(n + 1) == CompletedBelow(n);
      }
    }

    /** No task is numbered 0, and none above the counter. */
    lemma CompletedBelowEnds()
      requires Valid()
      ensures |CompletedBelow(1)| == 0
      ensures |CompletedBelow(taskCounter + 1)| == |CompletedSet()|
    {
      assert CompletedBelow(1) == {};
      assert CompletedBelow(taskCounter + 1) == CompletedSet();
    }

    /**
     * update_progress_display's summary: None when there are no tasks,
     * otherwise the number of 已完成 tasks and the number of tasks.
     */
    method ProgressSummary() returns (r: Option<(nat, nat)>)
      requires Valid()
      ensures tasks == map[] <==> r == None
      ensures r.Some? ==> r.value == (|CompletedSet()|, |tasks|)
    {
      if tasks == map[] {
        return None;
      }
      var done := CountCompleted();
      r := Some((done, |tasks|));
    }

    /** sum(1 for task in translation_tasks.values() if task.status == "已完成"), scanning the ids in order. */
    method CountCompleted() returns (done: nat)
      requires Valid()
      ensures done == |CompletedSet()|
    {
      CompletedBelowEnds();
      done := 0;
      for n := 1 to taskCounter + 1
        invariant done == |CompletedBelow(n)|
      {
        CompletedBelowStep(n);
        if n in tasks && tasks[n].status == Completed {
          done := done + 1;
        }
      }
    }

    /**
     * The as_completed handler: only a 已完成 task is written, as its
     * cleaned final translation; a failed write (saveError) marks it 保存失败.
     */
    method OnTaskFinished(n: nat, saveError: Option<string>) returns (written: Option<(string, string)>)
      requires Valid() && n in tasks
      modifies tasks[n]
      ensures old(tasks[n].status) != Completed ==> written == None && tasks[n].status == old(tasks[n].status)
      ensures old(tasks[n].status) == Completed && saveError.None? ==>
                written == Some((OutputName(tasks[n].filename), CleanSpec(tasks[n].finalTranslation))) &&
                tasks[n].status == Completed
      ensures old(tasks[n].status) == Completed && saveError.Some? ==>
                written == None && tasks[n].status == SaveFailed &&
                tasks[n].errorMessage == "保存文件时出错: " + saveError.value
      ensures tasks[n].finalTranslation == old(tasks[n].finalTranslation)
      ensures !(old(tasks[n].status) == Completed && saveError.Some?) ==> unchanged(tasks[n])
      ensures old(tasks[n].status) == Completed && saveError.Some? ==>
                tasks[n].progress == old(tasks[n].progress) &&
                tasks[n].initTranslation == old(tasks[n].initTranslation) &&
                tasks[n].reflectTranslation == old(tasks[n].reflectTranslation) &&
                tasks[n].startTime == old(tasks[n].startTime) && tasks[n].endTime == old(tasks[n].endTime)
    {
      var task := tasks[n];
      if task.status != Completed {
        return None;
      }
      if saveError.Some? {
        task.status := SaveFailed;
        task.errorMessage := "保存文件时出错: " + saveError.value;
        return None;
      }
      var cleaned := CleanTranslationForNovel(task.finalTranslation);
      written := Some((OutputName(task.filename), cleaned));
    }
  }
}
