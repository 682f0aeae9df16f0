/**
 * The desktop front end's batch dispatcher (translation_agent_gui.py):
 * start_translation builds the task list, run_translation feeds a pool of
 * at most `limit` workers from a queue, polls for finished workers, counts
 * and saves their results and finally drains what is still in the pool;
 * translate_single_file is the worker; pause and stop flip the two flags the
 * manager and the workers look at.
 *
 * Threads are not modelled as threads: every step a worker or the manager
 * takes is a method of Run, and any interleaving of those calls is a run
 * of the program. A future is "done" exactly when its task's worker is Returned.
 */
module Dispatcher {
  import opened Text
  import opened Endpoints
  import Completion
  import FileNames
  import LocalBatch

  // ---------------------------------------------------------------------
  // Tasks (translation_agent_gui.py:37-51)
  // ---------------------------------------------------------------------

  /** 等待中, 翻译中, 已完成, 失败, 已取消, 保存失败 */
  datatype Status = Waiting | Translating | Completed | Failed | Cancelled | SaveFailed

  /**
   * Where a task's worker is: still in the queue, handed to the pool, past the
   * cancellation check (holding the preprocessed text it will translate), past
   * model loading, or returned (its future is done).
   */
  datatype Worker = Queued | Submitted | Started(sent: string) | Working(sent: string) | Returned

  datatype Task = Task(taskId: string, filename: string, content: string, filePath: string,
                       status: Status, progress: int,
                       init: string, reflect: string, final: string, errorMessage: string,
                       startTime: Option<real>, endTime: Option<real>, worker: Worker)

  /** TranslationTask(task_id, filename, content, file_path) */
  function NewTask(id: string, filename: string, content: string, filePath: string): Task {
    Task(id, filename, content, filePath, Waiting, 0, "", "", "", "", None, None, Queued)
  }

  // ---------------------------------------------------------------------
  // start_translation (translation_agent_gui.py:1736-1817)
  // ---------------------------------------------------------------------

  const BusyMessage := "翻译正在进行中，请等待完成"
  const NotScannedMessage := "请先扫描文件"
  const NoKeyMessage := "请先配置API密钥"
  const NoFolderMessage := "请选择输出文件夹"
  const NoSelectionMessage := "没有可翻译的文件"
  const NoContentMessage := "没有可翻译的文件内容"

  /**
   * The checks start_translation makes before touching the task list, in
   * their order; makedirsError is what os.makedirs raised, if anything.
   */
  function StartCheck(isTranslating: bool, scannedCount: nat, apiKey: string, outputFolder: string,
                      makedirsError: Option<string>, selectedCount: nat): (err: Option<string>)
    ensures err.None? <==>
            !isTranslating && scannedCount > 0 && apiKey != "" && outputFolder != "" &&
            makedirsError.None? && selectedCount > 0
    ensures isTranslating ==> err == Some(BusyMessage)
    ensures !isTranslating && makedirsError.Some? && scannedCount > 0 && apiKey != "" && outputFolder != "" ==>
            err == Some("无法创建输出文件夹: " + makedirsError.value)
  {
    if isTranslating then Some(BusyMessage)
    else if scannedCount == 0 then Some(NotScannedMessage)
    else if apiKey == "" then Some(NoKeyMessage)
    else if outputFolder == "" then Some(NoFolderMessage)
    else if makedirsError.Some? then Some("无法创建输出文件夹: " + makedirsError.value)
    else if selectedCount == 0 then Some(NoSelectionMessage)
    else None
  }

  /**
   * The task list built from the selected files: each entry is a path and what
   * read_file_content returned (None when it raised). Only files with
   * non-empty content get a task, numbered task_1, task_2, ... in order.
   */
  function Prepared(files: seq<(string, Option<string>)>): (ts: seq<Task>)
    ensures |ts| <= |files|
  {
    if files == [] then []
    else
      var front := Prepared(files[..|files| - 1]);
      front + Added(files[|files| - 1], |front|)
  }

  /**
   * Every prepared task is waiting, queued, has non-empty content and the id
   * task_{k+1} at position k; ids therefore never repeat.
   */
  lemma {:induction false} PreparedTasks(files: seq<(string, Option<string>)>, k: nat)
    requires k < |Prepared(files)|
    ensures var t := Prepared(files)[k];
            t.taskId == LocalBatch.TaskId(k + 1) && t.content != "" &&
            t.status == Waiting && t.progress == 0 && t.worker == Queued
  {
    var init := files[..|files| - 1];
    var front := Prepared(init);
    if k < |front| {
      PreparedTasks(init, k);
    }
    PreparedStep(front, files[|files| - 1], k);
  }

  /** The task, if any, that one (path, content) pair adds after n earlier tasks. */
  function Added(file: (string, Option<string>), n: nat): seq<Task> {
    var (path, content) := file;
    if content.Some? && content.value != "" then
      [NewTask(LocalBatch.TaskId(n + 1), FileNames.NameWithoutExt(path), content.value, path)]
    else []
  }

  /** A fresh task stands at position k, given that it did before the last pair was added. */
  lemma PreparedStep(front: seq<Task>, file: (string, Option<string>), k: nat)
    requires k < |front + Added(file, |front|)|
    requires k < |front| ==>
               var t := front[k];
               t.taskId == LocalBatch.TaskId(k + 1) && t.content != "" &&
               t.status == Waiting && t.progress == 0 && t.worker == Queued
    ensures var t := (front + Added(file, |front|))[k];
            t.taskId == LocalBatch.TaskId(k + 1) && t.content != "" &&
            t.status == Waiting && t.progress == 0 && t.worker == Queued
  {
    var a := Added(file, |front|);
    if k < |front| {
      assert (front + a)[k] == front[k];
    } else {
      var (path, content) := file;
      assert a == [NewTask(LocalBatch.TaskId(|front| + 1), FileNames.NameWithoutExt(path), content.value, path)];
      assert (front + a)[k] == a[0];
    }
  }

  /** A file whose content is missing or empty gets no task; one with content adds exactly one, numbered next. */
  lemma PreparedSnoc(files: seq<(string, Option<string>)>, path: string, content: Option<string>)
    ensures Prepared(files + [(path, content)]) == Prepared(files) + Added((path, content), |Prepared(files)|)
    ensures |Added((path, content), |Prepared(files)|)| == if content.Some? && content.value != "" then 1 else 0
  {
    var fs := files + [(path, content)];
    assert fs[..|fs| - 1] == files;
    assert fs[|fs| - 1] == (path, content);
  }

  /** PreparedSnoc for one more file of a prefix. */
  lemma PreparedPrefix(files: seq<(string, Option<string>)>, i: nat)
    requires i < |files|
    ensures Prepared(files[..i + 1]) == Prepared(files[..i]) + Added(files[i], |Prepared(files[..i])|)
  {
    assert files[..i + 1] == files[..i] + [files[i]];
    PreparedSnoc(files[..i], files[i].0, files[i].1);
  }

  lemma TaskIdsDiffer(a: nat, b: nat)
    requires a != b
    ensures LocalBatch.TaskId(a) != LocalBatch.TaskId(b)
  {
    if LocalBatch.TaskId(a) == LocalBatch.TaskId(b) {
      LocalBatch.TaskIdInjective(a, b);
    }
  }

  /** Two prepared tasks never share an id. */
  lemma PreparedIdsDistinct(files: seq<(string, Option<string>)>, a: nat, b: nat)
    requires a < b < |Prepared(files)|
    ensures Prepared(files)[a].taskId != Prepared(files)[b].taskId
  {
    PreparedTasks(files, a);
    PreparedTasks(files, b);
    TaskIdsDiffer(a + 1, b + 1);
  }

  /** [0, 1, ..., n-1]: the queue list(self.translation_tasks.values()) as positions. */
  function Indices(n: nat): (r: seq<nat>)
    ensures |r| == n && forall j | 0 <= j < n :: r[j] == j
  {
    if n == 0 then [] else Indices(n - 1) + [n - 1]
  }

  // ---------------------------------------------------------------------
  // stop_translation (translation_agent_gui.py:1832-1848)
  // ---------------------------------------------------------------------

  const StopMessage := "用户停止翻译"

  /** What stop does to one task: a waiting or running task is marked cancelled. */
  function Stopped(t: Task): Task {
    if t.status == Translating || t.status == Waiting then t.(status := Cancelled, errorMessage := StopMessage)
    else t
  }

  /**
   * Stop only touches unfinished tasks, leaves no task waiting or running,
   * never touches progress, outputs or the worker, and a second stop changes nothing.
   */
  lemma StoppedCases(t: Task)
    ensures Stopped(t).status != Waiting && Stopped(t).status != Translating
    ensures t.status in {Waiting, Translating} <==> Stopped(t) != t
    ensures t.status in {Waiting, Translating} ==> Stopped(t).status == Cancelled && Stopped(t).errorMessage == StopMessage
    ensures Stopped(t).worker == t.worker && Stopped(t).progress == t.progress && Stopped(t).final == t.final
    ensures Stopped(Stopped(t)) == Stopped(t)
  {
  }

  /** The loop of stop_translation over every task. */
  method StopAll(ts: seq<Task>) returns (r: seq<Task>)
    ensures |r| == |ts| && forall i | 0 <= i < |ts| :: r[i] == Stopped(ts[i])
  {
    r := ts;
    for i := 0 to |r|
      invariant |r| == |ts|
      invariant forall j | 0 <= j < i :: r[j] == Stopped(ts[j])
      invariant forall j | i <= j < |r| :: r[j] == ts[j]
    {
      if r[i].status == Translating || r[i].status == Waiting {
        r := r[i := r[i].(status := Cancelled, errorMessage := StopMessage)];
      }
    }
  }

  // ---------------------------------------------------------------------
  // translate_single_file (translation_agent_gui.py:2053-2194)
  // ---------------------------------------------------------------------

  /** The first step of a worker: the cancellation check, then status, start time, progress 10 and preprocessing. */
  function Begin(t: Task, translating: bool, now: real): Task
    requires t.worker == Submitted
  {
    if !translating then t.(status := Cancelled, worker := Returned)
    else t.(status := Translating, startTime := Some(now), progress := 10,
            worker := Started(FileNames.PreprocessContentWithTitle(t.content, t.filename)))
  }

  /** The except branch of the worker. */
  function Failure(t: Task, message: string, now: real): Task {
    t.(status := Failed, errorMessage := message, progress := 0, endTime := Some(now), worker := Returned)
  }

  /** After model_load: its error ends the worker, otherwise progress 20. */
  function AfterLoad(t: Task, loadError: Option<string>, now: real): Task
    requires t.worker.Started?
  {
    if loadError.Some? then Failure(t, loadError.value, now)
    else t.(progress := 20, worker := Working(t.worker.sent))
  }

  /** The progress reported by progress_callback: 20 + int(current / total * 80). */
  function CallbackProgress(current: nat, total: nat): int
    requires total > 0
  {
    20 + (current * 80) / total
  }

  lemma MulAtLeast(d: nat, k: nat)
    requires d > 0 && k >= 1
    ensures d * k >= d
  {
    if k > 1 {
      MulAtLeast(d, k - 1);
      assert d * k == d * (k - 1) + d;
    }
  }

  /** Integer division by a positive divisor is monotone. */
  lemma DivMonotone(x: nat, y: nat, d: nat)
    requires x <= y && d > 0
    ensures x / d <= y / d
  {
    var qx, qy := x / d, y / d;
    assert x == d * qx + x % d;
    assert y == d * qy + y % d;
    if qx > qy {
      MulAtLeast(d, qx - qy);
      assert false;
    }
  }

  /**
   * The callback's progress stays within 20..100 while current <= total,
   * is 20 at the start and 100 at the end, and never falls as current grows.
   */
  lemma CallbackProgressBounds(current: nat, later: nat, total: nat)
    requires 0 < total && current <= later <= total
    ensures 20 <= CallbackProgress(current, total) <= CallbackProgress(later, total) <= 100
    ensures CallbackProgress(0, total) == 20 && CallbackProgress(total, total) == 100
  {
    DivMonotone(current * 80, later * 80, total);
    DivMonotone(later * 80, total * 80, total);
    assert (total * 80) / total == 80;
  }

  /** A progress report: ignored once translation has been stopped. */
  function Reported(t: Task, translating: bool, current: nat, total: nat): Task
    requires total > 0
  {
    if !translating then t else t.(progress := CallbackProgress(current, total))
  }

  /** The end of a worker: the three translations and 已完成, or the translator's error. */
  function Finished(t: Task, out: Outcome<LocalBatch.Translation>, now: real): Task
    requires t.worker.Working?
  {
    match out
    case Ok(x) => t.(init := x.init, reflect := x.reflect, final := x.final, progress := 100,
                     status := Completed, endTime := Some(now), worker := Returned)
    case Fail(m) => Failure(t, m, now)
  }

  /**
   * Past the cancellation check a worker is 翻译中 with progress 10 and its
   * start time, and holds the preprocessed text: the content, with the file
   * name as a title when its first line is not one.
   */
  lemma WorkerBegins(t: Task, now: real)
    requires t.worker == Submitted
    ensures var s := Begin(t, true, now);
            s.status == Translating && s.progress == 10 && s.startTime == Some(now) &&
            s.worker.Started? && EndsWith(s.worker.sent, t.content) &&
            (s.worker.sent == t.content <==> FileNames.HasTitle(FileNames.FirstLine(t.content), t.filename))
  {
    FileNames.PreprocessKeepsContent(t.content, t.filename);
  }

  /**
   * A started worker ends completed with progress 100 exactly when model
   * loading and the translator succeed, and failed with progress 0 and the
   * error otherwise; a stop while it translates does not change how it ends.
   */
  lemma WorkerEnds(s: Task, loadError: Option<string>, out: Outcome<LocalBatch.Translation>, later: real)
    requires s.worker.Started?
    ensures var l := AfterLoad(s, loadError, later);
            var e := if l.worker.Working? then Finished(l, out, later) else l;
            e.worker == Returned && e.startTime == s.startTime && e.endTime == Some(later) &&
            (e.status == Completed <==> loadError.None? && out.Ok?) &&
            (e.status == Completed ==> e.progress == 100 && e.final == out.value.final) &&
            (e.status != Completed ==>
               e.status == Failed && e.progress == 0 &&
               e.errorMessage == (if loadError.Some? then loadError.value else out.message))
    ensures var l := AfterLoad(s, None, later);
            Finished(Stopped(l), out, later).status == Finished(l, out, later).status
  {
  }

  /** A worker that starts after a stop does no work and leaves the task's progress as it was. */
  lemma WorkerCancelled(t: Task, now: real)
    requires t.worker == Submitted
    ensures Begin(t, false, now) == t.(status := Cancelled, worker := Returned)
    ensures Begin(t, false, now).errorMessage == t.errorMessage
  {
  }

  // ---------------------------------------------------------------------
  // Counting and saving results (translation_agent_gui.py:1930-1950, 1992-2010, 2234-2255)
  // ---------------------------------------------------------------------

  /** run_translation's completed_count and failed_count, and the positions whose results were written. */
  datatype Tally = Tally(completed: nat, failed: nat, saved: seq<nat>)

  /**
   * One finished task: 已完成 is counted and saved (a failing save marks it
   * 保存失败), 失败 is counted, anything else is neither.
   */
  function CollectOne(ts: seq<Task>, tally: Tally, i: nat, saveError: nat -> Option<string>): (r: (seq<Task>, Tally))
    requires i < |ts|
    ensures |r.0| == |ts|
  {
    match ts[i].status
    case Completed =>
      var c := tally.(completed := tally.completed + 1);
      if saveError(i).Some? then
        (ts[i := ts[i].(status := SaveFailed, errorMessage := "保存文件时出错: " + saveError(i).value)], c)
      else (ts, c.(saved := c.saved + [i]))
    case Failed => (ts, tally.(failed := tally.failed + 1))
    case _ => (ts, tally)
  }

  /**
   * Collecting a task counts it at most once, as completed exactly when its
   * status was 已完成 and as failed exactly when it was 失败; it is saved
   * exactly when it completed and the save raised nothing. Only its own status
   * can change, and no worker moves.
   */
  lemma CollectOneCases(ts: seq<Task>, tally: Tally, i: nat, saveError: nat -> Option<string>)
    requires i < |ts|
    ensures var r := CollectOne(ts, tally, i, saveError);
            (r.1.completed == tally.completed + 1 <==> ts[i].status == Completed) &&
            (r.1.completed != tally.completed + 1 ==> r.1.completed == tally.completed) &&
            (r.1.failed == tally.failed + 1 <==> ts[i].status == Failed) &&
            (r.1.failed != tally.failed + 1 ==> r.1.failed == tally.failed) &&
            (r.1.saved == tally.saved + [i] <==> ts[i].status == Completed && saveError(i).None?) &&
            (r.1.saved != tally.saved + [i] ==> r.1.saved == tally.saved) &&
            (forall j | 0 <= j < |ts| :: r.0[j].worker == ts[j].worker) &&
            (forall j | 0 <= j < |ts| && j != i :: r.0[j] == ts[j])
  {
  }

  /**
   * Stopping does not keep a running translation from being counted and
   * saved: a task cancelled while it translates, whose translator then
   * returns, is completed again and collected as a success.
   */
  lemma StoppedWorkStillSaved(ts: seq<Task>, tally: Tally, i: nat, x: LocalBatch.Translation, now: real,
                              saveError: nat -> Option<string>)
    requires i < |ts| && ts[i].worker.Working? && saveError(i).None?
    ensures var us := ts[i := Finished(Stopped(ts[i]), Outcome.Ok(x), now)];
            (ts[i].status == Translating ==> Stopped(ts[i]).status == Cancelled) && us[i].status == Completed &&
            CollectOne(us, tally, i, saveError) == (us, Tally(tally.completed + 1, tally.failed, tally.saved + [i]))
  {
  }

  predicate AllBelow(ids: seq<nat>, n: nat) {
    forall k | 0 <= k < |ids| :: ids[k] < n
  }

  /** Collecting the finished tasks ids in order, as the manager does after each poll. */
  function CollectAll(ts: seq<Task>, tally: Tally, ids: seq<nat>, saveError: nat -> Option<string>): (r: (seq<Task>, Tally))
    requires AllBelow(ids, |ts|)
    ensures |r.0| == |ts|
    decreases |ids|
  {
    if ids == [] then (ts, tally)
    else
      var p := CollectAll(ts, tally, ids[..|ids| - 1], saveError);
      CollectOne(p.0, p.1, ids[|ids| - 1], saveError)
  }

  /**
   * Collecting n tasks adds at most n to the two counters together, never
   * lowers either, and moves no worker.
   */
  lemma {:induction false} CollectAllBounds(ts: seq<Task>, tally: Tally, ids: seq<nat>, saveError: nat -> Option<string>)
    requires AllBelow(ids, |ts|)
    ensures var r := CollectAll(ts, tally, ids, saveError);
            tally.completed <= r.1.completed && tally.failed <= r.1.failed &&
            r.1.completed + r.1.failed <= tally.completed + tally.failed + |ids| &&
            forall j | 0 <= j < |ts| :: r.0[j].worker == ts[j].worker
    decreases |ids|
  {
    if ids != [] {
      var front := ids[..|ids| - 1];
      assert AllBelow(front, |ts|);
      CollectAllBounds(ts, tally, front, saveError);
      var p := CollectAll(ts, tally, front, saveError);
      CollectOneCases(p.0, p.1, ids[|ids| - 1], saveError);
    }
  }

  /** The finished (done) and still running entries of the pool, in pool order. */
  function DoneOf(ts: seq<Task>, pool: seq<nat>): (r: seq<nat>)
    requires AllBelow(pool, |ts|)
    ensures AllBelow(r, |ts|) && |r| <= |pool|
  {
    if pool == [] then []
    else
      var front := DoneOf(ts, pool[..|pool| - 1]);
      if ts[pool[|pool| - 1]].worker == Returned then front + [pool[|pool| - 1]] else front
  }

  function RunningOf(ts: seq<Task>, pool: seq<nat>): (r: seq<nat>)
    requires AllBelow(pool, |ts|)
    ensures AllBelow(r, |ts|) && |r| <= |pool|
  {
    if pool == [] then []
    else
      var front := RunningOf(ts, pool[..|pool| - 1]);
      if ts[pool[|pool| - 1]].worker != Returned then front + [pool[|pool| - 1]] else front
  }

  /**
   * Every pool entry is either done or still running, never both, so the pool
   * shrinks by exactly the number of finished tasks; the finished ones are
   * Returned and the rest are not.
   */
  lemma {:induction false} PoolSplit(ts: seq<Task>, pool: seq<nat>)
    requires AllBelow(pool, |ts|)
    ensures |DoneOf(ts, pool)| + |RunningOf(ts, pool)| == |pool|
    ensures forall k | 0 <= k < |DoneOf(ts, pool)| :: ts[DoneOf(ts, pool)[k]].worker == Returned
    ensures forall k | 0 <= k < |RunningOf(ts, pool)| :: ts[RunningOf(ts, pool)[k]].worker != Returned
    ensures forall k | 0 <= k < |RunningOf(ts, pool)| :: RunningOf(ts, pool)[k] in pool
  {
    if pool != [] {
      var front := pool[..|pool| - 1];
      assert AllBelow(front, |ts|);
      PoolSplit(ts, front);
    }
  }

  /** Tasks whose workers agree give the same split. */
  lemma {:induction false} PoolSplitSameWorkers(ts: seq<Task>, us: seq<Task>, pool: seq<nat>)
    requires |ts| == |us| && AllBelow(pool, |ts|)
    requires forall j | 0 <= j < |ts| :: ts[j].worker == us[j].worker
    ensures RunningOf(ts, pool) == RunningOf(us, pool)
  {
    if pool != [] {
      var front := pool[..|pool| - 1];
      assert AllBelow(front, |ts|);
      PoolSplitSameWorkers(ts, us, front);
    }
  }

  /** The status line shown after each poll. */
  function StatusLine(completed: nat, failed: nat, total: nat): string
    requires completed + failed <= total
  {
    "翻译进度: " + NatToString(completed + failed) + "/" + NatToString(total) +
    " (成功:" + NatToString(completed) + ", 失败:" + NatToString(failed) +
    ", 剩余:" + NatToString(total - (completed + failed)) + ")"
  }

  /** The message when the run ends normally. */
  function FinalMessage(completed: nat, failed: nat): (m: string)
    ensures |m| > 0 && (failed == 0 <==> m[0] == '✅')
  {
    if failed > 0 then "⚠️ 翻译完成，" + NatToString(completed) + "个成功，" + NatToString(failed) + "个失败"
    else "✅ 翻译完成！共" + NatToString(completed) + "个文件"
  }

  /** The message when run_translation's outer except catches e. */
  function AbortMessage(e: string): string {
    "❌ 翻译失败: " + e
  }

  // ---------------------------------------------------------------------
  // The final drain (translation_agent_gui.py:1986-2010)
  // ---------------------------------------------------------------------

  /**
   * str(e) for the NameError raised when the drain's except clause names
   * concurrent.futures: only ThreadPoolExecutor and as_completed are imported
   * from concurrent.futures at module level, so the name concurrent is unbound.
   */
  const UnboundConcurrent := "name 'concurrent' is not defined"

  const DrainTimeoutMessage := "任务最终等待超时"

  /** The drain's handling of a task that was still running after its 30 seconds, as intended. */
  function TimedOut(ts: seq<Task>, tally: Tally, i: nat): (r: (seq<Task>, Tally))
    requires i < |ts|
  {
    (ts[i := ts[i].(status := Failed, errorMessage := DrainTimeoutMessage)], tally.(failed := tally.failed + 1))
  }

  datatype DrainResult = AllDrained(tasks: seq<Task>, tally: Tally) | DrainCrashed(message: string, tasks: seq<Task>, tally: Tally)

  /**
   * The drain as written: pool entries in order, inTime telling whether each
   * future returned within its 30 seconds. The first one that did not raises
   * TimeoutError, evaluating the except clause raises NameError, and the run
   * ends through the outer handler with the remaining entries never collected.
   */
  function DrainAsWritten(ts: seq<Task>, tally: Tally, pool: seq<nat>, inTime: nat -> bool,
                          saveError: nat -> Option<string>): DrainResult
    requires AllBelow(pool, |ts|)
    decreases |pool|
  {
    if pool == [] then AllDrained(ts, tally)
    else if !inTime(pool[0]) then DrainCrashed(AbortMessage(UnboundConcurrent), ts, tally)
    else
      var p := CollectOne(ts, tally, pool[0], saveError);
      DrainAsWritten(p.0, p.1, pool[1..], inTime, saveError)
  }

  /** The drain as intended: a timed-out task is marked failed and the drain goes on. */
  function DrainCorrected(ts: seq<Task>, tally: Tally, pool: seq<nat>, inTime: nat -> bool,
                          saveError: nat -> Option<string>): (r: (seq<Task>, Tally))
    requires AllBelow(pool, |ts|)
    ensures |r.0| == |ts|
    decreases |pool|
  {
    if pool == [] then (ts, tally)
    else
      var p := if inTime(pool[0]) then CollectOne(ts, tally, pool[0], saveError) else TimedOut(ts, tally, pool[0]);
      DrainCorrected(p.0, p.1, pool[1..], inTime, saveError)
  }

  /**
   * As written, the drain ends in the outer handler exactly when some pool
   * entry times out; when none does it agrees with the intended drain.
   */
  lemma {:induction false} DrainAsWrittenCrashes(ts: seq<Task>, tally: Tally, pool: seq<nat>, inTime: nat -> bool,
                                                 saveError: nat -> Option<string>)
    requires AllBelow(pool, |ts|)
    ensures var r := DrainAsWritten(ts, tally, pool, inTime, saveError);
            (r.DrainCrashed? <==> exists k | 0 <= k < |pool| :: !inTime(pool[k])) &&
            (r.DrainCrashed? ==> r.message == AbortMessage(UnboundConcurrent)) &&
            (r.AllDrained? ==> (r.tasks, r.tally) == DrainCorrected(ts, tally, pool, inTime, saveError))
    decreases |pool|
  {
    if pool != [] && inTime(pool[0]) {
      var p := CollectOne(ts, tally, pool[0], saveError);
      assert AllBelow(pool[1..], |p.0|);
      DrainAsWrittenCrashes(p.0, p.1, pool[1..], inTime, saveError);
      if exists k | 0 <= k < |pool[1..]| :: !inTime(pool[1..][k]) {
        var k :| 0 <= k < |pool[1..]| && !inTime(pool[1..][k]);
        assert !inTime(pool[k + 1]);
      }
      if exists k | 0 <= k < |pool| :: !inTime(pool[k]) {
        var k :| 0 <= k < |pool| && !inTime(pool[k]);
        assert k > 0 && !inTime(pool[1..][k - 1]);
      }
    }
  }

  /**
   * The intended drain accounts for every pool entry: each one that timed
   * out is counted as failed, and the counters together grow by at most the
   * pool's size.
   */
  lemma {:induction false} DrainCorrectedCounts(ts: seq<Task>, tally: Tally, pool: seq<nat>, inTime: nat -> bool,
                                                saveError: nat -> Option<string>)
    requires AllBelow(pool, |ts|)
    ensures var r := DrainCorrected(ts, tally, pool, inTime, saveError);
            r.1.failed >= tally.failed + TimedOutCount(pool, inTime) &&
            r.1.completed >= tally.completed &&
            r.1.completed + r.1.failed <= tally.completed + tally.failed + |pool|
    decreases |pool|
  {
    if pool != [] {
      var p := if inTime(pool[0]) then CollectOne(ts, tally, pool[0], saveError) else TimedOut(ts, tally, pool[0]);
      if inTime(pool[0]) {
        CollectOneCases(ts, tally, pool[0], saveError);
      }
      assert AllBelow(pool[1..], |p.0|);
      DrainCorrectedCounts(p.0, p.1, pool[1..], inTime, saveError);
    }
  }

  function TimedOutCount(pool: seq<nat>, inTime: nat -> bool): nat {
    if pool == [] then 0 else (if inTime(pool[0]) then 0 else 1) + TimedOutCount(pool[1..], inTime)
  }

  /** The drain's timeout test read off the workers: a future is in time exactly when its worker has returned. */
  function InTimeOf(ts: seq<Task>): nat -> bool {
    (i: nat) => i < |ts| && ts[i].worker == Returned
  }

  predicate SameWorkers(a: seq<Task>, b: seq<Task>) {
    |a| == |b| && forall j | 0 <= j < |a| :: a[j].worker == b[j].worker
  }

  /** Collecting a task or timing it out never touches a worker. */
  lemma StepKeepsWorkers(ts: seq<Task>, tally: Tally, i: nat, saveError: nat -> Option<string>)
    requires i < |ts|
    ensures SameWorkers(CollectOne(ts, tally, i, saveError).0, ts)
    ensures SameWorkers(TimedOut(ts, tally, i).0, ts)
  {
  }

  /** One entry of the intended drain, as the step method takes it, keeps the rest of the drain's value. */
  lemma DrainCorrectedStep(ts: seq<Task>, tally: Tally, pool: seq<nat>, k: nat, t0: seq<Task>, inTime: nat -> bool,
                           saveError: nat -> Option<string>, after: seq<Task>, afterTally: Tally)
    requires k < |pool| && AllBelow(pool[k..], |ts|) && SameWorkers(ts, t0)
    requires forall i: nat | i < |t0| :: inTime(i) == (t0[i].worker == Returned)
    requires pool[k] < |ts| ==>
               (after, afterTally) == if ts[pool[k]].worker == Returned then CollectOne(ts, tally, pool[k], saveError)
                                      else TimedOut(ts, tally, pool[k])
    ensures SameWorkers(after, t0) && AllBelow(pool[k + 1..], |after|)
    ensures DrainCorrected(after, afterTally, pool[k + 1..], inTime, saveError) ==
            DrainCorrected(ts, tally, pool[k..], inTime, saveError)
  {
    assert pool[k..][0] == pool[k] && pool[k..][1..] == pool[k + 1..];
    StepKeepsWorkers(ts, tally, pool[k], saveError);
  }

  /** One entry of the drain as written, as the step method takes it, keeps the rest of the drain's value. */
  lemma DrainAsWrittenStep(ts: seq<Task>, tally: Tally, pool: seq<nat>, k: nat, t0: seq<Task>, inTime: nat -> bool,
                           saveError: nat -> Option<string>, after: seq<Task>, afterTally: Tally)
    requires k < |pool| && AllBelow(pool[k..], |ts|) && SameWorkers(ts, t0)
    requires forall i: nat | i < |t0| :: inTime(i) == (t0[i].worker == Returned)
    requires pool[k] < |ts| && ts[pool[k]].worker == Returned ==>
               (after, afterTally) == CollectOne(ts, tally, pool[k], saveError)
    ensures pool[k] < |ts|
    ensures ts[pool[k]].worker != Returned ==>
              DrainAsWritten(ts, tally, pool[k..], inTime, saveError) ==
              DrainCrashed(AbortMessage(UnboundConcurrent), ts, tally)
    ensures ts[pool[k]].worker == Returned ==>
              SameWorkers(after, t0) && AllBelow(pool[k + 1..], |after|) &&
              DrainAsWritten(after, afterTally, pool[k + 1..], inTime, saveError) ==
              DrainAsWritten(ts, tally, pool[k..], inTime, saveError)
  {
    assert pool[k..][0] == pool[k] && pool[k..][1..] == pool[k + 1..];
    StepKeepsWorkers(ts, tally, pool[k], saveError);
  }


  /**
   * Two tasks left in the pool, the first still running after its 30
   * seconds and the second completed: as written the run ends with
   * "❌ 翻译失败: name 'concurrent' is not defined" and the completed
   * translation is never saved; as intended it is saved and the timed-out
   * task is the one failure.
   */
  lemma DrainTimeoutExample(slow: Task, done: Task, tally: Tally, inTime: nat -> bool, saveError: nat -> Option<string>)
    requires done.status == Completed && !inTime(0) && inTime(1) && saveError(1).None?
    ensures var ts := [slow, done];
            DrainAsWritten(ts, tally, [0, 1], inTime, saveError) == DrainCrashed("❌ 翻译失败: name 'concurrent' is not defined", ts, tally)
    ensures var r := DrainCorrected([slow, done], tally, [0, 1], inTime, saveError);
            r.1 == Tally(tally.completed + 1, tally.failed + 1, tally.saved + [1]) &&
            r.0[0].status == Failed && r.0[0].errorMessage == DrainTimeoutMessage
  {
    var ts := [slow, done];
    AbortConcurrentMessage();
    var p := TimedOut(ts, tally, 0);
    assert p.0[1] == done;
    CollectSaved(p.0, p.1, 1, saveError);
    var q := CollectOne(p.0, p.1, 1, saveError);
    CorrectedUnfold(ts, tally, [0, 1], inTime, saveError);
    CorrectedUnfold(p.0, p.1, [1], inTime, saveError);
    assert DrainCorrected(q.0, q.1, [], inTime, saveError) == q;
  }

  /** A completed task whose save raises nothing is counted and saved, and nothing else changes. */
  lemma CollectSaved(ts: seq<Task>, tally: Tally, i: nat, saveError: nat -> Option<string>)
    requires i < |ts| && ts[i].status == Completed && saveError(i).None?
    ensures CollectOne(ts, tally, i, saveError) == (ts, Tally(tally.completed + 1, tally.failed, tally.saved + [i]))
  {
  }

  lemma AbortConcurrentMessage()
    ensures AbortMessage(UnboundConcurrent) == "❌ 翻译失败: name 'concurrent' is not defined"
  {
  }

  /** One step of the intended drain. */
  lemma CorrectedUnfold(ts: seq<Task>, tally: Tally, pool: seq<nat>, inTime: nat -> bool,
                        saveError: nat -> Option<string>)
    requires AllBelow(pool, |ts|) && pool != []
    ensures var p := if inTime(pool[0]) then CollectOne(ts, tally, pool[0], saveError) else TimedOut(ts, tally, pool[0]);
            AllBelow(pool[1..], |p.0|) &&
            DrainCorrected(ts, tally, pool, inTime, saveError) == DrainCorrected(p.0, p.1, pool[1..], inTime, saveError)
  {
  }

  // ---------------------------------------------------------------------
  // The run: start, the manager loop, the workers, pause and stop
  // ---------------------------------------------------------------------

  function Min(a: nat, b: nat): nat {
    if a <= b then a else b
  }

  /** The loop of start_translation that reads each selected file and numbers the tasks. */
  method PrepareTasks(selected: seq<(string, Option<string>)>) returns (ts: seq<Task>)
    ensures ts == Prepared(selected)
    ensures forall k | 0 <= k < |ts| :: ts[k].worker == Queued
  {
    ts := [];
    var counter := 0;
    for i := 0 to |selected|
      invariant ts == Prepared(selected[..i]) && counter == |ts|
    {
      var (path, content) := selected[i];
      PreparedPrefix(selected, i);
      if content.Some? && content.value != "" {
        counter := counter + 1;
        ts := ts + [NewTask(LocalBatch.TaskId(counter), FileNames.NameWithoutExt(path), content.value, path)];
      }
    }
    assert selected[..|selected|] == selected;
    forall k | 0 <= k < |ts|
      ensures ts[k].worker == Queued
    {
      PreparedTasks(selected, k);
    }
  }

  /** The task list with the workers at positions from..to-1 handed to the pool. */
  function MarkSubmitted(ts: seq<Task>, from: nat, to: nat): (r: seq<Task>)
    requires from <= to <= |ts|
    ensures |r| == |ts|
    ensures forall i | 0 <= i < |ts| :: r[i] == (if from <= i < to then ts[i].(worker := Submitted) else ts[i])
  {
    if to == from then ts else MarkSubmitted(ts, from, to - 1)[to - 1 := ts[to - 1].(worker := Submitted)]
  }

  /** Moving the head of the queue's remainder to the pool. */
  lemma QueueStep(pool0: seq<nat>, q: seq<nat>, k: nat)
    requires k < |q|
    ensures q[k..][0] == q[k] && q[k..][1..] == q[k + 1..]
    ensures (pool0 + q[..k]) + [q[k]] == pool0 + q[..k + 1]
  {
    assert q[..k + 1] == q[..k] + [q[k]];
  }

  /** Where run_translation is: submitting the first batch, polling, refilling, draining, or ended with its message. */
  datatype Phase = Idle | Submitting | Polling | Refilling | Draining | Ended(message: string)

  /**
   * The dispatcher's state: translation_tasks as a sequence (a task's
   * position stands for the task object), run_translation's task_queue and
   * active_futures as positions in submission order, its two counters, the
   * positions whose results were written, and the two flags.
   */
  class Run {
    /** concurrent_tasks, read when the run starts. */
    var limit: nat
    var tasks: seq<Task>
    var queue: seq<nat>
    var pool: seq<nat>
    /** How many pool entries the final drain has gone through. */
    var drained: nat
    var isTranslating: bool
    var isPaused: bool
    var completedCount: nat
    var failedCount: nat
    var saved: seq<nat>
    var phase: Phase
    /** How many tasks have left the queue. */
    ghost var submitted: nat

    /**
     * The queue is the not yet submitted tail of the task list, in order;
     * the pool holds submitted tasks only and never more than limit of them;
     * a task's worker is Queued exactly while it is in the queue; and the
     * counters never exceed what has left the queue and pool.
     */
    ghost predicate Valid()
      reads this
    {
      limit >= 1 && |pool| <= limit && submitted + |queue| == |tasks| &&
      (forall j | 0 <= j < |queue| :: queue[j] == submitted + j) &&
      (forall j | 0 <= j < |pool| :: pool[j] < submitted) &&
      (forall i | 0 <= i < |tasks| :: tasks[i].worker.Queued? <==> i >= submitted) &&
      drained <= |pool| &&
      (!phase.Draining? && !phase.Ended? ==> drained == 0) &&
      (phase.Submitting? ==> pool == [] && submitted == 0) &&
      completedCount + failedCount + |queue| + |pool| <= |tasks| + drained
    }

    constructor()
      ensures Valid() && tasks == [] && queue == [] && pool == [] && phase == Idle
      ensures !isTranslating && !isPaused && limit == LocalBatch.MaxConcurrentTasks
    {
      limit := LocalBatch.MaxConcurrentTasks;
      tasks, queue, pool, saved := [], [], [], [];
      drained, completedCount, failedCount := 0, 0, 0;
      isTranslating, isPaused := false, false;
      phase := Idle;
      submitted := 0;
    }

    /**
     * start_translation: the checks, then a fresh task list from the
     * selected files; the run starts only when some file had content.
     * A new run is started only once a stopped one has wound down.
     */
    method Start(scannedCount: nat, apiKey: string, outputFolder: string, makedirsError: Option<string>,
                 selected: seq<(string, Option<string>)>, concurrency: nat)
      returns (err: Option<string>)
      requires Valid() && concurrency >= 1
      requires isTranslating || phase.Idle? || phase.Ended?
      modifies this
      ensures Valid()
      ensures var check := StartCheck(old(isTranslating), scannedCount, apiKey, outputFolder, makedirsError, |selected|);
              if check.Some? then err == check && unchanged(this)
              else
                tasks == Prepared(selected) && queue == Indices(|tasks|) && pool == [] && saved == [] &&
                submitted == 0 && completedCount == 0 && failedCount == 0 && drained == 0 &&
                (tasks == [] ==> err == Some(NoContentMessage) && !isTranslating && phase == old(phase) &&
                                 isPaused == old(isPaused) && limit == old(limit)) &&
                (tasks != [] ==> err == None && isTranslating && !isPaused && limit == concurrency && phase == Submitting)
    {
      err := StartCheck(isTranslating, scannedCount, apiKey, outputFolder, makedirsError, |selected|);
      if err.Some? {
        return;
      }
      var ts := PrepareTasks(selected);
      if ts == [] {
        Reset(ts);
        return Some(NoContentMessage);
      }
      isTranslating, isPaused := true, false;
      limit := concurrency;
      phase := Submitting;
      Reset(ts);
    }

    /** translation_tasks.clear() followed by the new tasks, with run_translation's fresh queue, pool and counters. */
    method Reset(ts: seq<Task>)
      requires limit >= 1 && forall k | 0 <= k < |ts| :: ts[k].worker == Queued
      modifies this
      ensures Valid()
      ensures tasks == ts && queue == Indices(|ts|) && pool == [] && saved == [] && submitted == 0 &&
              completedCount == 0 && failedCount == 0 && drained == 0
      ensures phase == old(phase) && isTranslating == old(isTranslating) && isPaused == old(isPaused) && limit == old(limit)
    {
      tasks, queue, pool, saved := ts, Indices(|ts|), [], [];
      drained, completedCount, failedCount := 0, 0, 0;
      submitted := 0;
    }

    /** pause_translation */
    method Pause()
      modifies this
      ensures isPaused == !old(isPaused)
      ensures tasks == old(tasks) && queue == old(queue) && pool == old(pool) && phase == old(phase)
      ensures isTranslating == old(isTranslating) && completedCount == old(completedCount) &&
              failedCount == old(failedCount) && saved == old(saved) && drained == old(drained) &&
              limit == old(limit) && submitted == old(submitted)
    {
      isPaused := !isPaused;
    }

    /** stop_translation after the confirmation: both flags off, and every waiting or running task cancelled. */
    method Stop()
      requires Valid()
      modifies this
      ensures Valid() && !isTranslating && !isPaused
      ensures |tasks| == |old(tasks)| && forall i | 0 <= i < |tasks| :: tasks[i] == Stopped(old(tasks)[i])
      ensures queue == old(queue) && pool == old(pool) && phase == old(phase) &&
              completedCount == old(completedCount) && failedCount == old(failedCount) &&
              saved == old(saved) && drained == old(drained) && limit == old(limit) && submitted == old(submitted)
    {
      isTranslating, isPaused := false, false;
      tasks := StopAll(tasks);
    }

    /** task_queue.pop(0) handed to the pool. */
    method SubmitNext()
      requires Valid() && queue != [] && |pool| < limit && (phase.Polling? || phase.Refilling?)
      modifies this
      ensures Valid()
      ensures old(queue[0]) == old(submitted) && submitted == old(submitted) + 1
      ensures queue == old(queue[1..]) && pool == old(pool) + [old(queue[0])]
      ensures tasks == old(tasks)[old(submitted) := old(tasks[submitted]).(worker := Submitted)]
      ensures phase == old(phase) && isTranslating == old(isTranslating) && isPaused == old(isPaused) &&
              completedCount == old(completedCount) && failedCount == old(failedCount) &&
              saved == old(saved) && drained == old(drained) && limit == old(limit)
    {
      var i := queue[0];
      queue := queue[1..];
      pool := pool + [i];
      tasks := tasks[i := tasks[i].(worker := Submitted)];
      submitted := submitted + 1;
    }

    /** The first batch: min(concurrent_tasks, len(task_queue)) submissions, none once stopped. */
    method SubmitInitial()
      requires Valid() && phase == Submitting
      modifies this
      ensures Valid() && phase == Polling
      ensures var k := if old(isTranslating) then Min(limit, |old(queue)|) else 0;
              submitted == old(submitted) + k && pool == old(queue)[..k] && queue == old(queue)[k..]
      ensures |tasks| == |old(tasks)|
      ensures forall i | 0 <= i < |tasks| ::
                tasks[i] == if old(submitted) <= i < submitted then old(tasks)[i].(worker := Submitted) else old(tasks)[i]
      ensures isTranslating == old(isTranslating) && isPaused == old(isPaused) &&
              completedCount == old(completedCount) && failedCount == old(failedCount) &&
              saved == old(saved) && limit == old(limit)
    {
      var n := Min(limit, |queue|);
      phase := Polling;
      SubmitUpTo(n);
    }

    /** SubmitInitial's loop: n submissions, each made only while translation is on. */
    method SubmitUpTo(n: nat)
      requires Valid() && phase == Polling && n <= |queue| && |pool| + n <= limit
      modifies this
      ensures Valid() && phase == Polling && drained == old(drained)
      ensures var k := if old(isTranslating) then n else 0;
              submitted == old(submitted) + k && pool == old(pool) + old(queue)[..k] && queue == old(queue)[k..]
      ensures tasks == MarkSubmitted(old(tasks), old(submitted), submitted)
      ensures isTranslating == old(isTranslating) && isPaused == old(isPaused) &&
              completedCount == old(completedCount) && failedCount == old(failedCount) &&
              saved == old(saved) && limit == old(limit)
    {
      ghost var q0, p0, t0, s0 := queue, pool, tasks, submitted;
      var i := 0;
      while i < n
        invariant Valid() && phase == Polling && drained == old(drained)
        invariant i <= n <= |q0| && submitted == s0 + i && |pool| == |p0| + i
        invariant pool == p0 + q0[..i] && queue == q0[i..]
        invariant s0 <= |t0| && tasks == MarkSubmitted(t0, s0, submitted)
        invariant isTranslating == old(isTranslating) && isPaused == old(isPaused) &&
                  completedCount == old(completedCount) && failedCount == old(failedCount) &&
                  saved == old(saved) && limit == old(limit)
        invariant !isTranslating ==> i == 0
      {
        if !isTranslating {
          break;
        }
        QueueStep(p0, q0, i);
        SubmitNext();
        i := i + 1;
      }
    }

    // -------------------------------------------------------------------
    // The worker, translate_single_file, one step at a time
    // -------------------------------------------------------------------

    /** The worker's first step on task i. */
    method WorkerBegin(i: nat, now: real)
      requires Valid() && i < |tasks| && tasks[i].worker == Submitted
      modifies this
      ensures Valid()
      ensures tasks == old(tasks)[i := Begin(old(tasks)[i], old(isTranslating), now)]
      ensures queue == old(queue) && pool == old(pool) && phase == old(phase) &&
              isTranslating == old(isTranslating) && isPaused == old(isPaused) &&
              completedCount == old(completedCount) && failedCount == old(failedCount) &&
              saved == old(saved) && drained == old(drained) && limit == old(limit) && submitted == old(submitted)
    {
      tasks := tasks[i := Begin(tasks[i], isTranslating, now)];
    }

    /** model_load with the run's settings (JSON mode off), on the shared patched client. */
    method WorkerLoad(i: nat, patch: Completion.Patch, endpoint: string, baseUrl: string, model: string,
                      apiKey: string, temperature: real, rpm: int, env: map<string, string>,
                      construct: Client -> Option<string>, now: real)
      requires Valid() && i < |tasks| && tasks[i].worker.Started?
      modifies this, patch
      ensures Valid()
      ensures patch.settings == Completion.Settings(endpoint, rpm, model, temperature, false)
      ensures patch.client == (var c := ClientFor(endpoint, baseUrl, apiKey, env, construct);
                               if c.Ok? then Some(c.value) else old(patch.client))
      ensures patch.lastCalled == old(patch.lastCalled)
      ensures var c := ClientFor(endpoint, baseUrl, apiKey, env, construct);
              tasks == old(tasks)[i := AfterLoad(old(tasks)[i], if c.Fail? then Some(c.message) else None, now)]
      ensures queue == old(queue) && pool == old(pool) && phase == old(phase) &&
              isTranslating == old(isTranslating) && isPaused == old(isPaused) &&
              completedCount == old(completedCount) && failedCount == old(failedCount) &&
              saved == old(saved) && drained == old(drained) && limit == old(limit) && submitted == old(submitted)
    {
      var c := patch.ModelLoad(endpoint, baseUrl, model, apiKey, temperature, rpm, false, env, construct);
      tasks := tasks[i := AfterLoad(tasks[i], if c.Fail? then Some(c.message) else None, now)];
    }

    /** progress_callback(current, total) while task i translates. */
    method WorkerProgress(i: nat, current: nat, total: nat)
      requires Valid() && i < |tasks| && tasks[i].worker.Working? && total > 0
      modifies this
      ensures Valid()
      ensures tasks == old(tasks)[i := Reported(old(tasks)[i], old(isTranslating), current, total)]
      ensures queue == old(queue) && pool == old(pool) && phase == old(phase) &&
              isTranslating == old(isTranslating) && isPaused == old(isPaused) &&
              completedCount == old(completedCount) && failedCount == old(failedCount) &&
              saved == old(saved) && drained == old(drained) && limit == old(limit) && submitted == old(submitted)
    {
      tasks := tasks[i := Reported(tasks[i], isTranslating, current, total)];
    }

    /** The translator returns the three translations or raises. */
    method WorkerFinish(i: nat, out: Outcome<LocalBatch.Translation>, now: real)
      requires Valid() && i < |tasks| && tasks[i].worker.Working?
      modifies this
      ensures Valid()
      ensures tasks == old(tasks)[i := Finished(old(tasks)[i], out, now)]
      ensures queue == old(queue) && pool == old(pool) && phase == old(phase) &&
              isTranslating == old(isTranslating) && isPaused == old(isPaused) &&
              completedCount == old(completedCount) && failedCount == old(failedCount) &&
              saved == old(saved) && drained == old(drained) && limit == old(limit) && submitted == old(submitted)
    {
      tasks := tasks[i := Finished(tasks[i], out, now)];
    }

    // -------------------------------------------------------------------
    // The manager loop of run_translation
    // -------------------------------------------------------------------

    /** The scan of active_futures for done futures, in pool order. */
    method FindDone() returns (done: seq<nat>, running: seq<nat>)
      requires AllBelow(pool, |tasks|)
      ensures done == DoneOf(tasks, pool) && running == RunningOf(tasks, pool)
    {
      done, running := [], [];
      for k := 0 to |pool|
        invariant AllBelow(pool[..k], |tasks|)
        invariant done == DoneOf(tasks, pool[..k]) && running == RunningOf(tasks, pool[..k])
      {
        assert pool[..k + 1][..k] == pool[..k];
        if tasks[pool[k]].worker == Returned {
          done := done + [pool[k]];
        } else {
          running := running + [pool[k]];
        }
      }
      assert pool[..|pool|] == pool;
    }

    /** Counting and saving one finished task. */
    method Collect(i: nat, saveError: nat -> Option<string>)
      requires i < |tasks|
      modifies this
      ensures (tasks, Tally(completedCount, failedCount, saved)) ==
              CollectOne(old(tasks), Tally(old(completedCount), old(failedCount), old(saved)), i, saveError)
      ensures queue == old(queue) && pool == old(pool) && phase == old(phase) &&
              isTranslating == old(isTranslating) && isPaused == old(isPaused) &&
              drained == old(drained) && limit == old(limit) && submitted == old(submitted)
    {
      var t := tasks[i];
      if t.status == Completed {
        completedCount := completedCount + 1;
        var e := saveError(i);
        if e.Some? {
          tasks := tasks[i := t.(status := SaveFailed, errorMessage := "保存文件时出错: " + e.value)];
        } else {
          saved := saved + [i];
        }
      } else if t.status == Failed {
        failedCount := failedCount + 1;
      }
    }

    /** The loop over completed_futures: each is collected in turn. */
    method CollectDone(done: seq<nat>, saveError: nat -> Option<string>)
      requires AllBelow(done, |tasks|)
      modifies this
      ensures (tasks, Tally(completedCount, failedCount, saved)) ==
              CollectAll(old(tasks), Tally(old(completedCount), old(failedCount), old(saved)), done, saveError)
      ensures queue == old(queue) && pool == old(pool) && phase == old(phase) &&
              isTranslating == old(isTranslating) && isPaused == old(isPaused) &&
              drained == old(drained) && limit == old(limit) && submitted == old(submitted)
    {
      ghost var t0, c0 := tasks, Tally(completedCount, failedCount, saved);
      for k := 0 to |done|
        invariant |tasks| == |t0|
        invariant (tasks, Tally(completedCount, failedCount, saved)) == CollectAll(t0, c0, done[..k], saveError)
        invariant queue == old(queue) && pool == old(pool) && phase == old(phase) &&
                  isTranslating == old(isTranslating) && isPaused == old(isPaused) &&
                  drained == old(drained) && limit == old(limit) && submitted == old(submitted)
      {
        assert done[..k + 1][..k] == done[..k];
        Collect(done[k], saveError);
      }
      assert done[..|done|] == done;
    }

    /**
     * One pass of the manager's while loop up to the refill: leave the loop
     * when the pool is empty or translation was stopped; wait while paused;
     * otherwise collect the done futures in pool order and drop them from the pool.
     */
    method Poll(saveError: nat -> Option<string>) returns (done: seq<nat>)
      requires Valid() && phase == Polling
      modifies this
      ensures Valid()
      ensures !(old(pool) != [] && old(isTranslating)) ==>
                done == [] && phase == Draining && tasks == old(tasks) && pool == old(pool) &&
                queue == old(queue) && completedCount == old(completedCount) && failedCount == old(failedCount) &&
                saved == old(saved) && isTranslating == old(isTranslating) && isPaused == old(isPaused)
      ensures limit == old(limit) && submitted == old(submitted) && drained == old(drained)
      ensures old(pool) != [] && old(isTranslating) && old(isPaused) ==> done == [] && unchanged(this)
      ensures old(pool) != [] && old(isTranslating) && !old(isPaused) ==>
                done == DoneOf(old(tasks), old(pool)) &&
                (done == [] ==> unchanged(this)) &&
                (done != [] ==>
                   phase == Refilling && pool == RunningOf(old(tasks), old(pool)) && queue == old(queue) &&
                   isTranslating && !isPaused &&
                   (tasks, Tally(completedCount, failedCount, saved)) ==
                   CollectAll(old(tasks), Tally(old(completedCount), old(failedCount), old(saved)), done, saveError))
    {
      done := [];
      if !(pool != [] && isTranslating) {
        phase := Draining;
        return;
      }
      if isPaused {
        return;
      }
      var running;
      done, running := FindDone();
      if done == [] {
        return;
      }
      CollectAndDrop(done, running, saveError);
    }

    /**
     * The manager loop's pass as intended: it goes on while the pool or the
     * queue holds a task, and with an empty pool it goes straight to the refill,
     * so a pause that lands just before a refill cannot end the run early.
     */
    method PollCorrected(saveError: nat -> Option<string>) returns (done: seq<nat>)
      requires Valid() && phase == Polling
      modifies this
      ensures Valid()
      ensures phase == Draining ==> !old(isTranslating) || (old(pool) == [] && old(queue) == [])
      ensures !((old(pool) != [] || old(queue) != []) && old(isTranslating)) ==>
                done == [] && phase == Draining && tasks == old(tasks) && pool == old(pool) &&
                queue == old(queue) && completedCount == old(completedCount) && failedCount == old(failedCount) &&
                saved == old(saved) && isTranslating == old(isTranslating) && isPaused == old(isPaused)
      ensures limit == old(limit) && submitted == old(submitted) && drained == old(drained)
      ensures (old(pool) != [] || old(queue) != []) && old(isTranslating) && old(isPaused) ==> done == [] && unchanged(this)
      ensures old(pool) == [] && old(queue) != [] && old(isTranslating) && !old(isPaused) ==>
                done == [] && phase == Refilling && tasks == old(tasks) && pool == [] && queue == old(queue) &&
                completedCount == old(completedCount) && failedCount == old(failedCount) && saved == old(saved) &&
                isTranslating && !isPaused
      ensures old(pool) != [] && old(isTranslating) && !old(isPaused) ==>
                done == DoneOf(old(tasks), old(pool)) &&
                (done == [] ==> unchanged(this)) &&
                (done != [] ==>
                   phase == Refilling && pool == RunningOf(old(tasks), old(pool)) && queue == old(queue) &&
                   isTranslating && !isPaused &&
                   (tasks, Tally(completedCount, failedCount, saved)) ==
                   CollectAll(old(tasks), Tally(old(completedCount), old(failedCount), old(saved)), done, saveError))
    {
      done := [];
      if !((pool != [] || queue != []) && isTranslating) {
        phase := Draining;
        return;
      }
      if isPaused {
        return;
      }
      if pool == [] {
        phase := Refilling;
        return;
      }
      var running;
      done, running := FindDone();
      if done == [] {
        return;
      }
      CollectAndDrop(done, running, saveError);
    }

    /** Collecting the done futures and keeping only the running ones in the pool. */
    method CollectAndDrop(done: seq<nat>, running: seq<nat>, saveError: nat -> Option<string>)
      requires Valid() && phase == Polling && done != []
      requires done == DoneOf(tasks, pool) && running == RunningOf(tasks, pool)
      modifies this
      ensures Valid()
      ensures phase == Refilling && pool == RunningOf(old(tasks), old(pool)) && queue == old(queue) &&
              isTranslating == old(isTranslating) && isPaused == old(isPaused)
      ensures limit == old(limit) && submitted == old(submitted) && drained == old(drained)
      ensures (tasks, Tally(completedCount, failedCount, saved)) ==
              CollectAll(old(tasks), Tally(old(completedCount), old(failedCount), old(saved)), done, saveError)
    {
      PoolSplit(tasks, pool);
      ghost var t0 := tasks;
      CollectDone(done, saveError);
      CollectAllBounds(t0, Tally(old(completedCount), old(failedCount), old(saved)), done, saveError);
      PoolSplitSameWorkers(t0, tasks, old(pool));
      pool := running;
      phase := Refilling;
    }

    /**
     * The refill after a poll: submit while the pool has room, the queue
     * is not empty and translation is on, but not while paused; then report
     * the status line.
     */
    method Refill() returns (line: string)
      requires Valid() && phase == Refilling
      modifies this
      ensures Valid() && phase == Polling
      ensures var k := if old(isTranslating) && !old(isPaused) then Min(old(limit) - |old(pool)|, |old(queue)|) else 0;
              submitted == old(submitted) + k && pool == old(pool) + old(queue)[..k] && queue == old(queue)[k..]
      ensures |tasks| == |old(tasks)|
      ensures forall i | 0 <= i < |tasks| ::
                tasks[i] == if old(submitted) <= i < submitted then old(tasks)[i].(worker := Submitted) else old(tasks)[i]
      ensures isTranslating == old(isTranslating) && isPaused == old(isPaused) &&
              completedCount == old(completedCount) && failedCount == old(failedCount) &&
              saved == old(saved) && limit == old(limit)
      ensures completedCount + failedCount <= |tasks| && line == StatusLine(completedCount, failedCount, |tasks|)
    {
      FillPool();
      phase := Polling;
      line := StatusLine(completedCount, failedCount, |tasks|);
    }

    /** Refill's loop: submissions while there is room, work and no pause or stop. */
    method FillPool()
      requires Valid() && phase == Refilling
      modifies this
      ensures Valid() && phase == Refilling && drained == old(drained)
      ensures var k := if old(isTranslating) && !old(isPaused) then Min(old(limit) - |old(pool)|, |old(queue)|) else 0;
              submitted == old(submitted) + k && pool == old(pool) + old(queue)[..k] && queue == old(queue)[k..]
      ensures tasks == MarkSubmitted(old(tasks), old(submitted), submitted)
      ensures isTranslating == old(isTranslating) && isPaused == old(isPaused) &&
              completedCount == old(completedCount) && failedCount == old(failedCount) &&
              saved == old(saved) && limit == old(limit)
    {
      ghost var q0, p0, t0, s0 := queue, pool, tasks, submitted;
      ghost var k: nat := 0;
      while |pool| < limit && queue != [] && isTranslating
        invariant Valid() && phase == Refilling && drained == old(drained)
        invariant k <= |q0| && submitted == s0 + k && |pool| == |p0| + k
        invariant pool == p0 + q0[..k] && queue == q0[k..]
        invariant s0 <= |t0| && tasks == MarkSubmitted(t0, s0, submitted)
        invariant isTranslating == old(isTranslating) && isPaused == old(isPaused) &&
                  completedCount == old(completedCount) && failedCount == old(failedCount) &&
                  saved == old(saved) && limit == old(limit)
        invariant isPaused || !isTranslating ==> k == 0
        decreases |queue|
      {
        if isPaused {
          break;
        }
        QueueStep(p0, q0, k);
        SubmitNext();
        k := k + 1;
      }
    }

    // -------------------------------------------------------------------
    // The final drain and the end of the run
    // -------------------------------------------------------------------

    /**
     * One entry of the final drain, as written: a returned worker is
     * collected; one still running after its 30 seconds ends the run through
     * the outer handler with the NameError's message.
     */
    method DrainStepAsWritten(saveError: nat -> Option<string>)
      requires Valid() && phase == Draining && drained < |pool|
      modifies this
      ensures Valid()
      ensures var i := old(pool[drained]);
              queue == old(queue) && pool == old(pool) && limit == old(limit) && submitted == old(submitted) &&
              (old(tasks[i]).worker == Returned ==>
                 (tasks, Tally(completedCount, failedCount, saved)) ==
                 CollectOne(old(tasks), Tally(old(completedCount), old(failedCount), old(saved)), i, saveError) &&
                 drained == old(drained) + 1 && phase == Draining &&
                 isTranslating == old(isTranslating) && isPaused == old(isPaused)) &&
              (old(tasks[i]).worker != Returned ==>
                 phase == Ended(AbortMessage(UnboundConcurrent)) && !isTranslating && !isPaused &&
                 tasks == old(tasks) && completedCount == old(completedCount) &&
                 failedCount == old(failedCount) && saved == old(saved) && drained == old(drained))
    {
      var i := pool[drained];
      if tasks[i].worker == Returned {
        CollectOneCases(tasks, Tally(completedCount, failedCount, saved), i, saveError);
        Collect(i, saveError);
        drained := drained + 1;
      } else {
        isTranslating, isPaused := false, false;
        phase := Ended(AbortMessage(UnboundConcurrent));
      }
    }

    /** The same step as intended: a timed-out task is marked failed and the drain goes on. */
    method DrainStepCorrected(saveError: nat -> Option<string>)
      requires Valid() && phase == Draining && drained < |pool|
      modifies this
      ensures Valid() && phase == Draining && drained == old(drained) + 1
      ensures var i := old(pool[drained]);
              queue == old(queue) && pool == old(pool) && limit == old(limit) && submitted == old(submitted) &&
              isTranslating == old(isTranslating) && isPaused == old(isPaused) &&
              (tasks, Tally(completedCount, failedCount, saved)) ==
              (var before := Tally(old(completedCount), old(failedCount), old(saved));
               if old(tasks[i]).worker == Returned then CollectOne(old(tasks), before, i, saveError)
               else TimedOut(old(tasks), before, i))
    {
      var i := pool[drained];
      if tasks[i].worker == Returned {
        CollectOneCases(tasks, Tally(completedCount, failedCount, saved), i, saveError);
        Collect(i, saveError);
      } else {
        failedCount := failedCount + 1;
        tasks := tasks[i := tasks[i].(status := Failed, errorMessage := DrainTimeoutMessage)];
      }
      drained := drained + 1;
    }

    /**
     * The drain loop as intended, one pool entry per call: every remaining
     * entry in order, each timed out exactly when its worker has not
     * returned (inTime reads that off the workers of t0). It computes the
     * intended drain function.
     */
    method DrainAllCorrected(ghost t0: seq<Task>, ghost inTime: nat -> bool, saveError: nat -> Option<string>)
      requires Valid() && phase == Draining
      requires SameWorkers(tasks, t0) && forall i: nat | i < |t0| :: inTime(i) == (t0[i].worker == Returned)
      modifies this
      ensures Valid() && phase == Draining && drained == |pool|
      ensures queue == old(queue) && pool == old(pool) && limit == old(limit) && submitted == old(submitted) &&
              isTranslating == old(isTranslating) && isPaused == old(isPaused)
      ensures old(drained) <= |old(pool)| && AllBelow(old(pool)[old(drained)..], |old(tasks)|)
      ensures (tasks, Tally(completedCount, failedCount, saved)) ==
              DrainCorrected(old(tasks), Tally(old(completedCount), old(failedCount), old(saved)),
                             old(pool)[old(drained)..], inTime, saveError)
      decreases |pool| - drained
    {
      ValidPoolBelow();
      if drained < |pool| {
        ghost var b, y, k := tasks, Tally(completedCount, failedCount, saved), drained;
        DrainStepCorrected(saveError);
        DrainCorrectedStep(b, y, pool, k, t0, inTime, saveError, tasks, Tally(completedCount, failedCount, saved));
        DrainAllCorrected(t0, inTime, saveError);
      } else {
        assert pool[drained..] == [];
      }
    }

    /**
     * The drain loop as written, one pool entry per call: entries in order
     * until one is still running, which ends the run through the outer
     * handler. It computes the as-written drain function, crash included.
     */
    method DrainAllAsWritten(ghost t0: seq<Task>, ghost inTime: nat -> bool, saveError: nat -> Option<string>)
      requires Valid() && phase == Draining
      requires SameWorkers(tasks, t0) && forall i: nat | i < |t0| :: inTime(i) == (t0[i].worker == Returned)
      modifies this
      ensures Valid()
      ensures queue == old(queue) && pool == old(pool) && limit == old(limit) && submitted == old(submitted)
      ensures old(drained) <= |old(pool)| && AllBelow(old(pool)[old(drained)..], |old(tasks)|)
      ensures var r := DrainAsWritten(old(tasks), Tally(old(completedCount), old(failedCount), old(saved)),
                                      old(pool)[old(drained)..], inTime, saveError);
              (tasks, Tally(completedCount, failedCount, saved)) == (r.tasks, r.tally) &&
              (r.AllDrained? ==> phase == Draining && drained == |pool| &&
                                 isTranslating == old(isTranslating) && isPaused == old(isPaused)) &&
              (r.DrainCrashed? ==> phase == Ended(r.message) && !isTranslating && !isPaused)
      decreases |pool| - drained
    {
      ValidPoolBelow();
      if drained < |pool| {
        ghost var b, y, k := tasks, Tally(completedCount, failedCount, saved), drained;
        DrainStepAsWritten(saveError);
        DrainAsWrittenStep(b, y, pool, k, t0, inTime, saveError, tasks, Tally(completedCount, failedCount, saved));
        if phase == Draining {
          DrainAllAsWritten(t0, inTime, saveError);
        }
      } else {
        assert pool[drained..] == [];
      }
    }

    /** Every pool entry names a task. */
    lemma ValidPoolBelow()
      requires Valid()
      ensures drained <= |pool| && AllBelow(pool[drained..], |tasks|)
    {
    }

    /** After the drain: both flags off and the summary message. */
    method FinishRun()
      requires Valid() && phase == Draining && drained == |pool|
      modifies this
      ensures Valid() && !isTranslating && !isPaused
      ensures phase == Ended(FinalMessage(completedCount, failedCount))
      ensures tasks == old(tasks) && queue == old(queue) && pool == old(pool) &&
              completedCount == old(completedCount) && failedCount == old(failedCount) &&
              saved == old(saved) && drained == old(drained) && limit == old(limit) && submitted == old(submitted)
    {
      isTranslating, isPaused := false, false;
      phase := Ended(FinalMessage(completedCount, failedCount));
    }
  }

  // ---------------------------------------------------------------------
  // A pause between collection and refill (translation_agent_gui.py:1915-1964)
  // ---------------------------------------------------------------------

  /**
   * As written: the poll has just emptied the pool and the user pauses before
   * the refill. The refill breaks at once, the loop test `active_futures`
   * then fails, and the run ends with its summary while every queued task is
   * still waiting; with no failure so far the summary starts with "✅".
   */
  method PausedRefillEndsRun(run: Run, saveError: nat -> Option<string>)
    requires run.Valid() && run.phase == Refilling && run.pool == [] && run.queue != []
    requires run.isTranslating && run.isPaused
    modifies run
    ensures run.phase == Ended(FinalMessage(run.completedCount, run.failedCount)) && !run.isTranslating
    ensures run.queue == old(run.queue) && run.queue != [] && run.tasks == old(run.tasks)
    ensures forall j | 0 <= j < |run.queue| :: run.tasks[run.queue[j]].worker == Queued
    ensures run.failedCount == old(run.failedCount) && run.completedCount == old(run.completedCount)
    ensures old(run.failedCount) == 0 ==> FinalMessage(run.completedCount, run.failedCount)[0] == '✅'
  {
    var line := run.Refill();
    var done := run.Poll(saveError);
    run.FinishRun();
  }

  /**
   * As intended: from the same state the corrected poll waits while paused,
   * and once the pause is lifted the next refill submits queued work.
   */
  method PausedRefillResumes(run: Run, saveError: nat -> Option<string>)
    requires run.Valid() && run.phase == Refilling && run.pool == [] && run.queue != []
    requires run.isTranslating && run.isPaused
    modifies run
    ensures run.phase == Polling && run.isTranslating && !run.isPaused
    ensures run.pool != [] && run.pool[0] == old(run.queue)[0] && run.submitted > old(run.submitted)
  {
    var line := run.Refill();
    var done := run.PollCorrected(saveError);
    assert run.phase == Polling && run.isPaused;
    run.Pause();
    done := run.PollCorrected(saveError);
    line := run.Refill();
  }
}
