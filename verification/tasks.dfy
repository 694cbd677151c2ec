/** The upload tasks: one per local entry below the synchronised folder,
    each depending on its parent folder's task, and what running one sends
    to the server and reports. */
module Tasks {
  import opened Wrappers
  import opened Text
  import opened Remote
  import opened Keys

  /** The work of one task: recreate a remote folder, or upload a file. */
  datatype Action = SyncDirectory(url: string) | UploadFile(url: string, data: string)

  /** A task as handed to the scheduler: the keys it waits for, then its
      work. */
  datatype Task = Task(deps: seq<string>, action: Action)

  /** The environment a run depends on, as functions: the file system
      (`grunt.file.isDir`, `grunt.file.read`), URL resolution and parsing
      (`url.resolve`, `url.parse`), the platform separator and the remote
      server's reply to each request. */
  datatype Env = Env(
    remotePath: string,
    sep: char,
    isDir: string -> bool,
    read: string -> string,
    resolve: (string, string) -> string,
    parse: string -> Url,
    respond: RequestOptions -> StatusCode)

  /** `createTask`: a root-level task has no dependency; any other waits for
      exactly its parent key. */
  function CreateTask(parent: Option<string>, action: Action): (t: Task)
    ensures parent.None? ==> t.deps == []
    ensures parent.Some? ==> t.deps == [parent.value]
    ensures t.action == action
  {
    if parent.None? then Task([], action) else Task([parent.value], action)
  }

  /** The task for one local entry under `root`. */
  function TaskFor(root: string, path: string, env: Env): (t: Task)
    requires Under(path, root, env.sep)
    ensures var key := UploadKey(path, root, env.sep);
      && t.action.url == env.resolve(env.remotePath, NormaliseSlashes(key))
      && (t.action.SyncDirectory? <==> env.isDir(path))
      && (t.action.UploadFile? ==> t.action.data == env.read(path))
      && (env.sep !in key ==> t.deps == [])
      && (env.sep in key ==> t.deps == [ParentKey(key, env.sep).value])
  {
    var key := UploadKey(path, root, env.sep);
    var url := env.resolve(env.remotePath, NormaliseSlashes(key));
    var action := if env.isDir(path) then SyncDirectory(url) else UploadFile(url, env.read(path));
    CreateTask(ParentKey(key, env.sep), action)
  }

  /** The map that `m[key] = value` builds when run for each pair in turn,
      starting from `{}`: a later pair with the same key replaces the value
      of an earlier one. */
  function Assign<V>(pairs: seq<(string, V)>): map<string, V>
    decreases |pairs|
  {
    if |pairs| == 0 then map[]
    else
      var n := |pairs| - 1;
      Assign(pairs[..n])[pairs[n].0 := pairs[n].1]
  }

  /** Every assigned key is in the map. */
  lemma {:induction false} AssignCovers<V>(pairs: seq<(string, V)>)
    ensures forall i :: 0 <= i < |pairs| ==> pairs[i].0 in Assign(pairs)
    decreases |pairs|
  {
    if |pairs| > 0 {
      var n := |pairs| - 1;
      AssignCovers(pairs[..n]);
      forall i | 0 <= i < n
        ensures pairs[i].0 in Assign(pairs[..n])
      {
        assert pairs[..n][i] == pairs[i];
      }
    }
  }

  /** Every key of the map holds the value of the last pair assigning it. */
  lemma {:induction false} AssignLastWins<V>(pairs: seq<(string, V)>)
    ensures forall k :: k in Assign(pairs) ==>
      exists i :: 0 <= i < |pairs| && pairs[i] == (k, Assign(pairs)[k]) && forall j :: i < j < |pairs| ==> pairs[j].0 != k
    decreases |pairs|
  {
    if |pairs| > 0 {
      var n := |pairs| - 1;
      var init := pairs[..n];
      AssignLastWins(init);
      var m := Assign(pairs);
      forall k | k in m
        ensures exists i :: 0 <= i < |pairs| && pairs[i] == (k, m[k]) && forall j :: i < j < |pairs| ==> pairs[j].0 != k
      {
        if k == pairs[n].0 {
          assert pairs[n] == (k, m[k]);
        } else {
          var i :| 0 <= i < n && init[i] == (k, Assign(init)[k]) && forall j :: i < j < n ==> init[j].0 != k;
          assert pairs[i] == (k, m[k]);
          forall j | i < j < |pairs|
            ensures pairs[j].0 != k
          {
            if j < n {
              assert init[j] == pairs[j];
            }
          }
        }
      }
    }
  }

  /** The task map of one run. `files` is the expansion of the local folder
      pattern: its first element is the folder itself and is not uploaded,
      the others lie under it. Every entry has a task under its key, and
      every task is the task of the last entry with that key, as
      assignment to the task object in listing order leaves it. No files
      means no tasks. */
  function Plan(files: seq<string>, env: Env): (tasks: map<string, Task>)
    requires ExpandedUnderRoot(files, env.sep)
    ensures |files| <= 1 ==> tasks == map[]
    ensures |files| > 0 ==> forall i :: 1 <= i < |files| ==> UploadKey(files[i], files[0], env.sep) in tasks
    ensures |files| > 0 ==> forall k :: k in tasks ==>
      exists i :: 1 <= i < |files| && UploadKey(files[i], files[0], env.sep) == k && tasks[k] == TaskFor(files[0], files[i], env)
        && forall j :: i < j < |files| ==> UploadKey(files[j], files[0], env.sep) != k
  {
    if |files| == 0 then map[]
    else
      var pairs := EntryPairs(files, env);
      AssignCovers(pairs);
      AssignLastWins(pairs);
      PlanCoversEntries(files, env, pairs);
      PlanTasksFromEntries(files, env, pairs);
      Assign(pairs)
  }

  /** The key and task of each entry below the folder, in listing order. */
  function EntryPairs(files: seq<string>, env: Env): (pairs: seq<(string, Task)>)
    requires |files| > 0 && ExpandedUnderRoot(files, env.sep)
    ensures |pairs| == |files| - 1
    ensures forall i :: 0 <= i < |pairs| ==>
      pairs[i] == (UploadKey(files[i + 1], files[0], env.sep), TaskFor(files[0], files[i + 1], env))
  {
    seq(|files| - 1, i requires 0 <= i < |files| - 1 =>
      (UploadKey(files[i + 1], files[0], env.sep), TaskFor(files[0], files[i + 1], env)))
  }

  /** Every entry of a plan has its key among the assigned keys. */
  lemma PlanCoversEntries(files: seq<string>, env: Env, pairs: seq<(string, Task)>)
    requires |files| > 0 && ExpandedUnderRoot(files, env.sep)
    requires |pairs| == |files| - 1
    requires forall i :: 0 <= i < |pairs| ==> pairs[i].0 == UploadKey(files[i + 1], files[0], env.sep)
    requires forall i :: 0 <= i < |pairs| ==> pairs[i].0 in Assign(pairs)
    ensures forall i :: 1 <= i < |files| ==> UploadKey(files[i], files[0], env.sep) in Assign(pairs)
  {
    forall i | 1 <= i < |files|
      ensures UploadKey(files[i], files[0], env.sep) in Assign(pairs)
    {
      assert pairs[i - 1].0 in Assign(pairs);
    }
  }

  /** Every task of a plan is the task of the last entry with its key. */
  lemma PlanTasksFromEntries(files: seq<string>, env: Env, pairs: seq<(string, Task)>)
    requires |files| > 0 && ExpandedUnderRoot(files, env.sep)
    requires |pairs| == |files| - 1
    requires forall i :: 0 <= i < |pairs| ==>
      pairs[i] == (UploadKey(files[i + 1], files[0], env.sep), TaskFor(files[0], files[i + 1], env))
    requires forall k :: k in Assign(pairs) ==>
      exists i :: 0 <= i < |pairs| && pairs[i] == (k, Assign(pairs)[k]) && forall j :: i < j < |pairs| ==> pairs[j].0 != k
    ensures forall k :: k in Assign(pairs) ==>
      exists i :: 1 <= i < |files| && UploadKey(files[i], files[0], env.sep) == k && Assign(pairs)[k] == TaskFor(files[0], files[i], env)
        && forall j :: i < j < |files| ==> UploadKey(files[j], files[0], env.sep) != k
  {
    var m := Assign(pairs);
    forall k | k in m
      ensures exists i ::
          && 1 <= i < |files| && UploadKey(files[i], files[0], env.sep) == k && m[k] == TaskFor(files[0], files[i], env)
          && forall j :: i < j < |files| ==> UploadKey(files[j], files[0], env.sep) != k
    {
      var i :| 0 <= i < |pairs| && pairs[i] == (k, m[k]) && forall j :: i < j < |pairs| ==> pairs[j].0 != k;
      forall j | i + 1 < j < |files|
        ensures UploadKey(files[j], files[0], env.sep) != k
      {
        assert pairs[j - 1].0 != k;
      }
      assert UploadKey(files[i + 1], files[0], env.sep) == k && m[k] == TaskFor(files[0], files[i + 1], env);
    }
  }

  /** Every task waits for at most one other task, which exists and has a
      strictly shorter key, so dependency chains are finite. */
  predicate Closed(tasks: map<string, Task>)
  {
    forall k :: k in tasks ==>
      |tasks[k].deps| <= 1 &&
      (|tasks[k].deps| == 1 ==> tasks[k].deps[0] in tasks && |tasks[k].deps[0]| < |k|)
  }

  /** The expansion of the local folder pattern: the folder itself first,
      then entries under it. */
  predicate ExpandedUnderRoot(files: seq<string>, sep: char)
  {
    |files| > 0 ==> forall i :: 1 <= i < |files| ==> Under(files[i], files[0], sep)
  }

  /** Every nested entry's parent folder is listed among the entries. */
  predicate ParentsListed(files: seq<string>, sep: char)
    requires ExpandedUnderRoot(files, sep)
  {
    forall i :: 1 <= i < |files| && sep in UploadKey(files[i], files[0], sep) ==>
      exists j :: 1 <= j < |files| && ParentKey(UploadKey(files[i], files[0], sep), sep) == Some(UploadKey(files[j], files[0], sep))
  }

  /** A task of the run depends on nothing when its key is a single
      segment, and otherwise on exactly its parent folder's key, which is
      shorter and, when every nested entry's parent is listed, a task too. */
  lemma PlanTaskShape(files: seq<string>, env: Env, k: string)
    requires ExpandedUnderRoot(files, env.sep) && ParentsListed(files, env.sep)
    requires k in Plan(files, env)
    ensures var t := Plan(files, env)[k];
      && (env.sep !in k ==> t.deps == [])
      && (env.sep in k ==>
            && t.deps == [ParentKey(k, env.sep).value]
            && t.deps[0] in Plan(files, env)
            && |t.deps[0]| < |k|)
  {
    var tasks := Plan(files, env);
    var root := files[0];
    var i :| 1 <= i < |files| && UploadKey(files[i], root, env.sep) == k && tasks[k] == TaskFor(root, files[i], env);
    if env.sep in k {
      var parent := ParentKey(k, env.sep).value;
      assert |parent| < |k| by {
        ParentKeyOfNested(k, env.sep);
      }
      assert parent in tasks by {
        var j :| 1 <= j < |files| && ParentKey(k, env.sep) == Some(UploadKey(files[j], root, env.sep));
      }
    }
  }

  /** When every nested entry's parent is listed, the task map of the run is
      closed. */
  lemma PlanClosed(files: seq<string>, env: Env)
    requires ExpandedUnderRoot(files, env.sep) && ParentsListed(files, env.sep)
    ensures Closed(Plan(files, env))
  {
    var tasks := Plan(files, env);
    forall k | k in tasks
      ensures |tasks[k].deps| <= 1
      ensures |tasks[k].deps| == 1 ==> tasks[k].deps[0] in tasks && |tasks[k].deps[0]| < |k|
    {
      PlanTaskShape(files, env, k);
    }
  }

  // ---------------------------------------------------------------------
  // Running one task

  /** The requests a task sent, in order, and what it reported. */
  datatype TaskRun = TaskRun(requests: seq<RequestOptions>, outcome: Outcome)

  /** A folder task: DELETE then MKCOL at the same URL, in series. A failed
      DELETE ends the task with its error and MKCOL is never sent; otherwise
      the task reports the URL or MKCOL's error. */
  function RunDirectory(url: string, env: Env): (r: TaskRun)
    ensures 1 <= |r.requests| <= 2
    ensures r.requests[0] == CreateRequestOptions(env.parse(url), Delete)
    ensures var removed := env.respond(r.requests[0]);
      && (removed !in {204, 404} ==>
            |r.requests| == 1 && r.outcome == DeleteOutcome(removed, url))
      && (removed in {204, 404} ==>
            && |r.requests| == 2
            && r.requests[1] == CreateRequestOptions(env.parse(url), Mkcol)
            && (r.outcome.Done? <==> env.respond(r.requests[1]) in {201, 405})
            && (r.outcome.Failed? ==> r.outcome == MkcolOutcome(env.respond(r.requests[1]), url)))
    ensures r.outcome.Done? ==> r.outcome == Done(url)
  {
    var remove := CreateRequestOptions(env.parse(url), Delete);
    var removed := DeleteOutcome(env.respond(remove), url);
    if removed.Failed? then TaskRun([remove], removed)
    else
      var create := CreateRequestOptions(env.parse(url), Mkcol);
      var created := MkcolOutcome(env.respond(create), url);
      TaskRun([remove, create], if created.Failed? then Failed(created.error) else Done(url))
  }

  /** A file task: one PUT with the file content as body. */
  function RunUpload(url: string, data: string, env: Env): (r: TaskRun)
    ensures |r.requests| == 1
    ensures r.requests[0] == PutRequestOptions(env.parse(url), data)
    ensures r.outcome.Failed? <==> env.respond(r.requests[0]) in {500, 401}
    ensures r.outcome == PutOutcome(env.respond(r.requests[0]), url)
  {
    var put := PutRequestOptions(env.parse(url), data);
    TaskRun([put], PutOutcome(env.respond(put), url))
  }

  /** Runs a task's work. */
  function Execute(action: Action, env: Env): (r: TaskRun)
    ensures |r.requests| >= 1
    ensures r.outcome.Done? ==> r.outcome == Done(action.url)
  {
    match action
    case SyncDirectory(url) => RunDirectory(url, env)
    case UploadFile(url, data) => RunUpload(url, data, env)
  }
}
