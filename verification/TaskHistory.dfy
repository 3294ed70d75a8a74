/** Backups and failed tasks of one node, read from its task list. */
module TaskHistory {
  import opened Folds
  import opened Health
  import opened Source
  import opened Wrappers

  const DAY := 86400

  /** The last backup seen so far. `start` is its start time, 0 before the first one. */
  datatype Backup = Backup(status: string, age: int, start: int)

  function WithTask(b: Backup, now: int, t: Task): Backup {
    if t.kind == "vzdump" && t.startedAt >= b.start then
      if t.startedAt > 0 then Backup(t.status, now - t.startedAt, t.startedAt) else b.(status := t.status)
    else b
  }

  function Backups(b: Backup, now: int, tasks: seq<Task>): Backup {
    if tasks == [] then b else WithTask(Backups(b, now, tasks[..|tasks| - 1]), now, tasks[|tasks| - 1])
  }

  predicate IsBackup(t: Task) {
    t.kind == "vzdump" && t.startedAt >= 0
  }

  /** Task i is the last-listed backup among those with the greatest start time. */
  predicate IsLastBackup(tasks: seq<Task>, i: nat) {
    && i < |tasks| && IsBackup(tasks[i])
    && (forall j | 0 <= j < |tasks| && IsBackup(tasks[j]) :: tasks[j].startedAt <= tasks[i].startedAt)
    && (forall j | i < j < |tasks| && IsBackup(tasks[j]) :: tasks[j].startedAt < tasks[i].startedAt)
  }

  predicate NoBackup(tasks: seq<Task>) {
    forall j | 0 <= j < |tasks| :: !IsBackup(tasks[j])
  }

  /** The backup a host shows once task i turned out to be its last one. */
  function Shown(b: Backup, now: int, t: Task): Backup {
    if t.startedAt > 0 then Backup(t.status, now - t.startedAt, t.startedAt) else b.(status := t.status)
  }

  /** One more task: it becomes the last backup, or the last backup stays what it was. */
  lemma LastBackupStep(front: seq<Task>, t: Task, i: nat)
    requires IsLastBackup(front, i)
    ensures if IsBackup(t) && t.startedAt >= front[i].startedAt then IsLastBackup(front + [t], |front|)
            else IsLastBackup(front + [t], i)
  {
  }

  lemma FirstBackup(front: seq<Task>, t: Task)
    requires NoBackup(front)
    ensures NoBackup(front + [t]) <==> !IsBackup(t)
    ensures IsBackup(t) ==> IsLastBackup(front + [t], |front|)
  {
    var tasks := front + [t];
    assert tasks[|front|] == t;
    assert forall j | 0 <= j < |front| :: tasks[j] == front[j];
  }

  lemma {:induction false} NoBackupFound(b: Backup, now: int, tasks: seq<Task>)
    requires b.start == 0 && NoBackup(tasks)
    ensures Backups(b, now, tasks) == b
  {
    if tasks != [] { NoBackupFound(b, now, tasks[..|tasks| - 1]); }
  }

  /** There is only one such task. */
  lemma LastBackupUnique(tasks: seq<Task>, i: nat)
    requires IsLastBackup(tasks, i)
    ensures forall j | 0 <= j < |tasks| && j != i :: !IsLastBackup(tasks, j)
  {
  }

  /** What the loop finds: the last-listed of the latest backups. */
  lemma {:induction false} LastBackupFound(b: Backup, now: int, tasks: seq<Task>) returns (i: nat)
    requires b.start == 0 && !NoBackup(tasks)
    ensures IsLastBackup(tasks, i) && Backups(b, now, tasks) == Shown(b, now, tasks[i])
    ensures forall j | 0 <= j < |tasks| && j != i :: !IsLastBackup(tasks, j)
  {
    var front, t := tasks[..|tasks| - 1], tasks[|tasks| - 1];
    assert tasks == front + [t];
    if NoBackup(front) {
      FirstBackup(front, t);
      NoBackupFound(b, now, front);
      i := |front|;
    } else {
      i := LastBackupFound(b, now, front);
      LastBackupStep(front, t, i);
      if IsBackup(t) && t.startedAt >= front[i].startedAt { i := |front|; }
    }
    LastBackupUnique(tasks, i);
  }

  predicate DistinctStarts(tasks: seq<Task>) {
    forall i, j | 0 <= i < j < |tasks| && IsBackup(tasks[i]) && IsBackup(tasks[j]) ::
      tasks[i].startedAt != tasks[j].startedAt
  }

  lemma IndexIn(a: seq<Task>, b: seq<Task>, i: nat) returns (j: nat)
    requires multiset(a) == multiset(b) && i < |a|
    ensures j < |b| && b[j] == a[i]
  {
    assert a[i] in multiset(b);
    j :| 0 <= j < |b| && b[j] == a[i];
  }

  lemma SameLastBackup(p: seq<Task>, q: seq<Task>, i: nat, j: nat)
    requires multiset(p) == multiset(q) && DistinctStarts(p)
    requires IsLastBackup(p, i) && IsLastBackup(q, j)
    ensures p[i] == q[j]
  {
    var i' := IndexIn(p, q, i);
    var j' := IndexIn(q, p, j);
    assert p[i].startedAt == q[j].startedAt;
  }

  /** The order in which the node lists its tasks does not matter when no two backups start together. */
  lemma BackupIgnoresOrder(b: Backup, now: int, p: seq<Task>, q: seq<Task>)
    requires b.start == 0 && multiset(p) == multiset(q) && DistinctStarts(p)
    ensures Backups(b, now, p) == Backups(b, now, q)
  {
    if NoBackup(p) {
      forall j | 0 <= j < |q| ensures !IsBackup(q[j]) { var i := IndexIn(q, p, j); }
      NoBackupFound(b, now, p);
      NoBackupFound(b, now, q);
    } else {
      var i := LastBackupFound(b, now, p);
      var i' := IndexIn(p, q, i);
      var j := LastBackupFound(b, now, q);
      SameLastBackup(p, q, i, j);
    }
  }

  // ---- Failed tasks ----

  predicate FailedRecently(now: int, t: Task) {
    t.health == Warning && t.endedAt > 0 && now - t.endedAt <= DAY
  }

  function Failures(now: int, t: Task): nat {
    if FailedRecently(now, t) then 1 else 0
  }

  lemma {:induction false} SomeFailure(now: int, tasks: seq<Task>)
    ensures Sum(tasks, t => Failures(now, t)) > 0 <==> exists t | t in tasks :: FailedRecently(now, t)
  {
    if tasks != [] {
      SomeFailure(now, tasks[1..]);
      assert forall t :: t in tasks <==> t == tasks[0] || t in tasks[1..];
      assert Failures(now, tasks[0]) > 0 <==> FailedRecently(now, tasks[0]);
      if FailedRecently(now, tasks[0]) {
        assert exists t | t in tasks :: FailedRecently(now, t);
      } else if exists t | t in tasks[1..] :: FailedRecently(now, t) {
        assert exists t | t in tasks :: FailedRecently(now, t);
      }
    }
  }

  /** The host while its first tasks have gone by. */
  function Noted(h: Host, now: int, tasks: seq<Task>): Host {
    var b := Backups(Backup(h.lastBackupStatus, h.lastBackupAgeSec, 0), now, tasks);
    h.(lastBackupStatus := b.status, lastBackupAgeSec := b.age,
       failedTasks24h := h.failedTasks24h + Sum(tasks, t => Failures(now, t)))
  }

  /** The host after its task list; without an answer nothing changes. */
  function TaskHost(h: Host, now: int, tasks: Option<seq<Task>>): Host {
    match tasks
    case None => h
    case Some(s) =>
      var g := Noted(h, now, s);
      if g.failedTasks24h > 0 then g.(health := MaxHealth(g.health, Warning)) else g
  }

  function TaskAlerts(h: Host, now: int, tasks: Option<seq<Task>>): seq<Alert> {
    match tasks
    case None => []
    case Some(s) =>
      if Noted(h, now, s).failedTasks24h > 0 then [Alert(h.id + "/tasks-failed-24h", h.id, Warning, FailedTasks)]
      else []
  }

  lemma NotedStep(h: Host, now: int, tasks: seq<Task>, i: nat, last: int)
    requires i < |tasks|
    requires last == Backups(Backup(h.lastBackupStatus, h.lastBackupAgeSec, 0), now, tasks[..i]).start
    ensures var g, r := Noted(h, now, tasks[..i]), Noted(h, now, tasks[..i + 1]);
            var b := WithTask(Backup(g.lastBackupStatus, g.lastBackupAgeSec, last), now, tasks[i]);
            && r == g.(lastBackupStatus := b.status, lastBackupAgeSec := b.age,
                       failedTasks24h := g.failedTasks24h + Failures(now, tasks[i]))
            && b.start == Backups(Backup(h.lastBackupStatus, h.lastBackupAgeSec, 0), now, tasks[..i + 1]).start
  {
    assert tasks[..i + 1] == tasks[..i] + [tasks[i]];
    assert tasks[..i + 1][..i] == tasks[..i];
    SumSnoc(tasks[..i], tasks[i], t => Failures(now, t));
  }

  /** The start noted for a host, 0 when there is none. */
  function StartOf(started: map<string, int>, host: string): int {
    if host in started then started[host] else 0
  }

  /** Reads one node's tasks. `started` holds the latest backup starts of all hosts visited so far. */
  method TaskLoop(ref: HostRef, now: int, tasks: Option<seq<Task>>, started: map<string, int>)
    returns (alerts: seq<Alert>, noted: map<string, int>)
    requires ref.host.id !in started
    modifies ref
    ensures ref.host == TaskHost(old(ref.host), now, tasks)
    ensures alerts == TaskAlerts(old(ref.host), now, tasks)
    ensures noted.Keys <= started.Keys + {old(ref.host.id)}
  {
    alerts, noted := [], started;
    if tasks.None? {
      return;
    }
    var s, id := tasks.value, ref.host.id;
    ghost var was := ref.host;
    for i := 0 to |s|
      invariant ref.host == Noted(was, now, s[..i])
      invariant StartOf(noted, id) == Backups(Backup(was.lastBackupStatus, was.lastBackupAgeSec, 0), now, s[..i]).start
      invariant noted.Keys <= started.Keys + {id}
    {
      hide Noted, Backups;
      var t := s[i];
      NotedStep(was, now, s, i, StartOf(noted, id));
      if t.kind == "vzdump" && t.startedAt >= StartOf(noted, id) {
        ref.host := ref.host.(lastBackupStatus := t.status);
        if t.startedAt > 0 {
          ref.host := ref.host.(lastBackupAgeSec := now - t.startedAt);
          noted := noted[id := t.startedAt];
        }
      }
      if t.health == Warning && t.endedAt > 0 && now - t.endedAt <= DAY {
        ref.host := ref.host.(failedTasks24h := ref.host.failedTasks24h + 1);
      }
    }
    assert s[..|s|] == s;
    if ref.host.failedTasks24h > 0 {
      ref.host := ref.host.(health := MaxHealth(ref.host.health, Warning));
      alerts := [Alert(ref.host.id + "/tasks-failed-24h", ref.host.id, Warning, FailedTasks)];
    }
  }

  /** A host that starts with no failures counts exactly the tasks that failed within a day, and has
      the alert exactly when there is one; the alert's severity is covered by its health. */
  lemma FailuresReported(h: Host, now: int, tasks: seq<Task>)
    requires h.failedTasks24h == 0
    ensures var r := TaskHost(h, now, Some(tasks));
            && r.failedTasks24h == Sum(tasks, t => Failures(now, t))
            && (r.failedTasks24h > 0 <==> TaskAlerts(h, now, Some(tasks)) != [])
            && (r.failedTasks24h > 0 <==> exists t | t in tasks :: FailedRecently(now, t))
            && (r.failedTasks24h > 0 ==> SeverityRank(r.health) >= SeverityRank(Warning))
            && SeverityRank(r.health) >= SeverityRank(h.health)
  {
    SomeFailure(now, tasks);
  }
}
