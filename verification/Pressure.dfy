/** Silent storage pressure, told from what the API answers. */
module Pressure {
  import opened Health
  import opened HostAlerts
  import opened Inventory
  import opened Source
  import opened SourceCollector
  import opened SourceTheorems

  /** The last-listed of the fullest storages of the node. */
  predicate IsFullest(storages: seq<Storage>, n: string, i: nat) {
    && i < |storages| && storages[i].node == n
    && (forall j | 0 <= j < |storages| && storages[j].node == n :: storages[j].pct <= storages[i].pct)
    && (forall j | i < j < |storages| && storages[j].node == n :: storages[j].pct < storages[i].pct)
  }

  /** Every storage of the node is less full than that. */
  predicate AllBelow(storages: seq<Storage>, n: string, pct: int) {
    forall j | 0 <= j < |storages| && storages[j].node == n :: storages[j].pct < pct
  }

  lemma {:induction false} NoneNoted(h: Host, n: string, storages: seq<Storage>)
    requires AllBelow(storages, n, h.storageMaxPct)
    ensures StorageHost(h, n, storages) == h
  {
    if storages != [] { NoneNoted(h, n, storages[..|storages| - 1]); }
  }

  lemma FullestStep(front: seq<Storage>, s: Storage, n: string, i: nat)
    requires IsFullest(front, n, i)
    ensures if s.node == n && s.pct >= front[i].pct then IsFullest(front + [s], n, |front|)
            else IsFullest(front + [s], n, i)
  {
    var all := front + [s];
    assert all[i] == front[i] && all[|front|] == s;
    assert forall j | 0 <= j < |front| :: all[j] == front[j];
  }

  lemma FirstFullest(front: seq<Storage>, s: Storage, n: string, pct: int)
    requires AllBelow(front, n, pct)
    ensures AllBelow(front + [s], n, pct) <==> !(s.node == n && s.pct >= pct)
    ensures s.node == n && s.pct >= pct ==> IsFullest(front + [s], n, |front|)
  {
    var all := front + [s];
    assert all[|front|] == s;
    assert forall j | 0 <= j < |front| :: all[j] == front[j];
  }

  /** The storage that a host ends up naming: the last-listed of the fullest ones. */
  lemma {:induction false} FullestNoted(h: Host, n: string, storages: seq<Storage>) returns (i: nat)
    requires !AllBelow(storages, n, h.storageMaxPct)
    ensures IsFullest(storages, n, i) && storages[i].pct >= h.storageMaxPct
    ensures StorageHost(h, n, storages) == h.(storageMaxPct := storages[i].pct, storageMaxName := storages[i].name)
  {
    var front, s := storages[..|storages| - 1], storages[|storages| - 1];
    assert storages == front + [s];
    if AllBelow(front, n, h.storageMaxPct) {
      FirstFullest(front, s, n, h.storageMaxPct);
      NoneNoted(h, n, front);
      i := |front|;
    } else {
      i := FullestNoted(h, n, front);
      FullestStep(front, s, n, i);
      if s.node == n && s.pct >= front[i].pct { i := |front|; }
    }
  }

  lemma FullestUnique(storages: seq<Storage>, n: string, i: nat, j: nat)
    requires IsFullest(storages, n, i) && IsFullest(storages, n, j)
    ensures i == j
  {
  }

  // ---- On the answers ----

  /** The root level in the inventory, and the one of the status call where it gives one. */
  function ListedRoot(c: Client, a: Answers, n: string): int {
    Listed(c, a, n).storagePct
  }

  function Root(c: Client, a: Answers, n: string): int {
    match AnswerOf(a, n).status
    case None => ListedRoot(c, a, n)
    case Some(s) => if s.rootTotal > 0 then Pct(s.rootUsed, s.rootTotal) else ListedRoot(c, a, n)
  }

  /** The storage has a name and is at least as full as the root file system in the inventory, but the
      root that the node's status reports calls for more than the storage does. */
  predicate Outgrown(c: Client, a: Answers, n: string, s: Storage) {
    && s.name != "" && s.pct >= ListedRoot(c, a, n)
    && SeverityRank(Fullness(c.thresholds, Root(c, a, n))) > SeverityRank(Fullness(c.thresholds, s.pct))
  }

  /** That is so of the fullest storage of the node. */
  ghost predicate RootOutgrows(c: Client, a: Answers, n: string) {
    exists i | 0 <= i < |Storages(c, a.resources)| ::
      IsFullest(Storages(c, a.resources), n, i) && Outgrown(c, a, n, Storages(c, a.resources)[i])
  }

  /** Storage pressure lifts the host's health, and no alert says so at that level. */
  ghost predicate Silent(c: Client, a: Answers, o: Orders, n: string) {
    var level := StorageLevel(c.thresholds, AfterTasks(c, a, n));
    && NeedsAttention(level)
    && forall al :: al in AllAlerts(c, a, o) ==> !AboutStorage(al, HostID(c, n), level)
  }

  /** What the answers leave on the host: the root as answered, and the storage noted. */
  lemma AnsweredLevels(c: Client, a: Answers, n: string)
    ensures var h := AfterTasks(c, a, n);
            && h.online == Listed(c, a, n).online
            && h.storagePct == Root(c, a, n)
            && h.storageMaxPct == AfterStorages(c, a, n).storageMaxPct
            && h.storageMaxName == AfterStorages(c, a, n).storageMaxName
    ensures AfterCalls(c, a, n).storageMaxPct == ListedRoot(c, a, n) && AfterCalls(c, a, n).storageMaxName == ""
  {
    StageFacts(c, a, n);
    ListedIsNew(c, a, n);
    OfflineIsCritical(c, a, n);
    hide AfterGuests;
    TaskHealth(AfterGuests(c, a, n), c.now, AnswerOf(a, n).tasks, Critical);
  }

  /** A higher rank is what sets the level of the pressure apart from that of the fullest storage. */
  lemma LevelsApart(t: Thresholds, root: int, fullest: int)
    ensures var level := Fullness(t, if fullest > root then fullest else root);
            NeedsAttention(level) && Fullness(t, fullest) != level
            <==> SeverityRank(Fullness(t, root)) > SeverityRank(Fullness(t, fullest))
  {
  }

  /** Storage pressure on an online listed node is silent exactly when its answered root outgrows its
      fullest storage. */
  lemma SilentExactly(c: Client, a: Answers, o: Orders, n: string)
    requires VisitsAll(o, Nodes(c, a)) && n in Nodes(c, a) && Listed(c, a, n).online
    ensures Silent(c, a, o, n) <==> RootOutgrows(c, a, n)
  {
    AnsweredLevels(c, a, n);
    SilentOnHost(c, a, o, n);
    hide AfterTasks, Listed, AllAlerts, Silent, Storages, AnswerOf, VisitsAll, Nodes, Fullness;
    var h, storages := AfterTasks(c, a, n), Storages(c, a.resources);
    if AllBelow(storages, n, ListedRoot(c, a, n)) {
      NoneNoted(AfterCalls(c, a, n), n, storages);
    } else {
      hide AfterCalls;
      var i := FullestNoted(AfterCalls(c, a, n), n, storages);
      hide IsFullest, RootOutgrows;
      LevelsApart(c.thresholds, h.storagePct, h.storageMaxPct);
      OutgrowsFullest(c, a, n, i);
    }
  }

  /** Which storage it must outgrow is settled once the fullest one is known. */
  lemma OutgrowsFullest(c: Client, a: Answers, n: string, i: nat)
    requires IsFullest(Storages(c, a.resources), n, i)
    ensures RootOutgrows(c, a, n) <==> Outgrown(c, a, n, Storages(c, a.resources)[i])
  {
    hide Storages, Outgrown;
    var storages := Storages(c, a.resources);
    if k :| 0 <= k < |storages| && IsFullest(storages, n, k) && Outgrown(c, a, n, storages[k]) {
      FullestUnique(storages, n, i, k);
    }
  }

  /** The same on the host's fields. */
  lemma SilentOnHost(c: Client, a: Answers, o: Orders, n: string)
    requires VisitsAll(o, Nodes(c, a)) && n in Nodes(c, a) && AfterTasks(c, a, n).online
    ensures var h := AfterTasks(c, a, n);
            var level := StorageLevel(c.thresholds, h);
            Silent(c, a, o, n) <==>
              NeedsAttention(level) && h.storageMaxName != "" && Fullness(c.thresholds, h.storageMaxPct) != level
  {
    AlertedChangesHealth(c.thresholds, AfterTasks(c, a, n));
    hide AllAlerts, AfterTasks, VisitsAll, Nodes, Fullness;
    if NeedsAttention(StorageLevel(c.thresholds, AfterTasks(c, a, n))) {
      PressureReported(c, a, o, n);
    }
  }
}
