/** A source under storage pressure that emits no alert. */
module SilentSource {
  import opened Folds
  import opened Health
  import opened HostAlerts
  import opened Inventory
  import opened Source
  import opened SourceCollector
  import opened Text
  import opened Wrappers
  import Display
  import EndToEnd

  const SILENT_CLIENT := Client("a", "A", Thresholds(80, 90, 85, 95), map[], 0)
  const SILENT_NODE := Resource("node", "", "pve", "", "", "online", 0, 40, 100, 10, 100)
  const SILENT_STORAGE := Resource("storage", "", "pve", "", "local", "available", 0, 50, 100, 0, 0)

  /** One node, whose root is at 40 percent in the inventory and at 96 in its status call, and one storage
      at 50 percent. */
  const SILENT_ANSWERS := Answers(
    [SILENT_NODE, SILENT_STORAGE], [],
    map["pve" := NodeAnswer(Some(NodeStatus(10, 100, 96, 100)), [], 0, [], OK, [], None)], map[], [])

  /** The host as listed, as it is after the calls, and as it is before its alerts; and the storage. */
  const LISTED_HOST := Host("a/pve", "pve", true, 10, 40, 40, "", 0, 0, 0, 0, 0, "", 0, OK)
  const CALLED_HOST := LISTED_HOST.(storagePct := 96)
  const FULL_HOST := CALLED_HOST.(storageMaxPct := 50, storageMaxName := "local")
  const LISTED_STORAGE := Storage("a/pve/local", "pve", "local", "available", 50, OK)

  lemma SilentEntries()
    ensures NewHost(SILENT_CLIENT, SILENT_NODE) == LISTED_HOST && NodeName(SILENT_CLIENT, SILENT_NODE) == "pve"
    ensures StorageOf(SILENT_CLIENT, SILENT_STORAGE) == LISTED_STORAGE
  {
    assert Trimmed("pve") && Trimmed("local") && Trimmed("available") && Trimmed("");
    assert "a" + "/" + "pve" == "a/pve" && "a/pve" + "/" + "local" == "a/pve/local";
  }

  lemma SilentInventory()
    ensures var c, r := SILENT_CLIENT, SILENT_ANSWERS.resources;
            && NewHosts(c, r) == map["pve" := LISTED_HOST]
            && Storages(c, r) == [LISTED_STORAGE]
            && Guests(c, SILENT_ANSWERS.current, r) == []
  {
    var c, r := SILENT_CLIENT, SILENT_ANSWERS.resources;
    SilentEntries();
    hide NewHost, StorageOf, NodeName;
    assert r[..1] == [SILENT_NODE] && r[..1][..0] == [] && r[..|r| - 1] == r[..1];
    assert NewHosts(c, r[..1]) == map["pve" := LISTED_HOST];
    assert Stream(r[..1], r => StoragesIn(c, r), []) == [];
    assert Stream(r[..1], r => GuestsIn(c, SILENT_ANSWERS.current, r), []) == [];
  }

  /** Calls that answer with a status and nothing else change the two percentages only. */
  lemma QuietCalls(h: Host, status: NodeStatus, host: string)
    ensures var a := NodeAnswer(Some(status), [], 0, [], OK, [], None);
            NodeHost(h, a) == WithStatus(h, Some(status)) && NodeAlerts(host, a) == []
  {
    hide PoolHealth;
    assert Map<Finding, Health>([], (f: Finding) => f.health) == [] && Map<PoolAnswer, Health>([], PoolHealth) == [];
  }

  lemma SilentCalls()
    ensures AfterCalls(SILENT_CLIENT, SILENT_ANSWERS, "pve") == CALLED_HOST
    ensures CallAlerts(SILENT_CLIENT, SILENT_ANSWERS, "pve") == []
  {
    SilentInventory();
    hide NewHosts, NodeHost, NodeAlerts;
    QuietCalls(LISTED_HOST, NodeStatus(10, 100, 96, 100), HostID(SILENT_CLIENT, "pve"));
  }

  lemma SilentStorages()
    ensures StorageHost(CALLED_HOST, "pve", [LISTED_STORAGE]) == FULL_HOST
    ensures Stream([LISTED_STORAGE], s => StorageAlerts(SILENT_CLIENT, s), []) == []
  {
    var none: seq<Storage> := [];
    assert [LISTED_STORAGE][..0] == none;
    assert NoteStorage(CALLED_HOST, "pve", LISTED_STORAGE) == FULL_HOST;
    assert StorageAlerts(SILENT_CLIENT, LISTED_STORAGE) == [];
  }

  lemma NoGuests(h: Host, n: string)
    ensures GuestHost(h, n, []) == h
  {
  }

  lemma SilentGuests()
    ensures AfterGuests(SILENT_CLIENT, SILENT_ANSWERS, "pve") == FULL_HOST
  {
    SilentInventory();
    SilentCalls();
    SilentStorages();
    hide NewHosts, Storages, Guests, AfterCalls, StorageHost, GuestHost;
    NoGuests(FULL_HOST, "pve");
  }

  lemma SilentStages()
    ensures AfterTasks(SILENT_CLIENT, SILENT_ANSWERS, "pve") == FULL_HOST
    ensures TaskAlertsOf(SILENT_CLIENT, SILENT_ANSWERS, "pve") == []
  {
    SilentGuests();
    hide AfterGuests;
  }

  lemma SilentLastLoop()
    ensures Alerted(SILENT_CLIENT.thresholds, FULL_HOST).health == Critical
    ensures AlertsOf(SILENT_CLIENT.thresholds, FULL_HOST) == []
  {
  }

  lemma {:induction false} SilentStream(order: seq<string>, emits: string -> seq<Alert>)
    requires forall n | n in order :: emits(n) == []
    ensures Stream(order, emits, []) == []
  {
    if order != [] { SilentStream(order[..|order| - 1], emits); }
  }

  /** Silence does happen: this source makes its host critical and emits no alert at all. */
  lemma SilentPressure(o: Orders)
    requires VisitsAll(o, Nodes(SILENT_CLIENT, SILENT_ANSWERS))
    ensures "pve" in Nodes(SILENT_CLIENT, SILENT_ANSWERS)
    ensures FinalHost(SILENT_CLIENT, SILENT_ANSWERS, "pve").health == Critical
    ensures AllAlerts(SILENT_CLIENT, SILENT_ANSWERS, o) == []
  {
    var c, a := SILENT_CLIENT, SILENT_ANSWERS;
    SilentInventory();
    SilentStages();
    SilentCalls();
    SilentStorages();
    SilentLastLoop();
    hide NewHosts, Storages, Guests, AfterTasks, AfterGuests, CallAlerts, TaskAlertsOf, StorageAlerts;
    hide AlertsOf, Alerted;
    SilentStream(o.reading, n => CallAlerts(c, a, n));
    SilentStream(o.tasks, n => TaskAlertsOf(c, a, n));
    SilentStream(o.alerts, n => HostAlertsOf(c, a, n));
  }

  lemma SilentNodes()
    ensures Nodes(SILENT_CLIENT, SILENT_ANSWERS) == {"pve"}
  {
    hide NewHosts;
    SilentInventory();
  }

  lemma SilentFinalHost()
    ensures FinalHost(SILENT_CLIENT, SILENT_ANSWERS, "pve") == Alerted(SILENT_CLIENT.thresholds, FULL_HOST)
    ensures FinalHost(SILENT_CLIENT, SILENT_ANSWERS, "pve").online
    ensures FinalHost(SILENT_CLIENT, SILENT_ANSWERS, "pve").health == Critical
  {
    hide AfterTasks;
    SilentStages();
    SilentLastLoop();
  }

  lemma SilentHosts(o: Orders)
    requires VisitsAll(o, Nodes(SILENT_CLIENT, SILENT_ANSWERS))
    ensures var hosts := FinalHosts(SILENT_CLIENT, SILENT_ANSWERS, o.alerts);
            (exists h :: h in hosts && h.health == Critical) && forall h | h in hosts :: h.online
  {
    hide FinalHost, Nodes;
    SilentNodes();
    SilentFinalHost();
    var hosts := FinalHosts(SILENT_CLIENT, SILENT_ANSWERS, o.alerts);
    forall k | 0 <= k < |hosts| ensures hosts[k] == FinalHost(SILENT_CLIENT, SILENT_ANSWERS, "pve") {
      assert o.alerts[k] in o.alerts;
      assert o.alerts[k] in {"pve"};
    }
    assert "pve" in o.alerts;
    assert hosts[0] in hosts;
  }

  /** And so a summary can be fine although an online host of the state is critical. */
  lemma SilentSummary(w: EndToEnd.Worker, results: seq<Display.State>, arrived: seq<Display.State>, out: Display.State)
    requires EndToEnd.Finished([w], results, arrived, out)
    requires w.client == SILENT_CLIENT && w.answers == Some(SILENT_ANSWERS)
    ensures out.summary.health == OK
    ensures exists i :: i in Display.List(out, Display.Hosts) && i.online && i.severity == Critical
  {
    hide EndToEnd.Finished, EndToEnd.Contribution, Display.List, EndToEnd.Runs, Display.SummaryOf;
    EndToEnd.FinishedResults([w], results, arrived, out);
    assert w in [w];
    SilentContribution(w);
    EndToEnd.OutSummary([w], results, arrived, out);
    SummaryIsNeverUnknown(out);
    EndToEnd.SummaryExplained([w], results, arrived, out, Warning);
    var h :| h in EndToEnd.Contribution(w).hosts && h.health == Critical;
    EndToEnd.HostListed([w], results, arrived, out, w, h);
  }

  lemma SilentContribution(w: EndToEnd.Worker)
    requires EndToEnd.Runs(w) && w.client == SILENT_CLIENT && w.answers == Some(SILENT_ANSWERS)
    ensures EndToEnd.Contribution(w).alerts == []
    ensures (exists h :: h in EndToEnd.Contribution(w).hosts && h.health == Critical)
    ensures forall h | h in EndToEnd.Contribution(w).hosts :: h.online
  {
    hide AllAlerts, FinalHosts, Nodes, VisitsAll;
    SilentPressure(w.orders);
    SilentHosts(w.orders);
  }

  lemma SummaryIsNeverUnknown(s: Display.State)
    ensures Display.SummaryOf(s).health != Unknown
  {
  }
}
