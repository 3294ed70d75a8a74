/** ZFS pool details: a recursive walk over the device tree, against a fold over the flattened tree. */
module Zfs {
  import opened Folds
  import opened Health
  import opened Text

  datatype Vdev = Vdev(info: Info, children: seq<Vdev>)

  /** What one device reports about itself. */
  datatype Info = Info(name: string, state: string, status: string, leaf: int, read: int, write: int, checksum: int)

  /** A device as the walk sees it: its report, and whether it has children. */
  datatype Label = Label(info: Info, inner: bool)

  predicate Counted(l: Label) {
    l.info.leaf != 0 || !l.inner
  }

  predicate BadState(l: Label) {
    var state := ToUpper(TrimSpace(l.info.state));
    state != "" && state != "ONLINE" && state != "AVAIL"
  }

  predicate HasErrors(l: Label) {
    l.info.read > 0 || l.info.write > 0 || l.info.checksum > 0
  }

  predicate Suspect(l: Label) {
    Counted(l) && (BadState(l) || HasErrors(l))
  }

  /** All devices of a forest, parents before children. */
  function Flatten(forest: seq<Vdev>): seq<Label> {
    if forest == [] then []
    else
      [Label(forest[0].info, forest[0].children != [])] + Flatten(forest[0].children) + Flatten(forest[1..])
  }

  function DevicesOf(l: Label): nat {
    if Counted(l) && l.info.name != "" then 1 else 0
  }

  function IssuesOf(l: Label): nat {
    if Counted(l) then (if BadState(l) then 1 else 0) + (if HasErrors(l) then 1 else 0) else 0
  }

  lemma FlattenStep(forest: seq<Vdev>, count: Label -> nat)
    requires forest != []
    ensures Sum(Flatten(forest), count)
         == count(Label(forest[0].info, forest[0].children != [])) + Sum(Flatten(forest[0].children), count)
            + Sum(Flatten(forest[1..]), count)
  {
    var l := Label(forest[0].info, forest[0].children != []);
    SumConcat([l] + Flatten(forest[0].children), Flatten(forest[1..]), count);
    SumConcat([l], Flatten(forest[0].children), count);
    SumSnoc([], l, count);
    assert [] + [l] == [l];
  }

  /** The first i + 1 trees of a forest, and the tree at i on its own. */
  lemma FlattenSnoc(forest: seq<Vdev>, i: nat, count: Label -> nat)
    requires i < |forest|
    ensures Sum(Flatten(forest[..i + 1]), count) == Sum(Flatten(forest[..i]), count) + Sum(Flatten([forest[i]]), count)
  {
    assert forest[..i + 1] == forest[..i] + [forest[i]];
    FlattenConcat(forest[..i], [forest[i]]);
    SumConcat(Flatten(forest[..i]), Flatten([forest[i]]), count);
  }

  /** A single tree: its root, then its children. */
  lemma TreeSum(node: Vdev, count: Label -> nat)
    ensures Sum(Flatten([node]), count)
         == count(Label(node.info, node.children != [])) + Sum(Flatten(node.children), count)
  {
    FlattenStep([node], count);
    assert [node][1..] == [];
  }

  /** The recursive closure: counters in, counters out. */
  method Walk(node: Vdev, devices: nat, issues: nat) returns (devices': nat, issues': nat)
    ensures devices' == devices + Sum(Flatten([node]), DevicesOf)
    ensures issues' == issues + Sum(Flatten([node]), IssuesOf)
    decreases node
  {
    devices', issues' := devices, issues;
    if node.info.leaf != 0 || |node.children| == 0 {
      if node.info.name != "" {
        devices' := devices' + 1;
      }
      var state := ToUpper(TrimSpace(node.info.state));
      if state != "" && state != "ONLINE" && state != "AVAIL" {
        issues' := issues' + 1;
      }
      if node.info.read > 0 || node.info.write > 0 || node.info.checksum > 0 {
        issues' := issues' + 1;
      }
    }
    TreeSum(node, DevicesOf);
    TreeSum(node, IssuesOf);
    ghost var d, n := devices', issues';
    for i := 0 to |node.children|
      invariant devices' == d + Sum(Flatten(node.children[..i]), DevicesOf)
      invariant issues' == n + Sum(Flatten(node.children[..i]), IssuesOf)
    {
      devices', issues' := Walk(node.children[i], devices', issues');
      FlattenSnoc(node.children, i, DevicesOf);
      FlattenSnoc(node.children, i, IssuesOf);
    }
    assert node.children[..|node.children|] == node.children;
  }

  /** Counts the devices and the issues below the pool, whose own entry is not looked at. */
  method DeviceCounts(detail: Vdev) returns (devices: nat, issues: nat)
    ensures devices == Sum(Flatten(detail.children), DevicesOf)
    ensures issues == Sum(Flatten(detail.children), IssuesOf)
  {
    devices, issues := 0, 0;
    for i := 0 to |detail.children|
      invariant devices == Sum(Flatten(detail.children[..i]), DevicesOf)
      invariant issues == Sum(Flatten(detail.children[..i]), IssuesOf)
    {
      devices, issues := Walk(detail.children[i], devices, issues);
      FlattenSnoc(detail.children, i, DevicesOf);
      FlattenSnoc(detail.children, i, IssuesOf);
    }
    assert detail.children[..|detail.children|] == detail.children;
  }

  function CountedNodes(labels: seq<Label>): nat {
    Sum(labels, l => if Counted(l) then 1 else 0)
  }

  /** No issue exactly when every counted device is clean, and never more than two per counted device. */
  lemma {:induction false} IssuesMeaning(labels: seq<Label>)
    ensures Sum(labels, IssuesOf) == 0 <==> forall l | l in labels :: !Suspect(l)
    ensures Sum(labels, IssuesOf) <= 2 * CountedNodes(labels)
  {
    if labels != [] {
      IssuesMeaning(labels[1..]);
      assert IssuesOf(labels[0]) == 0 <==> !Suspect(labels[0]);
      assert labels == [labels[0]] + labels[1..];
      assert forall l :: l in labels <==> l == labels[0] || l in labels[1..];
      if Sum(labels, IssuesOf) == 0 {
        assert forall l | l in labels :: !Suspect(l);
      } else if Suspect(labels[0]) {
        assert exists l | l in labels :: Suspect(l);
      } else {
        assert exists l | l in labels[1..] :: Suspect(l);
      }
    }
  }

  /** Two forests that differ only in the order of children, at every depth. */
  ghost predicate SameUpToOrder(a: seq<Vdev>, b: seq<Vdev>)
  {
    if a == [] then b == []
    else exists before, v, after ::
      && b == before + [v] + after
      && a[0].info == v.info
      && SameUpToOrder(a[0].children, v.children)
      && SameUpToOrder(a[1..], before + after)
  }

  lemma {:induction false} FlattenConcat(a: seq<Vdev>, b: seq<Vdev>)
    ensures Flatten(a + b) == Flatten(a) + Flatten(b)
  {
    if a == [] {
      assert a + b == b;
    } else {
      assert (a + b)[0] == a[0] && (a + b)[1..] == a[1..] + b;
      FlattenConcat(a[1..], b);
      var head := [Label(a[0].info, a[0].children != [])] + Flatten(a[0].children);
      assert head + (Flatten(a[1..]) + Flatten(b)) == head + Flatten(a[1..]) + Flatten(b);
    }
  }

  function LabelOf(v: Vdev): Label {
    Label(v.info, v.children != [])
  }

  lemma FlattenOne(v: Vdev)
    ensures Flatten([v]) == [LabelOf(v)] + Flatten(v.children)
  {
  }

  /** The devices of a forest, split at one of its trees. */
  lemma FlattenAt(forest: seq<Vdev>, a: seq<Vdev>, v: Vdev, b: seq<Vdev>, rest: seq<Vdev>)
    requires forest == a + [v] + b && rest == a + b
    ensures multiset(Flatten(forest))
         == multiset{LabelOf(v)} + multiset(Flatten(v.children)) + multiset(Flatten(rest))
  {
    FlattenConcat(a + [v], b);
    FlattenConcat(a, [v]);
    FlattenConcat(a, b);
    FlattenOne(v);
  }

  lemma {:induction false} FlattenUpToOrder(a: seq<Vdev>, b: seq<Vdev>)
    requires SameUpToOrder(a, b)
    ensures multiset(Flatten(a)) == multiset(Flatten(b))
  {
    if a != [] {
      var before, v, after :| b == before + [v] + after && a[0].info == v.info
        && SameUpToOrder(a[0].children, v.children) && SameUpToOrder(a[1..], before + after);
      FlattenUpToOrder(a[0].children, v.children);
      FlattenUpToOrder(a[1..], before + after);
      FlattenAt(b, before, v, after, before + after);
      assert Flatten(a) == [LabelOf(a[0])] + Flatten(a[0].children) + Flatten(a[1..]);
    }
  }

  /** The counts do not depend on the order of children at any depth. */
  lemma CountsIgnoreOrder(a: seq<Vdev>, b: seq<Vdev>)
    requires SameUpToOrder(a, b)
    ensures Sum(Flatten(a), DevicesOf) == Sum(Flatten(b), DevicesOf)
    ensures Sum(Flatten(a), IssuesOf) == Sum(Flatten(b), IssuesOf)
  {
    FlattenUpToOrder(a, b);
    SumPermuted(Flatten(a), Flatten(b), DevicesOf);
    SumPermuted(Flatten(a), Flatten(b), IssuesOf);
  }

  datatype Pool = Pool(name: string, state: string, status: string, devices: nat, issues: nat, health: Health)

  /** The pool as listed, before its detail is read. */
  function PoolOf(name: string, health: string, status: string): Pool {
    Pool(name, health, status, 0, 0, HealthFromText(FirstNonEmpty(health, status)))
  }

  /** The pool once its detail has been applied. */
  function Detailed(pool: Pool, detail: Vdev): (p: Pool) {
    var state := FirstNonEmpty(detail.info.state, pool.state);
    var issues := Sum(Flatten(detail.children), IssuesOf);
    var health := if issues > 0 then MaxHealth(pool.health, Warning) else pool.health;
    Pool(pool.name, state, FirstNonEmpty(detail.info.status, pool.status),
         Sum(Flatten(detail.children), DevicesOf), issues,
         if state != "" then MaxHealth(health, HealthFromText(state)) else health)
  }

  method ApplyDetail(pool: Pool, detail: Vdev) returns (p: Pool)
    ensures p == Detailed(pool, detail)
  {
    p := pool.(state := FirstNonEmpty(detail.info.state, pool.state),
               status := FirstNonEmpty(detail.info.status, pool.status));
    var devices, issues := DeviceCounts(detail);
    p := p.(devices := devices, issues := issues);
    if issues > 0 {
      p := p.(health := MaxHealth(p.health, Warning));
    }
    if p.state != "" {
      p := p.(health := MaxHealth(p.health, HealthFromText(p.state)));
    }
  }

  /** A device with a name, and not an inner node that is not marked as a leaf. */
  function NamedDevice(l: Label): nat {
    if (l.info.leaf != 0 || !l.inner) && l.info.name != "" then 1 else 0
  }

  /** A pool's detail counts the named devices below the pool. It shows no issue exactly when every one of
      its devices is clean, inner nodes that are not marked as leaves apart; and a bad state and errors on
      one device are two issues. */
  lemma PoolIssues(pool: Pool, detail: Vdev)
    ensures Detailed(pool, detail).devices == Sum(Flatten(detail.children), NamedDevice)
    ensures Detailed(pool, detail).issues == 0 <==>
              forall l | l in Flatten(detail.children) :: (l.info.leaf == 0 && l.inner) || Clean(l.info)
    ensures forall l: Label | IssuesOf(l) == 2 ::
              (l.info.read > 0 || l.info.write > 0 || l.info.checksum > 0)
              && ToUpper(TrimSpace(l.info.state)) !in {"", "ONLINE", "AVAIL"}
  {
    SumSame(Flatten(detail.children), DevicesOf, NamedDevice);
    IssuesMeaning(Flatten(detail.children));
  }

  /** The device reports no errors, and no state or a good one. */
  predicate Clean(i: Info) {
    i.read <= 0 && i.write <= 0 && i.checksum <= 0 && ToUpper(TrimSpace(i.state)) in {"", "ONLINE", "AVAIL"}
  }

  /** A suspect device at any depth makes its pool at least a warning, whatever the pool itself reports. */
  lemma SuspectRaisesPool(pool: Pool, detail: Vdev, l: Label)
    requires l in Flatten(detail.children) && Suspect(l)
    ensures Detailed(pool, detail).health in {Warning, Critical}
  {
    IssuesMeaning(Flatten(detail.children));
  }
}
