/**
 * The HTB+SFQ plan the QoS controller installs on one interface: an HTB root
 * whose default class is 1:30, a parent class 1:1 at 95% of the link, three
 * child classes (1:10 for uRLLC, 1:20 for eMBB, 1:30 for the rest), one SFQ
 * under each child, and four filters that send ICMP, ARP and the two iperf
 * ports to their classes.
 */
module RuleCompiler {
  import opened Wrappers
  import opened TrafficControl

  /** The uRLLC and eMBB iperf ports. */
  const UrllcPort: nat := 5202
  const EmbbPort: nat := 5201

  /** Link bandwidth, in Mbit/s, assumed when the link has no `bw` parameter. */
  const DefaultBw: nat := 100

  /** IP protocol number of ICMP. */
  const Icmp: nat := 1

  /** The `perturb` interval of every SFQ, in seconds. */
  const SfqPerturb: nat := 10

  const RootQdisc: ClassId := ClassId(1, 0)     // `1:` (and `1:0` in the filters)
  const ParentClass: ClassId := ClassId(1, 1)
  const Critical: ClassId := ClassId(1, 10)     // uRLLC, ICMP, ARP
  const Bulk: ClassId := ClassId(1, 20)         // eMBB
  const Background: ClassId := ClassId(1, 30)   // everything else, via the HTB default

  /** The link bandwidth: the `bw` parameter, or `DefaultBw` when it is missing or `None`. */
  function LinkBw(param: Option<nat>): nat {
    param.GetOr(DefaultBw)
  }

  /** The rate of the parent class: 95% of the link, rounded down. */
  function ParentRate(bw: nat): (rate: nat)
    ensures 100 * rate <= 95 * bw < 100 * (rate + 1)
  {
    bw * 95 / 100
  }

  lemma LinkRates()
    ensures ParentRate(LinkBw(Some(50))) == 47
    ensures ParentRate(LinkBw(Some(100))) == 95
    ensures ParentRate(LinkBw(Some(200))) == 190
    ensures ParentRate(LinkBw(None)) == 95
  {
  }

  /** The three child classes of 1:1; they do not depend on the link. */
  const ChildClasses: seq<TcOp> := [
    AddHtbClass(ParentClass, Critical, 5, Some(20), Some(1)),
    AddHtbClass(ParentClass, Bulk, 10, Some(15), Some(2)),
    AddHtbClass(ParentClass, Background, 1, Some(5), Some(3))
  ]

  /** The four filters, matching ports on `field`. */
  function Filters(field: PortField): seq<TcOp> {
    [ AddFilter(Ip, RootQdisc, 1, IpProtoIs(Icmp, 0xff), Critical),
      AddFilter(Arp, RootQdisc, 1, AnyPacket, Critical),
      AddFilter(Ip, RootQdisc, 1, PortIs(field, UrllcPort, 0xffff), Critical),
      AddFilter(Ip, RootQdisc, 2, PortIs(field, EmbbPort, 0xffff), Bulk) ]
  }

  /** One SFQ under each child class. */
  const LeafQdiscs: seq<TcOp> := [
    AddSfq(Critical, Critical.minor, SfqPerturb),
    AddSfq(Bulk, Bulk.minor, SfqPerturb),
    AddSfq(Background, Background.minor, SfqPerturb)
  ]

  /** The root clear, the HTB root with its default class and the parent class. */
  function Setup(bwParam: Option<nat>): seq<TcOp> {
    [ DeleteRoot,
      AddHtbRoot(RootQdisc.major, Background.minor),
      AddHtbClass(RootQdisc, ParentClass, ParentRate(LinkBw(bwParam)), None, None) ]
  }

  /** The plan for one interface, as the list of `tc` operations in the order they run. */
  function Plan(bwParam: Option<nat>, field: PortField): seq<TcOp> {
    Setup(bwParam) + ChildClasses + LeafQdiscs + Filters(field)
  }

  /** The plan's commands for device `dev`: every one names `dev`, in the order of `Plan`. */
  function Compile(dev: string, bwParam: Option<nat>, field: PortField): (cmds: seq<Command>)
    ensures |cmds| == |Plan(bwParam, field)| == 13
    ensures forall i :: 0 <= i < |cmds| ==> cmds[i].dev == dev && cmds[i].op == Plan(bwParam, field)[i]
  {
    var ops := Plan(bwParam, field);
    seq(|ops|, i requires 0 <= i < |ops| => Command(dev, ops[i]))
  }

  /** What the plan leaves installed on the interface. */
  function Installed(bwParam: Option<nat>, field: PortField): IfaceState {
    Plan(bwParam, field)[1..]
  }

  /**
   * The plan's shape: it clears the root first, installs the HTB root with
   * default class 30 second, and neither clears nor installs a root again;
   * after that come one parent class, three child classes, three SFQs and
   * four filters.
   */
  lemma PlanShape(bwParam: Option<nat>, field: PortField)
    ensures var p := Plan(bwParam, field);
      && |p| == 13
      && p[0] == DeleteRoot && p[1] == AddHtbRoot(1, 30)
      && (forall i :: 1 <= i < |p| ==> !p[i].DeleteRoot?)
      && (forall i :: 2 <= i < |p| ==> !p[i].AddHtbRoot?)
      && (forall i :: 2 <= i < |p| ==> (p[i].AddHtbClass? <==> i < 6))
      && (forall i :: 2 <= i < |p| ==> (p[i].AddSfq? <==> 6 <= i < 9))
      && (forall i :: 2 <= i < |p| ==> (p[i].AddFilter? <==> 9 <= i))
  {
  }

  /** Whatever the interface had before, running the plan leaves exactly `Installed`. */
  lemma PlanInstallsFromAnyState(st: IfaceState, bwParam: Option<nat>, field: PortField)
    ensures ExecuteAll(st, Plan(bwParam, field)) == Installed(bwParam, field)
  {
    PlanShape(bwParam, field);
    FreshInstall(st, Plan(bwParam, field));
  }

  /** Running the plan twice gives the same configuration as running it once. */
  lemma PlanIdempotent(st: IfaceState, bwParam: Option<nat>, field: PortField)
    ensures var once := ExecuteAll(st, Plan(bwParam, field));
      ExecuteAll(once, Plan(bwParam, field)) == once
  {
    var once := ExecuteAll(st, Plan(bwParam, field));
    PlanInstallsFromAnyState(st, bwParam, field);
    PlanInstallsFromAnyState(once, bwParam, field);
  }

  /** The classes attached directly beneath `parent`, in order. */
  function ChildrenOf(ops: seq<TcOp>, parent: ClassId): seq<TcOp>
    decreases |ops|
  {
    if ops == [] then []
    else
      (if ops[0].AddHtbClass? && ops[0].parent == parent then [ops[0]] else []) + ChildrenOf(ops[1..], parent)
  }

  lemma {:induction false} ChildrenOfAppend(a: seq<TcOp>, b: seq<TcOp>, parent: ClassId)
    ensures ChildrenOf(a + b, parent) == ChildrenOf(a, parent) + ChildrenOf(b, parent)
    decreases |a|
  {
    if a == [] {
      assert a + b == b;
    } else {
      assert (a + b)[1..] == a[1..] + b;
      ChildrenOfAppend(a[1..], b, parent);
    }
  }

  /** The sum of the guaranteed rates of `classes`. */
  function Guaranteed(classes: seq<TcOp>): nat
    decreases |classes|
  {
    if classes == [] then 0
    else (if classes[0].AddHtbClass? then classes[0].rate else 0) + Guaranteed(classes[1..])
  }

  /** A list without classes has no children. */
  lemma {:induction false} NoChildren(ops: seq<TcOp>, parent: ClassId)
    requires forall i :: 0 <= i < |ops| ==> !ops[i].AddHtbClass?
    ensures ChildrenOf(ops, parent) == []
    decreases |ops|
  {
    if ops != [] {
      NoChildren(ops[1..], parent);
    }
  }

  /** The children of 1:1 are the same three classes whatever the link and the port field. */
  lemma PlanChildren(bwParam: Option<nat>, field: PortField)
    ensures ChildrenOf(Plan(bwParam, field), ParentClass) == ChildClasses
  {
    var head := Setup(bwParam);
    var tail := LeafQdiscs + Filters(field);
    assert Plan(bwParam, field) == head + (ChildClasses + tail);
    ChildrenOfAppend(head, ChildClasses + tail, ParentClass);
    ChildrenOfAppend(ChildClasses, tail, ParentClass);
    assert head[1..][1..] == head[2..];
    assert ChildrenOf(head[2..], ParentClass) == [];
    assert ChildrenOf(head[1..], ParentClass) == [];
    assert ChildrenOf(head, ParentClass) == [];
    NoChildren(tail, ParentClass);
    var cs := ChildClasses;
    assert cs[1..][1..] == cs[2..] && cs[2..][1..] == [];
    assert ChildrenOf(cs[2..], ParentClass) == cs[2..];
    assert ChildrenOf(cs[1..], ParentClass) == cs[1..];
  }

  lemma ChildClassesGuarantee()
    ensures Guaranteed(ChildClasses) == 16
  {
    var cs := ChildClasses;
    assert cs[1..][1..] == cs[2..] && cs[2..][1..] == [];
    assert Guaranteed(cs[2..]) == 1;
    assert Guaranteed(cs[1..]) == 11;
  }

  /**
   * The child classes: each guarantees no more than its ceiling; 1:10 has the
   * highest priority and the largest ceiling, 1:30 the lowest priority and the
   * smallest ceiling; together they guarantee 16, which fits under 1:1 exactly
   * when the link has at least 17.
   */
  lemma ChildGuarantees(bwParam: Option<nat>, field: PortField)
    ensures var cs := ChildrenOf(Plan(bwParam, field), ParentClass);
      && |cs| == 3
      && (forall c :: c in cs ==> c.AddHtbClass? && c.ceil.Some? && c.priority.Some? && c.rate <= c.ceil.value)
      && cs[0].id == Critical && cs[1].id == Bulk && cs[2].id == Background
      && cs[0].priority.value < cs[1].priority.value < cs[2].priority.value
      && cs[0].ceil.value > cs[1].ceil.value > cs[2].ceil.value
      && Guaranteed(cs) == 16
      && (Guaranteed(cs) <= ParentRate(LinkBw(bwParam)) <==> LinkBw(bwParam) >= 17)
  {
    PlanChildren(bwParam, field);
    ChildClassesGuarantee();
  }

  /** Every child class gets exactly one SFQ, whose handle is the class's minor number. */
  lemma OneSfqPerChild(bwParam: Option<nat>, field: PortField)
    ensures var p := Plan(bwParam, field);
      && (forall c :: c in ChildClasses ==> exists i :: 0 <= i < |p| && p[i] == AddSfq(c.id, c.id.minor, SfqPerturb))
      && (forall i, j :: 0 <= i < j < |p| && p[i].AddSfq? && p[j].AddSfq? ==> p[i].parent != p[j].parent)
      && (forall i :: 0 <= i < |p| && p[i].AddSfq? ==> p[i].handle == p[i].parent.minor && p[i].parent in {Critical, Bulk, Background})
  {
    var p := Plan(bwParam, field);
    assert p[6] == AddSfq(Critical, 10, SfqPerturb);
    assert p[7] == AddSfq(Bulk, 20, SfqPerturb);
    assert p[8] == AddSfq(Background, 30, SfqPerturb);
  }

  /**
   * The hierarchy is well formed: every class hangs from a root qdisc `1:` or from
   * a class created before it, every SFQ and every filter target is a class created
   * before it, and every filter is attached to a root qdisc `1:` created before it.
   */
  ghost predicate WellFormed(p: seq<TcOp>) {
    forall i :: 0 <= i < |p| ==>
      match p[i]
      case AddHtbClass(parent, _, _, _, _) =>
        (parent == RootQdisc && RootBefore(p, i)) || exists j :: 0 <= j < i && p[j].AddHtbClass? && p[j].id == parent
      case AddSfq(parent, _, _) => exists j :: 0 <= j < i && p[j].AddHtbClass? && p[j].id == parent
      case AddFilter(_, parent, _, _, flow) =>
        parent == RootQdisc && RootBefore(p, i) && exists j :: 0 <= j < i && p[j].AddHtbClass? && p[j].id == flow
      case _ => true
  }

  /** A root qdisc with the handle of `RootQdisc` is added before position `i`. */
  ghost predicate RootBefore(p: seq<TcOp>, i: int) {
    exists j :: 0 <= j < i && j < |p| && p[j].AddHtbRoot? && p[j].handle == RootQdisc.major
  }

  lemma PlanWellFormed(bwParam: Option<nat>, field: PortField)
    ensures WellFormed(Plan(bwParam, field))
  {
    var p := Plan(bwParam, field);
    assert p[1] == AddHtbRoot(1, 30);
    assert p[2].id == ParentClass && p[3].id == Critical && p[4].id == Bulk && p[5].id == Background;
  }

  /** A class hung from `1:` with no root qdisc before it is not well formed. */
  lemma ClassNeedsRoot()
    ensures !WellFormed([AddHtbClass(RootQdisc, ParentClass, 1, None, None)])
  {
    var p := [AddHtbClass(RootQdisc, ParentClass, 1, None, None)];
    assert !RootBefore(p, 0);
  }

  /**
   * The class the plan's filters and HTB default are meant to send a packet to
   * (controlador_qos.py:65-75), on an interface that matches ports on `field`.
   */
  function IntendedClass(field: PortField, p: Packet): ClassId {
    if p.ArpFrame? || p.protocol == Icmp then Critical
    else if PortOf(p, field) == UrllcPort then Critical
    else if PortOf(p, field) == EmbbPort then Bulk
    else Background
  }

  /** Operations that are not filters do not take part in choosing a filter. */
  lemma {:induction false} BestFilterSkips(a: seq<TcOp>, b: seq<TcOp>, p: Packet)
    requires forall i :: 0 <= i < |a| ==> !a[i].AddFilter?
    ensures BestFilter(a + b, p) == BestFilter(b, p)
    decreases |a|
  {
    if a == [] {
      assert a + b == b;
    } else {
      assert (a + b)[1..] == a[1..] + b;
      BestFilterSkips(a[1..], b, p);
    }
  }

  /** The four filters alone: a match leads to the intended class, and none matches exactly the packets meant for 1:30. */
  lemma FiltersRoute(field: PortField, p: Packet)
    ensures BestFilter(Filters(field), p).Some? ==> BestFilter(Filters(field), p).value.flow == IntendedClass(field, p)
    ensures BestFilter(Filters(field), p).None? <==> IntendedClass(field, p) == Background
  {
    var fs := Filters(field);
    assert fs[3..][1..] == [];
    assert fs[2..][1..] == fs[3..];
    assert fs[1..][1..] == fs[2..];
    var r3 := BestFilter(fs[3..], p);
    var r2 := BestFilter(fs[2..], p);
    var r1 := BestFilter(fs[1..], p);
  }

  /** No filter of the plan sends traffic to 1:30. */
  lemma NoFilterToBackground(bwParam: Option<nat>, field: PortField)
    ensures forall op :: op in Plan(bwParam, field) && op.AddFilter? ==> op.flow != Background
  {
    var p := Plan(bwParam, field);
    PlanShape(bwParam, field);
    assert forall op :: op in p ==> exists i :: 0 <= i < |p| && p[i] == op;
  }

  /**
   * Filter routing: ICMP and ARP go to 1:10, the uRLLC port on the interface's
   * field to 1:10, the eMBB port on that field to 1:20, and every other packet
   * to 1:30, which no filter names: it is reached only through the HTB default.
   */
  lemma PlanRoutesAsIntended(bwParam: Option<nat>, field: PortField, p: Packet)
    ensures ClassOf(Installed(bwParam, field), p) == Some(IntendedClass(field, p))
    ensures ClassOf(Installed(bwParam, field), p) == Some(Background) <==> BestFilter(Installed(bwParam, field), p).None?
  {
    var st := Installed(bwParam, field);
    var front := Setup(bwParam)[1..] + ChildClasses + LeafQdiscs;
    assert st == front + Filters(field);
    BestFilterSkips(front, Filters(field), p);
    FiltersRoute(field, p);
    assert st[0] == AddHtbRoot(1, 30);
  }
}
