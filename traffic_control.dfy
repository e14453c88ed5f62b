/**
 * An abstract view of Linux traffic control (`tc`) on one network interface:
 * the commands the controller issues, what they leave installed on the
 * interface, and how the installed configuration sorts packets into classes.
 */
module TrafficControl {
  import opened Wrappers

  /** The packet field a port filter looks at: `dport` or `sport`. */
  datatype PortField = DstPort | SrcPort

  /** A `tc` handle `major:minor`; the root qdisc `1:` is `ClassId(1, 0)`. */
  datatype ClassId = ClassId(major: nat, minor: nat)

  /** The `protocol` of a filter: `ip` or `arp`. */
  datatype Protocol = Ip | Arp

  /** What a filter matches within its protocol. */
  datatype Selector =
    | AnyPacket                                            // no u32 match
    | IpProtoIs(number: nat, mask: nat)                    // u32 match ip protocol N MASK
    | PortIs(field: PortField, port: nat, mask: nat)       // u32 match ip dport|sport N MASK

  /** One `tc` operation on an interface. */
  datatype TcOp =
    | DeleteRoot                                           // tc qdisc del dev D root
    | AddHtbRoot(handle: nat, defaultMinor: nat)           // tc qdisc add dev D root handle H: htb default M
    | AddHtbClass(parent: ClassId, id: ClassId, rate: nat, ceil: Option<nat>, priority: Option<nat>)
    | AddSfq(parent: ClassId, handle: nat, perturb: nat)   // tc qdisc add dev D parent P handle H: sfq perturb S
    | AddFilter(proto: Protocol, parent: ClassId, prio: nat, sel: Selector, flow: ClassId)

  /** A `tc` command line: the operation and the device (`dev D`) it names. */
  datatype Command = Command(dev: string, op: TcOp)

  /**
   * The traffic-control configuration of an interface: the operations installed
   * since the root was last cleared. The empty configuration is the kernel's
   * default, best-effort behaviour.
   */
  type IfaceState = seq<TcOp>

  const Default: IfaceState := []

  /** The effect of one operation: clearing the root drops everything, other operations add to it. */
  function Execute(st: IfaceState, op: TcOp): (r: IfaceState)
    ensures op.DeleteRoot? ==> r == Default
    ensures !op.DeleteRoot? ==> |r| == |st| + 1 && r[..|st|] == st && r[|st|] == op
  {
    if op.DeleteRoot? then Default else st + [op]
  }

  /** The effect of a list of operations, in order. */
  function ExecuteAll(st: IfaceState, ops: seq<TcOp>): IfaceState
    decreases |ops|
  {
    if ops == [] then st else Execute(ExecuteAll(st, ops[..|ops| - 1]), ops[|ops| - 1])
  }

  lemma {:induction false} ExecuteAllAppend(st: IfaceState, a: seq<TcOp>, b: seq<TcOp>)
    ensures ExecuteAll(st, a + b) == ExecuteAll(ExecuteAll(st, a), b)
    decreases |b|
  {
    if b == [] {
      assert a + b == a;
    } else {
      assert (a + b)[..|a + b| - 1] == a + b[..|b| - 1];
      ExecuteAllAppend(st, a, b[..|b| - 1]);
    }
  }

  /** Operations that add to the configuration never remove what is there. */
  lemma {:induction false} ExecuteAllAdds(st: IfaceState, ops: seq<TcOp>)
    requires forall i :: 0 <= i < |ops| ==> !ops[i].DeleteRoot?
    ensures ExecuteAll(st, ops) == st + ops
    decreases |ops|
  {
    if ops != [] {
      var n := |ops| - 1;
      ExecuteAllAdds(st, ops[..n]);
      assert st + ops[..n] + [ops[n]] == st + ops;
    }
  }

  /** A list that starts by clearing the root gives the same result from every state. */
  lemma {:induction false} ClearedFirst(st: IfaceState, st': IfaceState, ops: seq<TcOp>)
    requires ops != [] && ops[0].DeleteRoot?
    ensures ExecuteAll(st, ops) == ExecuteAll(st', ops)
    decreases |ops|
  {
    if |ops| > 1 {
      ClearedFirst(st, st', ops[..|ops| - 1]);
    }
  }

  /** A list that clears the root first and never again leaves installed exactly the operations after that clear. */
  lemma FreshInstall(st: IfaceState, ops: seq<TcOp>)
    requires ops != [] && ops[0].DeleteRoot?
    requires forall i :: 1 <= i < |ops| ==> !ops[i].DeleteRoot?
    ensures ExecuteAll(st, ops) == ops[1..]
  {
    assert ops == [ops[0]] + ops[1..];
    ExecuteAllAppend(st, [ops[0]], ops[1..]);
    assert ExecuteAll(st, [ops[0]]) == Default by {
      assert [ops[0]][..0] == [];
    }
    ExecuteAllAdds(Default, ops[1..]);
  }

  /** A packet as far as the installed filters can tell. */
  datatype Packet =
    | ArpFrame
    | IpPacket(protocol: nat, sport: nat, dport: nat)

  function PortOf(p: Packet, field: PortField): nat
    requires p.IpPacket?
  {
    if field == DstPort then p.dport else p.sport
  }

  /** Whether filter `f` accepts packet `p`; a mask is taken to cover the whole field. */
  predicate Matches(f: TcOp, p: Packet)
    requires f.AddFilter?
  {
    match f.proto
    case Arp => p.ArpFrame? && f.sel.AnyPacket?
    case Ip =>
      p.IpPacket? &&
      match f.sel
      case AnyPacket => true
      case IpProtoIs(n, _) => p.protocol == n
      case PortIs(field, port, _) => PortOf(p, field) == port
  }

  /** A matching filter of `st` with the lowest priority number; among equals, the first installed. */
  function BestFilter(st: IfaceState, p: Packet): (r: Option<TcOp>)
    ensures r.Some? ==> r.value in st && r.value.AddFilter? && Matches(r.value, p)
    ensures r.Some? ==> forall g :: g in st && g.AddFilter? && Matches(g, p) ==> r.value.prio <= g.prio
    ensures r.None? ==> forall g :: g in st && g.AddFilter? ==> !Matches(g, p)
    decreases |st|
  {
    if st == [] then None
    else
      var rest := BestFilter(st[1..], p);
      assert forall g :: g in st ==> g == st[0] || g in st[1..];
      if st[0].AddFilter? && Matches(st[0], p) && (rest.None? || st[0].prio <= rest.value.prio) then Some(st[0])
      else rest
  }

  /** The default class of the first HTB root installed, if any. */
  function DefaultClass(st: IfaceState): (r: Option<ClassId>)
    ensures r.Some? <==> exists op :: op in st && op.AddHtbRoot?
    decreases |st|
  {
    if st == [] then None
    else if st[0].AddHtbRoot? then Some(ClassId(st[0].handle, st[0].defaultMinor))
    else
      assert forall op :: op in st ==> op == st[0] || op in st[1..];
      DefaultClass(st[1..])
  }

  /**
   * The class that interface configuration `st` sends packet `p` to: the target
   * of the best matching filter, otherwise the HTB default class; `None` when
   * the interface has no classful root (best effort).
   */
  function ClassOf(st: IfaceState, p: Packet): Option<ClassId> {
    match BestFilter(st, p)
    case Some(f) => Some(f.flow)
    case None => DefaultClass(st)
  }

  lemma DefaultIsUnclassified(p: Packet)
    ensures ClassOf(Default, p) == None
  {
  }
}
